/** Messages as the chat store sees them, and the delete-by-id filter that
    both the delete action and the `messageDeleted` handler apply. */
module Messages {
  type UserId = string
  type MessageId = string

  /** A message record. Only `_id` and `senderId` influence the store; the
      text, image and timestamps are opaque payload and are not modelled. */
  datatype Message = Message(id: MessageId, senderId: UserId)

  /** Some entry of `s` carries the id `x`. */
  predicate HasId(s: seq<Message>, x: MessageId) {
    exists i :: 0 <= i < |s| && s[i].id == x
  }

  /** Number of entries of `s` whose id is `x`. */
  function CountId(s: seq<Message>, x: MessageId): nat {
    if s == [] then 0 else (if s[0].id == x then 1 else 0) + CountId(s[1..], x)
  }

  /** The list without the entries whose `_id` is `x` (the `filter` with
      `message._id !== messageId`): exactly those entries go, all others stay. */
  function RemoveById(s: seq<Message>, x: MessageId): (r: seq<Message>)
    ensures forall m :: m in r <==> m in s && m.id != x
    ensures |r| == |s| - CountId(s, x)
  {
    if s == [] then []
    else if s[0].id == x then RemoveById(s[1..], x)
    else [s[0]] + RemoveById(s[1..], x)
  }

  /** The filter on a list with a given first entry. */
  lemma RemoveByIdCons(h: Message, t: seq<Message>, x: MessageId)
    ensures RemoveById([h] + t, x) == (if h.id == x then [] else [h]) + RemoveById(t, x)
  {
    assert ([h] + t)[0] == h;
    assert ([h] + t)[1..] == t;
  }

  /** The filter distributes over concatenation, so the entries that stay
      keep their relative order. Together with the one-element case (an entry
      stays iff its id differs) this determines the filter completely. */
  lemma {:induction false} RemoveByIdConcat(a: seq<Message>, b: seq<Message>, x: MessageId)
    ensures RemoveById(a + b, x) == RemoveById(a, x) + RemoveById(b, x)
  {
    if a == [] {
      assert a + b == b;
    } else {
      var h, t := a[0], a[1..];
      var head := if h.id == x then [] else [h];
      assert RemoveById(a + b, x) == head + RemoveById(t + b, x) by {
        assert a + b == [h] + (t + b);
        RemoveByIdCons(h, t + b, x);
      }
      assert RemoveById(a, x) == head + RemoveById(t, x) by {
        assert a == [h] + t;
        RemoveByIdCons(h, t, x);
      }
      RemoveByIdConcat(t, b, x);
      AppendAssociative(head, RemoveById(t, x), RemoveById(b, x));
    }
  }

  lemma AppendAssociative<T>(p: seq<T>, q: seq<T>, r: seq<T>)
    ensures p + (q + r) == (p + q) + r
  {
  }

  /** Deleting an id leaves the list as it was exactly when no entry has it. */
  lemma {:induction false} RemoveByIdAbsent(s: seq<Message>, x: MessageId)
    ensures RemoveById(s, x) == s <==> !HasId(s, x)
  {
    if s == [] {
    } else {
      RemoveByIdAbsent(s[1..], x);
      if RemoveById(s, x) == s {
        forall i | 0 <= i < |s| ensures s[i].id != x {
          assert s[i] in RemoveById(s, x);
        }
      }
      if !HasId(s, x) {
        assert s[0].id != x;
        assert !HasId(s[1..], x) by {
          forall i | 0 <= i < |s[1..]| ensures s[1..][i].id != x {
            assert s[1..][i] == s[i + 1];
          }
        }
        assert [s[0]] + s[1..] == s;
      }
    }
  }

  /** A second deletion of the same id changes nothing. */
  lemma {:induction false} RemoveByIdIdempotent(s: seq<Message>, x: MessageId)
    ensures RemoveById(RemoveById(s, x), x) == RemoveById(s, x)
  {
    var r := RemoveById(s, x);
    assert !HasId(r, x) by {
      forall i | 0 <= i < |r| ensures r[i].id != x {
        assert r[i] in r;
      }
    }
    RemoveByIdAbsent(r, x);
  }

  /** Two deletions (say the store's own and a pushed one) commute. */
  lemma {:induction false} RemoveByIdCommutes(s: seq<Message>, x: MessageId, y: MessageId)
    ensures RemoveById(RemoveById(s, x), y) == RemoveById(RemoveById(s, y), x)
  {
    if s != [] {
      RemoveByIdCommutes(s[1..], x, y);
      if s[0].id != x && s[0].id != y {
        assert RemoveById(s, x) == [s[0]] + RemoveById(s[1..], x);
        assert RemoveById(s, y) == [s[0]] + RemoveById(s[1..], y);
        assert ([s[0]] + RemoveById(s[1..], x))[1..] == RemoveById(s[1..], x);
        assert ([s[0]] + RemoveById(s[1..], y))[1..] == RemoveById(s[1..], y);
      } else if s[0].id != x {
        assert RemoveById(s, x) == [s[0]] + RemoveById(s[1..], x);
        assert ([s[0]] + RemoveById(s[1..], x))[1..] == RemoveById(s[1..], x);
      } else if s[0].id != y {
        assert RemoveById(s, y) == [s[0]] + RemoveById(s[1..], y);
        assert ([s[0]] + RemoveById(s[1..], y))[1..] == RemoveById(s[1..], y);
      }
    }
  }
}
