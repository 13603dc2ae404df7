/** The per-peer unread counters (`unreadCounts`) and the two single-key
    updates the store makes to them. */
module UnreadCounts {
  import opened Messages

  type Counts = map<UserId, int>

  /** `unreadCounts[u] || 0`: a peer without an entry reads as 0. */
  function CountOf(c: Counts, u: UserId): int {
    if u in c then c[u] else 0
  }

  /** No counter is below zero. */
  predicate NonNegative(c: Counts) {
    forall u :: u in c ==> c[u] >= 0
  }

  /** The counter of `u` goes up by one from its previous value (0 when
      absent); every other peer's counter, present or absent, is untouched. */
  function Increment(c: Counts, u: UserId): (r: Counts)
    ensures CountOf(r, u) == CountOf(c, u) + 1
    ensures forall k :: k != u ==> CountOf(r, k) == CountOf(c, k)
    ensures r.Keys == c.Keys + {u}
    ensures NonNegative(c) ==> NonNegative(r)
  {
    c[u := CountOf(c, u) + 1]
  }

  /** The counter of `u` reads 0 afterwards; every other peer's counter is
      untouched. */
  function Zeroed(c: Counts, u: UserId): (r: Counts)
    ensures CountOf(r, u) == 0
    ensures forall k :: k != u ==> CountOf(r, k) == CountOf(c, k)
    ensures r.Keys == c.Keys + {u}
    ensures NonNegative(c) ==> NonNegative(r)
  {
    c[u := 0]
  }

  /** Pushes from two senders may be applied in either order. */
  lemma IncrementsCommute(c: Counts, u: UserId, v: UserId)
    ensures Increment(Increment(c, u), v) == Increment(Increment(c, v), u)
  {
  }

  /** A read acknowledgement that completes after a push from the same peer
      wipes out that push's increment. */
  lemma ZeroedAbsorbsIncrement(c: Counts, u: UserId)
    ensures Zeroed(Increment(c, u), u) == Zeroed(c, u)
  {
  }
}
