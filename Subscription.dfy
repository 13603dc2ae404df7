/** The push-event handlers bound by `subscribeToMessages`. Each subscription
    binds one `newMessage` and one `messageDeleted` handler, both closing over
    the `selectedUser` read at subscribe time; the bound handlers are kept as
    the list of those captured selections, in registration order, and the
    socket runs every bound handler of an event in that order. */
module Subscription {
  import opened Wrappers
  import opened Messages
  import opened UnreadCounts
  import opened Requests

  /** The selection a handler pair captured (`None` for a null selection). */
  type Binding = Option<UserId>

  /** What the `newMessage` handlers change: the message list, the counters,
      and the read requests they issue. */
  datatype Effect = Effect(messages: seq<Message>, counts: Counts, issued: seq<Request>)

  /** One `newMessage` handler. A message whose sender is the captured peer
      is appended and a read request for that sender is issued; any other
      message bumps its sender's counter. */
  function OnNewMessage(bound: Binding, e: Effect, m: Message): (r: Effect)
    ensures bound == Some(m.senderId) ==>
      && r.messages == e.messages + [m]
      && r.counts == e.counts
      && r.issued == e.issued + [MarkRead(m.senderId)]
    ensures bound != Some(m.senderId) ==>
      && r.messages == e.messages
      && r.issued == e.issued
      && CountOf(r.counts, m.senderId) == CountOf(e.counts, m.senderId) + 1
      && (forall u :: u != m.senderId ==> CountOf(r.counts, u) == CountOf(e.counts, u))
      && (NonNegative(e.counts) ==> NonNegative(r.counts))
  {
    if bound == Some(m.senderId) then
      Effect(e.messages + [m], e.counts, e.issued + [MarkRead(m.senderId)])
    else
      Effect(e.messages, Increment(e.counts, m.senderId), e.issued)
  }

  /** A `newMessage` event delivered to every bound handler in turn. */
  function DeliverNewMessage(handlers: seq<Binding>, e: Effect, m: Message): Effect
    decreases |handlers|
  {
    if handlers == [] then e
    else DeliverNewMessage(handlers[1..], OnNewMessage(handlers[0], e, m), m)
  }

  /** A `newMessage` event with a single handler bound, together with the
      read requests it issues: from the captured peer it is appended and one
      read request is issued at the next ticket, counters untouched; from
      any other sender only that sender's counter goes up by one. */
  lemma OneHandlerNewMessage(bound: Binding, s: seq<Message>, c: Counts, m: Message, p: Pending, next: nat)
    requires TicketsBelow(p, next)
    ensures var r := DeliverNewMessage([bound], Effect(s, c, []), m);
      && (bound == Some(m.senderId) ==>
        && r.messages == s + [m]
        && r.counts == c
        && IssueAll(p, next, r.issued) == p[next := MarkRead(m.senderId)])
      && (bound != Some(m.senderId) ==>
        && r.messages == s
        && CountOf(r.counts, m.senderId) == CountOf(c, m.senderId) + 1
        && (forall u :: u != m.senderId ==> CountOf(r.counts, u) == CountOf(c, u))
        && IssueAll(p, next, r.issued) == p)
  {
    assert [bound][1..] == [];
    if bound == Some(m.senderId) {
      IssueOne(p, next, MarkRead(m.senderId));
    }
  }

  /** A `messageDeleted` event delivered to every bound handler in turn. */
  function DeliverMessageDeleted(handlers: seq<Binding>, s: seq<Message>, x: MessageId): seq<Message>
    decreases |handlers|
  {
    if handlers == [] then s
    else DeliverMessageDeleted(handlers[1..], RemoveById(s, x), x)
  }

  /** Number of bound handlers that captured the peer `u`. */
  function Matching(handlers: seq<Binding>, u: UserId): (n: nat)
    ensures n <= |handlers|
  {
    if handlers == [] then 0
    else (if handlers[0] == Some(u) then 1 else 0) + Matching(handlers[1..], u)
  }

  /** `n` copies of `x`. */
  function Repeat<T>(x: T, n: nat): (r: seq<T>)
    ensures |r| == n
    ensures forall i :: 0 <= i < n ==> r[i] == x
  {
    if n == 0 then [] else [x] + Repeat(x, n - 1)
  }

  /** What a `newMessage` event does with every handler list: it appends one
      copy of the message and issues one read request for its sender per
      handler that captured the sender, adds one to the sender's counter per
      other handler, and leaves every other peer's counter alone. */
  lemma {:induction false} DeliverNewMessageEffect(handlers: seq<Binding>, e: Effect, m: Message)
    ensures var r := DeliverNewMessage(handlers, e, m);
      var k := Matching(handlers, m.senderId);
      && r.messages == e.messages + Repeat(m, k)
      && r.issued == e.issued + Repeat(MarkRead(m.senderId), k)
      && CountOf(r.counts, m.senderId) == CountOf(e.counts, m.senderId) + (|handlers| - k)
      && (forall u :: u != m.senderId ==> CountOf(r.counts, u) == CountOf(e.counts, u))
      && (NonNegative(e.counts) ==> NonNegative(r.counts))
  {
    if handlers != [] {
      var e1 := OnNewMessage(handlers[0], e, m);
      DeliverNewMessageEffect(handlers[1..], e1, m);
      var k1 := Matching(handlers[1..], m.senderId);
      if handlers[0] == Some(m.senderId) {
        assert Repeat(m, k1 + 1) == [m] + Repeat(m, k1);
        assert Repeat(MarkRead(m.senderId), k1 + 1) == [MarkRead(m.senderId)] + Repeat(MarkRead(m.senderId), k1);
        assert e1.messages + Repeat(m, k1) == e.messages + Repeat(m, k1 + 1);
        assert e1.issued + Repeat(MarkRead(m.senderId), k1) == e.issued + Repeat(MarkRead(m.senderId), k1 + 1);
      } else {
        assert e1.messages == e.messages && e1.issued == e.issued;
      }
    }
  }

  /** A `messageDeleted` event removes the entries with that id once some
      handler is bound (however many are), and changes nothing otherwise. */
  lemma {:induction false} DeliverMessageDeletedEffect(handlers: seq<Binding>, s: seq<Message>, x: MessageId)
    ensures DeliverMessageDeleted(handlers, s, x) == if handlers == [] then s else RemoveById(s, x)
  {
    if handlers != [] {
      DeliverMessageDeletedEffect(handlers[1..], RemoveById(s, x), x);
      RemoveByIdIdempotent(s, x);
    }
  }
}
