/** The HTTP requests the store awaits. Each `await` is split in two: an
    action issues a request under a fresh ticket, and the request's
    completion, in any order relative to other events, runs the code after
    the `await`. */
module Requests {
  import opened Messages

  datatype Request =
    | FetchUsers                                // GET /messages/users
    | FetchMessages(userId: UserId)             // GET /messages/:userId
    | Send(to: UserId, snapshot: seq<Message>)  // POST /messages/send/:id, with the `messages` read before it
    | Delete(messageId: MessageId)              // DELETE /messages/:messageId
    | MarkRead(userId: UserId)                  // POST /messages/read/:userId

  /** The outcome of a request: its response payload, or an error. */
  datatype Reply<T> = Ok(data: T) | Failed

  /** Requests issued and not yet completed, by ticket. */
  type Pending = map<nat, Request>

  predicate TicketsBelow(p: Pending, next: nat) {
    forall t :: t in p ==> t < next
  }

  predicate AwaitingUsers(p: Pending) {
    exists t :: t in p && p[t].FetchUsers?
  }

  predicate AwaitingMessages(p: Pending) {
    exists t :: t in p && p[t].FetchMessages?
  }

  /** Issues `reqs` in order under the tickets `next`, `next + 1`, ...:
      the earlier requests stay, each new one sits at its own ticket, and
      nothing else is added. */
  function IssueAll(p: Pending, next: nat, reqs: seq<Request>): (r: Pending)
    requires TicketsBelow(p, next)
    ensures TicketsBelow(r, next + |reqs|)
    ensures forall t :: t in p ==> t in r && r[t] == p[t]
    ensures forall t :: next <= t < next + |reqs| ==> t in r && r[t] == reqs[t - next]
    ensures forall t :: t in r ==> t in p || next <= t
    decreases |reqs|
  {
    if reqs == [] then p
    else
      var r := IssueAll(p[next := reqs[0]], next + 1, reqs[1..]);
      assert forall j :: 0 <= j < |reqs| - 1 ==> reqs[1..][j] == reqs[j + 1];
      r
  }

  /** Issuing a single request is one map update. */
  lemma IssueOne(p: Pending, next: nat, req: Request)
    requires TicketsBelow(p, next)
    ensures IssueAll(p, next, [req]) == p[next := req]
  {
    assert [req][1..] == [];
  }

  /** Adding requests keeps an outstanding fetch outstanding. */
  lemma AwaitingKept(p: Pending, q: Pending)
    requires forall t :: t in p ==> t in q && q[t] == p[t]
    ensures AwaitingUsers(p) ==> AwaitingUsers(q)
    ensures AwaitingMessages(p) ==> AwaitingMessages(q)
  {
  }

  /** Completing a request of another kind keeps an outstanding fetch outstanding. */
  lemma AwaitingAfterRemove(p: Pending, t: nat)
    requires t in p
    ensures !p[t].FetchUsers? && AwaitingUsers(p) ==> AwaitingUsers(p - {t})
    ensures !p[t].FetchMessages? && AwaitingMessages(p) ==> AwaitingMessages(p - {t})
  {
    if !p[t].FetchUsers? && AwaitingUsers(p) {
      var u :| u in p && p[u].FetchUsers?;
      assert u in p - {t} && (p - {t})[u].FetchUsers?;
    }
    if !p[t].FetchMessages? && AwaitingMessages(p) {
      var u :| u in p && p[u].FetchMessages?;
      assert u in p - {t} && (p - {t})[u].FetchMessages?;
    }
  }
}
