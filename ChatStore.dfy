/** The chat store: one state record updated in place by its actions, its
    push-event handlers and the completions of the requests it awaits, plus
    the selection steps the conversation view drives. */
module ChatStore {
  import opened Wrappers
  import opened Messages
  import opened UnreadCounts
  import opened Requests
  import opened Subscription

  /** The whole store state at one moment, as a value. */
  datatype StoreState = StoreState(
    messages: seq<Message>,
    users: seq<UserId>,
    selectedUser: Option<UserId>,
    isUsersLoading: bool,
    isMessagesLoading: bool,
    unreadCounts: Counts,
    handlers: seq<Binding>,
    inFlight: Pending,
    nextTicket: nat)

  /** No counter is negative, tickets are fresh, and a loading flag is only
      set while a fetch of its kind is outstanding. */
  ghost predicate ValidState(st: StoreState) {
    && NonNegative(st.unreadCounts)
    && TicketsBelow(st.inFlight, st.nextTicket)
    && (st.isUsersLoading ==> AwaitingUsers(st.inFlight))
    && (st.isMessagesLoading ==> AwaitingMessages(st.inFlight))
  }

  /** The state after the socket delivers a `newMessage` event to every
      bound handler, with the read requests they issue under fresh tickets. */
  function AfterNewMessage(st: StoreState, m: Message): StoreState
    requires TicketsBelow(st.inFlight, st.nextTicket)
  {
    var r := DeliverNewMessage(st.handlers, Effect(st.messages, st.unreadCounts, []), m);
    st.(messages := r.messages, unreadCounts := r.counts,
        inFlight := IssueAll(st.inFlight, st.nextTicket, r.issued),
        nextTicket := st.nextTicket + |r.issued|)
  }

  /** A `newMessage` event keeps the store invariant. */
  lemma AfterNewMessageValid(st: StoreState, m: Message)
    requires ValidState(st)
    ensures ValidState(AfterNewMessage(st, m))
  {
    var r := DeliverNewMessage(st.handlers, Effect(st.messages, st.unreadCounts, []), m);
    DeliverNewMessageEffect(st.handlers, Effect(st.messages, st.unreadCounts, []), m);
    AwaitingKept(st.inFlight, IssueAll(st.inFlight, st.nextTicket, r.issued));
  }

  /** A `newMessage` event with nothing bound changes nothing; with one
      handler, a message from its captured peer is appended with one read
      request and no counter change, and any other message only raises its
      sender's counter by one. */
  lemma AfterNewMessageCases(st: StoreState, m: Message)
    requires TicketsBelow(st.inFlight, st.nextTicket)
    ensures st.handlers == [] ==> AfterNewMessage(st, m) == st
    ensures st.handlers == [Some(m.senderId)] ==>
      var st' := AfterNewMessage(st, m);
      && st' == st.(messages := st.messages + [m],
                    inFlight := st.inFlight[st.nextTicket := MarkRead(m.senderId)],
                    nextTicket := st.nextTicket + 1)
    ensures |st.handlers| == 1 && st.handlers[0] != Some(m.senderId) ==>
      var st' := AfterNewMessage(st, m);
      && st'.messages == st.messages
      && CountOf(st'.unreadCounts, m.senderId) == CountOf(st.unreadCounts, m.senderId) + 1
      && (forall u :: u != m.senderId ==> CountOf(st'.unreadCounts, u) == CountOf(st.unreadCounts, u))
      && st' == st.(unreadCounts := st'.unreadCounts)
  {
    if |st.handlers| == 1 {
      assert st.handlers == [st.handlers[0]];
      OneHandlerNewMessage(st.handlers[0], st.messages, st.unreadCounts, m, st.inFlight, st.nextTicket);
      var r := DeliverNewMessage(st.handlers, Effect(st.messages, st.unreadCounts, []), m);
      assert [st.handlers[0]][1..] == [];
      if st.handlers[0] == Some(m.senderId) {
        assert |r.issued| == 1;
      } else {
        assert r.issued == [];
      }
    }
  }

  class Store {
    var messages: seq<Message>
    var users: seq<UserId>
    var selectedUser: Option<UserId>
    var isUsersLoading: bool
    var isMessagesLoading: bool
    var unreadCounts: Counts
    /** The handler pairs bound on the socket, by the selection each captured. */
    var handlers: seq<Binding>
    /** Requests issued and not yet completed. */
    var inFlight: Pending
    var nextTicket: nat

    function State(): StoreState
      reads this
    {
      StoreState(messages, users, selectedUser, isUsersLoading, isMessagesLoading,
                 unreadCounts, handlers, inFlight, nextTicket)
    }

    /** The store invariant, kept by every method. */
    ghost predicate Valid()
      reads this
    {
      ValidState(State())
    }

    /** The initial state: no messages, no users, no selection, not loading,
        no counters; nothing bound and nothing in flight. */
    constructor ()
      ensures Valid()
      ensures State() == StoreState([], [], None, false, false, map[], [], map[], 0)
    {
      messages := [];
      users := [];
      selectedUser := None;
      isUsersLoading := false;
      isMessagesLoading := false;
      unreadCounts := map[];
      handlers := [];
      inFlight := map[];
      nextTicket := 0;
    }

    /** Sends `req` under a fresh ticket. */
    method Issue(req: Request) returns (t: nat)
      requires Valid()
      modifies this
      ensures Valid()
      ensures t == old(nextTicket) && t !in old(inFlight)
      ensures State() == old(State()).(inFlight := old(inFlight)[t := req], nextTicket := t + 1)
    {
      t := nextTicket;
      AwaitingKept(inFlight, inFlight[t := req]);
      inFlight := inFlight[t := req];
      nextTicket := t + 1;
    }

    /** Removes the completed request `t`. */
    method Retire(t: nat)
      requires Valid() && t in inFlight
      modifies this
      ensures TicketsBelow(inFlight, nextTicket)
      ensures old(!inFlight[t].FetchUsers?) && old(isUsersLoading) ==> AwaitingUsers(inFlight)
      ensures old(!inFlight[t].FetchMessages?) && old(isMessagesLoading) ==> AwaitingMessages(inFlight)
      ensures State() == old(State()).(inFlight := old(inFlight) - {t})
    {
      AwaitingAfterRemove(inFlight, t);
      inFlight := inFlight - {t};
    }

    /** `getUsers`, up to its `await`: the spinner goes on and the fetch is issued. */
    method GetUsers() returns (t: nat)
      requires Valid()
      modifies this
      ensures Valid()
      ensures t == old(nextTicket)
      ensures State() == old(State()).(isUsersLoading := true,
                                       inFlight := old(inFlight)[t := FetchUsers], nextTicket := t + 1)
    {
      t := Issue(FetchUsers);
      isUsersLoading := true;
      assert inFlight[t].FetchUsers?;
    }

    /** `getUsers` after its `await`: on success the list is replaced by the
        response; on both outcomes the spinner goes off. */
    method CompleteGetUsers(t: nat, reply: Reply<seq<UserId>>)
      requires Valid() && t in inFlight && inFlight[t].FetchUsers?
      modifies this
      ensures Valid()
      ensures State() == old(State()).(users := if reply.Ok? then reply.data else old(users),
                                       isUsersLoading := false, inFlight := old(inFlight) - {t})
    {
      Retire(t);
      if reply.Ok? {
        users := reply.data;
      }
      isUsersLoading := false;
    }

    /** `getMessages(userId)`, up to its `await`. */
    method GetMessages(userId: UserId) returns (t: nat)
      requires Valid()
      modifies this
      ensures Valid()
      ensures t == old(nextTicket)
      ensures State() == old(State()).(isMessagesLoading := true,
                                       inFlight := old(inFlight)[t := FetchMessages(userId)], nextTicket := t + 1)
    {
      t := Issue(FetchMessages(userId));
      isMessagesLoading := true;
      assert inFlight[t].FetchMessages?;
    }

    /** `getMessages` after its `await`: on success `messages` becomes the
        response, whoever it was fetched for and whatever arrived meanwhile;
        on failure it stays. The spinner goes off on both outcomes. */
    method CompleteGetMessages(t: nat, reply: Reply<seq<Message>>)
      requires Valid() && t in inFlight && inFlight[t].FetchMessages?
      modifies this
      ensures Valid()
      ensures State() == old(State()).(messages := if reply.Ok? then reply.data else old(messages),
                                       isMessagesLoading := false, inFlight := old(inFlight) - {t})
    {
      Retire(t);
      if reply.Ok? {
        messages := reply.data;
      }
      isMessagesLoading := false;
    }

    /** `sendMessage`, up to its `await`: it reads `selectedUser` and
        `messages` and posts to the selected peer. With no selection the
        dereference of `selectedUser._id` throws inside the `try`, the `catch`
        throws again on the missing response, and nothing is sent or changed. */
    method SendMessage() returns (t: Option<nat>)
      requires Valid()
      modifies this
      ensures Valid()
      ensures old(selectedUser).None? ==> t == None && State() == old(State())
      ensures old(selectedUser).Some? ==>
        && t == Some(old(nextTicket))
        && State() == old(State()).(inFlight := old(inFlight)[t.value := Send(old(selectedUser).value, old(messages))],
                                    nextTicket := t.value + 1)
    {
      if selectedUser.None? {
        t := None;
      } else {
        var ticket := Issue(Send(selectedUser.value, messages));
        t := Some(ticket);
      }
    }

    /** `sendMessage` after its `await`: on success `messages` becomes the
        snapshot read when the request was issued plus the reply, so whatever
        changed `messages` in the meantime is overwritten; on failure nothing
        changes but the request being done. */
    method CompleteSend(t: nat, reply: Reply<Message>)
      requires Valid() && t in inFlight && inFlight[t].Send?
      modifies this
      ensures Valid()
      ensures State() == old(State()).(messages := if reply.Ok? then old(inFlight)[t].snapshot + [reply.data] else old(messages),
                                       inFlight := old(inFlight) - {t})
    {
      var snapshot := inFlight[t].snapshot;
      Retire(t);
      if reply.Ok? {
        messages := snapshot + [reply.data];
      }
    }

    /** `deleteMessage(messageId)`, up to its `await`. */
    method DeleteMessage(messageId: MessageId) returns (t: nat)
      requires Valid()
      modifies this
      ensures Valid()
      ensures t == old(nextTicket)
      ensures State() == old(State()).(inFlight := old(inFlight)[t := Delete(messageId)], nextTicket := t + 1)
    {
      t := Issue(Delete(messageId));
    }

    /** `deleteMessage` after its `await`: on success the entries with that id
        are filtered out of the messages as they are now; on failure nothing
        changes but the request being done. */
    method CompleteDelete(t: nat, ok: bool)
      requires Valid() && t in inFlight && inFlight[t].Delete?
      modifies this
      ensures Valid()
      ensures State() == old(State()).(messages := if ok then RemoveById(old(messages), old(inFlight)[t].messageId) else old(messages),
                                       inFlight := old(inFlight) - {t})
    {
      var x := inFlight[t].messageId;
      Retire(t);
      if ok {
        messages := RemoveById(messages, x);
      }
    }

    /** `markMessagesAsRead(userId)`, up to its `await`. */
    method MarkMessagesAsRead(userId: UserId) returns (t: nat)
      requires Valid()
      modifies this
      ensures Valid()
      ensures t == old(nextTicket)
      ensures State() == old(State()).(inFlight := old(inFlight)[t := MarkRead(userId)], nextTicket := t + 1)
    {
      t := Issue(MarkRead(userId));
    }

    /** `markMessagesAsRead` after its `await`: on success that peer's counter
        is zeroed in the counters as they are now; on failure (only logged)
        nothing changes but the request being done. */
    method CompleteMarkRead(t: nat, ok: bool)
      requires Valid() && t in inFlight && inFlight[t].MarkRead?
      modifies this
      ensures Valid()
      ensures State() == old(State()).(unreadCounts := if ok then Zeroed(old(unreadCounts), old(inFlight)[t].userId) else old(unreadCounts),
                                       inFlight := old(inFlight) - {t})
    {
      var u := inFlight[t].userId;
      Retire(t);
      if ok {
        unreadCounts := Zeroed(unreadCounts, u);
      }
    }

    /** `subscribeToMessages`: binds one more handler pair, capturing the
        current selection. Earlier pairs stay bound. */
    method SubscribeToMessages()
      requires Valid()
      modifies this
      ensures Valid()
      ensures State() == old(State()).(handlers := old(handlers) + [old(selectedUser)])
    {
      handlers := handlers + [selectedUser];
    }

    /** `unsubscribeFromMessages`: `socket.off` on both events drops every
        bound handler. */
    method UnsubscribeFromMessages()
      requires Valid()
      modifies this
      ensures Valid()
      ensures State() == old(State()).(handlers := [])
    {
      handlers := [];
    }

    /** `setSelectedUser(user)`: the selection changes; a non-null user also
        gets a read request, and no counter changes yet. */
    method SetSelectedUser(user: Option<UserId>) returns (t: Option<nat>)
      requires Valid()
      modifies this
      ensures Valid()
      ensures user.None? ==> t == None && State() == old(State()).(selectedUser := None)
      ensures user.Some? ==>
        && t == Some(old(nextTicket))
        && State() == old(State()).(selectedUser := user,
                                    inFlight := old(inFlight)[t.value := MarkRead(user.value)],
                                    nextTicket := t.value + 1)
    {
      selectedUser := user;
      if user.Some? {
        var ticket := MarkMessagesAsRead(user.value);
        t := Some(ticket);
      } else {
        t := None;
      }
    }

    /** The socket delivers a `newMessage` event to every bound handler. */
    method ReceiveNewMessage(m: Message)
      requires Valid()
      modifies this
      ensures Valid()
      ensures State() == AfterNewMessage(old(State()), m)
      // nothing bound: nothing happens
      ensures old(handlers) == [] ==> State() == old(State())
      // one handler, the sender is its captured peer: appended, a read request issued, no counter touched
      ensures old(handlers) == [Some(m.senderId)] ==>
        && messages == old(messages) + [m]
        && unreadCounts == old(unreadCounts)
        && inFlight == old(inFlight)[old(nextTicket) := MarkRead(m.senderId)]
      // one handler, any other sender: only that sender's counter goes up by one
      ensures |old(handlers)| == 1 && old(handlers)[0] != Some(m.senderId) ==>
        && messages == old(messages)
        && CountOf(unreadCounts, m.senderId) == CountOf(old(unreadCounts), m.senderId) + 1
        && (forall u :: u != m.senderId ==> CountOf(unreadCounts, u) == CountOf(old(unreadCounts), u))
        && inFlight == old(inFlight)
    {
      AfterNewMessageValid(State(), m);
      AfterNewMessageCases(State(), m);
      var next := AfterNewMessage(State(), m);
      messages, unreadCounts, inFlight, nextTicket := next.messages, next.unreadCounts, next.inFlight, next.nextTicket;
    }

    /** The socket delivers a `messageDeleted` event to every bound handler:
        with at least one bound, exactly the entries with that id go. */
    method ReceiveMessageDeleted(x: MessageId)
      requires Valid()
      modifies this
      ensures Valid()
      ensures State() == old(State()).(messages := if old(handlers) == [] then old(messages) else RemoveById(old(messages), x))
    {
      DeliverMessageDeletedEffect(handlers, messages, x);
      messages := DeliverMessageDeleted(handlers, messages, x);
    }

    /** A peer is picked and the conversation view reacts: `setSelectedUser`
        runs; if the selected id changed, the view's effect first runs the
        previous effect's cleanup (when a conversation was open), then
        `getMessages(id)` and `subscribeToMessages()`. Messages are not
        cleared and no counter is zeroed here. */
    method SelectPeer(u: UserId) returns (read: nat, fetch: Option<nat>)
      requires Valid()
      modifies this
      ensures Valid()
      ensures read == old(nextTicket)
      ensures old(selectedUser) == Some(u) ==>
        && fetch == None
        && State() == old(State()).(inFlight := old(inFlight)[read := MarkRead(u)], nextTicket := read + 1)
      ensures old(selectedUser) != Some(u) ==>
        && fetch == Some(read + 1)
        && State() == old(State()).(selectedUser := Some(u), isMessagesLoading := true,
                                    handlers := (if old(selectedUser).Some? then [] else old(handlers)) + [Some(u)],
                                    inFlight := old(inFlight)[read := MarkRead(u)][read + 1 := FetchMessages(u)],
                                    nextTicket := read + 2)
    {
      var previous := selectedUser;
      var t := SetSelectedUser(Some(u));
      read := t.value;
      if previous != Some(u) {
        if previous.Some? {
          UnsubscribeFromMessages();
        }
        var f := GetMessages(u);
        fetch := Some(f);
        SubscribeToMessages();
      } else {
        fetch := None;
      }
    }

    /** The selection is cleared and the conversation view unmounts: its
        cleanup unbinds the handlers if a conversation was open. No read
        request is issued. */
    method Deselect()
      requires Valid()
      modifies this
      ensures Valid()
      ensures State() == old(State()).(selectedUser := None,
                                       handlers := if old(selectedUser).Some? then [] else old(handlers))
    {
      var previous := selectedUser;
      var _ := SetSelectedUser(None);
      if previous.Some? {
        UnsubscribeFromMessages();
      }
    }
  }
}
