/** Event sequences applied to a fresh store, each stating what the store
    shows at the end. They pin down the interleavings at the `await` points:
    which completions win, what a push during a request does, and when a
    counter is zeroed. */
module Scenarios {
  import opened Wrappers
  import opened Messages
  import opened UnreadCounts
  import opened Requests
  import opened Subscription
  import opened ChatStore

  /** Peer `a` is picked, then peer `b` before `a`'s history arrives; `b`'s
      history arrives first and `a`'s last. The late, stale response is
      shown although `b` is selected. */
  method StaleFetchOverwrites(a: UserId, b: UserId, historyA: seq<Message>, historyB: seq<Message>)
    returns (shown: seq<Message>, selected: Option<UserId>)
    requires a != b
    ensures shown == historyA && selected == Some(b)
  {
    var s := new Store();
    var _, fetchA := s.SelectPeer(a);
    var _, fetchB := s.SelectPeer(b);
    s.CompleteGetMessages(fetchB.value, Ok(historyB));
    s.CompleteGetMessages(fetchA.value, Ok(historyA));
    shown, selected := s.messages, s.selectedUser;
  }

  /** Two fetches are in flight and the later one fails first: the spinner
      is off although the other fetch is still outstanding. */
  method LoadingClearedEarly(a: UserId, b: UserId) returns (loading: bool, fetchOutstanding: bool)
    requires a != b
    ensures !loading && fetchOutstanding
  {
    var s := new Store();
    var _, fetchA := s.SelectPeer(a);
    var _, fetchB := s.SelectPeer(b);
    s.CompleteGetMessages(fetchB.value, Failed);
    loading := s.isMessagesLoading;
    fetchOutstanding := fetchA.value in s.inFlight && s.inFlight[fetchA.value].FetchMessages?;
  }

  /** While a send to the open peer is in flight, that peer's pushed message
      is appended; the send's success then restores the snapshot taken before
      the request plus the reply, and the pushed message is gone. */
  method SendDropsConcurrentPush(peer: UserId, history: seq<Message>, pushed: Message, reply: Message)
    returns (beforeReply: seq<Message>, shown: seq<Message>)
    requires pushed.senderId == peer
    ensures beforeReply == history + [pushed]
    ensures shown == history + [reply]
  {
    var s := new Store();
    var _, fetch := s.SelectPeer(peer);
    s.CompleteGetMessages(fetch.value, Ok(history));
    var send := s.SendMessage();
    s.ReceiveNewMessage(pushed);
    beforeReply := s.messages;
    s.CompleteSend(send.value, Ok(reply));
    shown := s.messages;
  }

  /** A message already in the fetched history is pushed again: the push is
      appended without any check, so it is shown twice. */
  method PushAfterFetchDuplicates(peer: UserId, m: Message) returns (shown: seq<Message>)
    requires m.senderId == peer
    ensures shown == [m, m]
  {
    var s := new Store();
    var _, fetch := s.SelectPeer(peer);
    s.CompleteGetMessages(fetch.value, Ok([m]));
    s.ReceiveNewMessage(m);
    shown := s.messages;
  }

  /** `subscribeToMessages` called twice without unsubscribing leaves two
      handler pairs bound: one push from the peer is appended twice, and
      besides the read request of `setSelectedUser` two more read requests
      for the peer go out. */
  method DoubleSubscribeAppendsTwice(peer: UserId, m: Message) returns (shown: seq<Message>, pending: Pending)
    requires m.senderId == peer
    ensures shown == [m, m]
    ensures pending == map[0 := MarkRead(peer), 1 := MarkRead(peer), 2 := MarkRead(peer)]
  {
    var s := new Store();
    var _ := s.SetSelectedUser(Some(peer));
    s.SubscribeToMessages();
    s.SubscribeToMessages();
    DeliverNewMessageEffect(s.handlers, Effect(s.messages, s.unreadCounts, []), m);
    assert Matching(s.handlers, m.senderId) == 2;
    assert Repeat(m, 2) == [m, m];
    assert Repeat(MarkRead(m.senderId), 2) == [MarkRead(peer), MarkRead(peer)];
    s.ReceiveNewMessage(m);
    shown, pending := s.messages, s.inFlight;
  }

  /** A message from `b` arrives while `a` is open, then `b` is picked. The
      counter of `b` stays at 1 through the selection and is zeroed only
      when the read request succeeds. */
  method CounterZeroedOnlyOnAck(a: UserId, b: UserId, m: Message, ackOk: bool)
    returns (beforeSelect: int, afterSelect: int, afterAck: int)
    requires a != b && m.senderId == b
    ensures beforeSelect == 1 && afterSelect == 1
    ensures afterAck == if ackOk then 0 else 1
  {
    var s := new Store();
    var _, _ := s.SelectPeer(a);
    s.ReceiveNewMessage(m);
    beforeSelect := CountOf(s.unreadCounts, b);
    var read, _ := s.SelectPeer(b);
    afterSelect := CountOf(s.unreadCounts, b);
    s.CompleteMarkRead(read, ackOk);
    afterAck := CountOf(s.unreadCounts, b);
  }

  /** After the conversation is closed nothing is bound, so later pushes
      change neither the messages nor any counter. */
  method ClosedConversationIgnoresPushes(peer: UserId, history: seq<Message>, m: Message, x: MessageId)
    returns (shown: seq<Message>, counts: Counts)
    ensures shown == history && counts == map[]
  {
    var s := new Store();
    var _, fetch := s.SelectPeer(peer);
    s.CompleteGetMessages(fetch.value, Ok(history));
    s.Deselect();
    s.ReceiveNewMessage(m);
    s.ReceiveMessageDeleted(x);
    shown, counts := s.messages, s.unreadCounts;
  }

  /** The store deletes a message and the corresponding `messageDeleted`
      push arrives before the request completes: the list ends up as after
      one deletion. */
  method DeletePushedAndAcknowledged(peer: UserId, history: seq<Message>, x: MessageId)
    returns (shown: seq<Message>)
    ensures shown == RemoveById(history, x)
    ensures !HasId(shown, x)
  {
    var s := new Store();
    var _, fetch := s.SelectPeer(peer);
    s.CompleteGetMessages(fetch.value, Ok(history));
    var del := s.DeleteMessage(x);
    s.ReceiveMessageDeleted(x);
    s.CompleteDelete(del, true);
    RemoveByIdIdempotent(history, x);
    RemoveByIdAbsent(RemoveById(history, x), x);
    shown := s.messages;
  }
}
