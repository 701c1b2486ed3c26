/** Runs of the handlers on two server processes that share one store,
    checked against the handlers' contracts. */
module Scenarios {
  import opened Wire
  import opened Redis
  import opened History
  import opened Gateway

  /** A joins "general" on a fresh process and store: the count is 1. */
  method FirstJoin() returns (p1: Instance)
    ensures fresh(p1) && fresh(p1.store) && StoreValid(p1.store)
    ensures p1.Members("general") == {"A"}
    ensures p1.activeUsers == map["A" := Session("u-a", "alice", "general", "t0")]
    ensures p1.Stored("general") == []
    ensures p1.outbox == [Emission(ToRoom("general"), UserJoined("alice", 1, "t0")),
                          Emission(ToCaller("A"), JoinSuccess("u-a", "general", 1))]
  {
    var store := new Store<Message>();
    p1 := new Instance(store);
    p1.UserJoin("A", "alice", "general", "u-a", "t0", "t0", NoFault);
  }

  /** B joins "general" on a second process sharing the store: the count is
      2, and the room is told so. */
  method TwoProcessesJoin() returns (p1: Instance, p2: Instance)
    ensures fresh(p1) && fresh(p2) && fresh(p1.store)
    ensures p1 != p2 && p1.store == p2.store && StoreValid(p1.store)
    ensures p1.Members("general") == {"A", "B"}
    ensures "A" in p1.activeUsers && p1.activeUsers["A"] == Session("u-a", "alice", "general", "t0")
    ensures "B" in p2.activeUsers && p2.activeUsers["B"] == Session("u-b", "bob", "general", "t1")
    ensures p1.Stored("general") == []
    ensures |p1.outbox| == 2 && |p2.outbox| == 2
  {
    p1 := FirstJoin();
    p2 := new Instance(p1.store);
    p2.UserJoin("B", "bob", "general", "u-b", "t1", "t1", NoFault);
    assert p2.outbox[0] == Emission(ToRoom("general"), UserJoined("bob", 2, "t1"));
  }

  /** Then A says "hi", B leaves, and A reads the history: one message. */
  method TwoProcessesChat()
  {
    var p1, p2 := TwoProcessesJoin();
    var hi := Message("m-1", "u-a", "alice", "hi", "general", "t2");
    p1.MessageSend("A", "hi", "general", "m-1", "t2", NoFault);
    assert p1.outbox[2] == Emission(ToRoom("general"), MessageReceived(hi));

    p2.Disconnect("B", "t3", NoFault);
    assert p2.Members("general") == {"A"};
    assert p2.outbox[2] == Emission(ToRoom("general"), UserLeft("bob", 1, "t3"));

    p1.MessagesHistory("A", "general", NoFault);
    assert p1.outbox[3].payload == HistorySuccess([hi]);
  }

  /** A connection that joins a second room on the same socket stays in the
      first room's member set for good: disconnect only leaves the room of
      the latest session. */
  method RejoinKeepsOldMembership(p: Instance)
    requires StoreValid(p.store)
    modifies p, p.store
  {
    p.UserJoin("C", "carol", "a", "u-1", "t0", "t0", NoFault);
    assert "C" in p.Members("a");
    KeysDistinct("a", "b");
    p.UserJoin("C", "carol", "b", "u-2", "t1", "t1", NoFault);
    assert "C" in p.Members("a");
    p.Disconnect("C", "t2", NoFault);
    assert "C" !in p.activeUsers && "C" !in p.Members("b");
    assert "C" in p.Members("a");
  }

  /** A send before any join is refused and stores nothing. */
  method SendBeforeJoin()
  {
    var store := new Store<Message>();
    var p := new Instance(store);
    p.MessageSend("D", "hello", "general", "m-1", "t0", NoFault);
    assert p.outbox == [ErrorTo("D", "User not authenticated")];
    assert p.Stored("general") == [];
  }

  /** A failing LTRIM leaves a full list one entry over the limit. */
  method TrimFailureOverflows(p: Instance)
    requires StoreValid(p.store) && "E" in p.activeUsers && |p.Stored("r")| == Capacity
    modifies p, p.store
  {
    p.MessageSend("E", "one more", "r", "m-x", "t9", FailAt(1, "timeout"));
    assert |p.Stored("r")| == Capacity + 1;
  }
}
