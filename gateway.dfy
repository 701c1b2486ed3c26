/** One server process: the socket event handlers, the process-local table of
    active users, and the read-only room listing. Every process shares one
    Redis store; room broadcasts are recorded as emissions to a room target. */
module Gateway {
  import opened Wire
  import opened Redis
  import opened History

  /** The Redis key of the set of every room name ever joined. */
  const RoomsKey: string := "chat:rooms"

  /** The Redis key of a room's member set (connection ids). */
  function MembersKey(room: string): string
  {
    "chat:room:" + room + ":members"
  }

  /** The Redis key of a room's message list (newest first). */
  function MessagesKey(room: string): string
  {
    "chat:room:" + room + ":messages"
  }

  /** The key scheme never lets two rooms, or a room's set and its list, or a
      member set and the room set, share a key. */
  lemma KeysDistinct(a: string, b: string)
    ensures MembersKey(a) == MembersKey(b) <==> a == b
    ensures MessagesKey(a) == MessagesKey(b) <==> a == b
    ensures MembersKey(a) != MessagesKey(b)
    ensures MembersKey(a) != RoomsKey && MessagesKey(a) != RoomsKey
  {
    var p := "chat:room:";
    var ka, kb := MembersKey(a), MembersKey(b);
    var la, lb := MessagesKey(a), MessagesKey(b);
    assert ka[|p|..|ka| - 8] == a && kb[|p|..|kb| - 8] == b;
    assert la[|p|..|la| - 9] == a && lb[|p|..|lb| - 9] == b;
    assert ka[|ka| - 2] == 'r' && lb[|lb| - 2] == 'e';
  }

  /** SADD adds one to a set's size exactly when the member is new. */
  lemma AddCount(s: set<string>, x: string)
    ensures |s + {x}| == |s| + (if x in s then 0 else 1)
  {
    if x in s {
      assert s + {x} == s;
    } else {
      assert (s + {x}) - {x} == s;
    }
  }

  /** Every room that has a member is in the room set. */
  ghost predicate RoomsCover(sets: map<string, set<string>>)
  {
    forall room :: SetIn(sets, MembersKey(room)) != {} ==> room in SetIn(sets, RoomsKey)
  }

  /** Each key's list is the newest-first view of what was pushed to it. */
  ghost predicate ListsTrack(lists: map<string, seq<Message>>, pushed: map<string, seq<Message>>)
  {
    forall key {:trigger Tracks(ListIn(lists, key), ListIn(pushed, key))} ::
      Tracks(ListIn(lists, key), ListIn(pushed, key))
  }

  /** A message pushed to a room's list names that room. */
  ghost predicate PushesLabelled(pushed: map<string, seq<Message>>)
  {
    forall room, m :: m in ListIn(pushed, MessagesKey(room)) ==> m.room == room
  }

  /** What every handler keeps true of the shared store. */
  ghost predicate StoreValid(s: Store<Message>)
    reads s
  {
    RoomsCover(s.sets) && ListsTrack(s.lists, s.pushed) && PushesLabelled(s.pushed)
  }

  lemma AddRoomKeeps(sets: map<string, set<string>>, room: string)
    requires RoomsCover(sets)
    ensures RoomsCover(sets[RoomsKey := SetIn(sets, RoomsKey) + {room}])
  {
    var sets' := sets[RoomsKey := SetIn(sets, RoomsKey) + {room}];
    forall r | SetIn(sets', MembersKey(r)) != {}
      ensures r in SetIn(sets', RoomsKey)
    {
      KeysDistinct(r, r);
    }
  }

  lemma AddMemberKeeps(sets: map<string, set<string>>, room: string, conn: string)
    requires RoomsCover(sets) && room in SetIn(sets, RoomsKey)
    ensures RoomsCover(sets[MembersKey(room) := SetIn(sets, MembersKey(room)) + {conn}])
  {
    var sets' := sets[MembersKey(room) := SetIn(sets, MembersKey(room)) + {conn}];
    forall r | SetIn(sets', MembersKey(r)) != {}
      ensures r in SetIn(sets', RoomsKey)
    {
      KeysDistinct(r, room);
    }
  }

  lemma RemoveMemberKeeps(sets: map<string, set<string>>, room: string, conn: string)
    requires RoomsCover(sets)
    ensures RoomsCover(sets[MembersKey(room) := SetIn(sets, MembersKey(room)) - {conn}])
  {
    var sets' := sets[MembersKey(room) := SetIn(sets, MembersKey(room)) - {conn}];
    forall r | SetIn(sets', MembersKey(r)) != {}
      ensures r in SetIn(sets', RoomsKey)
    {
      KeysDistinct(r, room);
    }
  }

  lemma PushKeeps(lists: map<string, seq<Message>>, pushed: map<string, seq<Message>>,
                  key: string, m: Message)
    requires ListsTrack(lists, pushed)
    ensures ListsTrack(lists[key := [m] + ListIn(lists, key)], pushed[key := ListIn(pushed, key) + [m]])
  {
    var lists', pushed' := lists[key := [m] + ListIn(lists, key)], pushed[key := ListIn(pushed, key) + [m]];
    forall k
      ensures Tracks(ListIn(lists', k), ListIn(pushed', k))
    {
      if k == key {
        PushKeepsKey(lists, pushed, key, m);
      } else {
        PushKeepsOther(lists, pushed, key, m, k);
      }
    }
  }

  lemma PushKeepsKey(lists: map<string, seq<Message>>, pushed: map<string, seq<Message>>,
                     key: string, m: Message)
    requires Tracks(ListIn(lists, key), ListIn(pushed, key))
    ensures Tracks(ListIn(lists[key := [m] + ListIn(lists, key)], key),
                   ListIn(pushed[key := ListIn(pushed, key) + [m]], key))
  {
    TracksPush(ListIn(lists, key), ListIn(pushed, key), m);
  }

  lemma PushKeepsOther(lists: map<string, seq<Message>>, pushed: map<string, seq<Message>>,
                       key: string, m: Message, k: string)
    requires k != key && ListsTrack(lists, pushed)
    ensures Tracks(ListIn(lists[key := [m] + ListIn(lists, key)], k),
                   ListIn(pushed[key := ListIn(pushed, key) + [m]], k))
  {
    assert Tracks(ListIn(lists, k), ListIn(pushed, k));
  }

  lemma TrimKeeps(lists: map<string, seq<Message>>, pushed: map<string, seq<Message>>, key: string)
    requires ListsTrack(lists, pushed)
    ensures ListsTrack(lists[key := RangeOf(ListIn(lists, key), 0, Capacity - 1)], pushed)
    ensures |RangeOf(ListIn(lists, key), 0, Capacity - 1)| <= Capacity
  {
    var lists' := lists[key := RangeOf(ListIn(lists, key), 0, Capacity - 1)];
    forall k
      ensures Tracks(ListIn(lists', k), ListIn(pushed, k))
    {
      if k == key {
        TracksTrim(ListIn(lists, key), ListIn(pushed, key));
      } else {
        assert ListIn(lists', k) == ListIn(lists, k);
        assert Tracks(ListIn(lists, k), ListIn(pushed, k));
      }
    }
    TracksTrim(ListIn(lists, key), ListIn(pushed, key));
  }

  lemma PushLabelKeeps(pushed: map<string, seq<Message>>, room: string, m: Message)
    requires PushesLabelled(pushed) && m.room == room
    ensures PushesLabelled(pushed[MessagesKey(room) := ListIn(pushed, MessagesKey(room)) + [m]])
  {
    var pushed' := pushed[MessagesKey(room) := ListIn(pushed, MessagesKey(room)) + [m]];
    forall r, x: Message | x in ListIn(pushed', MessagesKey(r))
      ensures x.room == r
    {
      KeysDistinct(r, room);
    }
  }

  /** One entry of the `/api/rooms` answer. */
  datatype RoomInfo = RoomInfo(id: string, name: string, memberCount: nat)

  /** The `/api/rooms` answer: the rooms (Redis gives them in no order), or
      status 500 with the store's error message. */
  datatype RoomListing = Listed(rooms: set<RoomInfo>) | ServerError(status: nat, error: string)

  class Instance {
    const store: Store<Message>
    var activeUsers: map<string, Session>
    var outbox: seq<Emission>

    constructor (store: Store<Message>)
      ensures this.store == store && activeUsers == map[] && outbox == []
    {
      this.store := store;
      activeUsers := map[];
      outbox := [];
    }

    function Rooms(): set<string>
      reads store
    {
      store.SetAt(RoomsKey)
    }

    function Members(room: string): set<string>
      reads store
    {
      store.SetAt(MembersKey(room))
    }

    /** A room's stored list, newest first. */
    function Stored(room: string): seq<Message>
      reads store
    {
      store.ListAt(MessagesKey(room))
    }

    /** Every message ever pushed to a room's list, oldest first. */
    ghost function Sent(room: string): seq<Message>
      reads store
    {
      store.PushedAt(MessagesKey(room))
    }

    /** `user:join`: the session is recorded before any store call, so it
        stays even when a store call fails. The room goes into the room set,
        the connection into the room's member set, and the count read back is
        reported to the room and to the caller; joining again with the same
        connection id does not change the count. */
    method UserJoin(conn: string, username: string, room: string,
                    userId: string, joinedAt: string, now: string, fault: Fault)
      modifies this, store
      ensures activeUsers == old(activeUsers)[conn := Session(userId, username, room, joinedAt)]
      requires StoreValid(store)
      ensures StoreValid(store)
      ensures store.lists == old(store.lists) && store.pushed == old(store.pushed)
      ensures store.sets ==
        if !Completes(fault, 0) then old(store.sets)
        else if !Completes(fault, 1) then old(store.sets)[RoomsKey := old(Rooms()) + {room}]
        else old(store.sets)[RoomsKey := old(Rooms()) + {room}][MembersKey(room) := old(Members(room)) + {conn}]
      ensures Completes(fault, 1) ==> room in Rooms() && conn in Members(room)
      ensures Completes(fault, 1) ==>
        |Members(room)| == |old(Members(room))| + (if conn in old(Members(room)) then 0 else 1)
      ensures Completes(fault, 2) ==>
        outbox == old(outbox) + [Emission(ToRoom(room), UserJoined(username, |Members(room)|, now)),
                                 Emission(ToCaller(conn), JoinSuccess(userId, room, |Members(room)|))]
      ensures !Completes(fault, 2) ==> outbox == old(outbox) + [ErrorTo(conn, fault.reason)]
    {
      activeUsers := activeUsers[conn := Session(userId, username, room, joinedAt)];
      JoinRoom(conn, username, room, userId, now, fault);
    }

    /** The store calls and notifications of `user:join`, after the session
        is recorded. */
    method JoinRoom(conn: string, username: string, room: string,
                    userId: string, now: string, fault: Fault)
      modifies this`outbox, store
      requires StoreValid(store)
      ensures StoreValid(store)
      ensures store.lists == old(store.lists) && store.pushed == old(store.pushed)
      ensures store.sets ==
        if !Completes(fault, 0) then old(store.sets)
        else if !Completes(fault, 1) then old(store.sets)[RoomsKey := old(Rooms()) + {room}]
        else old(store.sets)[RoomsKey := old(Rooms()) + {room}][MembersKey(room) := old(Members(room)) + {conn}]
      ensures Completes(fault, 1) ==> room in Rooms() && conn in Members(room)
      ensures Completes(fault, 1) ==>
        |Members(room)| == |old(Members(room))| + (if conn in old(Members(room)) then 0 else 1)
      ensures Completes(fault, 2) ==>
        outbox == old(outbox) + [Emission(ToRoom(room), UserJoined(username, |Members(room)|, now)),
                                 Emission(ToCaller(conn), JoinSuccess(userId, room, |Members(room)|))]
      ensures !Completes(fault, 2) ==> outbox == old(outbox) + [ErrorTo(conn, fault.reason)]
    {
      KeysDistinct(room, room);
      ghost var before := Members(room);
      if !Completes(fault, 0) {
        outbox := outbox + [ErrorTo(conn, fault.reason)];
        return;
      }
      AddRoomKeeps(store.sets, room);
      store.SAdd(RoomsKey, room);
      assert StoreValid(store);
      if !Completes(fault, 1) {
        outbox := outbox + [ErrorTo(conn, fault.reason)];
        return;
      }
      AddMemberKeeps(store.sets, room, conn);
      store.SAdd(MembersKey(room), conn);
      assert StoreValid(store);
      assert Members(room) == before + {conn};
      AddCount(before, conn);
      if !Completes(fault, 2) {
        outbox := outbox + [ErrorTo(conn, fault.reason)];
        return;
      }
      var memberCount := store.SCard(MembersKey(room));
      outbox := outbox + [Emission(ToRoom(room), UserJoined(username, memberCount, now)),
                          Emission(ToCaller(conn), JoinSuccess(userId, room, memberCount))];
    }

    /** `message:send`: without a session the caller alone gets an error and
        nothing else happens. Otherwise the message takes its author from the
        session and its room and text from the payload (not the session's
        room), is pushed to the head of that room's list, the list is cut
        back to 100 entries by a second store call, and the message is
        broadcast to the room. The text is not checked. */
    method MessageSend(conn: string, message: string, room: string,
                       msgId: string, now: string, fault: Fault)
      requires StoreValid(store)
      modifies this, store
      ensures StoreValid(store)
      ensures activeUsers == old(activeUsers) && store.sets == old(store.sets)
      ensures conn !in old(activeUsers) ==>
        && store.lists == old(store.lists) && store.pushed == old(store.pushed)
        && outbox == old(outbox) + [ErrorTo(conn, "User not authenticated")]
      ensures conn in old(activeUsers) ==>
        var user := old(activeUsers[conn]);
        var m := Message(msgId, user.id, user.username, message, room, now);
        var key := MessagesKey(room);
        && store.pushed == (if Completes(fault, 0) then old(store.pushed)[key := old(Sent(room)) + [m]]
                            else old(store.pushed))
        && store.lists == (if !Completes(fault, 0) then old(store.lists)
                           else if !Completes(fault, 1) then old(store.lists)[key := [m] + old(Stored(room))]
                           else old(store.lists)[key := PushTrim(old(Stored(room)), m)])
        && outbox == old(outbox) + [if Completes(fault, 1) then Emission(ToRoom(room), MessageReceived(m))
                                    else ErrorTo(conn, fault.reason)]
      ensures conn in old(activeUsers) && Completes(fault, 1) ==>
        |Stored(room)| <= Capacity && Reverse(Stored(room)) == Newest(Sent(room), Capacity)
      ensures forall r :: r != room ==> Stored(r) == old(Stored(r))
    {
      if conn !in activeUsers {
        outbox := outbox + [ErrorTo(conn, "User not authenticated")];
        return;
      }
      var user := activeUsers[conn];
      var m := Message(msgId, user.id, user.username, message, room, now);
      StoreMessage(conn, room, m, fault);
    }

    /** The store calls and broadcast of `message:send` for a composed
        message `m` of `room`, under that room's key. */
    method StoreMessage(conn: string, room: string, m: Message, fault: Fault)
      requires StoreValid(store) && m.room == room
      modifies this`outbox, store
      ensures StoreValid(store)
      ensures store.sets == old(store.sets)
      ensures store.pushed == (if Completes(fault, 0) then old(store.pushed)[MessagesKey(room) := old(Sent(room)) + [m]]
                               else old(store.pushed))
      ensures store.lists == (if !Completes(fault, 0) then old(store.lists)
                              else if !Completes(fault, 1) then old(store.lists)[MessagesKey(room) := [m] + old(Stored(room))]
                              else old(store.lists)[MessagesKey(room) := PushTrim(old(Stored(room)), m)])
      ensures outbox == old(outbox) + [if Completes(fault, 1) then Emission(ToRoom(room), MessageReceived(m))
                                       else ErrorTo(conn, fault.reason)]
      ensures Completes(fault, 1) ==>
        |Stored(room)| <= Capacity && Reverse(Stored(room)) == Newest(Sent(room), Capacity)
      ensures forall r :: r != room ==> Stored(r) == old(Stored(r))
    {
      var key := MessagesKey(room);
      forall r | r != room
        ensures MessagesKey(r) != key
      {
        KeysDistinct(r, room);
      }
      if !Completes(fault, 0) {
        outbox := outbox + [ErrorTo(conn, fault.reason)];
        return;
      }
      PushKeeps(store.lists, store.pushed, key, m);
      PushLabelKeeps(store.pushed, room, m);
      store.LPush(key, m);
      assert StoreValid(store);
      if !Completes(fault, 1) {
        outbox := outbox + [ErrorTo(conn, fault.reason)];
        return;
      }
      TrimKeeps(store.lists, store.pushed, key);
      store.LTrim(key, 0, Capacity - 1);
      assert StoreValid(store);
      assert Tracks(Stored(room), Sent(room));
      TracksWindow(Stored(room), Sent(room));
      outbox := outbox + [Emission(ToRoom(room), MessageReceived(m))];
    }

    /** The shared body of `typing:start` and `typing:stop`: with a session,
        tell the payload's room, except the sender, who is typing; without
        one, do nothing at all. */
    method Typing(conn: string, room: string, isTyping: bool)
      modifies this`outbox
      ensures outbox == old(outbox) +
        if conn in activeUsers
        then [Emission(ToRoomExcept(room, conn), TypingUser(activeUsers[conn].username, isTyping))]
        else []
    {
      if conn in activeUsers {
        var user := activeUsers[conn];
        outbox := outbox + [Emission(ToRoomExcept(room, conn), TypingUser(user.username, isTyping))];
      }
    }

    /** `typing:start`. */
    method TypingStart(conn: string, room: string)
      modifies this`outbox
      ensures outbox == old(outbox) +
        if conn in activeUsers
        then [Emission(ToRoomExcept(room, conn), TypingUser(activeUsers[conn].username, true))]
        else []
    {
      Typing(conn, room, true);
    }

    /** `typing:stop`. */
    method TypingStop(conn: string, room: string)
      modifies this`outbox
      ensures outbox == old(outbox) +
        if conn in activeUsers
        then [Emission(ToRoomExcept(room, conn), TypingUser(activeUsers[conn].username, false))]
        else []
    {
      Typing(conn, room, false);
    }

    /** `messages:history`: no session is needed. The whole stored list is
        read and sent to the caller reversed, oldest first; when every send
        to the room trimmed, that is the newest 100 messages in send order. */
    method MessagesHistory(conn: string, room: string, fault: Fault)
      modifies this`outbox
      ensures !Completes(fault, 0) ==> outbox == old(outbox) + [ErrorTo(conn, fault.reason)]
      ensures Completes(fault, 0) ==>
        && |outbox| == |old(outbox)| + 1 && outbox[..|old(outbox)|] == old(outbox)
        && var e := outbox[|old(outbox)|];
           && e.target == ToCaller(conn) && e.payload.HistorySuccess?
           && |e.payload.messages| == |Stored(room)|
           && (forall i :: 0 <= i < |Stored(room)| ==>
                 e.payload.messages[i] == Stored(room)[|Stored(room)| - 1 - i])
           && (StoreValid(store) && |Stored(room)| <= Capacity ==>
                 e.payload.messages == Newest(Sent(room), Capacity))
    {
      if !Completes(fault, 0) {
        outbox := outbox + [ErrorTo(conn, fault.reason)];
        return;
      }
      var messages := store.LRange(MessagesKey(room), 0, -1);
      RangeWhole(Stored(room));
      var history := Reverse(messages);
      if StoreValid(store) && |messages| <= Capacity {
        assert Tracks(Stored(room), Sent(room));
        TracksWindow(messages, Sent(room));
      }
      outbox := outbox + [Emission(ToCaller(conn), HistorySuccess(history))];
    }

    /** `disconnect`: without a session nothing happens. With one, the
        connection leaves its session room's member set, the count read back
        is announced to that room, and only then is the session deleted; a
        store failure is only logged and leaves the session in place. The
        room itself is never removed from the room set. */
    method Disconnect(conn: string, now: string, fault: Fault)
      requires StoreValid(store)
      modifies this, store
      ensures StoreValid(store)
      ensures Rooms() == old(Rooms())
      ensures store.lists == old(store.lists) && store.pushed == old(store.pushed)
      ensures conn !in old(activeUsers) ==>
        activeUsers == old(activeUsers) && store.sets == old(store.sets) && outbox == old(outbox)
      ensures conn in old(activeUsers) ==>
        var user := old(activeUsers[conn]);
        && store.sets == (if Completes(fault, 0)
                          then old(store.sets)[MembersKey(user.room) := old(Members(user.room)) - {conn}]
                          else old(store.sets))
        && (Completes(fault, 0) ==> conn !in Members(user.room))
        && activeUsers == (if Completes(fault, 1) then old(activeUsers) - {conn} else old(activeUsers))
        && outbox == old(outbox) +
             if Completes(fault, 1) then [Emission(ToRoom(user.room), UserLeft(user.username, |Members(user.room)|, now))]
             else []
    {
      if conn !in activeUsers {
        return;
      }
      var user := activeUsers[conn];
      if !Completes(fault, 0) {
        return;
      }
      KeysDistinct(user.room, user.room);
      RemoveMemberKeeps(store.sets, user.room, conn);
      store.SRem(MembersKey(user.room), conn);
      assert StoreValid(store);
      if !Completes(fault, 1) {
        return;
      }
      var memberCount := store.SCard(MembersKey(user.room));
      outbox := outbox + [Emission(ToRoom(user.room), UserLeft(user.username, memberCount, now))];
      activeUsers := activeUsers - {conn};
    }

    /** `GET /api/rooms`: every room in the room set with the size of its
        member set, or status 500 when a store call fails (one SMEMBERS, then
        one SCARD per room). */
    function ListRooms(fault: Fault): (r: RoomListing)
      reads store
      ensures r.Listed? <==> Completes(fault, |Rooms()|)
      ensures r.ServerError? ==> r.status == 500 && r.error == fault.reason
      ensures r.Listed? ==>
        forall info :: info in r.rooms ==>
          info.id == info.name && info.name in Rooms() && info.memberCount == |Members(info.name)|
      ensures r.Listed? ==>
        forall room :: room in Rooms() ==> RoomInfo(room, room, |Members(room)|) in r.rooms
    {
      if !Completes(fault, |Rooms()|) then ServerError(500, fault.reason)
      else Listed(set room | room in Rooms() :: RoomInfo(room, room, |Members(room)|))
    }

    /** Every message in a room's stored list names that room, although the
        room is taken from the sender's payload and never checked. */
    lemma StoredRoomLabels(room: string)
      requires StoreValid(store)
      ensures forall m :: m in Stored(room) ==> m.room == room
    {
      var key := MessagesKey(room);
      var list, sent := store.ListAt(key), store.PushedAt(key);
      assert Tracks(ListIn(store.lists, key), ListIn(store.pushed, key));
      var suffix := sent[|sent| - |list|..];
      ReverseSameElements(suffix);
      forall m | m in list
        ensures m.room == room
      {
        assert m in multiset(suffix);
        assert m in sent;
      }
    }

    /** Every room that has a member is listed, with a positive count. */
    lemma OccupiedRoomsListed(fault: Fault, room: string)
      requires StoreValid(store)
      requires ListRooms(fault).Listed?
      requires Members(room) != {}
      ensures RoomInfo(room, room, |Members(room)|) in ListRooms(fault).rooms
      ensures |Members(room)| > 0
    {
      assert RoomsCover(store.sets);
    }
  }
}
