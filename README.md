# Real-time chat server: connection handling

A Dafny model of the Socket.IO connection handlers of the chat backend
(`Backend/server.js`) and of the room listing endpoint `/api/rooms`.

Several server processes can run at once. Each one keeps its own in-memory
table of active users (`activeUsers`, keyed by connection id). All of them
share one Redis store. The store holds three kinds of key:
- the set of room names (`chat:rooms`);
- one member set per room (`chat:room:<room>:members`);
- one bounded message list per room (`chat:room:<room>:messages`), stored
  newest first.

The model has four modules:

- `Wire` (`wire.dfy`): sessions, messages, outbound events, and `Fault`.
  - An outbound event is an `Emission`: a target plus a payload.
  - The target is the calling socket (`ToCaller`), a whole room (`ToRoom`),
    or a room without the sender (`ToRoomExcept`).
  - `EventName` gives each payload's wire name (`user:joined`,
    `message:received`, …).
  - `Fault` says which store call of a handler throws, if any. The calls
    before it have taken effect; the ones after it are never made.
- `Redis` (`redis.dfy`): the store as a class `Store` of sets and lists under
  string keys.
  - It has the commands the server uses: SADD, SREM, SCARD, SMEMBERS, LPUSH,
    LTRIM and LRANGE.
  - LRANGE and LTRIM use Redis's inclusive, end-relative index rules.
  - A ghost map `pushed` records every LPUSH per key, in order. Invariants
    can then say what a list holds.
- `History` (`history.dfy`): the 100-entry sliding window.
  - A room's list is built by LPUSH then LTRIM 0 99, and read back by
    LRANGE 0 -1 then reversal.
  - `Tracks` is the invariant between the stored list and the sends: the list
    is the newest-first reversal of the latest sends, and holds at least 100
    of them (or all of them).
  - A failed LTRIM can leave the list longer than 100. `Tracks` still holds
    then.
- `Gateway` (`gateway.dfy`): the class `Instance`, one server process.
  - Its fields are `activeUsers`, an `outbox` of emissions, and a reference to
    the shared `Store`.
  - It has one method per socket event and the function `ListRooms`.
  - `StoreValid` is the store invariant every handler keeps:
    - every room with a member is in the room set;
    - every list tracks its pushes;
    - every pushed message names the room of its key.
  - The Redis key scheme is injective: different rooms, and a room's set and
    its list, never share a key (`KeysDistinct`).

`scenarios.dfy` has example runs checked against the contracts:
- two processes sharing one store: A joins, B joins, A says "hi", B leaves,
  A reads the history;
- a send before any join;
- a join to a second room on the same socket;
- a failing LTRIM.

Each handler is one atomic step. Ids (`uuidv4`) and clock readings
(`new Date()`) are parameters.

The model follows the code in these places:
- `message:send` does not reject an empty or blank text.
- `messages:history` needs no session.
- A message's room comes from the event payload, not from the session.
- `user:join` records the session before any store call, so a failed join
  still leaves a session.
- `disconnect` deletes the session only after SREM and SCARD succeed.
- Append and trim are two separate store calls.
- The room set never loses a room.
- A socket that joins a second room stays in the first room's member set:
  disconnect removes it only from its latest session room
  (`Scenarios.RejoinKeepsOldMembership`).

## Model

| member | source | states |
|---|---|---|
| `Wire.ErrorTo` | Backend/server.js:118-120 | a caught store error becomes an `error` event sent to the calling socket only |
| `Redis.RangeOf` | Backend/server.js:147 | LRANGE/LTRIM keep a contiguous run of the list starting at the (end-relative) start index, never longer than the list |
| `Redis.RangeWhole` | Backend/server.js:182 | LRANGE 0 -1 returns the whole list |
| `Redis.RangePrefix` | Backend/server.js:147 | LTRIM 0 n-1 keeps the first n entries, or all when fewer |
| `Redis.Store.SAdd` | Backend/server.js:97-98 | SADD adds the member to the key's set and changes no other key, so it is idempotent |
| `Redis.Store.SRem` | Backend/server.js:197 | SREM removes the member from the key's set and changes no other key, so it is idempotent |
| `Redis.Store.SCard` | Backend/server.js:101 | SCARD is the number of distinct members of the key's set |
| `Redis.Store.SMembers` | Backend/server.js:36 | SMEMBERS yields exactly the key's set |
| `Redis.Store.LPush` | Backend/server.js:143-146 | LPUSH puts the value at the head of the key's list and records it as the latest push |
| `Redis.Store.LTrim` | Backend/server.js:147 | LTRIM replaces the key's list by the given index range, touching nothing else |
| `Redis.Store.LRange` | Backend/server.js:182 | LRANGE returns the given index range of the key's list |
| `History.Reverse` | Backend/server.js:183 | reversal keeps the length of the list |
| `History.ReverseReverse` | Backend/server.js:183 | reversing the stored (newest-first) order twice gives back the send order |
| `History.ReverseSnoc` | Backend/server.js:143-146 | the newest send is the head of the reversed send order |
| `History.ReversePrefix` | Backend/server.js:147 | the first k entries of a newest-first list are the k newest sends |
| `History.ReverseSameElements` | Backend/server.js:183 | the history sent to the client is a permutation of the stored list |
| `History.Newest` | Backend/server.js:147 | the window holds min(sent, 100) entries |
| `History.PushTrimShape` | Backend/server.js:143-147 | after a send the list is the new message followed by the first 99 old entries, so it has at most 100 entries and the oldest is dropped |
| `History.TracksPush` | Backend/server.js:143-146 | LPUSH of the sent message keeps the list the newest-first view of all sends |
| `History.TracksTrim` | Backend/server.js:147 | LTRIM 0 99 keeps that view and bounds the list by 100 |
| `History.TracksWindow` | Backend/server.js:182-184 | a tracking list of at most 100 entries, read oldest first, is exactly the newest 100 sends in send order |
| `History.ReplayTracks` | Backend/server.js:143-147 | any run of successful sends from an empty list leaves a tracking list of at most 100 entries |
| `History.ReplayHistory` | Backend/server.js:182-184 | after any run of sends, history is the newest 100 of them in send order |
| `History.HundredAndOneSends` | Backend/server.js:143-147 | after 101 sends history is exactly the last 100 in send order and the first message is absent |
| `Gateway.KeysDistinct` | Backend/server.js:97-98 | the key scheme maps different rooms to different keys, and a member set key is never a list key or the room set key |
| `Gateway.AddCount` | Backend/server.js:98-101 | the count read after SADD grows by one exactly when the connection was not yet a member |
| `Gateway.AddRoomKeeps` | Backend/server.js:97 | adding a room name keeps every room with members in the room set |
| `Gateway.AddMemberKeeps` | Backend/server.js:98 | adding a member to a room already in the room set keeps that invariant |
| `Gateway.RemoveMemberKeeps` | Backend/server.js:197 | removing a member keeps that invariant |
| `Gateway.PushKeeps` | Backend/server.js:143-146 | LPUSH keeps every list tracking its pushes |
| `Gateway.PushKeepsKey` | Backend/server.js:143-146 | LPUSH keeps the pushed key's list tracking its pushes |
| `Gateway.PushKeepsOther` | Backend/server.js:143-146 | LPUSH leaves every other key's list tracking its pushes |
| `Gateway.TrimKeeps` | Backend/server.js:147 | LTRIM 0 99 keeps every list tracking its pushes and bounds the trimmed one by 100 |
| `Gateway.PushLabelKeeps` | Backend/server.js:138-146 | a message whose payload room is the key's room keeps every pushed message naming its key's room |
| `Gateway.Instance.constructor` | Backend/server.js:59 | a process starts with no active users and nothing emitted |
| `Gateway.Instance.UserJoin` | Backend/server.js:82-121 | the session {userId, username, room, joinedAt} is recorded whatever happens; then the room set gains the room, the member set gains the connection, and on success `user:joined` goes to the room and `user:join:success` with the same count to the caller; a store failure sends `error` to the caller; a repeated join does not change the count |
| `Gateway.Instance.JoinRoom` | Backend/server.js:93-120 | the store calls and notifications of a join, with the effect of each store call that completed and the error on failure |
| `Gateway.Instance.MessageSend` | Backend/server.js:124-156 | with no session: one `error` "User not authenticated" to the caller and no other change; with one: the message takes userId and username from the session, a fresh id and the server time, and its text and room from the payload; is pushed then trimmed under that room's key, and is broadcast to the room; other rooms' lists are unchanged; after a full send the history is the newest 100 |
| `Gateway.Instance.StoreMessage` | Backend/server.js:142-155 | LPUSH then LTRIM 0 99 of the message under its room's key, the broadcast on success, and the effect of each completed call plus `error` on failure |
| `Gateway.Instance.Typing` | Backend/server.js:159-177 | with a session, one `typing:user` with the session's username to the payload room except the sender; without, nothing at all |
| `Gateway.Instance.TypingStart` | Backend/server.js:159-167 | `typing:user` with isTyping true to the room except the sender, only with a session |
| `Gateway.Instance.TypingStop` | Backend/server.js:169-177 | `typing:user` with isTyping false to the room except the sender, only with a session |
| `Gateway.Instance.MessagesHistory` | Backend/server.js:180-188 | with or without a session, the caller alone gets the stored list reversed (oldest first), which is the newest 100 messages in send order when the list is within bounds; a store failure sends `error` |
| `Gateway.Instance.Disconnect` | Backend/server.js:191-215 | with no session nothing changes; with one, the connection leaves its session room's member set, `user:left` with the count after removal goes to that room, and only then is the session deleted; a store failure leaves the session; the room set never shrinks |
| `Gateway.Instance.ListRooms` | Backend/server.js:34-47 | every room in the room set appears once with id = name and its member set's size, nothing else appears; a store failure gives status 500 with the error message |
| `Gateway.Instance.OccupiedRoomsListed` | Backend/server.js:34-47 | under the store invariant every room that has a member is listed with a positive count |
| `Gateway.Instance.StoredRoomLabels` | Backend/server.js:133-146 | every message stored under a room's list names that room |
| `Scenarios.FirstJoin` | Backend/server.js:82-115 | the first join of a room reports member count 1 to the room and to the caller |
| `Scenarios.TwoProcessesJoin` | Backend/server.js:97-108 | a second connection joining through another process sharing the store sees count 2 |

## Left out

- Socket.IO delivery is not modelled. This covers `socket.join(room)`, the Socket.IO rooms a socket belongs to, and the `@socket.io/redis-adapter` fan-out to other processes. Emissions are recorded with an abstract target (caller, room, room except sender), not delivered.
- The Express setup, CORS, `/health`, `dotenv`, `server.listen` and the SIGTERM shutdown are left out: they are process plumbing.
- The Redis connection setup (`initializeRedis`) and its `process.exit(1)` on failure are left out: this is startup only, and the model starts with a connected store.
- `uuidv4`, `new Date()` and `toISOString` are foreign calls. Their results are method parameters.
- `JSON.stringify` and `JSON.parse` are left out: lists hold message records. So a `JSON.parse` failure in `messages:history` is not modelled.
- Event payloads are assumed to carry strings. JavaScript's missing fields and non-string values are not modelled.
- Concurrency is not modelled. Each handler is one atomic step, so another connection's handler cannot run between two store calls (for example between LPUSH and LTRIM, or SREM and SCARD). A store failure between them is modelled.
- Gateway.Instance.ListRooms returns a set of room entries, not the array in SMEMBERS order, because Redis gives no order. A failure of any of the concurrent SCARD calls of `Promise.all` is modelled as a failure at store call 1 to n.
- Redis deletes a set's key when its last member is removed. The model keeps an empty set instead, which reads the same through SCARD and SMEMBERS.
- The `console.log` and `console.error` output is left out.
- The React client (`Frontend/src/app.js`) and its typing debounce are client UI code, not part of this model.
