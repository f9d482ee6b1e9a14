# Tic-tac-toe room server, modelled in Dafny

The server of a two-player online tic-tac-toe game keeps every running game in
one in-memory record, `rooms`. It maps a room key chosen by the clients to a
room: a nine-cell board of `null`, `"X"` or `"O"`, the socket ids of the
players in join order, and whose turn it is. Three socket handlers change the
record:

- `joinRoom` creates a room for an unknown key and seats the joiner as X. On a
  room with exactly one player it seats the joiner second. On any other room it
  answers `roomFull`.
- `play` ignores unknown keys and sockets that are not at position 0 or 1 of
  the room's players. It refuses a move to the sender alone with "Not your
  turn" or "Cell occupied". Otherwise it writes the sender's symbol, flips the
  turn and broadcasts the board.
- `disconnect` removes the socket from every room and tells each of those
  rooms. It deletes a room once no player is left.

Node runs each handler to completion before the next event. So each handler is
one step on the record, and this model has no interleavings.

The project has three modules:

- `Rooms` (rooms.dfy) holds the data model and the outbound events. Each
  event is tagged "to the requester" or "to everyone in room k". The module
  also has one function per handler, from the old record to the new record
  and the events sent, and the properties of those functions. It defines the
  room invariant `RoomOk`: nine cells, one or two players, X has made as many
  moves as O or one more, and it is X's turn exactly when the two counts are
  equal.
- `Server` (server.dfy) is the class `RoomRegistry`. It holds the mutable
  `rooms` map, and its methods `JoinRoom`, `Play` and `Disconnect` update it in
  place. Each method is proved to produce the state and the events that the
  `Rooms` function gives and to keep `RoomOk` for every stored room. The
  disconnect loop over the rooms is a `while` loop with its invariants.
- `Traces` (traces.dfy) applies any sequence of inbound events to the
  record. It proves that every room reachable from the empty record satisfies
  `RoomOk` and that no event erases a mark. It also has scenario lemmas for
  the behaviours listed below.

The model follows the code as written:

- The second join leaves board and turn as they are.
- A player's symbol comes from its current position in `players`. When
  player 0 leaves, the other player becomes X.
- An index outside 0..8 reads `undefined`, which is not `null`, so the move is
  refused as "Cell occupied".
- A socket can join its own room twice and then holds both seats.
  `disconnect` removes one occurrence per room, so that room outlives the
  socket.
- The second join broadcasts `roomJoined` with player "O" to the whole room,
  first player included.

The code has no board reset on the second join, no finished flag, no win or
draw detection, no restart event and no "game is finished" rejection, and the
model has none of them either.

## Model

| member | source | states |
|---|---|---|
| `Rooms.Other` | server/index.ts:121 | the turn toggle always yields the other symbol |
| `Rooms.EmptyBoard` | server/index.ts:64 | a new board has nine cells, all `null` |
| `Rooms.IndexOf` | server/index.ts:101 | the result is -1 exactly when the socket is absent; otherwise it is a position holding the socket with no earlier occurrence |
| `Rooms.RemoveFirst` | server/index.ts:132-134 | an absent socket leaves the list as it is; a present one shortens it by one, and the list loses exactly one occurrence of that socket |
| `Rooms.RemoveFirstRemovesFirst` | server/index.ts:132-134 | the removed element is the first occurrence; the elements before and after it keep their order |
| `Rooms.SymbolOf` | server/index.ts:101-104 | X exactly for the socket at position 0; O exactly for the socket at position 1 when it is not also at 0; no symbol exactly when the socket is in neither of the first two positions |
| `Rooms.Join` | server/index.ts:58-95 | unknown key: exactly one new room with nine `null` cells, the joiner alone and turn X, and `roomJoined` X to the joiner only; one player: the joiner is appended, board and turn are unchanged, the joiner plays O unless it was already seated first, and `roomJoined` O then `updateBoard` go to the room; otherwise the registry is unchanged and only the requester gets `roomFull`; other rooms are never touched |
| `Rooms.Play` | server/index.ts:97-127 | the set of keys never changes and other rooms are untouched; unknown key or socket at no symbol position: no change and no event; wrong symbol: no change, "Not your turn" to the sender only; cell not `null` (an index outside the board included): no change, "Cell occupied" to the sender only; otherwise exactly that cell takes the mover's symbol, the turn flips, the players stay, and `updateBoard` "Player <symbol> moved" goes to the room; no mark is ever erased |
| `Rooms.IsFree` | server/index.ts:113 | an index outside the board is never free, so it is refused as occupied; a free cell is `null` |
| `Rooms.RoomOk` | server/index.ts:101-121 | the room invariant (nine cells, one or two players, X leads O by 0 or 1 marks, turn X exactly when the counts are equal) implies every seated socket has a symbol, so `play` never ignores a seated player |
| `Rooms.Leave` | server/index.ts:134 | a room left by a socket keeps board and turn; a present socket loses exactly one occurrence; an absent one leaves the room unchanged |
| `Rooms.Emptied` | server/index.ts:134-140 | leaving empties a room exactly when the socket was its only player |
| `Rooms.Disconnect` | server/index.ts:129-143 | no room appears; a room without the socket is untouched; a room with it keeps board and turn and loses exactly one occurrence (the first); it is deleted exactly when the socket was its only player |
| `Rooms.PlaceCounts` | server/index.ts:119 | writing a mark into a free cell adds one such mark and leaves the count of the other mark unchanged |
| `Rooms.NewRoomOk` | server/index.ts:63-67 | a freshly created room satisfies the room invariant |
| `Rooms.JoinKeepsInvariant` | server/index.ts:58-95 | `joinRoom` keeps the room invariant in every stored room |
| `Rooms.PlayKeepsInvariant` | server/index.ts:97-127 | `play` keeps the invariant: X minus O is 0 or 1, and the turn is X exactly when the counts are equal |
| `Rooms.DisconnectKeepsInvariant` | server/index.ts:129-143 | `disconnect` keeps the invariant; every surviving room still has one or two players |
| `Rooms.NoticesSentStep` | server/index.ts:133-138 | one pass of the disconnect loop adds the notice for that room exactly when the socket sat there, and the notices stay free of duplicates |
| `Server.RoomRegistry.constructor` | server/index.ts:50-53 | the record starts empty and satisfies the invariant |
| `Server.RoomRegistry.JoinRoom` | server/index.ts:58-95 | the new record and the events are those of `Rooms.Join`; the invariant is kept |
| `Server.RoomRegistry.Play` | server/index.ts:97-127 | the new record and the events are those of `Rooms.Play`; the invariant is kept |
| `Server.RoomRegistry.LeaveRoom` | server/index.ts:132-141 | one room loses the first occurrence of the socket and is deleted if it became empty; the room gets a notice exactly when the socket was there |
| `Server.RoomRegistry.LeaveAllRooms` | server/index.ts:131-143 | after the loop the record is `Rooms.Disconnect` of the old record; the events are exactly the notices, each sent once |
| `Server.RoomRegistry.Disconnect` | server/index.ts:129-145 | the new record is `Rooms.Disconnect` of the old one; each room that held the socket gets one "A player disconnected" broadcast with its board, and no other event is sent; the invariant is kept |
| `Traces.RunKeepsInvariant` | server/index.ts:55-146 | any sequence of handler calls keeps the room invariant |
| `Traces.ReachableRoomsOk` | server/index.ts:50-53 | every room reachable from the initial empty record satisfies the invariant |
| `Traces.ApplyKeepsMarks` | server/index.ts:119 | across any one handler call, a room present before and after keeps its board length and every mark |
| `Traces.SurvivorBecomesX` | server/index.ts:101-103 | the second of two players plays O, and after the first disconnects it plays X |
| `Traces.SelfRejoinLeavesStaleRoom` | server/index.ts:77-78 | a socket that joins its new room twice and disconnects leaves the room behind, seating that socket |
| `Traces.OpeningExchange` | server/index.ts:58-127 | after two joins, a move by the first player to cell 0 marks it X, passes the turn to O and is broadcast; a second move by the same player gets "Not your turn" and changes nothing |

## Left out

- HTTP setup, CORS, environment configuration, static files, the SPA fallback and the health route (server/index.ts:1-42) are not part of this model: they are plumbing.
- `server.listen` and the `console.log` calls are left out: they are process I/O.
- Socket.IO transport is not modelled. `socket.join`, `socket.emit` and `io.to(key).emit` become returned event records tagged with their recipient. The library's own room membership is not modelled.
- Server.RoomRegistry.Disconnect: the order of the broadcasts is left open. The source visits rooms in `Object.entries` order: integer-like keys first, then insertion order. The contract states only which events are sent and that each is sent once.
- Room keys are strings. Non-string `roomId` payloads of `joinRoom` and `play` are not modelled: `undefined` becomes the key `"undefined"`, and an array becomes a comma-joined key while `socket.join` treats it as several rooms.
- Rooms.Play: `index` is an integer. Non-integer numbers, `NaN` and non-number payloads are not modelled.
- Room keys that name properties inherited by plain objects (such as `constructor` or `__proto__`) are not modelled. For such a key `rooms[key]` is not `undefined` in the source. The model treats every key as absent until a join creates it.
- client/pages/index.tsx, client/pages/game/[id].tsx and client/socket.ts are not part of this model: they are the browser UI and the connection wrapper.
