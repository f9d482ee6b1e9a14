/** The in-memory room registry of the tic-tac-toe server and the effect of
    each of its three socket handlers (joinRoom, play, disconnect), stated as
    functions from the old registry to the new registry and the events sent.
    The class in module Server performs the same steps in place. */
module Rooms {

  type SocketId = string
  type RoomKey = string

  datatype Option<T> = None | Some(value: T)

  /** A player's symbol, "X" or "O". */
  datatype Mark = X | O

  /** A board cell: `null`, "X" or "O". */
  datatype Cell = Empty | Marked(mark: Mark)

  /** One entry of the `rooms` record: the board, the socket ids of the seated
      players in join order, and whose turn it is. */
  datatype Room = Room(board: seq<Cell>, players: seq<SocketId>, turn: Mark)

  /** The events the server emits, with their payloads. */
  datatype Event =
    | RoomJoined(player: Mark, board: seq<Cell>, message: string)
    | UpdateBoard(board: seq<Cell>, message: string)
    | RoomFull
    | Invalid(reason: string)

  /** `socket.emit` answers the requesting socket only; `io.to(key).emit`
      broadcasts to every socket in the room named `key`. */
  datatype Recipient = Requester | Everyone(key: RoomKey)

  datatype Outbound = Send(to: Recipient, event: Event)

  /** The registry after a handler ran, and what the handler emitted, in order. */
  datatype Step = Step(rooms: map<RoomKey, Room>, out: seq<Outbound>)

  const WaitingMessage := "Waiting for second player..."
  const StartedMessage := "Game started"
  const DisconnectedMessage := "A player disconnected"
  const NotYourTurn := "Not your turn"
  const CellOccupied := "Cell occupied"

  function Name(m: Mark): string {
    match m
    case X => "X"
    case O => "O"
  }

  function MovedMessage(m: Mark): string {
    "Player " + Name(m) + " moved"
  }

  /** The turn toggle `turn === "X" ? "O" : "X"`. */
  function Other(m: Mark): (r: Mark)
    ensures r != m
  {
    if m == X then O else X
  }

  /** `Array(9).fill(null)` */
  function EmptyBoard(): (b: seq<Cell>)
    ensures |b| == 9
    ensures forall i :: 0 <= i < |b| ==> b[i] == Empty
  {
    seq(9, _ => Empty)
  }

  /** `Array.prototype.indexOf` with strict equality: the first position of
      `x`, or -1. */
  function IndexOf(s: seq<SocketId>, x: SocketId): (r: int)
    ensures -1 <= r < |s|
    ensures r == -1 <==> x !in s
    ensures 0 <= r ==> s[r] == x && x !in s[..r]
  {
    if |s| == 0 then -1
    else if s[0] == x then 0
    else
      var i := IndexOf(s[1..], x);
      if i == -1 then -1
      else
        assert s[..i + 1] == [s[0]] + s[1..][..i];
        i + 1
  }

  /** `players.splice(players.indexOf(x), 1)` guarded by `indexOf !== -1`:
      the first occurrence of `x` is removed and nothing else changes. */
  function RemoveFirst(s: seq<SocketId>, x: SocketId): (r: seq<SocketId>)
    ensures x !in s ==> r == s
    ensures x in s ==> |r| == |s| - 1 && multiset(r) == multiset(s) - multiset{x}
  {
    var i := IndexOf(s, x);
    if i == -1 then s
    else
      assert s == s[..i] + [s[i]] + s[i + 1..];
      s[..i] + s[i + 1..]
  }

  /** `RemoveFirst` takes out the first occurrence of `x` and keeps the
      elements before and after it in order. */
  lemma RemoveFirstRemovesFirst(s: seq<SocketId>, x: SocketId)
    requires x in s
    ensures exists i :: 0 <= i < |s| && s[i] == x && x !in s[..i] && RemoveFirst(s, x) == s[..i] + s[i + 1..]
  {
    var i := IndexOf(s, x);
    assert s[i] == x && x !in s[..i] && RemoveFirst(s, x) == s[..i] + s[i + 1..];
  }

  /** The symbol a socket plays with: "X" at position 0 of `players`, "O" at
      position 1, none anywhere else. */
  function SymbolOf(players: seq<SocketId>, sid: SocketId): (r: Option<Mark>)
    ensures r == Some(X) <==> |players| > 0 && players[0] == sid
    ensures r == Some(O) <==> |players| > 1 && players[1] == sid && players[0] != sid
    ensures r == None <==> sid !in players[..if |players| < 2 then |players| else 2]
  {
    var i := IndexOf(players, sid);
    if i == 0 then Some(X) else if i == 1 then Some(O) else None
  }

  /** `board[index] === null`. An index outside the board reads `undefined`,
      which is not `null`, so it never counts as free. */
  predicate IsFree(board: seq<Cell>, index: int)
    ensures !(0 <= index < |board|) ==> !IsFree(board, index)
    ensures IsFree(board, index) ==> board[index] == Empty
  {
    0 <= index < |board| && board[index] == Empty
  }

  /** Number of cells holding mark `m`. */
  function Count(board: seq<Cell>, m: Mark): (n: nat)
    ensures n <= |board|
  {
    if |board| == 0 then 0
    else Count(board[..|board| - 1], m) + (if board[|board| - 1] == Marked(m) then 1 else 0)
  }

  /** What every stored room satisfies: nine cells, one or two players, X has
      made as many moves as O or one more, and it is X's turn exactly when the
      counts are equal. */
  ghost predicate RoomOk(room: Room)
    ensures RoomOk(room) ==>
      forall i :: 0 <= i < |room.players| ==> SymbolOf(room.players, room.players[i]) != None
  {
    && |room.board| == 9
    && 1 <= |room.players| <= 2
    && (Count(room.board, X) == Count(room.board, O) || Count(room.board, X) == Count(room.board, O) + 1)
    && (room.turn == X <==> Count(room.board, X) == Count(room.board, O))
  }

  ghost predicate RegistryOk(rooms: map<RoomKey, Room>)
  {
    forall k :: k in rooms ==> RoomOk(rooms[k])
  }

  /** Every cell that holds a mark in `before` holds the same mark in `after`. */
  ghost predicate KeepsMarks(before: seq<Cell>, after: seq<Cell>)
  {
    && |after| == |before|
    && forall i :: 0 <= i < |before| && before[i] != Empty ==> after[i] == before[i]
  }

  // ---------------------------------------------------------------- joinRoom

  /** The `joinRoom` handler: an unknown key creates a room seating the joiner
      as X; a room with exactly one player seats the joiner second without
      touching board or turn; any other room answers `roomFull`. */
  function Join(rooms: map<RoomKey, Room>, key: RoomKey, sid: SocketId): (s: Step)
    ensures key !in rooms ==>
      && s.rooms.Keys == rooms.Keys + {key}
      && s.rooms[key] == Room(EmptyBoard(), [sid], X)
      && s.out == [Send(Requester, RoomJoined(X, EmptyBoard(), WaitingMessage))]
    ensures key in rooms && |rooms[key].players| == 1 ==>
      && s.rooms.Keys == rooms.Keys
      && s.rooms[key].board == rooms[key].board
      && s.rooms[key].turn == rooms[key].turn
      && s.rooms[key].players == rooms[key].players + [sid]
      && SymbolOf(s.rooms[key].players, sid) == (if rooms[key].players[0] == sid then Some(X) else Some(O))
      && s.out == [Send(Everyone(key), RoomJoined(O, rooms[key].board, StartedMessage)),
                   Send(Everyone(key), UpdateBoard(rooms[key].board, StartedMessage))]
    ensures key in rooms && |rooms[key].players| != 1 ==>
      s.rooms == rooms && s.out == [Send(Requester, RoomFull)]
    ensures forall k :: k in rooms && k != key ==> k in s.rooms && s.rooms[k] == rooms[k]
  {
    if key !in rooms then
      Step(rooms[key := Room(EmptyBoard(), [sid], X)],
           [Send(Requester, RoomJoined(X, EmptyBoard(), WaitingMessage))])
    else
      var room := rooms[key];
      if |room.players| == 1 then
        Step(rooms[key := room.(players := room.players + [sid])],
             [Send(Everyone(key), RoomJoined(O, room.board, StartedMessage)),
              Send(Everyone(key), UpdateBoard(room.board, StartedMessage))])
      else
        Step(rooms, [Send(Requester, RoomFull)])
  }

  // -------------------------------------------------------------------- play

  /** The `play` handler. Ignored for an unknown key or a socket not at
      position 0 or 1; refused to the sender alone when it is not the
      sender's turn or the cell is not `null`; otherwise the cell takes the
      sender's symbol, the turn flips and the room gets the new board. */
  function Play(rooms: map<RoomKey, Room>, key: RoomKey, sid: SocketId, index: int): (s: Step)
    ensures s.rooms.Keys == rooms.Keys
    ensures forall k :: k in rooms && k != key ==> s.rooms[k] == rooms[k]
    ensures key !in rooms || SymbolOf(rooms[key].players, sid) == None ==> s == Step(rooms, [])
    ensures key in rooms && SymbolOf(rooms[key].players, sid) == Some(Other(rooms[key].turn)) ==>
      s == Step(rooms, [Send(Requester, Invalid(NotYourTurn))])
    ensures key in rooms && SymbolOf(rooms[key].players, sid) == Some(rooms[key].turn)
            && !IsFree(rooms[key].board, index) ==>
      s == Step(rooms, [Send(Requester, Invalid(CellOccupied))])
    ensures key in rooms && SymbolOf(rooms[key].players, sid) == Some(rooms[key].turn)
            && IsFree(rooms[key].board, index) ==>
      var after := s.rooms[key];
      && after.players == rooms[key].players
      && after.turn == Other(rooms[key].turn)
      && |after.board| == |rooms[key].board|
      && after.board[index] == Marked(rooms[key].turn)
      && (forall i :: 0 <= i < |after.board| && i != index ==> after.board[i] == rooms[key].board[i])
      && s.out == [Send(Everyone(key), UpdateBoard(after.board, MovedMessage(rooms[key].turn)))]
    ensures key in rooms ==> KeepsMarks(rooms[key].board, s.rooms[key].board)
  {
    if key !in rooms then Step(rooms, [])
    else
      var room := rooms[key];
      match SymbolOf(room.players, sid)
      case None => Step(rooms, [])
      case Some(symbol) =>
        if room.turn != symbol then
          Step(rooms, [Send(Requester, Invalid(NotYourTurn))])
        else if !IsFree(room.board, index) then
          Step(rooms, [Send(Requester, Invalid(CellOccupied))])
        else
          var board := room.board[index := Marked(symbol)];
          Step(rooms[key := Room(board, room.players, Other(room.turn))],
               [Send(Everyone(key), UpdateBoard(board, MovedMessage(symbol)))])
  }

  // -------------------------------------------------------------- disconnect

  /** A room after `sid` left it. */
  function Leave(room: Room, sid: SocketId): (r: Room)
    ensures r.board == room.board && r.turn == room.turn
    ensures sid in room.players ==> multiset(r.players) == multiset(room.players) - multiset{sid}
    ensures sid !in room.players ==> r == room
  {
    room.(players := RemoveFirst(room.players, sid))
  }

  /** `sid` sits in `room` and was its only remaining player: leaving empties
      a room exactly when `sid` is its sole player. */
  predicate Emptied(room: Room, sid: SocketId)
    ensures Emptied(room, sid) <==> room.players == [sid]
  {
    sid in room.players && |RemoveFirst(room.players, sid)| == 0
  }

  /** The registry after the disconnect loop has visited the keys in `done`. */
  function LeaveRooms(rooms: map<RoomKey, Room>, sid: SocketId, done: set<RoomKey>): map<RoomKey, Room>
  {
    map k | k in rooms && !(k in done && Emptied(rooms[k], sid)) ::
      if k in done then Leave(rooms[k], sid) else rooms[k]
  }

  /** A key the disconnect loop has not visited yet still holds its room. */
  lemma LeaveRoomsPending(rooms: map<RoomKey, Room>, sid: SocketId, done: set<RoomKey>, key: RoomKey)
    requires key in rooms && key !in done
    ensures key in LeaveRooms(rooms, sid, done) && LeaveRooms(rooms, sid, done)[key] == rooms[key]
  {
  }

  /** Visiting one more key `key` of the disconnect loop. */
  lemma LeaveRoomsStep(rooms: map<RoomKey, Room>, sid: SocketId, done: set<RoomKey>, key: RoomKey)
    requires key in rooms && key !in done
    ensures LeaveRooms(rooms, sid, done + {key}) ==
      if Emptied(rooms[key], sid) then LeaveRooms(rooms, sid, done) - {key}
      else LeaveRooms(rooms, sid, done)[key := Leave(rooms[key], sid)]
  {
  }

  /** The `disconnect` handler's effect on the registry: no room appears; a
      room without `sid` is untouched; a room holding `sid` loses exactly one
      occurrence of it (the first), keeps its board and turn, and is deleted
      exactly when `sid` was its only player. */
  function Disconnect(rooms: map<RoomKey, Room>, sid: SocketId): (r: map<RoomKey, Room>)
    ensures r.Keys <= rooms.Keys
    ensures forall k :: k in rooms && sid !in rooms[k].players ==> k in r && r[k] == rooms[k]
    ensures forall k :: k in rooms && sid in rooms[k].players ==> (k !in r <==> rooms[k].players == [sid])
    ensures forall k :: k in r ==>
      && r[k].board == rooms[k].board
      && r[k].turn == rooms[k].turn
      && r[k].players == RemoveFirst(rooms[k].players, sid)
      && multiset(r[k].players) == multiset(rooms[k].players) - multiset{sid}
  {
    LeaveRooms(rooms, sid, rooms.Keys)
  }

  /** The room stored under `key` after `disconnect`, when `sid` was not its
      only player. */
  lemma DisconnectAt(rooms: map<RoomKey, Room>, sid: SocketId, key: RoomKey)
    requires key in rooms && !Emptied(rooms[key], sid)
    ensures key in Disconnect(rooms, sid) && Disconnect(rooms, sid)[key] == Leave(rooms[key], sid)
  {
  }

  /** The `updateBoard` broadcasts the disconnect loop sends when it has
      visited the keys in `done`: one per visited room that held `sid`, with
      that room's (unchanged) board. */
  function Notices(rooms: map<RoomKey, Room>, sid: SocketId, done: set<RoomKey>): set<Outbound>
  {
    set k | k in rooms && k in done && sid in rooms[k].players ::
      Send(Everyone(k), UpdateBoard(rooms[k].board, DisconnectedMessage))
  }

  lemma NoticesStep(rooms: map<RoomKey, Room>, sid: SocketId, done: set<RoomKey>, key: RoomKey)
    requires key in rooms && key !in done
    ensures Notices(rooms, sid, done + {key}) ==
      if sid in rooms[key].players
      then Notices(rooms, sid, done) + {Send(Everyone(key), UpdateBoard(rooms[key].board, DisconnectedMessage))}
      else Notices(rooms, sid, done)
  {
  }

  /** `out` holds, once each, exactly the broadcasts for the keys in `done`. */
  ghost predicate NoticesSent(rooms: map<RoomKey, Room>, sid: SocketId, done: set<RoomKey>, out: seq<Outbound>)
  {
    && (forall e :: e in out <==> e in Notices(rooms, sid, done))
    && (forall i :: 0 <= i < |out| ==> out[i].to.Everyone? && out[i].to.key in done)
    && Distinct(out)
  }

  lemma NoticesSentStep(rooms: map<RoomKey, Room>, sid: SocketId, done: set<RoomKey>, key: RoomKey,
                        out: seq<Outbound>, sent: seq<Outbound>)
    requires key in rooms && key !in done
    requires NoticesSent(rooms, sid, done, out)
    requires sent == if sid in rooms[key].players
                     then [Send(Everyone(key), UpdateBoard(rooms[key].board, DisconnectedMessage))]
                     else []
    ensures NoticesSent(rooms, sid, done + {key}, out + sent)
  {
    NoticesStep(rooms, sid, done, key);
  }

  /** All broadcasts of one `disconnect`. */
  function DisconnectNotices(rooms: map<RoomKey, Room>, sid: SocketId): set<Outbound>
  {
    Notices(rooms, sid, rooms.Keys)
  }

  /** Every event of `out` occurs once. */
  predicate Distinct<T(==)>(out: seq<T>)
  {
    forall i, j :: 0 <= i < j < |out| ==> out[i] != out[j]
  }

  // ------------------------------------------------------------------ lemmas

  lemma {:induction false} CountSplit(board: seq<Cell>, k: nat, m: Mark)
    requires k <= |board|
    ensures Count(board, m) == Count(board[..k], m) + Count(board[k..], m)
  {
    if k < |board| {
      var n := |board|;
      CountSplit(board[..n - 1], k, m);
      assert board[..n - 1][..k] == board[..k];
      assert board[..n - 1][k..] == board[k..n - 1];
      assert board[k..][..|board[k..]| - 1] == board[k..n - 1];
    } else {
      assert board[..k] == board;
    }
  }

  /** Writing mark `m` into a free cell adds one `m` and leaves the count of
      the other mark alone. */
  lemma PlaceCounts(board: seq<Cell>, index: int, m: Mark)
    requires IsFree(board, index)
    ensures Count(board[index := Marked(m)], m) == Count(board, m) + 1
    ensures Count(board[index := Marked(m)], Other(m)) == Count(board, Other(m))
  {
    var after := board[index := Marked(m)];
    forall q: Mark
      ensures Count(after, q) == Count(board, q) + (if q == m then 1 else 0)
    {
      CountSplit(board, index, q);
      CountSplit(after, index, q);
      CountSplit(board[index..], 1, q);
      CountSplit(after[index..], 1, q);
      assert after[..index] == board[..index];
      assert after[index..][1..] == board[index..][1..];
      assert board[index..][..1] == [Empty];
      assert after[index..][..1] == [Marked(m)];
      assert [Empty][..0] == [];
      assert [Marked(m)][..0] == [];
    }
  }

  lemma {:induction false} CountEmptyBoard(n: nat, m: Mark)
    ensures Count(seq(n, _ => Empty), m) == 0
  {
    if n > 0 {
      CountEmptyBoard(n - 1, m);
      assert seq(n, _ => Empty)[..n - 1] == seq(n - 1, _ => Empty);
    }
  }

  /** A room fresh from `joinRoom` satisfies the room invariant. */
  lemma NewRoomOk(sid: SocketId)
    ensures RoomOk(Room(EmptyBoard(), [sid], X))
  {
    CountEmptyBoard(9, X);
    CountEmptyBoard(9, O);
  }

  lemma JoinKeepsInvariant(rooms: map<RoomKey, Room>, key: RoomKey, sid: SocketId)
    requires RegistryOk(rooms)
    ensures RegistryOk(Join(rooms, key, sid).rooms)
  {
    NewRoomOk(sid);
  }

  lemma PlayKeepsInvariant(rooms: map<RoomKey, Room>, key: RoomKey, sid: SocketId, index: int)
    requires RegistryOk(rooms)
    ensures RegistryOk(Play(rooms, key, sid, index).rooms)
  {
    var s := Play(rooms, key, sid, index);
    if key in rooms && SymbolOf(rooms[key].players, sid) == Some(rooms[key].turn)
       && IsFree(rooms[key].board, index) {
      var m := rooms[key].turn;
      PlaceCounts(rooms[key].board, index, m);
      assert s.rooms[key].board == rooms[key].board[index := Marked(m)];
      assert Other(m) == if m == X then O else X;
    }
  }

  lemma DisconnectKeepsInvariant(rooms: map<RoomKey, Room>, sid: SocketId)
    requires RegistryOk(rooms)
    ensures RegistryOk(Disconnect(rooms, sid))
  {
    var r := Disconnect(rooms, sid);
    forall k | k in r ensures RoomOk(r[k]) {
      if sid in rooms[k].players {
        assert rooms[k].players != [sid];
      }
    }
  }
}
