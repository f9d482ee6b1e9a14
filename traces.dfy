/** Runs of the server: any sequence of handler invocations, applied one after
    another to the registry, starting from the empty record the process
    begins with. */
module Traces {
  import opened Rooms

  /** One inbound socket event. */
  datatype Action =
    | JoinRoom(sid: SocketId, key: RoomKey)
    | PlayMove(sid: SocketId, key: RoomKey, index: int)
    | Disconnected(sid: SocketId)

  function Apply(rooms: map<RoomKey, Room>, a: Action): map<RoomKey, Room>
  {
    match a
    case JoinRoom(sid, key) => Join(rooms, key, sid).rooms
    case PlayMove(sid, key, index) => Play(rooms, key, sid, index).rooms
    case Disconnected(sid) => Disconnect(rooms, sid)
  }

  function Run(rooms: map<RoomKey, Room>, actions: seq<Action>): map<RoomKey, Room>
    decreases |actions|
  {
    if actions == [] then rooms else Run(Apply(rooms, actions[0]), actions[1..])
  }

  lemma ApplyKeepsInvariant(rooms: map<RoomKey, Room>, a: Action)
    requires RegistryOk(rooms)
    ensures RegistryOk(Apply(rooms, a))
  {
    match a
    case JoinRoom(sid, key) => JoinKeepsInvariant(rooms, key, sid);
    case PlayMove(sid, key, index) => PlayKeepsInvariant(rooms, key, sid, index);
    case Disconnected(sid) => DisconnectKeepsInvariant(rooms, sid);
  }

  /** Every room reachable from the empty registry has nine cells and one or
      two players, X leads O by zero or one marks, and the turn is X exactly
      when the counts are equal. */
  lemma {:induction false} RunKeepsInvariant(rooms: map<RoomKey, Room>, actions: seq<Action>)
    requires RegistryOk(rooms)
    ensures RegistryOk(Run(rooms, actions))
    decreases |actions|
  {
    if actions != [] {
      ApplyKeepsInvariant(rooms, actions[0]);
      RunKeepsInvariant(Apply(rooms, actions[0]), actions[1..]);
    }
  }

  lemma ReachableRoomsOk(actions: seq<Action>)
    ensures RegistryOk(Run(map[], actions))
  {
    RunKeepsInvariant(map[], actions);
  }

  /** No handler erases or overwrites a mark: a room present before and after
      one event keeps every non-null cell, and the board keeps its length. */
  lemma ApplyKeepsMarks(rooms: map<RoomKey, Room>, a: Action, k: RoomKey)
    requires k in rooms && k in Apply(rooms, a)
    ensures KeepsMarks(rooms[k].board, Apply(rooms, a)[k].board)
  {
    match a
    case JoinRoom(sid, key) =>
    case PlayMove(sid, key, index) =>
    case Disconnected(sid) =>
  }

  /** When the first of two players disconnects, the other one moves to
      position 0 and from then on plays "X", whatever it played before. */
  lemma SurvivorBecomesX(rooms: map<RoomKey, Room>, key: RoomKey, a: SocketId, b: SocketId)
    requires key in rooms && rooms[key].players == [a, b] && a != b
    ensures SymbolOf(rooms[key].players, b) == Some(O)
    ensures key in Disconnect(rooms, a)
    ensures SymbolOf(Disconnect(rooms, a)[key].players, b) == Some(X)
  {
    assert RemoveFirst([a, b], a) == [b] by {
      assert IndexOf([a, b], a) == 0;
      assert [a, b][..0] + [a, b][1..] == [b];
    }
    DisconnectAt(rooms, a, key);
  }

  /** A socket that joins its own room a second time is seated twice; its
      disconnect removes only one seat, so the room outlives the socket. */
  lemma SelfRejoinLeavesStaleRoom(rooms: map<RoomKey, Room>, key: RoomKey, s: SocketId)
    requires key !in rooms
    ensures var r := Disconnect(Join(Join(rooms, key, s).rooms, key, s).rooms, s);
      key in r && r[key].players == [s]
  {
    var twice := Join(Join(rooms, key, s).rooms, key, s).rooms;
    assert twice[key].players == [s, s];
    assert RemoveFirst([s, s], s) == [s] by {
      assert IndexOf([s, s], s) == 0;
      assert [s, s][..0] + [s, s][1..] == [s];
    }
    DisconnectAt(twice, s, key);
  }

  /** Two sockets open a room; the first marks cell 0 and the room is told of
      the new board; the first then tries cell 1 and alone hears "Not your
      turn", with the board left as it was. */
  lemma OpeningExchange(a: SocketId, b: SocketId, key: RoomKey)
    requires a != b
    ensures var r := Join(Join(map[], key, a).rooms, key, b).rooms;
      var moved := Play(r, key, a, 0);
      && moved.rooms[key].board == [Marked(X)] + EmptyBoard()[1..]
      && moved.rooms[key].turn == O
      && moved.out == [Send(Everyone(key), UpdateBoard(moved.rooms[key].board, "Player X moved"))]
      && Play(moved.rooms, key, a, 1) == Step(moved.rooms, [Send(Requester, Invalid(NotYourTurn))])
  {
    var r := Join(Join(map[], key, a).rooms, key, b).rooms;
    assert r[key] == Room(EmptyBoard(), [a, b], X);
    var moved := Play(r, key, a, 0);
    assert moved.rooms[key].board == [Marked(X)] + EmptyBoard()[1..];
    assert MovedMessage(X) == "Player X moved";
    assert SymbolOf(moved.rooms[key].players, a) == Some(X);
  }
}
