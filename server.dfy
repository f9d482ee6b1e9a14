/** The socket handlers of the server, run against the one mutable `rooms`
    record. Each handler runs to completion before the next event is handled,
    so each method is one step on the registry; its contract ties the new
    registry and the emitted events to the functions of module Rooms. */
module Server {
  import opened Rooms

  class RoomRegistry {
    /** `rooms`: room key to board, players and turn. */
    var rooms: map<RoomKey, Room>

    ghost predicate Valid()
      reads this
    {
      RegistryOk(rooms)
    }

    /** The record starts empty. */
    constructor ()
      ensures rooms == map[]
      ensures Valid()
    {
      rooms := map[];
    }

    /** `socket.on("joinRoom", roomId)`. */
    method JoinRoom(sid: SocketId, key: RoomKey) returns (out: seq<Outbound>)
      requires Valid()
      modifies this
      ensures Valid()
      ensures Step(rooms, out) == Join(old(rooms), key, sid)
    {
      JoinKeepsInvariant(rooms, key, sid);
      if key !in rooms {
        var board := EmptyBoard();
        rooms := rooms[key := Room(board, [sid], X)];
        out := [Send(Requester, RoomJoined(X, board, WaitingMessage))];
        return;
      }
      var room := rooms[key];
      if |room.players| == 1 {
        room := room.(players := room.players + [sid]);
        rooms := rooms[key := room];
        out := [Send(Everyone(key), RoomJoined(O, room.board, StartedMessage)),
                Send(Everyone(key), UpdateBoard(room.board, StartedMessage))];
        return;
      }
      out := [Send(Requester, RoomFull)];
    }

    /** `socket.on("play", {roomId, index})`. */
    method Play(sid: SocketId, key: RoomKey, index: int) returns (out: seq<Outbound>)
      requires Valid()
      modifies this
      ensures Valid()
      ensures Step(rooms, out) == Rooms.Play(old(rooms), key, sid, index)
    {
      PlayKeepsInvariant(rooms, key, sid, index);
      out := [];
      if key !in rooms {
        return;
      }
      var room := rooms[key];
      var playerIndex := IndexOf(room.players, sid);
      var symbol := if playerIndex == 0 then Some(X) else if playerIndex == 1 then Some(O) else None;
      if symbol == None {
        return;
      }
      if room.turn != symbol.value {
        out := [Send(Requester, Invalid(NotYourTurn))];
        return;
      }
      if !(0 <= index < |room.board| && room.board[index] == Empty) {
        out := [Send(Requester, Invalid(CellOccupied))];
        return;
      }
      room := room.(board := room.board[index := Marked(symbol.value)]);
      room := room.(turn := if room.turn == X then O else X);
      rooms := rooms[key := room];
      out := [Send(Everyone(key), UpdateBoard(room.board, MovedMessage(symbol.value)))];
    }

    /** One pass of the disconnect loop: drop the first occurrence of `sid`
        from room `key`, tell that room, and delete it if nobody is left. */
    method LeaveRoom(sid: SocketId, key: RoomKey) returns (sent: seq<Outbound>)
      requires key in rooms
      modifies this
      ensures rooms == if Emptied(old(rooms)[key], sid) then old(rooms) - {key}
                       else old(rooms)[key := Leave(old(rooms)[key], sid)]
      ensures sent == if sid in old(rooms)[key].players
                      then [Send(Everyone(key), UpdateBoard(old(rooms)[key].board, DisconnectedMessage))]
                      else []
    {
      var room := rooms[key];
      var idx := IndexOf(room.players, sid);
      sent := [];
      if idx != -1 {
        room := room.(players := room.players[..idx] + room.players[idx + 1..]);
        assert room == Leave(old(rooms)[key], sid);
        rooms := rooms[key := room];
        sent := [Send(Everyone(key), UpdateBoard(room.board, DisconnectedMessage))];
        if |room.players| == 0 {
          rooms := rooms - {key};
        }
      }
    }

    /** `socket.on("disconnect")`: visit every room, drop the first occurrence
        of the socket, tell the room, and delete the room once it is empty.
        The events come out in the order the rooms are visited, which the
        contract leaves open. */
    method Disconnect(sid: SocketId) returns (out: seq<Outbound>)
      requires Valid()
      modifies this
      ensures Valid()
      ensures rooms == Rooms.Disconnect(old(rooms), sid)
      ensures forall e :: e in out <==> e in DisconnectNotices(old(rooms), sid)
      ensures Distinct(out)
    {
      DisconnectKeepsInvariant(rooms, sid);
      out := LeaveAllRooms(sid);
    }

    /** The loop over `Object.entries(rooms)` of the disconnect handler. */
    method LeaveAllRooms(sid: SocketId) returns (out: seq<Outbound>)
      modifies this
      ensures rooms == Rooms.Disconnect(old(rooms), sid)
      ensures NoticesSent(old(rooms), sid, old(rooms).Keys, out)
    {
      ghost var start := rooms;
      var pending := rooms.Keys;
      ghost var done: set<RoomKey> := {};
      out := [];
      while pending != {}
        invariant pending + done == start.Keys && pending !! done
        invariant rooms == LeaveRooms(start, sid, done)
        invariant NoticesSent(start, sid, done, out)
        decreases pending
      {
        var key :| key in pending;
        assert key in rooms && rooms[key] == start[key] by {
          LeaveRoomsPending(start, sid, done, key);
        }
        var sent := LeaveRoom(sid, key);
        assert rooms == LeaveRooms(start, sid, done + {key}) by {
          LeaveRoomsStep(start, sid, done, key);
        }
        assert NoticesSent(start, sid, done + {key}, out + sent) by {
          NoticesSentStep(start, sid, done, key, out, sent);
        }
        out := out + sent;
        pending := pending - {key};
        done := done + {key};
      }
      assert done == start.Keys;
    }
  }
}
