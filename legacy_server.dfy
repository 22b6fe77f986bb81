/** The earlier server of the `chillsync/` tree: rooms carry only a host, the roster has no visitor
    ids, every join appends, and `playbackControl` switches on the action. */
module LegacyServer {
  import opened Wrappers
  import opened Protocol
  import opened Search
  import opened ObjectKeys

  datatype LegacyViewer = LegacyViewer(id: SocketId, name: string, joinedAt: int)

  datatype LegacyRoom = LegacyRoom(id: RoomId, host: string, createdAt: int, viewers: seq<LegacyViewer>,
                                   videoInfo: Option<VideoInfo>, playbackState: PlaybackState)

  datatype LegacyChat = LegacyChat(id: int, sender: string, message: string, timestamp: int)

  datatype Reply = Created(roomId: RoomId) | Found(room: LegacyRoom) | Uploaded(videoInfo: VideoInfo) | NotFound | NoFile

  datatype Event =
    | RoomState(room: LegacyRoom)
    | Error(message: string)
    | UserJoined(viewer: LegacyViewer)
    | UserLeft(id: SocketId, name: string)
    | PlaybackUpdated(update: PlaybackUpdate)
    | NewChatMessage(chat: LegacyChat)
    | SyncPlayback(state: PlaybackState)
    | VideoUpdated(videoInfo: VideoInfo)

  /** The `switch (action)` of `playbackControl`: `play` and `pause` set the flag and take
      `currentTime || previous`; `seek` keeps the flag and takes the given time, zero included;
      any other action leaves the state, its timestamp included, as it was. */
  function NextPlayback(prev: PlaybackState, action: string, currentTime: real, now: int): (next: PlaybackState)
    ensures action == "play" ==> next.isPlaying && next.lastUpdated == now
    ensures action == "pause" ==> !next.isPlaying && next.lastUpdated == now
    ensures action == "play" || action == "pause" ==> next.currentTime == TimeOr(currentTime, prev.currentTime)
    ensures action == "seek" ==> next == PlaybackState(prev.isPlaying, currentTime, now)
    ensures action != "play" && action != "pause" && action != "seek" ==> next == prev
  {
    match action
    case "play" => PlaybackState(true, TimeOr(currentTime, prev.currentTime), now)
    case "pause" => PlaybackState(false, TimeOr(currentTime, prev.currentTime), now)
    case "seek" => PlaybackState(prev.isPlaying, currentTime, now)
    case _ => prev
  }

  /** The `playbackUpdate` both variants broadcast reports the stored state. */
  function Broadcast(action: string, state: PlaybackState, initiator: SocketId): PlaybackUpdate
  {
    PlaybackUpdate(action, state.currentTime, state.isPlaying, initiator)
  }

  function BySocket(id: SocketId): LegacyViewer -> bool
  {
    (v: LegacyViewer) => v.id == id
  }

  /** A join is undone by the same socket's disconnect, provided the socket was not already on the roster. */
  lemma DisconnectUndoesJoin(viewers: seq<LegacyViewer>, v: LegacyViewer)
    requires forall j :: 0 <= j < |viewers| ==> viewers[j].id != v.id
    ensures WithoutFirst(viewers + [v], BySocket(v.id)) == viewers
  {
    var s := viewers + [v];
    assert BySocket(v.id)(s[|viewers|]);
    assert forall j :: 0 <= j < |viewers| ==> !BySocket(v.id)(s[j]);
    assert FirstIndex(s, BySocket(v.id)) == |viewers|;
  }

  /** The room loop of `disconnect` as a fold over the visited room ids. */
  function LeftRooms(rooms: map<RoomId, LegacyRoom>, ids: seq<RoomId>, socketId: SocketId): map<RoomId, LegacyRoom>
  {
    if ids == [] then rooms
    else
      var last := ids[|ids| - 1];
      var visited := LeftRooms(rooms, ids[..|ids| - 1], socketId);
      if last in rooms then visited[last := rooms[last].(viewers := WithoutFirst(rooms[last].viewers, BySocket(socketId)))]
      else visited
  }

  function LeftNotice(room: LegacyRoom, roomId: RoomId, socketId: SocketId): seq<Outgoing<Event>>
  {
    var i := FirstIndex(room.viewers, BySocket(socketId));
    if i == -1 then [] else [Send(ToRoomExcept(roomId, socketId), UserLeft(socketId, room.viewers[i].name))]
  }

  function LeftNotices(rooms: map<RoomId, LegacyRoom>, ids: seq<RoomId>, socketId: SocketId): seq<Outgoing<Event>>
  {
    if ids == [] then []
    else
      var last := ids[|ids| - 1];
      LeftNotices(rooms, ids[..|ids| - 1], socketId) + (if last in rooms then LeftNotice(rooms[last], last, socketId) else [])
  }

  lemma {:induction false} LeftRoomsUntouched(rooms: map<RoomId, LegacyRoom>, ids: seq<RoomId>, socketId: SocketId, k: RoomId)
    requires k in rooms && k !in ids
    ensures k in LeftRooms(rooms, ids, socketId) && LeftRooms(rooms, ids, socketId)[k] == rooms[k]
  {
    if ids != [] {
      LeftRoomsUntouched(rooms, ids[..|ids| - 1], socketId, k);
    }
  }

  /** Every visited room loses its first entry bound to the socket, and only that. */
  lemma {:induction false} LeftRoomsAt(rooms: map<RoomId, LegacyRoom>, ids: seq<RoomId>, socketId: SocketId)
    ensures var r := LeftRooms(rooms, ids, socketId);
      && r.Keys == rooms.Keys
      && forall k :: k in r ==>
           r[k] == if k in ids then rooms[k].(viewers := WithoutFirst(rooms[k].viewers, BySocket(socketId))) else rooms[k]
  {
    if ids != [] {
      var init := ids[..|ids| - 1];
      LeftRoomsAt(rooms, init, socketId);
      assert forall k :: k in ids <==> k in init || k == ids[|ids| - 1];
    }
  }

  class Server {
    var rooms: map<RoomId, LegacyRoom>
    /** `Object.keys(rooms)`: the room ids in the order a plain object lists its keys. */
    var order: seq<RoomId>
    var outbox: seq<Outgoing<Event>>

    ghost predicate Valid()
      reads this
    {
      && (forall i, j :: 0 <= i < j < |order| ==> order[i] != order[j])
      && (forall k :: k in rooms <==> k in order)
      && KeysOrdered(order)
      && (forall k :: k in rooms ==> rooms[k].id == k)
    }

    constructor ()
      ensures Valid()
      ensures rooms == map[] && order == [] && outbox == []
    {
      rooms, order, outbox := map[], [], [];
    }

    /** `POST /api/rooms`: a room with only a host (`'Anonymous'` when blank), no viewers, no video,
        paused at 0. */
    method CreateRoom(roomId: RoomId, hostName: string, now: int) returns (reply: Reply)
      requires Valid()
      modifies this
      ensures Valid()
      ensures rooms == old(rooms)[roomId := LegacyRoom(roomId, if hostName == "" then "Anonymous" else hostName, now, [],
                                                       None, PlaybackState(false, 0.0, now))]
      ensures order == if roomId in old(rooms) then old(order) else Insert(old(order), roomId)
      ensures outbox == old(outbox) && reply == Created(roomId)
    {
      if roomId !in rooms {
        InsertKeepsKeys(order, roomId);
        InsertKeepsOrder(order, roomId);
        order := Insert(order, roomId);
      }
      var host := if hostName != "" then hostName else "Anonymous";
      rooms := rooms[roomId := LegacyRoom(roomId, host, now, [], None, PlaybackState(false, 0.0, now))];
      reply := Created(roomId);
    }

    method GetRoom(roomId: RoomId) returns (reply: Reply)
      ensures roomId in rooms ==> reply == Found(rooms[roomId])
      ensures roomId !in rooms ==> reply == NotFound
    {
      if roomId in rooms {
        reply := Found(rooms[roomId]);
      } else {
        reply := NotFound;
      }
    }

    /** `POST /api/rooms/:roomId/upload`, as in the current server. */
    method UploadVideo(roomId: RoomId, file: Option<StoredFile>, now: int) returns (reply: Reply)
      requires Valid()
      modifies this
      ensures Valid() && order == old(order)
      ensures roomId !in old(rooms) ==> reply == NotFound && rooms == old(rooms) && outbox == old(outbox)
      ensures roomId in old(rooms) && file.None? ==> reply == NoFile && rooms == old(rooms) && outbox == old(outbox)
      ensures roomId in old(rooms) && file.Some? ==>
        var info := VideoInfoOf(file.value);
        && reply == Uploaded(info)
        && rooms == old(rooms)[roomId := old(rooms)[roomId].(videoInfo := Some(info),
                                                               playbackState := PlaybackState(false, 0.0, now))]
        && outbox == old(outbox) + [Send(ToRoom(roomId), VideoUpdated(info))]
    {
      if roomId !in rooms {
        return NotFound;
      }
      if file.None? {
        return NoFile;
      }
      var info := VideoInfoOf(file.value);
      rooms := rooms[roomId := rooms[roomId].(videoInfo := Some(info), playbackState := PlaybackState(false, 0.0, now))];
      outbox := outbox + [Send(ToRoom(roomId), VideoUpdated(info))];
      reply := Uploaded(info);
    }

    /** `joinRoom`: every join appends a new entry, gets the room state and is announced to the rest. */
    method JoinRoom(socketId: SocketId, roomId: RoomId, userName: string, now: int)
      requires Valid()
      modifies this
      ensures Valid() && order == old(order)
      ensures roomId !in old(rooms) ==>
        rooms == old(rooms) && outbox == old(outbox) + [Send(ToSocket(socketId), Error("Room not found"))]
      ensures roomId in old(rooms) ==>
        var viewer := LegacyViewer(socketId, if userName == "" then "Anonymous" else userName, now);
        var room := old(rooms)[roomId].(viewers := old(rooms)[roomId].viewers + [viewer]);
        && rooms == old(rooms)[roomId := room]
        && outbox == old(outbox) + [Send(ToSocket(socketId), RoomState(room)), Send(ToRoomExcept(roomId, socketId), UserJoined(viewer))]
    {
      if roomId !in rooms {
        outbox := outbox + [Send(ToSocket(socketId), Error("Room not found"))];
        return;
      }
      var viewer := LegacyViewer(socketId, if userName != "" then userName else "Anonymous", now);
      var room := rooms[roomId].(viewers := rooms[roomId].viewers + [viewer]);
      rooms := rooms[roomId := room];
      outbox := outbox + [Send(ToSocket(socketId), RoomState(room))];
      outbox := outbox + [Send(ToRoomExcept(roomId, socketId), UserJoined(viewer))];
    }

    /** `playbackControl`: the switch result is stored and broadcast to the whole room. */
    method PlaybackControl(socketId: SocketId, roomId: RoomId, action: string, currentTime: real, now: int)
      requires Valid()
      modifies this
      ensures Valid() && order == old(order)
      ensures roomId !in old(rooms) ==> rooms == old(rooms) && outbox == old(outbox)
      ensures roomId in old(rooms) ==>
        var next := NextPlayback(old(rooms)[roomId].playbackState, action, currentTime, now);
        && rooms == old(rooms)[roomId := old(rooms)[roomId].(playbackState := next)]
        && outbox == old(outbox) + [Send(ToRoom(roomId), PlaybackUpdated(Broadcast(action, next, socketId)))]
    {
      if roomId !in rooms {
        return;
      }
      var prev := rooms[roomId].playbackState;
      var next := prev;
      if action == "play" {
        next := PlaybackState(true, TimeOr(currentTime, prev.currentTime), now);
      } else if action == "pause" {
        next := PlaybackState(false, TimeOr(currentTime, prev.currentTime), now);
      } else if action == "seek" {
        next := PlaybackState(prev.isPlaying, currentTime, now);
      }
      rooms := rooms[roomId := rooms[roomId].(playbackState := next)];
      outbox := outbox + [Send(ToRoom(roomId), PlaybackUpdated(Broadcast(action, next, socketId)))];
    }

    /** `chatMessage`: relayed to the whole room, not stored. */
    method ChatMessage(roomId: RoomId, message: string, sender: string, now: int)
      requires Valid()
      modifies this
      ensures Valid() && rooms == old(rooms) && order == old(order)
      ensures outbox == old(outbox) +
        if roomId in rooms
        then [Send(ToRoom(roomId), NewChatMessage(LegacyChat(now, if sender == "" then "Anonymous" else sender, message, now)))]
        else []
    {
      if roomId !in rooms {
        return;
      }
      var chat := LegacyChat(now, if sender != "" then sender else "Anonymous", message, now);
      outbox := outbox + [Send(ToRoom(roomId), NewChatMessage(chat))];
    }

    /** `requestSync`: the stored state back to the requester only. */
    method RequestSync(socketId: SocketId, roomId: RoomId)
      requires Valid()
      modifies this
      ensures Valid() && rooms == old(rooms) && order == old(order)
      ensures outbox == old(outbox) +
        if roomId in rooms then [Send(ToSocket(socketId), SyncPlayback(rooms[roomId].playbackState))] else []
    {
      if roomId !in rooms {
        return;
      }
      outbox := outbox + [Send(ToSocket(socketId), SyncPlayback(rooms[roomId].playbackState))];
    }

    /** One room of `disconnect`: the first entry bound to the socket is spliced out and announced. */
    method LeaveRoom(socketId: SocketId, roomId: RoomId)
      requires roomId in rooms
      modifies this
      ensures order == old(order)
      ensures rooms == old(rooms)[roomId := old(rooms)[roomId].(viewers := WithoutFirst(old(rooms)[roomId].viewers, BySocket(socketId)))]
      ensures outbox == old(outbox) + LeftNotice(old(rooms)[roomId], roomId, socketId)
    {
      var room := rooms[roomId];
      var i := FindIndex(room.viewers, BySocket(socketId));
      if i != -1 {
        var viewer := room.viewers[i];
        rooms := rooms[roomId := room.(viewers := room.viewers[..i] + room.viewers[i + 1..])];
        outbox := outbox + [Send(ToRoomExcept(roomId, socketId), UserLeft(socketId, viewer.name))];
      }
    }

    /** The room loop of `disconnect`: every room, in key order, goes through `LeaveRoom`. */
    method LeaveRooms(socketId: SocketId)
      requires forall i :: 0 <= i < |order| ==> order[i] in rooms
      requires forall i, j :: 0 <= i < j < |order| ==> order[i] != order[j]
      modifies this
      ensures order == old(order)
      ensures rooms == LeftRooms(old(rooms), order, socketId)
      ensures outbox == old(outbox) + LeftNotices(old(rooms), order, socketId)
    {
      var i := 0;
      while i < |order|
        invariant 0 <= i <= |order|
        invariant order == old(order)
        invariant rooms == LeftRooms(old(rooms), order[..i], socketId)
        invariant outbox == old(outbox) + LeftNotices(old(rooms), order[..i], socketId)
      {
        var roomId := order[i];
        assert order[..i + 1][..i] == order[..i];
        assert roomId !in order[..i];
        LeftRoomsUntouched(old(rooms), order[..i], socketId, roomId);
        LeaveRoom(socketId, roomId);
        i := i + 1;
      }
      assert order[..i] == order;
    }

    /** `disconnect`: in every room, in key order, the first entry bound to the socket is removed and
        the rest of that room hears `userLeft`. */
    method Disconnect(socketId: SocketId)
      requires Valid()
      modifies this
      ensures Valid() && order == old(order) && rooms.Keys == old(rooms).Keys
      ensures forall k :: k in rooms ==>
        rooms[k] == old(rooms)[k].(viewers := WithoutFirst(old(rooms)[k].viewers, BySocket(socketId)))
      ensures outbox == old(outbox) + LeftNotices(old(rooms), old(order), socketId)
    {
      LeaveRooms(socketId);
      LeftRoomsAt(old(rooms), order, socketId);
    }
  }

  /** The same user joining a new room from two sockets is listed twice under the same name:
      nothing deduplicates. */
  method JoinTwiceListsTwice(roomId: RoomId, first: SocketId, second: SocketId, userName: string, now: int)
    returns (viewers: seq<LegacyViewer>)
    ensures |viewers| == 2
    ensures viewers[0].id == first && viewers[1].id == second && viewers[0].name == viewers[1].name
  {
    var server := new Server();
    var created := server.CreateRoom(roomId, "", now);
    server.JoinRoom(first, roomId, userName, now);
    server.JoinRoom(second, roomId, userName, now);
    viewers := server.rooms[roomId].viewers;
  }
}
