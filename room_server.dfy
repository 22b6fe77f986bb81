/** The room registry and room sessions of the current server: an in-memory `rooms` map that the
    HTTP routes and socket handlers update one message at a time, with every emit logged in `outbox`. */
module RoomServer {
  import opened Wrappers
  import opened JsText
  import opened Protocol
  import opened Search
  import opened ObjectKeys

  datatype Room = Room(id: RoomId, host: string, name: string, theme: string, createdAt: int,
                       viewers: seq<Viewer>, videoInfo: Option<VideoInfo>, playbackState: PlaybackState)

  /** One entry of the `GET /api/rooms` listing. */
  datatype RoomSummary = RoomSummary(id: RoomId, name: string, theme: string, host: string, createdAt: int,
                                     viewerCount: nat, hasVideo: bool)

  /** The HTTP replies of the room routes. */
  datatype Reply =
    | Created(roomId: RoomId, roomName: string, roomTheme: string)
    | Found(room: Room)
    | Listed(count: nat, rooms: seq<RoomSummary>)
    | Uploaded(videoInfo: VideoInfo)
    | NotFound
    | NoFile

  function Status(r: Reply): nat
  {
    match r
    case Created(_, _, _) => 201
    case NotFound => 404
    case NoFile => 400
    case _ => 200
  }

  /** The socket events the server emits. */
  datatype Event =
    | RoomState(room: Room)
    | Error(message: string)
    | UserJoined(viewer: Viewer)
    | UserLeft(id: SocketId, visitorId: Option<string>, name: string)
    | PlaybackUpdated(update: PlaybackUpdate)
    | NewChatMessage(chat: ChatMessage)
    | SyncPlayback(state: PlaybackState)
    | VideoUpdated(videoInfo: VideoInfo)

  /** What socket.io knows of a live socket: the visitor id its `joinRoom` stored and the rooms it joined. */
  datatype Connection = Connection(visitorId: Option<string>, rooms: set<RoomId>)

  /** A new room: no viewers, no video, paused at 0; a blank host, name or theme takes its default. */
  function NewRoom(roomId: RoomId, hostName: string, roomName: string, roomTheme: string, now: int): (r: Room)
    ensures r.id == roomId && r.createdAt == now
    ensures r.viewers == [] && r.videoInfo == None
    ensures r.playbackState == PlaybackState(false, 0.0, now)
    ensures r.host != "" && (hostName != "" ==> r.host == hostName) && (hostName == "" ==> r.host == "Anonymous")
    ensures r.name != "" && (roomName != "" ==> r.name == roomName) && (roomName == "" ==> r.name == "Untitled Planet")
    ensures r.theme != "" && (roomTheme != "" ==> r.theme == roomTheme) && (roomTheme == "" ==> r.theme == "General")
  {
    Room(roomId, Or(hostName, "Anonymous"), Or(roomName, "Untitled Planet"), Or(roomTheme, "General"),
         now, [], None, PlaybackState(false, 0.0, now))
  }

  function Summary(room: Room): RoomSummary
  {
    RoomSummary(room.id, room.name, room.theme, room.host, room.createdAt, |room.viewers|, room.videoInfo.Some?)
  }

  /** `Object.values(rooms).map(...)`: one summary per room, in key order, counting its viewers and
      flagging whether it has a video. */
  function Listing(rooms: map<RoomId, Room>, order: seq<RoomId>): (list: seq<RoomSummary>)
    requires forall i :: 0 <= i < |order| ==> order[i] in rooms
    ensures |list| == |order|
    ensures forall i :: 0 <= i < |list| ==>
      && list[i].id == rooms[order[i]].id
      && list[i].viewerCount == |rooms[order[i]].viewers|
      && (list[i].hasVideo <==> rooms[order[i]].videoInfo != None)
  {
    seq(|order|, i requires 0 <= i < |order| => Summary(rooms[order[i]]))
  }

  /** How `playbackControl` resolves `isPlaying`: an explicit flag wins; otherwise `play` plays,
      `pause` pauses and any other action keeps the previous value. */
  function ResolveIsPlaying(explicit: Option<bool>, action: string, previous: bool): (playing: bool)
    ensures explicit.Some? ==> playing == explicit.value
    ensures explicit.None? && action == "play" ==> playing
    ensures explicit.None? && action == "pause" ==> !playing
    ensures explicit.None? && action != "play" && action != "pause" ==> playing == previous
  {
    match explicit
    case Some(b) => b
    case None => if action == "play" then true else if action == "pause" then false else previous
  }

  /** The playback state `playbackControl` stores. A zero time is taken as "no time given", so a seek
      to the very start does not move the stored position. */
  function ControlledState(prev: PlaybackState, action: string, currentTime: real, isPlaying: Option<bool>,
                           now: int): (next: PlaybackState)
    ensures next.isPlaying == ResolveIsPlaying(isPlaying, action, prev.isPlaying)
    ensures currentTime != 0.0 ==> next.currentTime == currentTime
    ensures currentTime == 0.0 ==> next.currentTime == prev.currentTime
    ensures next.lastUpdated == now
  {
    PlaybackState(ResolveIsPlaying(isPlaying, action, prev.isPlaying), TimeOr(currentTime, prev.currentTime), now)
  }

  /** The `findIndex` predicates of `joinRoom` and `disconnect`. */
  function ByVisitor(visitorId: Option<string>): Viewer -> bool
  {
    (v: Viewer) => v.visitorId == visitorId
  }

  function BySocket(id: SocketId): Viewer -> bool
  {
    (v: Viewer) => v.id == id
  }

  /** No two roster entries share a visitor id. */
  ghost predicate UniqueVisitors(viewers: seq<Viewer>)
  {
    forall i, j :: 0 <= i < j < |viewers| ==> viewers[i].visitorId != viewers[j].visitorId
  }

  /** The viewer `joinRoom` appends for a visitor not yet in the room. */
  function Newcomer(socketId: SocketId, userName: string, visitorId: Option<string>, now: int): Viewer
  {
    Viewer(socketId, visitorId, Or(userName, "Anonymous"), now)
  }

  /** The roster after `joinRoom`: a visitor already present is rebound to the new socket, anyone else
      is appended. */
  function JoinedViewers(viewers: seq<Viewer>, socketId: SocketId, userName: string, visitorId: Option<string>,
                         now: int): seq<Viewer>
  {
    var i := FirstIndex(viewers, ByVisitor(visitorId));
    if i >= 0 then viewers[i := viewers[i].(id := socketId)]
    else viewers + [Newcomer(socketId, userName, visitorId, now)]
  }

  /** Joining never puts two entries with one visitor id in a room, and afterwards the joining
      visitor's entry is bound to the joining socket. */
  lemma JoinKeepsVisitorsUnique(viewers: seq<Viewer>, socketId: SocketId, userName: string,
                                visitorId: Option<string>, now: int)
    requires UniqueVisitors(viewers)
    ensures var r := JoinedViewers(viewers, socketId, userName, visitorId, now);
      && UniqueVisitors(r)
      && exists i :: 0 <= i < |r| && r[i].visitorId == visitorId && r[i].id == socketId
  {
    var r := JoinedViewers(viewers, socketId, userName, visitorId, now);
    var k := FirstIndex(viewers, ByVisitor(visitorId));
    if k >= 0 {
      assert r[k].visitorId == visitorId && r[k].id == socketId;
    } else {
      assert r[|viewers|].visitorId == visitorId && r[|viewers|].id == socketId;
      forall i, j | 0 <= i < j < |r| ensures r[i].visitorId != r[j].visitorId {
        if j == |viewers| {
          assert !ByVisitor(visitorId)(viewers[i]);
        }
      }
    }
  }

  /** A reconnecting visitor: only that entry's socket id changes, the roster keeps its length and
      every other entry. */
  lemma JoinRebindsKnownVisitor(viewers: seq<Viewer>, k: nat, socketId: SocketId, userName: string, now: int)
    requires UniqueVisitors(viewers)
    requires k < |viewers|
    ensures var r := JoinedViewers(viewers, socketId, userName, viewers[k].visitorId, now);
      && |r| == |viewers|
      && r[k] == viewers[k].(id := socketId)
      && forall j :: 0 <= j < |r| && j != k ==> r[j] == viewers[j]
  {
    var i := FirstIndex(viewers, ByVisitor(viewers[k].visitorId));
    assert ByVisitor(viewers[k].visitorId)(viewers[k]);
    assert i == k;
  }

  /** A visitor not in the room is appended as one new entry named `userName || 'Anonymous'`. */
  lemma JoinAppendsNewVisitor(viewers: seq<Viewer>, socketId: SocketId, userName: string,
                              visitorId: Option<string>, now: int)
    requires forall j :: 0 <= j < |viewers| ==> viewers[j].visitorId != visitorId
    ensures JoinedViewers(viewers, socketId, userName, visitorId, now)
            == viewers + [Viewer(socketId, visitorId, if userName == "" then "Anonymous" else userName, now)]
  {
  }

  /** `hasOtherConnection`: another live socket with the same visitor id is in the room. */
  predicate HasOtherConnection(sockets: map<SocketId, Connection>, socketId: SocketId, visitorId: Option<string>,
                               roomId: RoomId)
  {
    exists s :: s in sockets && s != socketId && sockets[s].visitorId == visitorId && roomId in sockets[s].rooms
  }

  /** `disconnect` leaves a room alone when the socket had a (truthy) visitor id and another live
      socket of that visitor is in the room. */
  predicate KeepsViewer(sockets: map<SocketId, Connection>, socketId: SocketId, roomId: RoomId)
  {
    && socketId in sockets
    && var visitorId := sockets[socketId].visitorId;
       visitorId.Some? && visitorId.value != "" && HasOtherConnection(sockets, socketId, visitorId, roomId)
  }

  /** A room after `disconnect`: unchanged when the viewer is kept, otherwise without the first
      viewer bound to the socket. */
  function DisconnectedRoom(room: Room, roomId: RoomId, socketId: SocketId, sockets: map<SocketId, Connection>): Room
  {
    if KeepsViewer(sockets, socketId, roomId) then room
    else room.(viewers := WithoutFirst(room.viewers, BySocket(socketId)))
  }

  /** The `userLeft` notice `disconnect` sends to the rest of one room, if it removed someone there. */
  function LeaveNotice(room: Room, roomId: RoomId, socketId: SocketId, sockets: map<SocketId, Connection>)
    : seq<Outgoing<Event>>
  {
    var i := FirstIndex(room.viewers, BySocket(socketId));
    if KeepsViewer(sockets, socketId, roomId) || i == -1 then []
    else [Send(ToRoomExcept(roomId, socketId), UserLeft(socketId, room.viewers[i].visitorId, room.viewers[i].name))]
  }

  /** The notices of `disconnect`, room by room in key order. */
  function LeaveNotices(rooms: map<RoomId, Room>, ids: seq<RoomId>, socketId: SocketId,
                        sockets: map<SocketId, Connection>): seq<Outgoing<Event>>
  {
    if ids == [] then []
    else
      var last := ids[|ids| - 1];
      LeaveNotices(rooms, ids[..|ids| - 1], socketId, sockets)
        + (if last in rooms then LeaveNotice(rooms[last], last, socketId, sockets) else [])
  }

  /** Removing any one entry keeps visitor ids unique. */
  lemma RemovalKeepsVisitorsUnique(viewers: seq<Viewer>, k: nat)
    requires UniqueVisitors(viewers) && k < |viewers|
    ensures UniqueVisitors(viewers[..k] + viewers[k + 1..])
  {
    var r := viewers[..k] + viewers[k + 1..];
    forall i, j | 0 <= i < j < |r| ensures r[i].visitorId != r[j].visitorId {
      var i' := if i < k then i else i + 1;
      var j' := if j < k then j else j + 1;
      assert r[i] == viewers[i'] && r[j] == viewers[j'];
    }
  }

  /** `disconnect` keeps a room's roster free of duplicate visitors, and removes at most one entry:
      the first one bound to the socket, keeping the others in order. */
  lemma DisconnectKeepsVisitorsUnique(room: Room, roomId: RoomId, socketId: SocketId,
                                      sockets: map<SocketId, Connection>)
    requires UniqueVisitors(room.viewers)
    ensures var r := DisconnectedRoom(room, roomId, socketId, sockets);
      && UniqueVisitors(r.viewers)
      && r == room.(viewers := r.viewers)
      && (|r.viewers| == |room.viewers| || |r.viewers| == |room.viewers| - 1)
  {
    var i := FirstIndex(room.viewers, BySocket(socketId));
    if !KeepsViewer(sockets, socketId, roomId) && i >= 0 {
      RemovalKeepsVisitorsUnique(room.viewers, i);
    }
  }

  /** Join, then disconnect with no surviving connection, then join again from a new socket: the room
      holds exactly one entry for the visitor, bound to the new socket. */
  lemma RejoinAfterLeave(room: Room, roomId: RoomId, first: SocketId, second: SocketId, userName: string,
                         visitorId: Option<string>, t1: int, t2: int, sockets: map<SocketId, Connection>)
    requires UniqueVisitors(room.viewers)
    requires forall j :: 0 <= j < |room.viewers| ==> room.viewers[j].id != first
    requires !KeepsViewer(sockets, first, roomId)
    ensures var joined := room.(viewers := JoinedViewers(room.viewers, first, userName, visitorId, t1));
      var left := DisconnectedRoom(joined, roomId, first, sockets);
      var rejoined := JoinedViewers(left.viewers, second, userName, visitorId, t2);
      && (forall j :: 0 <= j < |left.viewers| ==> left.viewers[j].visitorId != visitorId)
      && rejoined == left.viewers + [Newcomer(second, userName, visitorId, t2)]
  {
    var v := room.viewers;
    var r1 := JoinedViewers(v, first, userName, visitorId, t1);
    var k := FirstIndex(v, ByVisitor(visitorId));
    JoinKeepsVisitorsUnique(v, first, userName, visitorId, t1);
    // the visitor's entry is the only one bound to `first`
    var at := if k >= 0 then k else |v|;
    assert r1[at].visitorId == visitorId && r1[at].id == first;
    forall j | 0 <= j < |r1| && j != at ensures r1[j].id != first && r1[j].visitorId != visitorId {
      assert r1[j] == v[j];
    }
    var i := FirstIndex(r1, BySocket(first));
    assert BySocket(first)(r1[at]);
    assert i == at;
    var r2 := r1[..at] + r1[at + 1..];
    assert WithoutFirst(r1, BySocket(first)) == r2;
    forall j | 0 <= j < |r2| ensures r2[j].visitorId != visitorId {
      if j < at { assert r2[j] == r1[j]; } else { assert r2[j] == r1[j + 1]; }
    }
    JoinAppendsNewVisitor(r2, second, userName, visitorId, t2);
  }

  class Server {
    var rooms: map<RoomId, Room>
    /** `Object.keys(rooms)`: the room ids in the order a plain object lists its keys. */
    var order: seq<RoomId>
    /** `io.sockets.sockets`: the live sockets. */
    var sockets: map<SocketId, Connection>
    var outbox: seq<Outgoing<Event>>

    ghost predicate Valid()
      reads this
    {
      && (forall i, j :: 0 <= i < j < |order| ==> order[i] != order[j])
      && (forall k :: k in rooms <==> k in order)
      && KeysOrdered(order)
      && (forall k :: k in rooms ==> rooms[k].id == k && UniqueVisitors(rooms[k].viewers))
    }

    constructor ()
      ensures Valid()
      ensures rooms == map[] && order == [] && sockets == map[] && outbox == []
    {
      rooms, order, sockets, outbox := map[], [], map[], [];
    }

    /** Stores an updated room under its id. */
    method PutRoom(roomId: RoomId, room: Room)
      requires Valid() && roomId in rooms
      requires room.id == roomId && UniqueVisitors(room.viewers)
      modifies this
      ensures Valid()
      ensures rooms == old(rooms)[roomId := room]
      ensures order == old(order) && sockets == old(sockets) && outbox == old(outbox)
    {
      rooms := rooms[roomId := room];
    }

    /** `POST /api/rooms` with a room id drawn by the caller; an id already in use is overwritten
        in place. */
    method CreateRoom(roomId: RoomId, hostName: string, roomName: string, roomTheme: string, now: int)
      returns (reply: Reply)
      requires Valid()
      modifies this
      ensures Valid()
      ensures rooms == old(rooms)[roomId := NewRoom(roomId, hostName, roomName, roomTheme, now)]
      ensures order == if roomId in old(rooms) then old(order) else Insert(old(order), roomId)
      ensures sockets == old(sockets) && outbox == old(outbox)
      ensures reply == Created(roomId, rooms[roomId].name, rooms[roomId].theme) && Status(reply) == 201
    {
      if roomId !in rooms {
        InsertKeepsKeys(order, roomId);
        InsertKeepsOrder(order, roomId);
        order := Insert(order, roomId);
      }
      rooms := rooms[roomId := NewRoom(roomId, hostName, roomName, roomTheme, now)];
      reply := Created(roomId, rooms[roomId].name, rooms[roomId].theme);
    }

    /** `GET /api/rooms/:roomId`. */
    method GetRoom(roomId: RoomId) returns (reply: Reply)
      ensures roomId in rooms ==> reply == Found(rooms[roomId]) && Status(reply) == 200
      ensures roomId !in rooms ==> reply == NotFound && Status(reply) == 404
    {
      if roomId in rooms {
        reply := Found(rooms[roomId]);
      } else {
        reply := NotFound;
      }
    }

    /** `GET /api/rooms`: `count` is the number of summaries. */
    method ListRooms() returns (reply: Reply)
      requires Valid()
      ensures reply.Listed? && reply.count == |reply.rooms| == |rooms|
      ensures reply.rooms == Listing(rooms, order)
    {
      var summaries := Listing(rooms, order);
      assert rooms.Keys == set k | k in order;
      DistinctLength(order);
      reply := Listed(|summaries|, summaries);
    }

    /** `POST /api/rooms/:roomId/upload`: an unknown room is a 404 and a missing file a 400, both
        without any change; otherwise the room gets the video and its playback restarts, paused at 0. */
    method UploadVideo(roomId: RoomId, file: Option<StoredFile>, now: int) returns (reply: Reply)
      requires Valid()
      modifies this
      ensures Valid()
      ensures order == old(order) && sockets == old(sockets)
      ensures roomId !in old(rooms) ==> reply == NotFound && rooms == old(rooms) && outbox == old(outbox)
      ensures roomId in old(rooms) && file.None? ==> reply == NoFile && rooms == old(rooms) && outbox == old(outbox)
      ensures roomId in old(rooms) && file.Some? ==>
        var info := VideoInfoOf(file.value);
        && reply == Uploaded(info)
        && rooms == old(rooms)[roomId := old(rooms)[roomId].(videoInfo := Some(info),
                                                               playbackState := PlaybackState(false, 0.0, now))]
        && outbox == old(outbox) + [Send(ToRoom(roomId), VideoUpdated(info))]
    {
      if roomId !in rooms {
        return NotFound;
      }
      if file.None? {
        return NoFile;
      }
      var info := VideoInfoOf(file.value);
      rooms := rooms[roomId := rooms[roomId].(videoInfo := Some(info), playbackState := PlaybackState(false, 0.0, now))];
      outbox := outbox + [Send(ToRoom(roomId), VideoUpdated(info))];
      reply := Uploaded(info);
    }

    /** A new socket connects. */
    method Connect(socketId: SocketId)
      requires Valid() && socketId !in sockets
      modifies this
      ensures Valid()
      ensures sockets == old(sockets)[socketId := Connection(None, {})]
      ensures rooms == old(rooms) && order == old(order) && outbox == old(outbox)
    {
      sockets := sockets[socketId := Connection(None, {})];
    }

    /** `joinRoom`: an unknown room gets an error back to the requester and nothing changes. A visitor
        already in the room is rebound to this socket and only gets the room state; anyone else is
        appended, gets the room state, and the rest of the room hears `userJoined`. */
    method JoinRoom(socketId: SocketId, roomId: RoomId, userName: string, visitorId: Option<string>, now: int)
      requires Valid() && socketId in sockets
      modifies this
      ensures Valid()
      ensures order == old(order)
      ensures roomId !in old(rooms) ==>
        && rooms == old(rooms) && sockets == old(sockets)
        && outbox == old(outbox) + [Send(ToSocket(socketId), Error("Room not found"))]
      ensures roomId in old(rooms) ==>
        var before := old(rooms)[roomId].viewers;
        var room := old(rooms)[roomId].(viewers := JoinedViewers(before, socketId, userName, visitorId, now));
        var known := FirstIndex(before, ByVisitor(visitorId)) >= 0;
        && rooms == old(rooms)[roomId := room]
        && sockets == old(sockets)[socketId := Connection(visitorId, old(sockets)[socketId].rooms + {roomId})]
        && outbox == old(outbox) + [Send(ToSocket(socketId), RoomState(room))]
                     + (if known then []
                        else [Send(ToRoomExcept(roomId, socketId), UserJoined(Newcomer(socketId, userName, visitorId, now)))])
    {
      if roomId !in rooms {
        outbox := outbox + [Send(ToSocket(socketId), Error("Room not found"))];
        return;
      }
      sockets := sockets[socketId := Connection(visitorId, sockets[socketId].rooms + {roomId})];
      var room := rooms[roomId];
      JoinKeepsVisitorsUnique(room.viewers, socketId, userName, visitorId, now);
      var i := FindIndex(room.viewers, ByVisitor(visitorId));
      if i != -1 {
        room := room.(viewers := room.viewers[i := room.viewers[i].(id := socketId)]);
        PutRoom(roomId, room);
        outbox := outbox + [Send(ToSocket(socketId), RoomState(room))];
      } else {
        var viewer := Newcomer(socketId, userName, visitorId, now);
        room := room.(viewers := room.viewers + [viewer]);
        PutRoom(roomId, room);
        outbox := outbox + [Send(ToSocket(socketId), RoomState(room))];
        outbox := outbox + [Send(ToRoomExcept(roomId, socketId), UserJoined(viewer))];
      }
    }

    /** `playbackControl`: an unknown room is ignored; otherwise the resolved state replaces the
        room's and is broadcast to every socket in the room, the sender included, tagged with it. */
    method PlaybackControl(socketId: SocketId, roomId: RoomId, action: string, currentTime: real,
                           isPlaying: Option<bool>, now: int)
      requires Valid()
      modifies this
      ensures Valid()
      ensures order == old(order) && sockets == old(sockets)
      ensures roomId !in old(rooms) ==> rooms == old(rooms) && outbox == old(outbox)
      ensures roomId in old(rooms) ==>
        var next := ControlledState(old(rooms)[roomId].playbackState, action, currentTime, isPlaying, now);
        && rooms == old(rooms)[roomId := old(rooms)[roomId].(playbackState := next)]
        && outbox == old(outbox)
                     + [Send(ToRoom(roomId), PlaybackUpdated(PlaybackUpdate(action, next.currentTime, next.isPlaying, socketId)))]
    {
      if roomId !in rooms {
        return;
      }
      var prev := rooms[roomId].playbackState;
      var next := PlaybackState(ResolveIsPlaying(isPlaying, action, prev.isPlaying),
                                TimeOr(currentTime, prev.currentTime), now);
      rooms := rooms[roomId := rooms[roomId].(playbackState := next)];
      outbox := outbox + [Send(ToRoom(roomId), PlaybackUpdated(PlaybackUpdate(action, next.currentTime, next.isPlaying, socketId)))];
    }

    /** `chatMessage`: relayed to the whole room and not stored; an unknown room is ignored. */
    method ChatMessage(socketId: SocketId, roomId: RoomId, message: string, sender: string,
                       visitorId: Option<string>, now: int)
      requires Valid()
      modifies this
      ensures Valid()
      ensures rooms == old(rooms) && order == old(order) && sockets == old(sockets)
      ensures outbox == old(outbox) +
        if roomId in rooms
        then [Send(ToRoom(roomId), NewChatMessage(Protocol.ChatMessage(now, Or(sender, "Anonymous"), visitorId, message, now, false)))]
        else []
    {
      if roomId !in rooms {
        return;
      }
      var chat := Protocol.ChatMessage(now, Or(sender, "Anonymous"), visitorId, message, now, false);
      outbox := outbox + [Send(ToRoom(roomId), NewChatMessage(chat))];
    }

    /** `requestSync`: the stored playback state goes back to the requester only, and nothing changes. */
    method RequestSync(socketId: SocketId, roomId: RoomId)
      requires Valid()
      modifies this
      ensures Valid()
      ensures rooms == old(rooms) && order == old(order) && sockets == old(sockets)
      ensures outbox == old(outbox) +
        if roomId in rooms then [Send(ToSocket(socketId), SyncPlayback(rooms[roomId].playbackState))] else []
    {
      if roomId !in rooms {
        return;
      }
      outbox := outbox + [Send(ToSocket(socketId), SyncPlayback(rooms[roomId].playbackState))];
    }

    /** One room of `disconnect`: unless the visitor is still connected there, the first viewer bound
        to the socket is spliced out and the rest of the room hears `userLeft`. */
    method LeaveRoom(socketId: SocketId, roomId: RoomId)
      requires roomId in rooms
      modifies this
      ensures order == old(order) && sockets == old(sockets)
      ensures rooms == old(rooms)[roomId := DisconnectedRoom(old(rooms)[roomId], roomId, socketId, sockets)]
      ensures outbox == old(outbox) + LeaveNotice(old(rooms)[roomId], roomId, socketId, sockets)
    {
      var room := rooms[roomId];
      if KeepsViewer(sockets, socketId, roomId) {
        return;
      }
      var j := FindIndex(room.viewers, BySocket(socketId));
      if j != -1 {
        var viewer := room.viewers[j];
        rooms := rooms[roomId := room.(viewers := room.viewers[..j] + room.viewers[j + 1..])];
        outbox := outbox + [Send(ToRoomExcept(roomId, socketId), UserLeft(socketId, viewer.visitorId, viewer.name))];
      }
    }

    /** The room loop of `disconnect`: every room, in key order, goes through `LeaveRoom`. */
    method LeaveRooms(socketId: SocketId)
      requires forall i :: 0 <= i < |order| ==> order[i] in rooms
      requires forall i, j :: 0 <= i < j < |order| ==> order[i] != order[j]
      modifies this
      ensures order == old(order) && sockets == old(sockets)
      ensures rooms == DisconnectedRooms(old(rooms), order, socketId, sockets)
      ensures outbox == old(outbox) + LeaveNotices(old(rooms), order, socketId, sockets)
    {
      var i := 0;
      while i < |order|
        invariant 0 <= i <= |order|
        invariant order == old(order) && sockets == old(sockets)
        invariant rooms == DisconnectedRooms(old(rooms), order[..i], socketId, sockets)
        invariant outbox == old(outbox) + LeaveNotices(old(rooms), order[..i], socketId, sockets)
      {
        var roomId := order[i];
        assert order[..i + 1][..i] == order[..i];
        assert roomId !in order[..i];
        DisconnectedRoomsUntouched(old(rooms), order[..i], socketId, sockets, roomId);
        LeaveRoom(socketId, roomId);
        i := i + 1;
      }
      assert order[..i] == order;
    }

    /** `disconnect`: in every room, in key order, the first viewer bound to the socket is removed and
        the rest of that room hears `userLeft`, unless another live socket of the same visitor is in
        that room. The socket then leaves the live set. */
    method Disconnect(socketId: SocketId)
      requires Valid() && socketId in sockets
      modifies this
      ensures Valid()
      ensures order == old(order)
      ensures rooms.Keys == old(rooms).Keys
      ensures forall k :: k in rooms ==> rooms[k] == DisconnectedRoom(old(rooms)[k], k, socketId, old(sockets))
      ensures outbox == old(outbox) + LeaveNotices(old(rooms), old(order), socketId, old(sockets))
      ensures sockets == old(sockets) - {socketId}
    {
      LeaveRooms(socketId);
      DisconnectedRoomsAll(old(rooms), order, socketId, sockets);
      sockets := sockets - {socketId};
    }
  }

  /** The rooms after `disconnect` has visited the rooms `ids`, in that order. */
  function DisconnectedRooms(rooms: map<RoomId, Room>, ids: seq<RoomId>, socketId: SocketId,
                             sockets: map<SocketId, Connection>): map<RoomId, Room>
  {
    if ids == [] then rooms
    else
      var last := ids[|ids| - 1];
      var visited := DisconnectedRooms(rooms, ids[..|ids| - 1], socketId, sockets);
      if last in rooms then visited[last := DisconnectedRoom(rooms[last], last, socketId, sockets)] else visited
  }

  lemma {:induction false} DisconnectedRoomsUntouched(rooms: map<RoomId, Room>, ids: seq<RoomId>, socketId: SocketId,
                                               sockets: map<SocketId, Connection>, k: RoomId)
    requires k in rooms && k !in ids
    ensures k in DisconnectedRooms(rooms, ids, socketId, sockets)
    ensures DisconnectedRooms(rooms, ids, socketId, sockets)[k] == rooms[k]
  {
    if ids != [] {
      DisconnectedRoomsUntouched(rooms, ids[..|ids| - 1], socketId, sockets, k);
    }
  }

  /** When every room is visited, every room is disconnected and each roster keeps its visitors unique. */
  lemma DisconnectedRoomsAll(rooms: map<RoomId, Room>, ids: seq<RoomId>, socketId: SocketId,
                             sockets: map<SocketId, Connection>)
    requires forall k :: k in rooms <==> k in ids
    requires forall k :: k in rooms ==> rooms[k].id == k && UniqueVisitors(rooms[k].viewers)
    ensures var r := DisconnectedRooms(rooms, ids, socketId, sockets);
      && r.Keys == rooms.Keys
      && (forall k :: k in r ==> r[k] == DisconnectedRoom(rooms[k], k, socketId, sockets))
      && (forall k :: k in r ==> r[k].id == k && UniqueVisitors(r[k].viewers))
  {
    DisconnectedRoomsAt(rooms, ids, socketId, sockets);
    forall k | k in rooms
      ensures UniqueVisitors(DisconnectedRoom(rooms[k], k, socketId, sockets).viewers)
    {
      DisconnectKeepsVisitorsUnique(rooms[k], k, socketId, sockets);
    }
  }

  /** Each visited room is disconnected once, from its original state; the others are untouched. */
  lemma {:induction false} DisconnectedRoomsAt(rooms: map<RoomId, Room>, ids: seq<RoomId>, socketId: SocketId,
                                               sockets: map<SocketId, Connection>)
    ensures var r := DisconnectedRooms(rooms, ids, socketId, sockets);
      && r.Keys == rooms.Keys
      && forall k :: k in r ==> r[k] == if k in ids then DisconnectedRoom(rooms[k], k, socketId, sockets) else rooms[k]
  {
    if ids != [] {
      var init := ids[..|ids| - 1];
      DisconnectedRoomsAt(rooms, init, socketId, sockets);
      assert forall k :: k in ids <==> k in init || k == ids[|ids| - 1];
    }
  }

  /** A sequence without repeats has as many distinct elements as positions. */
  lemma {:induction false} DistinctLength<T>(s: seq<T>)
    requires forall i, j :: 0 <= i < j < |s| ==> s[i] != s[j]
    ensures |set x | x in s| == |s|
  {
    if s != [] {
      var t := s[..|s| - 1];
      DistinctLength(t);
      assert (set x | x in s) == (set x | x in t) + {s[|s| - 1]};
      assert s[|s| - 1] !in t;
    }
  }

  /** Asking for a sync twice, after a play at `t`, hands the requester the same stored state both
      times: playing, at `t` unless `t` is the falsy 0, which leaves the start position. */
  method SyncTwiceAgrees(roomId: RoomId, requester: SocketId, controller: SocketId, t: real, now: int)
    returns (first: Event, second: Event)
    ensures first == second
    ensures first == SyncPlayback(PlaybackState(true, t, now))
  {
    var server := new Server();
    var created := server.CreateRoom(roomId, "", "", "", now);
    assert server.order == [roomId];
    server.PlaybackControl(controller, roomId, "play", t, None, now);
    server.RequestSync(requester, roomId);
    first := server.outbox[|server.outbox| - 1].event;
    server.RequestSync(requester, roomId);
    second := server.outbox[|server.outbox| - 1].event;
  }
}
