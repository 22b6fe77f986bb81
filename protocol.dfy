/** The records and messages the room server and the browser clients exchange. */
module Protocol {
  import opened Wrappers

  type SocketId = string
  type RoomId = string

  /** A room's shared position; `lastUpdated` is the server clock (milliseconds) of the last change. */
  datatype PlaybackState = PlaybackState(isPlaying: bool, currentTime: real, lastUpdated: int)

  /** The descriptor of an uploaded video as the server stores and broadcasts it. */
  datatype VideoInfo = VideoInfo(fileName: string, originalName: string, mimeType: string, size: nat, path: string)

  /** The file multer stored for an upload request. */
  datatype StoredFile = StoredFile(filename: string, originalname: string, mimetype: string, size: nat)

  /** The descriptor both servers store for an uploaded file, served from `/uploads/`. */
  function VideoInfoOf(file: StoredFile): VideoInfo
  {
    VideoInfo(file.filename, file.originalname, file.mimetype, file.size, "/uploads/" + file.filename)
  }

  /** `currentTime || previous`: the falsy time 0 falls back to the stored one. */
  function TimeOr(t: real, previous: real): real
  {
    if t != 0.0 then t else previous
  }

  /** A roster entry: `id` is the socket of the current connection, `visitorId` the browser's stable id
      (the earlier server does not record one). */
  datatype Viewer = Viewer(id: SocketId, visitorId: Option<string>, name: string, joinedAt: int)

  /** A chat line; `isSystem` marks the notices a client adds to its own list. */
  datatype ChatMessage = ChatMessage(id: int, sender: string, visitorId: Option<string>, message: string,
                                     timestamp: int, isSystem: bool)

  /** The `playbackUpdate` broadcast: the room's state after a control message, tagged with its sender. */
  datatype PlaybackUpdate = PlaybackUpdate(action: string, currentTime: real, isPlaying: bool, initiator: SocketId)

  /** Who receives an emit: one socket (`socket.emit`), every socket in a room (`io.to(room)`),
      or every socket in a room but the sender (`socket.to(room)`). */
  datatype Audience = ToSocket(socket: SocketId) | ToRoom(room: RoomId) | ToRoomExcept(room: RoomId, except: SocketId)

  /** One emitted message, logged in the order the handlers emit them. */
  datatype Outgoing<E> = Send(to: Audience, event: E)

  /** What a client emits to the server. */
  datatype ClientMessage =
    | JoinRoom(roomId: RoomId, userName: string, visitorId: Option<string>)
    | PlaybackControl(roomId: RoomId, action: string, currentTime: real, isPlaying: Option<bool>)
    | SendChat(roomId: RoomId, message: string, sender: string)
    | RequestSync(roomId: RoomId)
    | UserNameChanged(roomId: RoomId, oldUserName: string, newUserName: string)
}
