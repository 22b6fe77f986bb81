/** The current client's room page: the state `Room.jsx` owns together with the handlers of its
    `VideoPlayer`, `UserNameEditor` and `FileUploader` children, the socket handlers, and the
    `<video>` element they drive. Messages the page emits are appended to `sent`. */
module RoomPage {
  import opened Wrappers
  import opened JsText
  import opened Protocol
  import opened RoomLogic
  import opened FileAcceptance
  import opened Media
  import RoomServer

  /** The file picked in the upload input. */
  datatype SelectedFile = SelectedFile(name: string, mimeType: string)

  /** The component state `Room.jsx` and its children keep with `useState`; every setter replaces
      one of these values. */
  datatype PageState = PageState(
    userName: string, loading: bool, error: string, videoInfo: Option<VideoInfo>,
    viewers: seq<Viewer>, chat: seq<ChatMessage>, messageInput: string,
    isPlaying: bool, currentTime: real, duration: real, volume: real,
    isUploading: bool, uploadProgress: int, editing: bool, draftName: string)

  /** The socket object: its `id` is absent until it connects. */
  datatype Socket = Socket(id: Option<SocketId>)

  /** Everything a handler may change, the element's fields included, as one value. */
  datatype PageView = PageView(
    ui: PageState, socket: Option<Socket>, remoteAction: bool, pendingPlays: nat, pendingClears: nat,
    cookies: map<string, string>, storage: map<string, string>, sent: seq<ClientMessage>,
    videoTime: real, videoPaused: bool, videoMuted: bool, videoVolume: real)

  /** Whether a new `videoInfo` gives the element a new source: the element was not mounted before,
      or its path changed. */
  predicate SourceChanged(wasMounted: bool, previous: Option<VideoInfo>, now: Option<VideoInfo>)
  {
    !wasMounted || previous.None? || now.None? || previous.value.path != now.value.path
  }

  /** The state after a non-blank save of `name`: the name is kept and written to the room cookie
      and, with a socket, announced, applied to this socket's roster entries and noted in the chat.
      A changed name re-runs the connection effect: a new socket that has not connected yet. */
  function Saved(v: PageView, roomId: RoomId, name: string, now: int): PageView
  {
    var ui := v.ui.(editing := false, userName := name);
    var cookies := v.cookies[CookieKey(roomId) := name];
    if v.socket.None? then v.(ui := ui, cookies := cookies)
    else
      var own := v.socket.value.id;
      v.(ui := ui.(viewers := if own.Some? then Renamed(v.ui.viewers, own.value, name) else v.ui.viewers,
                   chat := v.ui.chat + [RenameNotice(v.ui.userName, name, now)]),
         cookies := cookies,
         sent := v.sent + [UserNameChanged(roomId, v.ui.userName, name)],
         socket := if name != v.ui.userName then Some(Socket(None)) else v.socket)
  }

  class Page {
    const roomId: RoomId
    const video: VideoElement

    var ui: PageState
    /** `socketRef.current`: absent until the connection effect has run. */
    var socket: Option<Socket>
    /** `isRemoteActionRef.current`. */
    var remoteAction: bool
    /** `play()` calls of a remote play whose promise has not settled yet; each schedules a
        flag-clearing timer when it settles. */
    var pendingPlays: nat
    /** Flag-clearing timers scheduled and not yet fired. */
    var pendingClears: nat
    var cookies: map<string, string>
    var storage: map<string, string>
    /** Every message emitted on the socket, in order. */
    var sent: seq<ClientMessage>

    function View(): PageView
      reads this, video
    {
      PageView(ui, socket, remoteAction, pendingPlays, pendingClears, cookies, storage, sent,
               video.currentTime, video.paused, video.muted, video.volume)
    }

    /** The suppression flag is only ever set together with a timer that will clear it, or with a
        `play()` whose settling will schedule one. */
    predicate Valid()
      reads this
    {
      remoteAction ==> pendingPlays > 0 || pendingClears > 0
    }

    /** The `<video>` element is rendered: the room has loaded without error and has a video. */
    predicate HasVideo()
      reads this
    {
      !ui.loading && ui.error == "" && ui.videoInfo.Some?
    }

    /** The element's listeners and the sync handler are attached: the element and the socket exist. */
    predicate Listening()
      reads this
    {
      HasVideo() && socket.Some?
    }

    /** The first render: the user name resolved from the cookie, the navigation state or the
        default, and no socket yet. */
    constructor (roomId: RoomId, cookies: map<string, string>, navName: string, storage: map<string, string>)
      ensures this.roomId == roomId && fresh(video) && Valid()
      ensures var (name, jar) := ResolveUserName(cookies, roomId, navName);
        View() == PageView(PageState(name, true, "", None, [], [], "", false, 0.0, 0.0, 1.0, false, 0, false, ""),
                           None, false, 0, 0, jar, storage, [], 0.0, true, false, 1.0)
    {
      this.roomId := roomId;
      video := new VideoElement();
      var (name, jar) := ResolveUserName(cookies, roomId, navName);
      ui := PageState(name, true, "", None, [], [], "", false, 0.0, 0.0, 1.0, false, 0, false, "");
      socket, remoteAction, pendingPlays, pendingClears := None, false, 0, 0;
      this.cookies, this.storage, sent := jar, storage, [];
    }

    /** The connection effect: a socket exists from now on, not yet connected. */
    method Mount()
      modifies this
      ensures View() == old(View()).(socket := Some(Socket(None)))
    {
      socket := Some(Socket(None));
    }

    /** `connect`: join the room with the user name and the stored (or newly stored) visitor id. */
    method OnConnect(sid: SocketId, generated: string)
      modifies this
      ensures old(socket).None? ==> View() == old(View())
      ensures old(socket).Some? ==>
        var (vid, s) := VisitorIdFor(old(storage), generated);
        View() == old(View()).(socket := Some(Socket(Some(sid))), storage := s,
                               sent := old(sent) + [JoinRoom(roomId, old(ui).userName, Some(vid))])
    {
      if socket.Some? {
        var (vid, s) := VisitorIdFor(storage, generated);
        socket, storage := Some(Socket(Some(sid))), s;
        sent := sent + [JoinRoom(roomId, ui.userName, Some(vid))];
      }
    }

    /** What follows a new `videoInfo` object: a new source reloads the element, and the sync
        effect, which runs again for every new `videoInfo`, asks for the room's state. */
    method Present(wasMounted: bool, previous: Option<VideoInfo>)
      modifies this, video
      ensures var reload := HasVideo() && SourceChanged(wasMounted, previous, ui.videoInfo);
        View() == old(View()).(
          videoTime := if reload then 0.0 else old(video.currentTime),
          videoPaused := if reload then true else old(video.paused),
          sent := old(sent) + if Listening() then [RequestSync(roomId)] else [])
    {
      if HasVideo() {
        if SourceChanged(wasMounted, previous, ui.videoInfo) {
          video.Load();
        }
        if socket.Some? {
          sent := sent + [RequestSync(roomId)];
        }
      }
    }

    /** `roomState`: the room's video and roster replace the page's, and loading ends. The chat
        history the handler would copy is never sent by the server. */
    method OnRoomState(room: RoomServer.Room)
      modifies this, video
      ensures ui == old(ui).(loading := false, viewers := room.viewers, videoInfo := room.videoInfo)
      ensures var reload := HasVideo() && SourceChanged(old(HasVideo()), old(ui).videoInfo, room.videoInfo);
        View() == old(View()).(
          ui := ui,
          videoTime := if reload then 0.0 else old(video.currentTime),
          videoPaused := if reload then true else old(video.paused),
          sent := old(sent) + if Listening() then [RequestSync(roomId)] else [])
    {
      var wasMounted, previous := HasVideo(), ui.videoInfo;
      ui := ui.(loading := false, viewers := room.viewers, videoInfo := room.videoInfo);
      Present(wasMounted, previous);
    }

    /** `videoUpdated`: only the room's `videoInfo` changes. */
    method OnVideoUpdated(info: VideoInfo)
      modifies this, video
      ensures ui == old(ui).(videoInfo := Some(info))
      ensures var reload := HasVideo() && SourceChanged(old(HasVideo()), old(ui).videoInfo, Some(info));
        View() == old(View()).(
          ui := ui,
          videoTime := if reload then 0.0 else old(video.currentTime),
          videoPaused := if reload then true else old(video.paused),
          sent := old(sent) + if Listening() then [RequestSync(roomId)] else [])
    {
      var wasMounted, previous := HasVideo(), ui.videoInfo;
      ui := ui.(videoInfo := Some(info));
      Present(wasMounted, previous);
    }

    /** `userJoined`: appended to the roster. */
    method OnUserJoined(v: Viewer)
      modifies this
      ensures View() == old(View()).(ui := old(ui).(viewers := old(ui).viewers + [v]))
    {
      ui := ui.(viewers := ui.viewers + [v]);
    }

    /** `userLeft`: every entry bound to that socket is dropped. */
    method OnUserLeft(id: SocketId)
      modifies this
      ensures View() == old(View()).(ui := old(ui).(viewers := WithoutId(old(ui).viewers, id)))
    {
      ui := ui.(viewers := WithoutId(ui.viewers, id));
    }

    /** `userNameChanged`: the entries bound to that socket are renamed. */
    method OnUserNameChanged(sid: SocketId, newName: string)
      modifies this
      ensures View() == old(View()).(ui := old(ui).(viewers := Renamed(old(ui).viewers, sid, newName)))
    {
      ui := ui.(viewers := Renamed(ui.viewers, sid, newName));
    }

    /** `error`: the message is shown instead of the room. */
    method OnError(message: string)
      modifies this
      ensures View() == old(View()).(ui := old(ui).(error := message, loading := false))
      ensures message != "" ==> !HasVideo()
    {
      ui := ui.(error := message, loading := false);
    }

    /** `newChatMessage`: appended to the chat. */
    method OnNewChatMessage(m: ChatMessage)
      modifies this
      ensures View() == old(View()).(ui := old(ui).(chat := old(ui).chat + [m]))
    {
      ui := ui.(chat := ui.chat + [m]);
    }

    /** The shared reconciliation of `playbackUpdate` and `syncPlayback`: seek when more than a
        second apart, then play or pause only where the element differs from the remote state. */
    method ApplyRemote(t: real, playing: bool, accepted: bool)
      modifies this, video
      requires Valid()
      ensures Valid()
      ensures var c := RemoteCommand(playing, old(video.paused));
        View() == old(View()).(
          videoTime := SeekedTime(old(video.currentTime), t),
          videoPaused := PausedAfter(old(video.paused), c, accepted),
          ui := old(ui).(isPlaying := if c == PlayCommand then true else if c == PauseCommand then false else old(ui).isPlaying),
          remoteAction := c != NoCommand || old(remoteAction),
          pendingPlays := old(pendingPlays) + if c == PlayCommand then 1 else 0,
          pendingClears := old(pendingClears) + if c == PauseCommand then 1 else 0)
    {
      if NeedsSeek(video.currentTime, t) {
        video.Seek(t);
      }
      Command(RemoteCommand(playing, video.paused), accepted);
    }

    /** The play or pause half of the reconciliation: the page shows the new state and the flag is
        raised before the element is told. A pause schedules the timer that clears the flag at once;
        a play schedules it only when the `play()` promise settles. */
    method Command(c: Command, accepted: bool)
      modifies this, video
      requires Valid()
      ensures Valid()
      ensures View() == old(View()).(
          videoPaused := PausedAfter(old(video.paused), c, accepted),
          ui := old(ui).(isPlaying := if c == PlayCommand then true else if c == PauseCommand then false else old(ui).isPlaying),
          remoteAction := c != NoCommand || old(remoteAction),
          pendingPlays := old(pendingPlays) + if c == PlayCommand then 1 else 0,
          pendingClears := old(pendingClears) + if c == PauseCommand then 1 else 0)
    {
      if c == PlayCommand {
        ui, remoteAction := ui.(isPlaying := true), true;
        var _ := video.Play(accepted);
        pendingPlays := pendingPlays + 1;
      } else if c == PauseCommand {
        ui, remoteAction := ui.(isPlaying := false), true;
        video.Pause();
        pendingClears := pendingClears + 1;
      }
    }

    /** Whether `initiator` is this page's own connected socket. */
    predicate IsOwn(initiator: SocketId)
      reads this
    {
      socket.Some? && socket.value.id == Some(initiator)
    }

    /** `playbackUpdate`: ignored without a video element or when this socket initiated it. */
    method OnPlaybackUpdate(u: PlaybackUpdate, accepted: bool)
      modifies this, video
      requires Valid()
      ensures Valid()
      ensures !old(HasVideo()) || old(IsOwn(u.initiator)) ==> View() == old(View())
      ensures old(HasVideo()) && !old(IsOwn(u.initiator)) ==>
        var c := RemoteCommand(u.isPlaying, old(video.paused));
        View() == old(View()).(
          videoTime := SeekedTime(old(video.currentTime), u.currentTime),
          videoPaused := PausedAfter(old(video.paused), c, accepted),
          ui := old(ui).(isPlaying := if c == PlayCommand then true else if c == PauseCommand then false else old(ui).isPlaying),
          remoteAction := c != NoCommand || old(remoteAction),
          pendingPlays := old(pendingPlays) + if c == PlayCommand then 1 else 0,
          pendingClears := old(pendingClears) + if c == PauseCommand then 1 else 0)
    {
      if !HasVideo() || IsOwn(u.initiator) {
        return;
      }
      ApplyRemote(u.currentTime, u.isPlaying, accepted);
    }

    /** `syncPlayback`: handled while the element and the socket exist; there is no initiator to
        compare. */
    method OnSyncPlayback(state: PlaybackState, accepted: bool)
      modifies this, video
      requires Valid()
      ensures Valid()
      ensures !old(Listening()) ==> View() == old(View())
      ensures old(Listening()) ==>
        var c := RemoteCommand(state.isPlaying, old(video.paused));
        View() == old(View()).(
          videoTime := SeekedTime(old(video.currentTime), state.currentTime),
          videoPaused := PausedAfter(old(video.paused), c, accepted),
          ui := old(ui).(isPlaying := if c == PlayCommand then true else if c == PauseCommand then false else old(ui).isPlaying),
          remoteAction := c != NoCommand || old(remoteAction),
          pendingPlays := old(pendingPlays) + if c == PlayCommand then 1 else 0,
          pendingClears := old(pendingClears) + if c == PauseCommand then 1 else 0)
    {
      if Listening() {
        ApplyRemote(state.currentTime, state.isPlaying, accepted);
      }
    }

    /** The `play()` promise of a remote play settles, resolved or rejected: its `finally` schedules
        the timer that clears the flag. */
    method PlaySettles()
      modifies this
      requires Valid() && pendingPlays > 0
      ensures Valid()
      ensures View() == old(View()).(pendingPlays := old(pendingPlays) - 1, pendingClears := old(pendingClears) + 1)
    {
      pendingPlays, pendingClears := pendingPlays - 1, pendingClears + 1;
    }

    /** A flag-clearing timer fires: the flag is cleared, whichever remote action raised it. */
    method FlagTimerFires()
      modifies this
      requires Valid() && pendingClears > 0
      ensures Valid()
      ensures View() == old(View()).(remoteAction := false, pendingClears := old(pendingClears) - 1)
    {
      remoteAction, pendingClears := false, pendingClears - 1;
    }

    /** The element's `play` event: the page shows playing and, unless the flag is raised, tells the
        room, with the element's position. */
    method PlayEvent()
      modifies this
      ensures !old(Listening()) ==> View() == old(View())
      ensures old(Listening()) ==>
        View() == old(View()).(ui := old(ui).(isPlaying := true),
          sent := old(sent) + if old(remoteAction) then [] else [PlaybackControl(roomId, "play", video.currentTime, Some(true))])
    {
      if Listening() {
        ui := ui.(isPlaying := true);
        if !remoteAction {
          sent := sent + [PlaybackControl(roomId, "play", video.currentTime, Some(true))];
        }
      }
    }

    /** The element's `pause` event, symmetric to `play`. */
    method PauseEvent()
      modifies this
      ensures !old(Listening()) ==> View() == old(View())
      ensures old(Listening()) ==>
        View() == old(View()).(ui := old(ui).(isPlaying := false),
          sent := old(sent) + if old(remoteAction) then [] else [PlaybackControl(roomId, "pause", video.currentTime, Some(false))])
    {
      if Listening() {
        ui := ui.(isPlaying := false);
        if !remoteAction {
          sent := sent + [PlaybackControl(roomId, "pause", video.currentTime, Some(false))];
        }
      }
    }

    /** `timeupdate`: the displayed position follows the element. */
    method TimeUpdate()
      modifies this
      ensures View() == old(View()).(ui := if old(Listening()) then old(ui).(currentTime := video.currentTime) else old(ui))
    {
      if Listening() {
        ui := ui.(currentTime := video.currentTime);
      }
    }

    /** `durationchange`, with the element's new duration. */
    method DurationChange(d: real)
      modifies this
      ensures View() == old(View()).(ui := if old(Listening()) then old(ui).(duration := d) else old(ui))
    {
      if Listening() {
        ui := ui.(duration := d);
      }
    }

    /** `ended`: only the local state is updated. */
    method Ended()
      modifies this
      ensures View() == old(View()).(ui := if old(Listening()) then old(ui).(isPlaying := false) else old(ui))
    {
      if Listening() {
        ui := ui.(isPlaying := false);
      }
    }

    /** `canplay`: ask for the room's state again. */
    method CanPlay()
      modifies this
      ensures View() == old(View()).(sent := old(sent) + if old(Listening()) then [RequestSync(roomId)] else [])
    {
      if Listening() {
        sent := sent + [RequestSync(roomId)];
      }
    }

    method TypeMessage(text: string)
      modifies this
      ensures View() == old(View()).(ui := old(ui).(messageInput := text))
    {
      ui := ui.(messageInput := text);
    }

    /** `handleSendMessage`: blank input is kept and nothing is sent; otherwise the trimmed text is
        sent under the user's name and the input is cleared. Without a socket the emit throws
        before the input is cleared. */
    method SendMessage()
      modifies this
      ensures ChatSubmission(old(ui).messageInput).None? || old(socket).None? ==> View() == old(View())
      ensures var text := ChatSubmission(old(ui).messageInput);
        text.Some? && old(socket).Some? ==>
        View() == old(View()).(ui := old(ui).(messageInput := ""),
                               sent := old(sent) + [SendChat(roomId, text.value, old(ui).userName)])
    {
      var text := ChatSubmission(ui.messageInput);
      if text.Some? && socket.Some? {
        sent := sent + [SendChat(roomId, text.value, ui.userName)];
        ui := ui.(messageInput := "");
      }
    }

    /** `handlePlayPause`: a paused element is asked to play, and only once it does is the page
        marked playing and the room told; a playing element is paused and the room told at once. */
    method ClickPlayPause(accepted: bool)
      modifies this, video
      ensures !old(Listening()) ==> View() == old(View())
      ensures old(Listening()) && old(video.paused) ==>
        View() == old(View()).(
          videoPaused := !accepted,
          ui := old(ui).(isPlaying := accepted || old(ui).isPlaying),
          sent := old(sent) + if accepted then [PlaybackControl(roomId, "play", old(video.currentTime), Some(true))] else [])
      ensures old(Listening()) && !old(video.paused) ==>
        View() == old(View()).(
          videoPaused := true, ui := old(ui).(isPlaying := false),
          sent := old(sent) + [PlaybackControl(roomId, "pause", old(video.currentTime), Some(false))])
    {
      if !Listening() {
        return;
      }
      if video.paused {
        var resolved := video.Play(accepted);
        if resolved {
          ui := ui.(isPlaying := true);
          sent := sent + [PlaybackControl(roomId, "play", video.currentTime, Some(true))];
        }
      } else {
        video.Pause();
        ui := ui.(isPlaying := false);
        sent := sent + [PlaybackControl(roomId, "pause", video.currentTime, Some(false))];
      }
    }

    /** `handleSeekTo`: the displayed and the element's position both become `t`, and one `seek`
        without a play state is sent. */
    method SeekTo(t: real)
      modifies this, video
      ensures !old(HasVideo()) ==> View() == old(View())
      ensures old(HasVideo()) ==>
        View() == old(View()).(ui := old(ui).(currentTime := t), videoTime := t,
          sent := old(sent) + if old(socket).Some? then [PlaybackControl(roomId, "seek", t, None)] else [])
    {
      if !HasVideo() {
        return;
      }
      ui := ui.(currentTime := t);
      video.Seek(t);
      if socket.Some? {
        sent := sent + [PlaybackControl(roomId, "seek", t, None)];
      }
    }

    /** `toggleMute`: the element's muted flag flips and the slider shows 0 or 1; the element's own
        volume is left as it was. */
    method ToggleMute()
      modifies this, video
      ensures !old(HasVideo()) ==> View() == old(View())
      ensures old(HasVideo()) ==>
        View() == old(View()).(videoMuted := !old(video.muted),
                               ui := old(ui).(volume := if old(video.muted) then 1.0 else 0.0))
    {
      if !HasVideo() {
        return;
      }
      video.SetMuted(!video.muted);
      ui := ui.(volume := if video.muted then 0.0 else 1.0);
    }

    /** `handleVolumeChange`. */
    method ChangeVolume(v: real)
      modifies this, video
      ensures !old(HasVideo()) ==> View() == old(View())
      ensures old(HasVideo()) ==> View() == old(View()).(ui := old(ui).(volume := v), videoVolume := v)
    {
      if !HasVideo() {
        return;
      }
      ui := ui.(volume := v);
      video.SetVolume(v);
    }

    /** The icon of the mute button; without an element the muted test reads `undefined`. */
    function Icon(): VolumeIcon
      reads this, video
    {
      VolumeIconFor(HasVideo() && video.muted, ui.volume)
    }

    /** `handleEditUserName`: the editor opens on the current name. */
    method EditName()
      modifies this
      ensures View() == old(View()).(ui := old(ui).(editing := true, draftName := old(ui).userName))
    {
      ui := ui.(editing := true, draftName := ui.userName);
    }

    method TypeName(text: string)
      modifies this
      ensures View() == old(View()).(ui := old(ui).(draftName := text))
    {
      ui := ui.(draftName := text);
    }

    /** `handleSaveUserName`: a blank draft only closes the editor; otherwise the trimmed name is
        saved. */
    method SaveName(now: int)
      modifies this
      ensures Trim(old(ui).draftName) == "" ==> View() == old(View()).(ui := old(ui).(editing := false))
      ensures Trim(old(ui).draftName) != "" ==> View() == Saved(old(View()), roomId, Trim(old(ui).draftName), now)
    {
      var name := Trim(ui.draftName);
      if name == "" {
        CancelEdit();
      } else {
        Save(name, now);
      }
    }

    /** A non-blank save of the trimmed `name`. */
    method Save(name: string, now: int)
      modifies this
      ensures View() == Saved(old(View()), roomId, name, now)
    {
      var oldName := ui.userName;
      ui := ui.(editing := false, userName := name);
      cookies := cookies[CookieKey(roomId) := name];
      if socket.Some? {
        var own := socket.value.id;
        sent := sent + [UserNameChanged(roomId, oldName, name)];
        ui := ui.(viewers := if own.Some? then Renamed(ui.viewers, own.value, name) else ui.viewers,
                  chat := ui.chat + [RenameNotice(oldName, name, now)]);
        if name != oldName {
          socket := Some(Socket(None));
        }
      }
    }

    /** `handleCancelEditName`. */
    method CancelEdit()
      modifies this
      ensures View() == old(View()).(ui := old(ui).(editing := false))
    {
      ui := ui.(editing := false);
    }

    /** `handleFileUpload` up to the request: nothing happens without a file or for a refused
        one; otherwise the upload starts at 0%. */
    method SelectFile(f: Option<SelectedFile>)
      modifies this
      ensures f.Some? && Accepted(f.value.name, f.value.mimeType) ==>
        View() == old(View()).(ui := old(ui).(isUploading := true, uploadProgress := 0))
      ensures f.None? || !Accepted(f.value.name, f.value.mimeType) ==> View() == old(View())
    {
      if f.None? || !Accepted(f.value.name, f.value.mimeType) {
        return;
      }
      ui := ui.(isUploading := true, uploadProgress := 0);
    }

    /** The request's `progress` event: the rounded percentage, when the length is known. */
    method UploadProgress(lengthComputable: bool, loaded: nat, total: nat)
      modifies this
      requires lengthComputable ==> total > 0
      ensures View() == old(View()).(ui := if lengthComputable then old(ui).(uploadProgress := Progress(loaded, total)) else old(ui))
      ensures lengthComputable && loaded <= total ==> 0 <= ui.uploadProgress <= 100
    {
      if lengthComputable {
        ui := ui.(uploadProgress := Progress(loaded, total));
      }
    }

    /** The request's `load` event: status 200 ends the upload and shows the returned video; any
        other status only ends the upload. */
    method UploadLoaded(status: int, info: VideoInfo)
      modifies this, video
      ensures status != 200 ==> View() == old(View()).(ui := old(ui).(isUploading := false))
      ensures status == 200 ==> ui == old(ui).(isUploading := false, videoInfo := Some(info))
      ensures status == 200 ==>
        var reload := HasVideo() && SourceChanged(old(HasVideo()), old(ui).videoInfo, Some(info));
        View() == old(View()).(
          ui := ui,
          videoTime := if reload then 0.0 else old(video.currentTime),
          videoPaused := if reload then true else old(video.paused),
          sent := old(sent) + if Listening() then [RequestSync(roomId)] else [])
    {
      if status != 200 {
        ui := ui.(isUploading := false);
        return;
      }
      var wasMounted, previous := HasVideo(), ui.videoInfo;
      ui := ui.(isUploading := false, videoInfo := Some(info));
      Present(wasMounted, previous);
    }

    /** The request's `error` event. */
    method UploadFailed()
      modifies this
      ensures View() == old(View()).(ui := old(ui).(isUploading := false))
    {
      ui := ui.(isUploading := false);
    }
  }

  /** A page that has connected as `sid` and received a room with a video: the element is loaded,
      paused at the start, and the page has sent its join and one sync request. */
  method WatchingPage(roomId: RoomId, sid: SocketId, room: RoomServer.Room) returns (p: Page)
    requires room.videoInfo.Some?
    ensures fresh(p) && fresh(p.video) && p.Valid() && p.roomId == roomId
    ensures p.Listening() && p.IsOwn(sid) && !p.remoteAction
    ensures p.video.paused && p.video.currentTime == 0.0
    ensures |p.sent| == 2 && p.sent[1] == RequestSync(roomId)
  {
    p := new Page(roomId, map[], "", map[]);
    p.Mount();
    p.OnConnect(sid, "visitor");
    p.OnRoomState(room);
  }

  /** A remote play from another socket starts the paused element, and the `play` event that
      follows sends nothing back: the suppression flag is up until its timer fires. */
  method RemotePlayIsNotEchoed(roomId: RoomId, sid: SocketId, other: SocketId, room: RoomServer.Room, t: real)
    returns (echo: seq<ClientMessage>, playing: bool)
    requires room.videoInfo.Some? && other != sid
    ensures echo == [] && playing
  {
    var p := WatchingPage(roomId, sid, room);
    var before := p.sent;
    p.OnPlaybackUpdate(PlaybackUpdate("play", t, true, other), true);
    p.PlayEvent();
    echo, playing := p.sent[|before|..], p.ui.isPlaying && !p.video.paused;
  }

  /** Once the remote play has settled and its timer has cleared the flag, a local pause is reported to the room again. */
  method PauseAfterTimerIsSent(roomId: RoomId, sid: SocketId, other: SocketId, room: RoomServer.Room)
    returns (out: seq<ClientMessage>)
    requires room.videoInfo.Some? && other != sid
    ensures out == [PlaybackControl(roomId, "pause", 0.0, Some(false))]
  {
    var p := WatchingPage(roomId, sid, room);
    p.OnPlaybackUpdate(PlaybackUpdate("play", 0.0, true, other), true);
    p.PlaySettles();
    p.FlagTimerFires();
    var before := p.sent;
    p.video.Pause();
    p.PauseEvent();
    out := p.sent[|before|..];
  }

  /** Clicking play on a paused element sends the same `play` message twice: once from the
      element's `play` event, whose flag is clear, and once when `play()` resolves. */
  method ClickPlayEmitsTwice(roomId: RoomId, sid: SocketId, room: RoomServer.Room) returns (out: seq<ClientMessage>)
    requires room.videoInfo.Some?
    ensures var m := PlaybackControl(roomId, "play", 0.0, Some(true)); out == [m, m]
  {
    var p := WatchingPage(roomId, sid, room);
    var before := p.sent;
    p.ClickPlayPause(true);
    p.PlayEvent();
    out := p.sent[|before|..];
  }

  /** An update this socket initiated changes nothing, whatever it says. */
  method OwnUpdateIgnored(roomId: RoomId, sid: SocketId, room: RoomServer.Room, u: PlaybackUpdate)
    returns (paused: bool, time: real, out: seq<ClientMessage>)
    requires room.videoInfo.Some? && u.initiator == sid
    ensures paused && time == 0.0 && out == []
  {
    var p := WatchingPage(roomId, sid, room);
    var before := p.sent;
    p.OnPlaybackUpdate(u, true);
    paused, time, out := p.video.paused, p.video.currentTime, p.sent[|before|..];
  }
}
