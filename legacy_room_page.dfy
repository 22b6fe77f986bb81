/** The earlier client's room page (`chillsync/client/src/pages/Room.jsx`): echo suppression by
    two one-shot flags instead of a timed one, a seek bar guarded by `isSeeking`, play and pause
    buttons that only drive the element, and the three-type upload check. */
module LegacyRoomPage {
  import opened Wrappers
  import opened JsText
  import opened Protocol
  import opened RoomLogic
  import opened FileAcceptance
  import opened Media
  import opened LegacyServer
  import RoomPage

  /** The component state kept with `useState`. */
  datatype LegacyState = LegacyState(
    loading: bool, error: string, videoInfo: Option<VideoInfo>,
    viewers: seq<LegacyViewer>, chat: seq<LegacyChat>, messageInput: string,
    currentTime: real, duration: real, isUploading: bool, uploadProgress: int)

  /** Everything a handler may change, the element's fields included, as one value. */
  datatype LegacyView = LegacyView(
    ui: LegacyState, socket: Option<RoomPage.Socket>,
    isPlaying: bool, isSeeking: bool, ignorePlay: bool, ignorePause: bool, sent: seq<ClientMessage>,
    videoTime: real, videoPaused: bool, videoMuted: bool, videoVolume: real)

  /** `userLeft`: `prev.filter(v => v.id !== id)`. */
  function Without(viewers: seq<LegacyViewer>, id: SocketId): (r: seq<LegacyViewer>)
    ensures |r| <= |viewers|
    ensures forall v :: v in r <==> v in viewers && v.id != id
  {
    if viewers == [] then []
    else if viewers[0].id == id then Without(viewers[1..], id)
    else [viewers[0]] + Without(viewers[1..], id)
  }

  class LegacyPage {
    const roomId: RoomId
    /** `location.state?.userName || 'Anonymous'`, fixed for the page's lifetime. */
    const userName: string
    const video: VideoElement

    var ui: LegacyState
    var socket: Option<RoomPage.Socket>
    /** `isPlayingRef.current`: written by the handlers, read by nothing. */
    var isPlaying: bool
    var isSeeking: bool
    /** `ignoreNextPlayEvent.current` and `ignorePauseEvent.current`. */
    var ignorePlay: bool
    var ignorePause: bool
    var sent: seq<ClientMessage>

    function View(): LegacyView
      reads this, video
    {
      LegacyView(ui, socket, isPlaying, isSeeking, ignorePlay, ignorePause, sent,
                 video.currentTime, video.paused, video.muted, video.volume)
    }

    /** The `<video>` element is rendered, and with it the element's listeners. */
    predicate HasVideo()
      reads this
    {
      !ui.loading && ui.error == "" && ui.videoInfo.Some?
    }

    predicate IsOwn(initiator: SocketId)
      reads this
    {
      socket.Some? && socket.value.id == Some(initiator)
    }

    /** The first render: the user name from the navigation state or `'Anonymous'`. */
    constructor (roomId: RoomId, navName: string)
      ensures this.roomId == roomId && fresh(video)
      ensures userName != "" && (navName != "" ==> userName == navName) && (navName == "" ==> userName == "Anonymous")
      ensures View() == LegacyView(LegacyState(true, "", None, [], [], "", 0.0, 0.0, false, 0),
                                   None, false, false, false, false, [], 0.0, true, false, 1.0)
    {
      this.roomId := roomId;
      userName := Or(navName, "Anonymous");
      video := new VideoElement();
      ui := LegacyState(true, "", None, [], [], "", 0.0, 0.0, false, 0);
      socket, isPlaying, isSeeking, ignorePlay, ignorePause, sent := None, false, false, false, false, [];
    }

    /** The connection effect. */
    method Mount()
      modifies this
      ensures View() == old(View()).(socket := Some(RoomPage.Socket(None)))
    {
      socket := Some(RoomPage.Socket(None));
    }

    /** `connect`: join with the user name and no visitor id. */
    method OnConnect(sid: SocketId)
      modifies this
      ensures old(socket).None? ==> View() == old(View())
      ensures old(socket).Some? ==>
        View() == old(View()).(socket := Some(RoomPage.Socket(Some(sid))),
                               sent := old(sent) + [JoinRoom(roomId, userName, None)])
    {
      if socket.Some? {
        socket := Some(RoomPage.Socket(Some(sid)));
        sent := sent + [JoinRoom(roomId, userName, None)];
      }
    }

    /** A new source reloads the element. */
    method Present(wasMounted: bool, previous: Option<VideoInfo>)
      modifies video
      ensures var reload := HasVideo() && RoomPage.SourceChanged(wasMounted, previous, ui.videoInfo);
        View() == old(View()).(videoTime := if reload then 0.0 else old(video.currentTime),
                               videoPaused := if reload then true else old(video.paused))
    {
      if HasVideo() && RoomPage.SourceChanged(wasMounted, previous, ui.videoInfo) {
        video.Load();
      }
    }

    /** `roomState`: the room's video and roster replace the page's, and loading ends. */
    method OnRoomState(room: LegacyRoom)
      modifies this, video
      ensures ui == old(ui).(loading := false, viewers := room.viewers, videoInfo := room.videoInfo)
      ensures var reload := HasVideo() && RoomPage.SourceChanged(old(HasVideo()), old(ui).videoInfo, room.videoInfo);
        View() == old(View()).(ui := ui,
                               videoTime := if reload then 0.0 else old(video.currentTime),
                               videoPaused := if reload then true else old(video.paused))
    {
      var wasMounted, previous := HasVideo(), ui.videoInfo;
      ui := ui.(loading := false, viewers := room.viewers, videoInfo := room.videoInfo);
      Present(wasMounted, previous);
    }

    /** `videoUpdated`: only the room's `videoInfo` changes. */
    method OnVideoUpdated(info: VideoInfo)
      modifies this, video
      ensures ui == old(ui).(videoInfo := Some(info))
      ensures var reload := HasVideo() && RoomPage.SourceChanged(old(HasVideo()), old(ui).videoInfo, Some(info));
        View() == old(View()).(ui := ui,
                               videoTime := if reload then 0.0 else old(video.currentTime),
                               videoPaused := if reload then true else old(video.paused))
    {
      var wasMounted, previous := HasVideo(), ui.videoInfo;
      ui := ui.(videoInfo := Some(info));
      Present(wasMounted, previous);
    }

    method OnUserJoined(v: LegacyViewer)
      modifies this
      ensures View() == old(View()).(ui := old(ui).(viewers := old(ui).viewers + [v]))
    {
      ui := ui.(viewers := ui.viewers + [v]);
    }

    method OnUserLeft(id: SocketId)
      modifies this
      ensures View() == old(View()).(ui := old(ui).(viewers := Without(old(ui).viewers, id)))
    {
      ui := ui.(viewers := Without(ui.viewers, id));
    }

    method OnError(message: string)
      modifies this
      ensures View() == old(View()).(ui := old(ui).(error := message, loading := false))
    {
      ui := ui.(error := message, loading := false);
    }

    method OnNewChatMessage(m: LegacyChat)
      modifies this
      ensures View() == old(View()).(ui := old(ui).(chat := old(ui).chat + [m]))
    {
      ui := ui.(chat := ui.chat + [m]);
    }

    /** `playbackUpdate`: ignored without an element or when this socket initiated it; otherwise
        seek when more than a second apart, then raise the matching one-shot flag before `play()`
        or `pause()`, only where the element differs from the remote state. */
    method OnPlaybackUpdate(u: PlaybackUpdate, accepted: bool)
      modifies this, video
      ensures !old(HasVideo()) || old(IsOwn(u.initiator)) ==> View() == old(View())
      ensures old(HasVideo()) && !old(IsOwn(u.initiator)) ==>
        var c := RemoteCommand(u.isPlaying, old(video.paused));
        View() == old(View()).(
          videoTime := SeekedTime(old(video.currentTime), u.currentTime),
          videoPaused := PausedAfter(old(video.paused), c, accepted),
          ignorePlay := old(ignorePlay) || c == PlayCommand,
          ignorePause := old(ignorePause) || c == PauseCommand)
    {
      if !HasVideo() || IsOwn(u.initiator) {
        return;
      }
      if NeedsSeek(video.currentTime, u.currentTime) {
        video.Seek(u.currentTime);
      }
      var c := RemoteCommand(u.isPlaying, video.paused);
      if c == PlayCommand {
        ignorePlay := true;
        var _ := video.Play(accepted);
      } else if c == PauseCommand {
        ignorePause := true;
        video.Pause();
      }
    }

    /** The element's `play` event: a raised flag is consumed and nothing is sent; otherwise the
        room is told, with the position and without a play state. Without a socket the emit throws. */
    method PlayEvent()
      modifies this
      ensures !old(HasVideo()) ==> View() == old(View())
      ensures old(HasVideo()) && old(ignorePlay) ==> View() == old(View()).(ignorePlay := false)
      ensures old(HasVideo()) && !old(ignorePlay) ==>
        View() == old(View()).(isPlaying := true,
          sent := old(sent) + if old(socket).Some? then [PlaybackControl(roomId, "play", video.currentTime, None)] else [])
    {
      if !HasVideo() {
        return;
      }
      if ignorePlay {
        ignorePlay := false;
        return;
      }
      isPlaying := true;
      if socket.Some? {
        sent := sent + [PlaybackControl(roomId, "play", video.currentTime, None)];
      }
    }

    /** The element's `pause` event, symmetric to `play`. */
    method PauseEvent()
      modifies this
      ensures !old(HasVideo()) ==> View() == old(View())
      ensures old(HasVideo()) && old(ignorePause) ==> View() == old(View()).(ignorePause := false)
      ensures old(HasVideo()) && !old(ignorePause) ==>
        View() == old(View()).(isPlaying := false,
          sent := old(sent) + if old(socket).Some? then [PlaybackControl(roomId, "pause", video.currentTime, None)] else [])
    {
      if !HasVideo() {
        return;
      }
      if ignorePause {
        ignorePause := false;
        return;
      }
      isPlaying := false;
      if socket.Some? {
        sent := sent + [PlaybackControl(roomId, "pause", video.currentTime, None)];
      }
    }

    /** `timeupdate`: the displayed position follows the element unless a seek is under way. */
    method TimeUpdate()
      modifies this
      ensures View() == old(View()).(ui := if old(HasVideo()) && !old(isSeeking) then old(ui).(currentTime := video.currentTime) else old(ui))
    {
      if HasVideo() && !isSeeking {
        ui := ui.(currentTime := video.currentTime);
      }
    }

    method DurationChange(d: real)
      modifies this
      ensures View() == old(View()).(ui := if old(HasVideo()) then old(ui).(duration := d) else old(ui))
    {
      if HasVideo() {
        ui := ui.(duration := d);
      }
    }

    method Ended()
      modifies this
      ensures View() == old(View()).(isPlaying := if old(HasVideo()) then false else old(isPlaying))
    {
      if HasVideo() {
        isPlaying := false;
      }
    }

    /** `handleSeekBarChange`: the displayed and the element's position become `t` and one `seek`
        is sent; `isSeeking` is down again afterwards, unless the emit threw for want of a socket. */
    method SeekBarChange(t: real)
      modifies this, video
      ensures !old(HasVideo()) ==> View() == old(View())
      ensures old(HasVideo()) && old(socket).Some? ==>
        View() == old(View()).(ui := old(ui).(currentTime := t), videoTime := t, isSeeking := false,
                               sent := old(sent) + [PlaybackControl(roomId, "seek", t, None)])
      ensures old(HasVideo()) && old(socket).None? ==>
        View() == old(View()).(ui := old(ui).(currentTime := t), videoTime := t, isSeeking := true)
    {
      if !HasVideo() {
        return;
      }
      isSeeking := true;
      ui := ui.(currentTime := t);
      video.Seek(t);
      if socket.Some? {
        sent := sent + [PlaybackControl(roomId, "seek", t, None)];
        isSeeking := false;
      }
    }

    /** `handlePlayPause`: only the element is driven; its events do the rest. */
    method ClickPlayPause(accepted: bool)
      modifies video
      ensures !old(HasVideo()) ==> View() == old(View())
      ensures old(HasVideo()) ==>
        View() == old(View()).(videoPaused := if old(video.paused) then !accepted else true)
    {
      if !HasVideo() {
        return;
      }
      if video.paused {
        var _ := video.Play(accepted);
      } else {
        video.Pause();
      }
    }

    /** `handleFileUpload` up to the request: only the three listed types start an upload. */
    method SelectFile(f: Option<RoomPage.SelectedFile>)
      modifies this
      ensures f.Some? && LegacyAccepted(f.value.mimeType) ==>
        View() == old(View()).(ui := old(ui).(isUploading := true, uploadProgress := 0))
      ensures f.None? || !LegacyAccepted(f.value.mimeType) ==> View() == old(View())
    {
      if f.None? || !LegacyAccepted(f.value.mimeType) {
        return;
      }
      ui := ui.(isUploading := true, uploadProgress := 0);
    }

    method UploadProgress(lengthComputable: bool, loaded: nat, total: nat)
      modifies this
      requires lengthComputable ==> total > 0
      ensures View() == old(View()).(ui := if lengthComputable then old(ui).(uploadProgress := Progress(loaded, total)) else old(ui))
    {
      if lengthComputable {
        ui := ui.(uploadProgress := Progress(loaded, total));
      }
    }

    /** The request's `load` event: status 200 shows the returned video. */
    method UploadLoaded(status: int, info: VideoInfo)
      modifies this, video
      ensures status != 200 ==> View() == old(View()).(ui := old(ui).(isUploading := false))
      ensures status == 200 ==> ui == old(ui).(isUploading := false, videoInfo := Some(info))
      ensures status == 200 ==>
        var reload := HasVideo() && RoomPage.SourceChanged(old(HasVideo()), old(ui).videoInfo, Some(info));
        View() == old(View()).(ui := ui,
                               videoTime := if reload then 0.0 else old(video.currentTime),
                               videoPaused := if reload then true else old(video.paused))
    {
      if status != 200 {
        ui := ui.(isUploading := false);
        return;
      }
      var wasMounted, previous := HasVideo(), ui.videoInfo;
      ui := ui.(isUploading := false, videoInfo := Some(info));
      Present(wasMounted, previous);
    }

    method UploadFailed()
      modifies this
      ensures View() == old(View()).(ui := old(ui).(isUploading := false))
    {
      ui := ui.(isUploading := false);
    }

    method TypeMessage(text: string)
      modifies this
      ensures View() == old(View()).(ui := old(ui).(messageInput := text))
    {
      ui := ui.(messageInput := text);
    }

    /** `handleSendMessage`, as on the current page. */
    method SendMessage()
      modifies this
      ensures ChatSubmission(old(ui).messageInput).None? || old(socket).None? ==> View() == old(View())
      ensures var text := ChatSubmission(old(ui).messageInput);
        text.Some? && old(socket).Some? ==>
        View() == old(View()).(ui := old(ui).(messageInput := ""),
                               sent := old(sent) + [SendChat(roomId, text.value, userName)])
    {
      var text := ChatSubmission(ui.messageInput);
      if text.Some? && socket.Some? {
        sent := sent + [SendChat(roomId, text.value, userName)];
        ui := ui.(messageInput := "");
      }
    }
  }

  /** A page connected as `sid` showing a room's video, paused at the start. */
  method WatchingPage(roomId: RoomId, sid: SocketId, room: LegacyRoom) returns (p: LegacyPage)
    requires room.videoInfo.Some?
    ensures fresh(p) && fresh(p.video) && p.roomId == roomId
    ensures p.HasVideo() && p.IsOwn(sid) && p.socket.Some?
    ensures !p.ignorePlay && !p.ignorePause
    ensures p.video.paused && p.video.currentTime == 0.0
  {
    p := new LegacyPage(roomId, "");
    p.Mount();
    p.OnConnect(sid);
    p.OnRoomState(room);
  }

  /** A remote play the browser refuses leaves its flag raised, so the viewer's own next play is
      swallowed: nothing is sent for it. */
  method RefusedRemotePlaySwallowsNextPlay(roomId: RoomId, sid: SocketId, other: SocketId, room: LegacyRoom)
    returns (out: seq<ClientMessage>, playing: bool)
    requires room.videoInfo.Some? && other != sid
    ensures out == [] && playing
  {
    var p := WatchingPage(roomId, sid, room);
    p.OnPlaybackUpdate(PlaybackUpdate("play", 0.0, true, other), false);
    var before := p.sent;
    p.ClickPlayPause(true);
    p.PlayEvent();
    out, playing := p.sent[|before|..], !p.video.paused;
  }

  /** A remote play is not echoed, and the flag is spent: the next local pause is sent. */
  method RemotePlayFlagIsOneShot(roomId: RoomId, sid: SocketId, other: SocketId, room: LegacyRoom)
    returns (echo: seq<ClientMessage>, out: seq<ClientMessage>)
    requires room.videoInfo.Some? && other != sid
    ensures echo == [] && out == [PlaybackControl(roomId, "pause", 0.0, None)]
  {
    var p := WatchingPage(roomId, sid, room);
    var before := p.sent;
    p.OnPlaybackUpdate(PlaybackUpdate("play", 0.0, true, other), true);
    p.PlayEvent();
    echo := p.sent[|before|..];
    var mid := p.sent;
    p.ClickPlayPause(true);
    p.PauseEvent();
    out := p.sent[|mid|..];
  }
}
