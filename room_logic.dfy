/** The pure parts of the room page shared by both clients: the user-name cascade, the roster list
    updates, the reconciliation decision against a remote playback state, chat submission, the
    rename notice, the volume icon and the upload percentage. */
module RoomLogic {
  import opened Wrappers
  import opened JsText
  import opened Protocol

  /** The cookie that remembers the user name chosen for one room. */
  function CookieKey(roomId: RoomId): string
  {
    "chillsync_room_" + roomId + "_user"
  }

  /** The `localStorage` key of the browser's visitor id. */
  const VisitorKey: string := "chillsync_visitor_id"

  /** A storage read: a missing entry reads as the falsy empty string. */
  function Lookup(m: map<string, string>, key: string): string
  {
    if key in m then m[key] else ""
  }

  /** `getRoomUserName`: the room cookie; else the name passed by navigation, which is also written
      to the cookie; else `'Explorer'`. Returns the name and the cookie jar afterwards. */
  function ResolveUserName(cookies: map<string, string>, roomId: RoomId, navName: string): (r: (string, map<string, string>))
    ensures r.0 != ""
    ensures Lookup(cookies, CookieKey(roomId)) != "" ==> r == (cookies[CookieKey(roomId)], cookies)
    ensures Lookup(cookies, CookieKey(roomId)) == "" && navName != "" ==> r == (navName, cookies[CookieKey(roomId) := navName])
    ensures Lookup(cookies, CookieKey(roomId)) == "" && navName == "" ==> r == ("Explorer", cookies)
    ensures r.1 == cookies || r.1 == cookies[CookieKey(roomId) := r.0]
  {
    var key := CookieKey(roomId);
    var saved := Lookup(cookies, key);
    if saved != "" then (saved, cookies)
    else if navName != "" then (navName, cookies[key := navName])
    else ("Explorer", cookies)
  }

  /** Reloading the page resolves the same name, whatever the navigation state then carries, and
      writes nothing more, unless the first visit fell back to the default. */
  lemma ResolveUserNameStable(cookies: map<string, string>, roomId: RoomId, navName: string, laterNav: string)
    ensures var (name, jar) := ResolveUserName(cookies, roomId, navName);
      Lookup(jar, CookieKey(roomId)) != "" ==> ResolveUserName(jar, roomId, laterNav) == (name, jar)
  {
  }

  /** The visitor id the `connect` handler joins with: the stored one, else the newly generated one, which is
      then stored. */
  function VisitorIdFor(storage: map<string, string>, generated: string): (r: (string, map<string, string>))
    ensures Lookup(storage, VisitorKey) != "" ==> r == (storage[VisitorKey], storage)
    ensures Lookup(storage, VisitorKey) == "" ==> r == (generated, storage[VisitorKey := generated])
  {
    var saved := Lookup(storage, VisitorKey);
    if saved != "" then (saved, storage) else (generated, storage[VisitorKey := generated])
  }

  /** A second connection reuses the id the first one stored, as long as that id is not empty. */
  lemma VisitorIdStable(storage: map<string, string>, generated: string, laterGenerated: string)
    requires generated != ""
    ensures var (id, s) := VisitorIdFor(storage, generated);
      VisitorIdFor(s, laterGenerated) == (id, s)
  {
  }

  /** `userLeft`: `prev.filter(v => v.id !== id)`. */
  function WithoutId(viewers: seq<Viewer>, id: SocketId): (r: seq<Viewer>)
    ensures |r| <= |viewers|
    ensures forall v :: v in r <==> v in viewers && v.id != id
  {
    if viewers == [] then []
    else if viewers[0].id == id then WithoutId(viewers[1..], id)
    else [viewers[0]] + WithoutId(viewers[1..], id)
  }

  /** A `userJoined` for a socket not on the roster is undone by that socket's `userLeft`. */
  lemma {:induction false} JoinThenLeaveRestores(viewers: seq<Viewer>, v: Viewer)
    requires forall i :: 0 <= i < |viewers| ==> viewers[i].id != v.id
    ensures WithoutId(viewers + [v], v.id) == viewers
  {
    if viewers == [] {
      assert WithoutId([v], v.id) == WithoutId([], v.id);
    } else {
      assert (viewers + [v])[1..] == viewers[1..] + [v];
      JoinThenLeaveRestores(viewers[1..], v);
    }
  }

  /** Removing entries that are not bound to `id` leaves the roster as it was. */
  lemma {:induction false} WithoutAbsentId(viewers: seq<Viewer>, id: SocketId)
    requires forall i :: 0 <= i < |viewers| ==> viewers[i].id != id
    ensures WithoutId(viewers, id) == viewers
  {
    if viewers != [] {
      WithoutAbsentId(viewers[1..], id);
    }
  }

  /** `userNameChanged` and the editor's own rename: entries bound to `id` take the new name. */
  function Renamed(viewers: seq<Viewer>, id: SocketId, name: string): (r: seq<Viewer>)
    ensures |r| == |viewers|
  {
    seq(|viewers|, i requires 0 <= i < |viewers| => if viewers[i].id == id then viewers[i].(name := name) else viewers[i])
  }

  /** A rename keeps every entry's socket, visitor and join time, renames exactly the entries bound
      to `id`, and leaves every other entry equal. */
  lemma RenameTouchesOnlyId(viewers: seq<Viewer>, id: SocketId, name: string)
    ensures var r := Renamed(viewers, id, name);
      && |r| == |viewers|
      && (forall i :: 0 <= i < |r| ==>
            r[i].id == viewers[i].id && r[i].visitorId == viewers[i].visitorId && r[i].joinedAt == viewers[i].joinedAt)
      && (forall i :: 0 <= i < |r| && viewers[i].id == id ==> r[i].name == name)
      && (forall i :: 0 <= i < |r| && viewers[i].id != id ==> r[i] == viewers[i])
  {
  }

  /** Renaming with the name an entry already has changes nothing; renaming twice is renaming once
      with the second name. */
  lemma RenameComposes(viewers: seq<Viewer>, id: SocketId, first: string, second: string)
    ensures Renamed(Renamed(viewers, id, first), id, second) == Renamed(viewers, id, second)
    ensures (forall i :: 0 <= i < |viewers| && viewers[i].id == id ==> viewers[i].name == first) ==>
              Renamed(viewers, id, first) == viewers
  {
  }

  /** `Math.abs(local - remote) > 1`. */
  predicate NeedsSeek(local: real, remote: real)
  {
    local - remote > 1.0 || remote - local > 1.0
  }

  /** What the reconciliation asks of the element: `play()` only when the remote plays and the local
      element is paused, `pause()` only when the remote is paused and the local element plays. */
  datatype Command = PlayCommand | PauseCommand | NoCommand

  function RemoteCommand(remotePlaying: bool, paused: bool): (c: Command)
    ensures c == PlayCommand <==> remotePlaying && paused
    ensures c == PauseCommand <==> !remotePlaying && !paused
  {
    if remotePlaying && paused then PlayCommand
    else if !remotePlaying && !paused then PauseCommand
    else NoCommand
  }

  /** The local position after the seek step. */
  function SeekedTime(local: real, remote: real): (t: real)
  {
    if NeedsSeek(local, remote) then remote else local
  }

  /** The paused flag after the command, where `playAccepted` says whether `play()` succeeds. */
  function PausedAfter(paused: bool, c: Command, playAccepted: bool): bool
  {
    match c
    case PlayCommand => paused && !playAccepted
    case PauseCommand => true
    case NoCommand => paused
  }

  /** One reconciliation brings the element within a second of the remote position and, unless the
      browser refuses to play, to the remote play state; a second reconciliation against the same
      remote state then neither seeks nor issues a command. */
  lemma ReconcileConverges(local: real, paused: bool, remoteTime: real, remotePlaying: bool, playAccepted: bool)
    ensures var t := SeekedTime(local, remoteTime);
      var p := PausedAfter(paused, RemoteCommand(remotePlaying, paused), playAccepted);
      && !NeedsSeek(t, remoteTime)
      && (t == local || t == remoteTime)
      && (playAccepted || !remotePlaying ==> p == !remotePlaying)
      && (playAccepted || !remotePlaying ==> RemoteCommand(remotePlaying, p) == NoCommand)
  {
  }

  /** `handleSendMessage`: whitespace-only input sends nothing; otherwise the trimmed text is sent. */
  function ChatSubmission(input: string): (r: Option<string>)
    ensures r.None? <==> Blank(input)
    ensures r.Some? ==> r.value == Trim(input) && r.value != "" && !IsSpace(r.value[0]) && !IsSpace(r.value[|r.value| - 1])
  {
    TrimFacts(input);
    var text := Trim(input);
    if text == "" then None else Some(text)
  }

  /** The system line the name editor adds after a rename. */
  function RenameNotice(oldName: string, newName: string, now: int): (m: ChatMessage)
    ensures m.isSystem && m.sender == "System" && m.visitorId.None?
    ensures |m.message| >= |oldName| + |newName|
    ensures m.message[..|oldName|] == oldName && m.message[|m.message| - |newName|..] == newName
  {
    ChatMessage(now, "System", None, oldName + " 修改名称为 " + newName, now, true)
  }

  /** The three icons of the mute button. */
  datatype VolumeIcon = MuteIcon | DownIcon | UpIcon

  /** `getVolumeIcon`. */
  function VolumeIconFor(muted: bool, volume: real): (icon: VolumeIcon)
    ensures icon == MuteIcon <==> muted || volume == 0.0
    ensures icon == DownIcon <==> !muted && volume != 0.0 && volume < 0.5
  {
    if muted || volume == 0.0 then MuteIcon else if volume < 0.5 then DownIcon else UpIcon
  }

  /** After `toggleMute` the icon shows mute exactly when the element is muted, and otherwise the
      loud icon, since the volume is reset to 1. */
  lemma ToggleMuteIcon(muted: bool)
    ensures var m := !muted;
      VolumeIconFor(m, if m then 0.0 else 1.0) == if m then MuteIcon else UpIcon
  {
  }

  /** `Math.round(loaded / total * 100)` for a computable length: the integer nearest to the
      percentage, halves rounded up. */
  function Progress(loaded: nat, total: nat): (p: int)
    requires total > 0
    ensures -(total as int) < 2 * (p * total - 100 * loaded) <= total
    ensures loaded <= total ==> 0 <= p <= 100
    ensures loaded == total ==> p == 100
  {
    ProgressBounds(loaded, total);
    (200 * loaded + total) / (2 * total)
  }

  lemma ProgressBounds(loaded: nat, total: nat)
    requires total > 0
    ensures var p := (200 * loaded + total) / (2 * total);
      && -(total as int) < 2 * (p * total - 100 * loaded) <= total
      && (loaded <= total ==> 0 <= p <= 100)
      && (loaded == total ==> p == 100)
  {
    var n := 200 * loaded + total;
    var d := 2 * total;
    var p := n / d;
    var q := n % d;
    assert n == p * d + q && 0 <= q < d;
    assert p * d == 2 * (p * total);
    assert 2 * (p * total - 100 * loaded) == total - q;
    if loaded <= total {
      assert p * d <= 201 * total;
      if p > 100 {
        MulAtLeast(p, 101, d);
        assert false;
      }
    }
    if loaded == total {
      assert 2 * (p * total) == 200 * total + total - q;
      if p < 100 {
        MulAtLeast(99, p, d);
        assert false;
      }
    }
  }

  lemma MulAtLeast(a: int, b: int, d: nat)
    requires a >= b
    ensures a * d >= b * d
  {
  }
}
