# chillsync playback synchronisation, modelled in Dafny

chillsync lets a group of viewers watch one uploaded video together. A Node server keeps a
registry of rooms, each with a host, a name, a theme, a roster of viewers, the uploaded video and
a shared playback state (`isPlaying`, `currentTime`, `lastUpdated`). Browser clients join a room
over a socket, report their own play, pause and seek actions, and reconcile their `<video>`
element with the state the server broadcasts. They suppress the echo of actions they applied on
the room's behalf.

The repository holds two generations of the system:

- The current server (`server/index.js`) and client (`client/…`). The server deduplicates
  viewers by a persistent visitor id. The client suppresses echoes with a timed flag.
- The earlier server and client (`chillsync/…`). Joins are never deduplicated, `playbackControl`
  is a `play`/`pause`/`seek` switch, and the client uses two one-shot ignore flags.

Both generations are modelled side by side. So are the small helpers around them:

- the playback clocks and relative-age phrases;
- the video-file acceptance test;
- the visitor-id cache;
- the shooting-star list;
- the edge worker's router;
- the language toggle.

## Layout

| file | module | what it holds |
|---|---|---|
| `wrappers.dfy` | `Wrappers` | `Option` |
| `jstext.dfy` | `JsText` | the JavaScript string operations the code relies on: `trim`, `lastIndexOf`, `substring`, `toLowerCase`, `padStart`, `split`, and number to text |
| `object_keys.dfy` | `ObjectKeys` | the order in which `Object.keys` lists a plain object's keys: array indices first, ascending, then the rest in insertion order |
| `search.dfy` | `Search` | `findIndex` and the remove-first-match idiom of `splice(findIndex(...), 1)` |
| `protocol.dfy` | `Protocol` | the socket messages in both directions, viewers, playback state |
| `room_logic.dfy` | `RoomLogic` | the pure parts of the current client: name resolution, roster maps and filters, reconciliation decisions, chat submission, volume icon, upload progress |
| `file_acceptance.dfy` | `FileAcceptance` | the two upload acceptance tests |
| `room_server.dfy` | `RoomServer` | the current server as a class over the room map, with an outbox of emitted messages |
| `legacy_server.dfy` | `LegacyServer` | the earlier server, same shape |
| `media.dfy` | `Media` | the `<video>` element as a class: the browser behaviour the pages rely on (load, seek, play with an accepted or refused promise, pause, mute, volume) |
| `room_page.dfy` | `RoomPage` | the current room page with its video player, name editor and uploader |
| `legacy_room_page.dfy` | `LegacyRoomPage` | the earlier room page |
| `clock.dfy` | `Clock` | both `formatTime`s |
| `relative_time.dfy` | `RelativeTime` | `formatChatTime`'s relative branches and `formatTimeAgo` |
| `fingerprint.dfy` | `Fingerprint` | `getVisitorId` / `getShortVisitorId` |
| `shooting_stars.dfy` | `ShootingStars` | the bounded meteor list |
| `edge_worker.dfy` | `EdgeWorker` | the static-site worker's router |
| `language.dfy` | `Language` | the language provider of both clients |

The servers and the pages are classes whose methods update fields in place, as the handlers do.
Every socket emit is appended to an outbox (`outbox` on a server, `sent` on a page). Each page
method states its entire new state as an update of a `View()` snapshot of the old one. Only the
fields the handler touches change.

JavaScript truthiness is modelled explicitly:

- `""` is the falsy string;
- a time of `0.0` is the falsy number;
- `undefined` is `None`.

## Model

| member | source | states |
|---|---|---|
| `JsText.LastIndexOf` | client/src/components/Room/FileUploader.jsx:34 | the result is -1 iff the character is absent, otherwise the position of its last occurrence |
| `JsText.Lower` | client/src/components/Room/FileUploader.jsx:33 | same length; each ASCII capital becomes its small letter and every other character is kept |
| `JsText.TrimFacts` | client/src/pages/Room.jsx:356 | `trim()` removes only whitespace, at both ends, and is empty exactly for blank text |
| `JsText.Pad2Facts` | client/src/utils/formatTime.js:19 | `padStart(2,'0')` gives digits, at least two wide, exactly two under 100, reading back as the number |
| `JsText.ParseNatToString` | client/src/utils/formatTime.js:19 | `toString()` of a natural number reads back as that number |
| `Search.FindIndex` | server/index.js:296 | the loop finds the first index matching the predicate, or -1 when none does |
| `Search.WithoutFirstShape` | server/index.js:298-301 | `splice(findIndex(p), 1)` removes exactly the first match and keeps the rest in order; without a match nothing changes |
| `Search.WithoutFirstSubset` | chillsync/server/index.js:247-251 | removing the first match keeps every non-matching element and adds none |
| `RoomServer.NewRoom` | server/index.js:62-76 | a new room has empty viewers, no video and playback `{false, 0}` stamped now; host, name and theme default to `Anonymous`, `Untitled Planet` and `General` |
| `RoomServer.Listing` | server/index.js:105-113 | one summary per room in key order, with `viewerCount` the roster length and `hasVideo` true iff a video is set |
| `RoomServer.ResolveIsPlaying` | server/index.js:234 | an explicit flag wins; else `play` gives true and `pause` false; any other action keeps the previous value |
| `RoomServer.ControlledState` | server/index.js:233-238 | the new state's `isPlaying` is resolved as above, `currentTime` falls back to the previous one when the sent time is 0, and `lastUpdated` is now |
| `RoomServer.JoinKeepsVisitorsUnique` | server/index.js:176-221 | a join never creates two viewers with the same visitor id |
| `RoomServer.JoinRebindsKnownVisitor` | server/index.js:186-203 | a known visitor keeps its entry and position: only its socket id changes, and the roster length is unchanged |
| `RoomServer.JoinAppendsNewVisitor` | server/index.js:206-221 | an unknown visitor is appended as exactly one new viewer named `userName` or `Anonymous` |
| `RoomServer.RemovalKeepsVisitorsUnique` | server/index.js:296-301 | removing one viewer keeps the visitor ids distinct |
| `RoomServer.DisconnectKeepsVisitorsUnique` | server/index.js:279-311 | a room stays free of duplicate visitor ids through a disconnect |
| `RoomServer.RejoinAfterLeave` | server/index.js:176-311 | a visitor who joins, disconnects with no other live socket, and joins again from a new socket is listed once, under the new socket |
| `ObjectKeys.IndexPosition` | server/index.js:63 | the place of a new index key: every key before it is an index key of no greater value, and the key at it is not |
| `ObjectKeys.Insert` | server/index.js:63 | one key more; a key that is not an array index goes last |
| `ObjectKeys.InsertKeepsKeys` | server/index.js:63 | adding a new key lists the old keys and the new one, each exactly once |
| `ObjectKeys.InsertKeepsOrder` | server/index.js:63 | adding a key keeps index keys first and ascending, ahead of the other keys |
| `ObjectKeys.DigitIdListedFirst` | server/index.js:62-63 | an all-digit id created after `ABC123` is listed before it |
| `RoomServer.Server.CreateRoom` | server/index.js:61-85 | the room registry gains the new room under its id. A new id takes its `Object.keys` place, so an all-digit id goes ahead of the other ids. A colliding id replaces the old room and keeps its place. The reply is 201 with id, name and theme |
| `RoomServer.Server.GetRoom` | server/index.js:87-101 | a known room is returned with 200, an unknown one gives 404; nothing changes |
| `RoomServer.Server.ListRooms` | server/index.js:104-119 | the listing of every room, with `count` equal to its length; nothing changes |
| `RoomServer.Server.UploadVideo` | server/index.js:122-169 | unknown room: 404 and nothing changes; no file: 400 and nothing changes; otherwise the video is set, playback is reset to `{false, 0}` and `videoUpdated` goes to the room |
| `RoomServer.Server.Connect` | server/index.js:172 | a new live socket with no visitor id and no rooms |
| `RoomServer.Server.JoinRoom` | server/index.js:176-224 | unknown room: an error to the requester only, nothing else changes; otherwise the roster is the deduplicated join, the socket records the room and visitor id, the requester gets `roomState`, and `userJoined` goes to the others only for a new visitor |
| `RoomServer.Server.PlaybackControl` | server/index.js:227-249 | unknown room: nothing; otherwise the stored state becomes the controlled state and is broadcast to the whole room with the sender as initiator |
| `RoomServer.Server.ChatMessage` | server/index.js:252-265 | a known room gets the message broadcast and nothing stored; an unknown room is ignored |
| `RoomServer.Server.RequestSync` | server/index.js:268-272 | the requester alone receives the room's stored playback state; nothing changes |
| `RoomServer.SyncTwiceAgrees` | server/index.js:268-272 | two consecutive sync requests answer the same state, the one the last control set |
| `RoomServer.Server.LeaveRoom` | server/index.js:280-311 | one room's part of a disconnect: the viewer is kept if another live socket of the same visitor is in the room, otherwise the first viewer on this socket is removed and `userLeft` sent |
| `RoomServer.Server.LeaveRooms` | server/index.js:279-312 | the loop over the room keys applies that to every room, in key order |
| `RoomServer.Server.Disconnect` | server/index.js:275-313 | every room is replaced by its disconnected form, the notices go out in key order, and the socket is no longer live |
| `RoomServer.DisconnectedRoomsUntouched` | server/index.js:279-311 | rooms the loop has not reached are unchanged |
| `RoomServer.DisconnectedRoomsAll` | server/index.js:279-311 | after the loop, every room is in its disconnected form and keeps distinct visitor ids |
| `RoomServer.DisconnectedRoomsAt` | server/index.js:279-311 | one more loop step changes only the room it visits |
| `LegacyServer.NextPlayback` | chillsync/server/index.js:185-206 | `play`/`pause` set `isPlaying` and take the sent time or fall back on 0; `seek` keeps `isPlaying` and takes the sent time exactly, 0 included; any other action leaves the state unchanged |
| `LegacyServer.DisconnectUndoesJoin` | chillsync/server/index.js:153-168 | a viewer appended by a join is exactly the one a disconnect of that socket removes, when the socket was not yet listed |
| `LegacyServer.LeftRoomsUntouched` | chillsync/server/index.js:245-261 | rooms the disconnect loop has not reached are unchanged |
| `LegacyServer.LeftRoomsAt` | chillsync/server/index.js:245-261 | one loop step removes the socket's first viewer from the room it visits and changes nothing else |
| `LegacyServer.Server.CreateRoom` | chillsync/server/index.js:61-81 | the new room has `host` the given name or `Anonymous`, empty viewers, no video and playback `{false, 0}`; a new id takes its `Object.keys` place and a colliding id keeps its place |
| `LegacyServer.Server.GetRoom` | chillsync/server/index.js:83-96 | the room, or not found; nothing changes |
| `LegacyServer.Server.UploadVideo` | chillsync/server/index.js:99-146 | unknown room or no file: nothing changes; otherwise the video is set and playback reset to `{false, 0}` |
| `LegacyServer.Server.JoinRoom` | chillsync/server/index.js:153-177 | unknown room: an error to the requester; otherwise one viewer is appended, with no deduplication |
| `LegacyServer.JoinTwiceListsTwice` | chillsync/server/index.js:153-168 | the same user joining from two sockets is listed twice |
| `LegacyServer.Server.PlaybackControl` | chillsync/server/index.js:180-216 | unknown room: nothing; otherwise the state becomes the next playback and is broadcast with the initiator, for unknown actions too |
| `LegacyServer.Server.ChatMessage` | chillsync/server/index.js:219-231 | a known room gets the message broadcast; an unknown room is ignored; nothing is stored |
| `LegacyServer.Server.RequestSync` | chillsync/server/index.js:234-238 | the requester alone receives the stored state; nothing changes |
| `LegacyServer.Server.LeaveRoom` | chillsync/server/index.js:246-259 | the first viewer on the socket is removed and `userLeft` sent to the others |
| `LegacyServer.Server.LeaveRooms` | chillsync/server/index.js:245-260 | the loop applies that to every room in key order |
| `LegacyServer.Server.Disconnect` | chillsync/server/index.js:241-262 | every room loses the socket's first viewer and nothing else |
| `RoomLogic.ResolveUserName` | client/src/pages/Room.jsx:31-50 | the room cookie's name first, with the jar unchanged; else the navigation name, with the jar holding it under the room's cookie key; else `Explorer`, with the jar unchanged; never empty |
| `RoomLogic.ResolveUserNameStable` | client/src/pages/Room.jsx:31-50 | once a name is in the room cookie, a reload resolves the same name and writes nothing, whatever the navigation state then says |
| `RoomLogic.VisitorIdFor` | client/src/pages/Room.jsx:96-100 | a stored visitor id is used as is; otherwise the generated one is stored and used |
| `RoomLogic.VisitorIdStable` | client/src/pages/Room.jsx:96-100 | after the first connection every later one uses the same visitor id |
| `RoomLogic.WithoutId` | client/src/pages/Room.jsx:130-132 | `userLeft` keeps exactly the entries with another id |
| `RoomLogic.JoinThenLeaveRestores` | client/src/pages/Room.jsx:126-132 | `userJoined` followed by `userLeft` for a new id restores the roster |
| `RoomLogic.WithoutAbsentId` | client/src/pages/Room.jsx:130-132 | `userLeft` for an id not listed changes nothing |
| `RoomLogic.Renamed` | client/src/pages/Room.jsx:137-141 | a rename keeps the roster length |
| `RoomLogic.RenameTouchesOnlyId` | client/src/components/Room/UserNameEditor.jsx:48-54 | entries with that id get the new name and keep everything else; other entries are unchanged |
| `RoomLogic.RenameComposes` | client/src/pages/Room.jsx:137-141 | renaming twice is renaming once to the second name; renaming to the current name changes nothing |
| `RoomLogic.RemoteCommand` | client/src/pages/Room.jsx:180-201 | play is issued iff the remote plays and the element is paused; pause iff the remote is stopped and the element plays |
| `RoomLogic.ReconcileConverges` | client/src/pages/Room.jsx:174-201 | after reconciliation the element is within a second of the remote time and, when play is accepted, in the remote play state; a seek happens only more than a second apart |
| `RoomLogic.ChatSubmission` | client/src/pages/Room.jsx:353-364 | blank input yields nothing to send; otherwise the trimmed, non-empty text |
| `RoomLogic.RenameNotice` | client/src/components/Room/UserNameEditor.jsx:57-65 | the notice is a system message from `System` whose text starts with the old name and ends with the new one |
| `RoomLogic.VolumeIconFor` | client/src/components/Room/VideoPlayer.jsx:379-387 | mute iff muted or volume 0; down iff otherwise below 0.5; up otherwise |
| `RoomLogic.ToggleMuteIcon` | client/src/components/Room/VideoPlayer.jsx:371-387 | after a mute toggle the icon shows mute exactly when now muted |
| `RoomLogic.Progress` | client/src/components/Room/FileUploader.jsx:58 | the percentage is `loaded/total*100` rounded to nearest, between 0 and 100 while loaded does not exceed total, and 100 at completion |
| `RoomLogic.ProgressBounds` | client/src/components/Room/FileUploader.jsx:58 | the rounding formula is within half a percent of the exact ratio |
| `FileAcceptance.ExtensionIsMkvIff` | client/src/components/Room/FileUploader.jsx:33-34 | the extension is `mkv` iff the lower-cased name is `mkv` or ends in `.mkv` |
| `FileAcceptance.AcceptedIff` | client/src/components/Room/FileUploader.jsx:37-40 | a file is accepted iff its type is mp4, webm, ogg or x-matroska, or its lower-cased name is `mkv` or ends in `.mkv` |
| `FileAcceptance.BareMkvAccepted` | client/src/components/Room/FileUploader.jsx:34-40 | a file named `MKV` with no type is accepted |
| `FileAcceptance.Mp4NameAloneRefused` | client/src/components/Room/FileUploader.jsx:38-40 | a `.mp4` name with an unlisted type is refused |
| `FileAcceptance.LegacyAcceptedIsAccepted` | chillsync/client/src/pages/Room.jsx:477-484 | every file the earlier page accepts, the current one accepts |
| `FileAcceptance.MatroskaTypeNowAccepted` | client/src/components/Room/FileUploader.jsx:37 | the Matroska type is accepted now and was refused by the earlier page |
| `RoomPage.Page.constructor` | client/src/pages/Room.jsx:53-76 | the first render: the resolved name, loading, no socket, flag clear, paused element |
| `RoomPage.Page.Mount` | client/src/pages/Room.jsx:89-90 | the connection effect creates the socket, not yet connected; nothing else changes |
| `RoomPage.Page.OnConnect` | client/src/pages/Room.jsx:92-104 | the socket gets its id and the page joins with its name and the stored or newly stored visitor id |
| `RoomPage.Page.Present` | client/src/pages/Room.jsx:281-338 | a new video source reloads the element, and with a socket the page asks for a sync |
| `RoomPage.Page.OnRoomState` | client/src/pages/Room.jsx:106-124 | the room's video and roster replace the page's and loading ends |
| `RoomPage.Page.OnVideoUpdated` | client/src/pages/Room.jsx:144-146 | only the video changes, with its reload and sync request |
| `RoomPage.Page.OnUserJoined` | client/src/pages/Room.jsx:126-128 | the viewer is appended; nothing else changes |
| `RoomPage.Page.OnUserLeft` | client/src/pages/Room.jsx:130-132 | every entry with that id is dropped; nothing else changes |
| `RoomPage.Page.OnUserNameChanged` | client/src/pages/Room.jsx:135-142 | the entries with that id are renamed; nothing else changes |
| `RoomPage.Page.OnError` | client/src/pages/Room.jsx:148-151 | the error is shown, loading ends, and the element is gone |
| `RoomPage.Page.OnNewChatMessage` | client/src/pages/Room.jsx:153-163 | the message is appended to the chat |
| `RoomPage.Page.ApplyRemote` | client/src/pages/Room.jsx:174-201 | seek only when more than a second apart; play or pause only when the element differs. Either raises the flag. A pause schedules the clearing timer at once; a play leaves a pending `play()` that schedules it when it settles |
| `RoomPage.Page.Command` | client/src/pages/Room.jsx:180-201 | the flag is raised before the element is told. A pause schedules a clearing timer; a play counts one more unsettled `play()` instead |
| `RoomPage.Page.PlaySettles` | client/src/pages/Room.jsx:185-190 | a settled `play()`, resolved or rejected, schedules the clearing timer: one pending play fewer, one pending timer more, nothing else changes |
| `RoomPage.Page.OnPlaybackUpdate` | client/src/pages/Room.jsx:166-202 | without a video, or for an update this socket initiated, nothing changes; otherwise the remote state is applied |
| `RoomPage.Page.OnSyncPlayback` | client/src/pages/Room.jsx:285-318 | while the element and the socket exist, the stored state is applied the same way |
| `RoomPage.Page.FlagTimerFires` | client/src/pages/Room.jsx:188-190 | the timer clears the flag; the flag is never up without a pending timer or an unsettled `play()` that will schedule one |
| `RoomPage.Page.PlayEvent` | client/src/pages/Room.jsx:218-232 | the page shows playing, and sends `play` with `isPlaying: true` and the element's time only while the flag is clear |
| `RoomPage.Page.PauseEvent` | client/src/pages/Room.jsx:234-248 | the page shows paused, and sends `pause` with `isPlaying: false` only while the flag is clear |
| `RoomPage.Page.TimeUpdate` | client/src/pages/Room.jsx:250-252 | the shown time follows the element |
| `RoomPage.Page.DurationChange` | client/src/pages/Room.jsx:254-256 | the shown duration follows the element |
| `RoomPage.Page.Ended` | client/src/pages/Room.jsx:258-261 | the page shows paused and sends nothing |
| `RoomPage.Page.CanPlay` | client/src/pages/Room.jsx:323-325 | a sync request is sent |
| `RoomPage.Page.TypeMessage` | client/src/pages/Room.jsx:492 | only the chat input changes |
| `RoomPage.Page.SendMessage` | client/src/pages/Room.jsx:353-365 | blank input: nothing changes; otherwise the trimmed text is sent under the user's name and the input is cleared |
| `RoomPage.Page.ClickPlayPause` | client/src/components/Room/VideoPlayer.jsx:280-309 | no video or socket: nothing; paused: playing and one `play` message only once `play()` resolves, nothing when refused; playing: paused and one `pause` message |
| `RoomPage.Page.SeekTo` | client/src/components/Room/VideoPlayer.jsx:312-331 | the shown and element time become `t`, and one `seek` with no play state is sent |
| `RoomPage.Page.ToggleMute` | client/src/components/Room/VideoPlayer.jsx:371-376 | muted flips, and the slider shows 0 when now muted and 1 otherwise |
| `RoomPage.Page.ChangeVolume` | client/src/components/Room/VideoPlayer.jsx:349-355 | the slider and the element take the new volume |
| `RoomPage.Page.EditName` | client/src/components/Room/UserNameEditor.jsx:21-24 | the editor opens on the current name |
| `RoomPage.Page.TypeName` | client/src/components/Room/UserNameEditor.jsx:113 | only the draft changes |
| `RoomPage.Page.SaveName` | client/src/components/Room/UserNameEditor.jsx:27-70 | a blank draft only closes the editor; otherwise the trimmed name is saved |
| `RoomPage.Page.Save` | client/src/components/Room/UserNameEditor.jsx:28-67 | the name is kept and written to the room cookie; with a socket it is announced, this socket's entries are renamed and one system notice is appended; without one only the name and cookie change |
| `RoomPage.Page.CancelEdit` | client/src/components/Room/UserNameEditor.jsx:73-75 | the editor closes with no other change |
| `RoomPage.Page.SelectFile` | client/src/components/Room/FileUploader.jsx:28-46 | a missing or refused file changes nothing; an accepted one starts the upload at 0% |
| `RoomPage.Page.UploadProgress` | client/src/components/Room/FileUploader.jsx:56-61 | the rounded percentage is shown only when the length is known, and lies in 0..100 |
| `RoomPage.Page.UploadLoaded` | client/src/components/Room/FileUploader.jsx:63-72 | status 200 ends the upload and replaces only the room's video; any other status only ends the upload |
| `RoomPage.Page.UploadFailed` | client/src/components/Room/FileUploader.jsx:74-77 | an error only ends the upload |
| `RoomPage.WatchingPage` | client/src/pages/Room.jsx:89-124 | a connected page that has received a room with a video has sent its join and one sync request, and its element is paused at the start |
| `RoomPage.RemotePlayIsNotEchoed` | client/src/pages/Room.jsx:166-232 | a remote play from another socket starts the element, and the `play` event it causes sends nothing |
| `RoomPage.PauseAfterTimerIsSent` | client/src/pages/Room.jsx:186-248 | once the timer has cleared the flag, a local pause is sent again |
| `RoomPage.ClickPlayEmitsTwice` | client/src/components/Room/VideoPlayer.jsx:280-296 | clicking play on a paused element sends the same `play` message twice: from the element's event and from the resolved promise |
| `RoomPage.OwnUpdateIgnored` | client/src/pages/Room.jsx:166-170 | an update this socket initiated leaves the element and the outbox as they were |
| `LegacyRoomPage.Without` | chillsync/client/src/pages/Room.jsx:326-328 | `userLeft` keeps exactly the entries with another id |
| `LegacyRoomPage.LegacyPage.constructor` | chillsync/client/src/pages/Room.jsx:283 | the user name is the navigation name or `Anonymous`; loading, no socket, flags clear |
| `LegacyRoomPage.LegacyPage.Mount` | chillsync/client/src/pages/Room.jsx:306-307 | the connection effect creates the socket |
| `LegacyRoomPage.LegacyPage.OnConnect` | chillsync/client/src/pages/Room.jsx:309-314 | the page joins with its name and no visitor id |
| `LegacyRoomPage.LegacyPage.Present` | chillsync/client/src/pages/Room.jsx:596-598 | a new video source reloads the element |
| `LegacyRoomPage.LegacyPage.OnRoomState` | chillsync/client/src/pages/Room.jsx:316-320 | the room's video and roster replace the page's and loading ends |
| `LegacyRoomPage.LegacyPage.OnVideoUpdated` | chillsync/client/src/pages/Room.jsx:330-332 | only the video changes |
| `LegacyRoomPage.LegacyPage.OnUserJoined` | chillsync/client/src/pages/Room.jsx:322-324 | the viewer is appended |
| `LegacyRoomPage.LegacyPage.OnUserLeft` | chillsync/client/src/pages/Room.jsx:326-328 | every entry with that id is dropped |
| `LegacyRoomPage.LegacyPage.OnError` | chillsync/client/src/pages/Room.jsx:334-337 | the error is shown and loading ends |
| `LegacyRoomPage.LegacyPage.OnNewChatMessage` | chillsync/client/src/pages/Room.jsx:339-350 | the message is appended to the chat |
| `LegacyRoomPage.LegacyPage.OnPlaybackUpdate` | chillsync/client/src/pages/Room.jsx:352-373 | without a video, or for an own update, nothing changes; otherwise seek more than a second apart, and a remote play or pause raises its one-shot flag before the element is told |
| `LegacyRoomPage.LegacyPage.PlayEvent` | chillsync/client/src/pages/Room.jsx:389-401 | a raised play flag is consumed and nothing is sent; otherwise `play` is sent with the element's time and no play state |
| `LegacyRoomPage.LegacyPage.PauseEvent` | chillsync/client/src/pages/Room.jsx:403-415 | a raised pause flag is consumed and nothing is sent; otherwise `pause` is sent |
| `LegacyRoomPage.LegacyPage.TimeUpdate` | chillsync/client/src/pages/Room.jsx:417-421 | the shown time follows the element unless a seek is under way |
| `LegacyRoomPage.LegacyPage.DurationChange` | chillsync/client/src/pages/Room.jsx:423-425 | the shown duration follows the element |
| `LegacyRoomPage.LegacyPage.Ended` | chillsync/client/src/pages/Room.jsx:427-430 | only the playing ref is cleared |
| `LegacyRoomPage.LegacyPage.SeekBarChange` | chillsync/client/src/pages/Room.jsx:449-469 | the shown and element time become `t`, one `seek` with that time is sent, and `isSeeking` is clear again |
| `LegacyRoomPage.LegacyPage.ClickPlayPause` | chillsync/client/src/pages/Room.jsx:541-549 | only the element is played or paused; nothing is sent directly |
| `LegacyRoomPage.LegacyPage.SelectFile` | chillsync/client/src/pages/Room.jsx:472-484 | only mp4, webm and ogg start an upload; anything else changes nothing |
| `LegacyRoomPage.LegacyPage.UploadProgress` | chillsync/client/src/pages/Room.jsx:492-497 | the rounded percentage, when the length is known |
| `LegacyRoomPage.LegacyPage.UploadLoaded` | chillsync/client/src/pages/Room.jsx:499-508 | status 200 shows the returned video; any other status only ends the upload |
| `LegacyRoomPage.LegacyPage.UploadFailed` | chillsync/client/src/pages/Room.jsx:510-513 | an error only ends the upload |
| `LegacyRoomPage.LegacyPage.TypeMessage` | chillsync/client/src/pages/Room.jsx:718 | only the chat input changes |
| `LegacyRoomPage.LegacyPage.SendMessage` | chillsync/client/src/pages/Room.jsx:526-538 | blank input: nothing; otherwise the trimmed text is sent and the input cleared |
| `LegacyRoomPage.WatchingPage` | chillsync/client/src/pages/Room.jsx:306-320 | a connected page showing a video has both flags clear and its element paused at the start |
| `LegacyRoomPage.RefusedRemotePlaySwallowsNextPlay` | chillsync/client/src/pages/Room.jsx:366-401 | a remote play the browser refuses leaves its flag raised, so the viewer's own next play is not sent |
| `LegacyRoomPage.RemotePlayFlagIsOneShot` | chillsync/client/src/pages/Room.jsx:366-407 | a remote play is not echoed, and the next local pause is sent |
| `Clock.FieldsOf` | client/src/utils/formatTime.js:10-12 | minutes and seconds are below 60, and hours, minutes and seconds are a base-60 reading of the whole seconds |
| `Clock.FormatTimeFields` | client/src/utils/formatTime.js:7-27 | zero shows `00:00`; three fields iff the hour is used (by the duration when given, else by h > 0); every field is digits, the last two exactly two wide |
| `Clock.RenderParts` | client/src/utils/formatTime.js:17-26 | the fields are `HH,MM,SS`, `MM,SS` or `00,SS` as the duration or the fields call for |
| `Clock.FormatTimeRoundTrip` | client/src/utils/formatTime.js:7-27 | reading the clock back gives the whole seconds with the hour shown, the seconds within the hour with only minutes, and the seconds within the minute otherwise |
| `Clock.HourDroppedUnderShortDuration` | client/src/utils/formatTime.js:15-22 | with a duration under an hour, a position an hour later shows the same clock |
| `Clock.LegacyFormatTimeFields` | chillsync/client/src/pages/Room.jsx:265-275 | three fields iff h > 0, two iff only minutes, one otherwise; all fields digits; the leading field unpadded when there are two or three fields; every later field two wide, and the seconds two wide even when they are the only field |
| `Clock.LegacyFormatTimeRoundTrip` | chillsync/client/src/pages/Room.jsx:265-275 | reading the earlier clock back gives the whole seconds |
| `Clock.LegacyDropsZeroMinute` | chillsync/client/src/pages/Room.jsx:270-274 | 5 s shows `05` and 65 s shows `1:05` |
| `RelativeTime.AgoParts` | client/src/utils/formatTime.js:49-52 | an age phrase splits into its count, unit and `ago`, and the count reads back |
| `RelativeTime.ChatAgoReadsBack` | client/src/utils/formatTime.js:34-52 | `''` for a falsy timestamp, `just now` under a minute, otherwise under an hour `N min(s) ago` with N the whole minutes, singular iff N = 1 |
| `RelativeTime.CountsIn` | chillsync/client/src/pages/Planets.jsx:201-212 | one bucket's phrase counts the whole units elapsed, singular iff the count is 1 |
| `RelativeTime.TimeAgoCounts` | chillsync/client/src/pages/Planets.jsx:201-212 | from a minute on, the phrase counts in the largest of minute, hour and day that fits |
| `RelativeTime.TimeAgoReadsBack` | chillsync/client/src/pages/Planets.jsx:192-213 | `just now` iff under a minute, negative differences included; otherwise a phrase that reads back as the time elapsed |
| `RelativeTime.TimeAgoBoundaries` | chillsync/client/src/pages/Planets.jsx:197-212 | 59 s gives `just now`; 60, 3600 and 86400 give `1 minute ago`, `1 hour ago` and `1 day ago` |
| `Fingerprint.ShortId` | chillsync/client/src/utils/fingerprint.js:35-38 | the prefix of length min(6, length) |
| `Fingerprint.VisitorIds.GetVisitorId` | chillsync/client/src/utils/fingerprint.js:9-32 | a stored id is returned unchanged with nothing computed; otherwise the fingerprint, or the fallback on failure, is stored and returned |
| `Fingerprint.VisitorIds.GetShortVisitorId` | chillsync/client/src/utils/fingerprint.js:35-38 | the short form of the id the cache hands out |
| `Fingerprint.SecondCallAgrees` | chillsync/client/src/utils/fingerprint.js:11-31 | once an id is handed out, the next call returns the same one without computing; a failed first fingerprint hands out the fallback |
| `ShootingStars.Tick` | client/src/App.jsx:79-85 | one new meteor is appended after the last 15 old ones, or after all of them when there are 15 or fewer |
| `ShootingStars.RunKeepsLatest` | client/src/App.jsx:73-85 | the list is always the latest 16 meteors created, in order |
| `ShootingStars.AtMostSixteen` | client/src/App.jsx:73-83 | starting from 3, the list never exceeds 16, and holds 16 after 13 ticks |
| `EdgeWorker.Fetch` | client/dist/_worker.js:1-20 | forwarded iff the path starts with `/api`, `/socket.io` or `/uploads`; a forwarded request goes to a fresh URL with the API host, no port, same path and query; any other goes to the assets unchanged |
| `EdgeWorker.PrefixOnly` | client/dist/_worker.js:6-8 | the test is a plain prefix test: `/apix` is forwarded, `/ap` and `/` are not |
| `EdgeWorker.ForwardTwice` | client/dist/_worker.js:10-14 | the rewrite is idempotent and keeps path and query |
| `Language.Lookup` | client/src/contexts/LanguageContext.jsx:202 | `translations[key]` is a table iff the key is `en` or `zh`, and undefined iff it is neither that nor an inherited member name |
| `Language.Initial` | client/src/contexts/LanguageContext.jsx:196-199 | the saved language when truthy, else `en` |
| `Language.Toggled` | client/src/contexts/LanguageContext.jsx:210-212 | `en` goes to `zh`, everything else to `en` |
| `Language.ToggleTwice` | client/src/contexts/LanguageContext.jsx:210-212 | toggling twice from `en` or `zh` is the identity; from anything else it ends on `zh` |
| `Language.Provider.constructor` | client/src/contexts/LanguageContext.jsx:196-207 | the initial language, persisted |
| `Language.Provider.ToggleLanguage` | client/src/contexts/LanguageContext.jsx:205-212 | the toggled language, persisted, with a table |
| `Language.Provider.ChangeLanguage` | client/src/contexts/LanguageContext.jsx:205-219 | the language changes iff `translations[lang]` is truthy, and the current language stays persisted |
| `Language.ChangeThenReload` | chillsync/client/src/contexts/LanguageContext.jsx:84-107 | a chosen table language survives a reload; an unknown one is refused and the saved one stays |

## Left out

- Transport and storage plumbing. Express routing, socket.io delivery, multer, `fs`, `fetch`,
  `XMLHttpRequest`, cookies and local storage are not modelled. Emits are an outbox of messages
  with their audience. Cookies and local storage are maps.
- Randomness and the clock. Room ids, visitor ids, fallback ids, upload file names, meteor
  parameters and `Date.now()` are parameters. A room-id collision replaces the existing room,
  as the source does.
- Timers and the media engine. The flag-clearing `setTimeout` is an explicit step
  (`FlagTimerFires`), with a count of pending timers. The `play()` promise is an `accepted`
  parameter, and its settling, which schedules a remote play's timer, is a step of its own
  (`PlaySettles`). The `<video>` element is a small class standing for the browser's behaviour.
- Floating point. Times, volumes and durations are reals. NaN, negative and infinite values are
  not modelled. The clocks read whole seconds, as their `Math.floor` does for non-negative positions.
  The upload percentage is exact: `Math.round(57 / 200 * 100)` gives 28 in doubles, because the
  product is just below 28.5, while `RoomLogic.Progress` gives 29.
- Inherited room keys. `rooms` is a plain object, and the handlers test a room with
  `rooms[roomId]`. An id that names an `Object.prototype` member (`constructor`, `toString`,
  `__proto__`, …) is truthy there and passes the guard. The model's `rooms` map holds own rooms
  only, so it treats such an id as unknown. Created ids are upper-case base-36 and never name one;
  only a client that sends such an id by hand reaches these paths:
- GetRoom (`RoomServer.Server.GetRoom`, `LegacyServer.Server.GetRoom`): the source answers 200
  with the inherited value for such an id; the model answers not found.
- UploadVideo (`RoomServer.Server.UploadVideo`, `LegacyServer.Server.UploadVideo`): for
  `__proto__` the source writes `videoInfo` and `playbackState` onto `Object.prototype`,
  broadcasts and answers 200; the model answers not found and changes nothing.
- JoinRoom (`RoomServer.Server.JoinRoom`, `LegacyServer.Server.JoinRoom`): the source joins the
  socket to that socket.io room and then throws on the missing roster; the model sends the
  not-found error and changes nothing.
- PlaybackControl (`RoomServer.Server.PlaybackControl`, `LegacyServer.Server.PlaybackControl`):
  the source writes a playback state onto the inherited value and broadcasts it, or throws where it
  reads the stored state that is not there; the model ignores the message.
- ChatMessage (`RoomServer.Server.ChatMessage`, `LegacyServer.Server.ChatMessage`): the source
  broadcasts to that socket.io room; the model ignores the message.
- RequestSync (`RoomServer.Server.RequestSync`, `LegacyServer.Server.RequestSync`): the source
  emits `syncPlayback` with the inherited value's `playbackState`, normally undefined; the model
  emits nothing.
- `JsText.Lower`: maps ASCII capitals only. `toLowerCase` also maps every other Unicode capital,
  some to a different length (`İ`, U+0130, becomes two code units). So `FileAcceptance.Accepted`
  and `FileAcceptance.AcceptedIff` refuse a name such as `MOVIE.M\u212AV`, written with the Kelvin
  sign, which `toLowerCase` turns into `movie.mkv` and the source accepts.
- `Clock.FormatTime`: requires a non-negative position; NaN input, which the source also maps to
  `00:00`, has no real counterpart.
- `RelativeTime.ChatAgo`: the date and locale branches of `formatChatTime` (an hour and more) are
  `None`.
- The translation strings themselves. Lookups say which entry they hit.
- FingerprintJS is an oracle that returns an id or fails.
- `RoomPage.Page`: the `isSeeking` ref of the current video player is written and never read, so
  it is not modelled. Neither are fullscreen, the hover tooltip, chat scrolling, alerts or the
  copy-link button.
- `RoomPage.Page.OnRoomState`: `roomData.chatMessages` is never sent by either server, so the
  chat history it would copy is not modelled.
- `RoomPage.Page.SaveName`: a changed name re-runs the connection effect, which the model shows as
  a fresh socket that has not connected yet; the disconnect of the old socket is the server's
  `Disconnect`.
- `RoomPage.Page.ToggleMute` and `RoomPage.Page.ChangeVolume`: the element's own volume and mute
  state after a remount are browser behaviour and are not modelled.
- The server's `userNameChanged` handler does not exist, so the rename broadcast the client emits
  reaches no one. A server-side chat history, heartbeat resync and host-driven pauses do not exist
  either.
- Presentation components, page shells, routing, styling and build configuration.
