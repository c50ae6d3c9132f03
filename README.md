# Radio server and radio page, modelled in Dafny

The system is a shared web radio. Listeners create named radios and join a radio's room
over a WebSocket. They add YouTube or Spotify links to the radio's queue, then play,
pause or skip. The server dequeues songs, tells the room what is playing and keeps a
table of audio streams. HTTP listeners attach to and detach from that table through
`GET /stream/:radioName`. The radio page holds a local copy of the radio's state and
updates it from the messages the room receives.

The model has seven modules:

- `Schema`: the records of the shared schema (`Song`, `QueueItem`, `RadioState`), the
  per-radio summary, and the closed set of WebSocket messages (`Msg`).
- `JsString`: the JavaScript string operations the code relies on. These are `trim`,
  `toLowerCase`, `includes`, `Number.prototype.toString` on whole numbers and
  `padStart`.
- `Storage`: `MemStorage` as a class over a `map` from radio name to `RadioState`. It
  also holds the pure queue operations and the FIFO property of push and shift.
- `Tracks`: `extractYouTubeId`, with a declarative statement of what the regular
  expressions match and the round trip through the stored watch URL. It also holds
  the pure part of the YouTube and Spotify resolvers; the network answers are a
  parameter.
- `Playback`: what `playNextSong`, `play_pause` and `add_song` do to one radio. Each
  is a function giving the radio's new state and the messages its room receives, in
  order.
- `Server`: the module-level state of the route file as one class, `RadioServer`.
  Its fields are the store, the rooms (`radioClients`), each socket's current radio
  (`wsCurrentRadio`), the connected and the open sockets, the stream table
  (`activeStreams`) and one outbox per socket. A send is an append to the receiving
  socket's outbox. Each WebSocket message case, the `close` event and the
  attach/detach logic of `/stream` is one method. Each method's contract ties its new
  state and outbox to the functions of `Playback` or to the pure functions beside the
  class.
- `Client`: the radio page's initial state, its `onmessage` reducer, `formatDuration`
  and the enable conditions of the play and skip buttons. Its lemmas show when a page
  that applies its room's messages ends up with the server's state.

Behaviour kept as the code has it:

- `join_radio` uses the name as given. It neither trims nor lower-cases it, and it
  creates a missing radio.
- `rename_radio` normalises only the new name, and compares the old name against the
  normalised new one.
- `play_pause` flips the flag. It advances only when the flag becomes true with no
  current song and a non-empty queue, and it never touches the stream table on a
  pause. Toggling an idle radio with an empty queue therefore leaves it "playing"
  with no song, and a song added later is only queued
  (`Playback.ToggleOnEmptyThenAddDoesNotStart`).
- `skip` is a plain call of `playNextSong`, so it is `Server.RadioServer.PlayNextSong`
  itself. End-of-track and encoder-error events are further calls of the same method.
- The current radio is tested with JavaScript truthiness, so `""` is false. A socket
  that joined `""` and then joins another radio stays in the room `""` as well
  (`Server.JoinFromBlankKeepsOldRoom`). Room membership and current-radio pointers
  (`RoomsAgree`) are therefore preserved by every handler except a join of `""`.
- When the stream of a dequeued song fails to start, `queue_updated` is not sent.
  Pages in the room keep showing the dequeued song in their queue
  (`Client.FailedStartLeavesStaleQueue`).
- `delete_radio` leaves the members' current-radio pointers as they were.
- `storage.radioExists`, `storage.getAllRadioInfo`, `storage.renameRadio` and
  `storage.deleteRadio` are called by the routes but are not defined in the store.
  They are modelled as membership, one summary per radio, moving the key, and removing
  the key. The moved state takes the new name. A rename of a missing radio fails
  with the store's usual "Radio X not found" error, which reaches the requester.

Each handler is one atomic step. Oracle parameters stand for what the model cannot
compute:

- `Tracks.Lookup` holds the track services' answers: the search hit, the Piped
  metadata and the fresh song id.
- `startOk` says whether the Piped `/streams` call produced an audio stream.
- `itemId` and `now` stand for `randomUUID()` and `Date.now()`.

## Model

| member | source | states |
|---|---|---|
| `Storage.MemStorage.constructor` | server/storage.ts:21-31 | a fresh store holds exactly one radio, "lofi", empty and idle |
| `Storage.MemStorage.GetRadio` | server/storage.ts:33-35 | a radio is returned exactly when it is stored, and it is the stored state |
| `Storage.MemStorage.RadioExists` | server/storage.ts:33-35 | the truthiness test on `getRadio` holds exactly when the roster lists a radio of that name |
| `Storage.MemStorage.CreateRadio` | server/storage.ts:37-46 | stores an empty idle radio under the name, replacing any entry there, and changes no other entry |
| `Storage.ApplyPatch` | server/storage.ts:53 | `{ ...radio, ...state }`: each field is the patch's when the patch carries it and the old one otherwise |
| `Storage.MemStorage.UpdateRadioState` | server/storage.ts:48-56 | a missing radio is the error "Radio X not found" and nothing changes; otherwise the patched state is stored and returned and the other radios are untouched |
| `Storage.MemStorage.GetAllRadios` | server/storage.ts:58-60 | the result lists every stored radio's state exactly once and nothing else |
| `Storage.MemStorage.AddToQueue` | server/storage.ts:62-77 | a missing radio is an error and nothing changes; otherwise the queue is the old queue plus one item carrying the song, the fresh id and the time, and that item is returned |
| `Storage.MemStorage.RemoveFromQueue` | server/storage.ts:79-87 | a missing radio is an error; otherwise the queue is filtered by the item id and the other radios are untouched |
| `Storage.RemoveId` | server/storage.ts:85 | an item is kept exactly when it was in the queue with a different id; the queue never grows |
| `Storage.RemoveAbsentId` | server/storage.ts:85 | filtering an id no item carries leaves the queue as it was |
| `Storage.RemoveIdDistributes` | server/storage.ts:85 | filtering works piecewise over a concatenation, so the kept items keep their order |
| `Storage.MemStorage.GetNextInQueue` | server/storage.ts:89-98 | a missing radio or an empty queue gives nothing and changes nothing; otherwise the old head is returned and exactly the old tail is left |
| `Storage.Dequeue` | server/storage.ts:95 | `shift()`: nothing exactly for an empty queue; otherwise head and rest rebuild the queue |
| `Storage.FifoOrder` | server/storage.ts:62-98 | for any interleaving of pushes and pops, the items popped followed by the final queue are the initial queue followed by the items pushed |
| `Storage.MemStorage.AllRadioInfo` | server/routes.ts:292-298 | the roster holds one summary per stored radio, and each summary carries exactly that radio's name, queue length and play flag; no other radio is named |
| `Storage.MemStorage.RenameRadio` | server/routes.ts:355 | the entry of the old name moves to the new name with its name field updated; a missing old name is the error "Radio X not found" |
| `Storage.MemStorage.DeleteRadio` | server/routes.ts:412 | removes exactly the entry of the name |
| `JsString.Trim` | server/routes.ts:305 | the result is the input with only leading and trailing whitespace removed (everything before and after it is whitespace), it has no whitespace at either end, and it is empty exactly when the input is all whitespace |
| `JsString.TrimUnique` | server/routes.ts:305 | a cut with whitespace on both sides and none at its ends is the trimmed string, so `trim` is fully determined |
| `JsString.TrimIgnoresPadding` | server/routes.ts:305 | surrounding a string with more whitespace does not change its trimmed form |
| `JsString.TrimOfLower` | server/routes.ts:309 | trimming and lower-casing commute |
| `JsString.ToLower` | server/routes.ts:309 | the result has the input's length and each character lower-cased (ASCII and Latin-1 capitals) |
| `JsString.ToLowerIdempotent` | server/routes.ts:309 | lower-casing twice is lower-casing once |
| `JsString.Includes` | server/routes.ts:499-509 | `includes` holds exactly when the needle occurs at some position of the string, which needs the needle to be no longer |
| `JsString.NatToString` | client/src/pages/radio-page.tsx:145 | a whole number prints as a non-empty run of decimal digits without a leading zero |
| `JsString.DecimalOfNatToString` | client/src/pages/radio-page.tsx:145 | the decimal digits of a whole number read back as that number |
| `JsString.PadStart` | client/src/pages/radio-page.tsx:145 | the result has the target width or the input's length, ends with the input, and is filled on the left |
| `Tracks.ExtractYouTubeId` | server/routes.ts:59-70 | a returned id is non-empty and holds none of `&`, `?`, `#` or a newline |
| `Tracks.ExtractYouTubeIdMeaning` | server/routes.ts:59-70 | when a marker followed by an id character occurs, the result is the maximal id run after the leftmost such marker; otherwise it is the input when that is exactly 11 characters of `[A-Za-z0-9_-]`, and null else |
| `Tracks.FindFrom` | server/routes.ts:61-67 | the scan finds nothing exactly when no marker matches from the start index, and otherwise returns the group of the first match |
| `Tracks.WatchUrl` | server/routes.ts:123 | the URL is the watch prefix followed by exactly the id |
| `Tracks.WatchUrlRoundTrip` | server/routes.ts:123 | for any non-empty id free of `&`, `?`, `#` and newline, the watch URL built from it parses back to the id |
| `Tracks.ReparseExtracted` | server/routes.ts:222 | an id the parser returns survives being put into a watch URL and parsed again |
| `Tracks.SongFromYouTube` | server/routes.ts:74-131 | succeeds exactly when the URL yields an id and Piped answers; the song then has the fresh id, the watch URL of that id and source youtube; every failure has the same message |
| `Tracks.SongFromSpotify` | server/routes.ts:135-154 | every failure, from the search or the YouTube lookup, has the Spotify failure message |
| `Tracks.ResolveSong` | server/routes.ts:499-509 | URLs with "spotify.com" are classified first, then "youtube.com" or "youtu.be"; the unsupported-URL error is given exactly to URLs with none of the three; a resolved song is a youtube song with the fresh id |
| `Tracks.SpotifyHitKeepsVideoId` | server/routes.ts:147 | a usable search hit with a Piped answer resolves to the watch URL of that hit |
| `Tracks.ResolvedSongReparses` | server/routes.ts:214-223 | every resolved song's URL is the watch URL of a usable id, so the id extraction in `startStreaming` never fails on it |
| `Playback.Advance` | server/routes.ts:157-211 | an empty queue stops playback whatever the state was and the room hears `now_playing(null)`, `playback_state(false)` and `queue_updated([])`; otherwise the head leaves the queue and becomes the playing song, the room hears `now_playing` and `playback_state(true)`, and `queue_updated` with the new queue follows only when the stream starts |
| `Playback.PlayPause` | server/routes.ts:540-561 | the flag always flips; when it becomes true with no current song and a non-empty queue the radio advances; otherwise song and queue stay and the room hears only `playback_state` |
| `Playback.AddSong` | server/routes.ts:513-530 | the room hears `queue_updated` with the extended queue and then `song_added`; an idle radio then advances, and any other radio only gains the item |
| `Playback.AddToIdleEmptyRadioPlaysIt` | server/routes.ts:526-529 | the first song added to an idle, empty radio plays at once and leaves the queue empty |
| `Playback.ToggleOnEmptyThenAddDoesNotStart` | server/routes.ts:540-561 | toggling an idle empty radio sets the flag with no song, and a later `add_song` only queues |
| `Playback.PauseOnlyFlipsFlag` | server/routes.ts:540-561 | pausing a playing radio changes only the flag |
| `Playback.AdvanceTwiceTakesSecondItem` | server/routes.ts:162-168 | two advances play the second queued item and leave the rest of the queue |
| `Server.Normalize` | server/routes.ts:309 | the normal form is empty exactly for all-whitespace input, never has whitespace at either end and holds no capital letter |
| `Server.NormalizeIgnoresCase` | server/routes.ts:309 | names that differ only in letter case have the same normal form |
| `Server.NormalizeIgnoresPadding` | server/routes.ts:345 | names that differ only in surrounding whitespace have the same normal form |
| `Server.NormalizeIdempotent` | server/routes.ts:345 | a normalised name is its own normal form |
| `Server.CreateRejection` | server/routes.ts:305-313 | `create_radio` is accepted exactly when the name is not blank and its normal form is not taken; blank is reported before taken |
| `Server.RenameRejection` | server/routes.ts:341-355 | `rename_radio` is accepted exactly when the new name is not blank, its normal form differs from the old name and is free, and the old radio exists; checked in that order |
| `Server.AtMostOneRoom` | server/routes.ts:457-478 | while rooms and pointers agree, a socket is in at most one room |
| `Server.JoinKeepsRoomsAgree` | server/routes.ts:459-478 | a join with a non-empty name keeps every room member pointing at its room |
| `Server.CloseKeepsRoomsAgree` | server/routes.ts:578-595 | a close keeps every room member pointing at its room |
| `Server.JoinFromBlankKeepsOldRoom` | server/routes.ts:462-478 | a socket in room `""` that joins another radio ends up in both rooms, because `""` is falsy |
| `Server.LeaveRoom` | server/routes.ts:462-470 | a socket with a truthy current radio leaves that room, which is deleted when emptied; every other room is untouched, and a falsy current radio changes nothing |
| `Server.EnterRoom` | server/routes.ts:472-478 | the socket joins the room of the name, which is created if missing; every other room is untouched |
| `Server.AddListener` | server/routes.ts:615-637 | the radio's stream entry gains the listener, a missing entry is created without a process, and every other entry is untouched |
| `Server.DeleteKeepsRoomsAgree` | server/routes.ts:424-435 | removing a room keeps the agreement although pointers stay |
| `Server.RenameKey` | server/routes.ts:357-368 | renaming a table keyed by radio name moves the old name's entry to the new name, drops the old name and leaves every other entry as it was; without an entry for the old name the table is unchanged |
| `Server.Repoint` | server/routes.ts:369-372 | every member of the room points at the new name, every other socket keeps its pointer, and no other socket is added |
| `Server.RenameKeepsRoomsAgree` | server/routes.ts:364-382 | moving a room to a new, unused, non-empty name and repointing its members keeps the agreement |
| `Server.AfterStart` | server/routes.ts:217-254 | a start touches only its own radio's entry, never loses a listener, gives an entry it creates no listeners, and leaves a process exactly when it succeeded |
| `Server.RadioServer.constructor` | server/routes.ts:23-33 | the server starts with the default store, no rooms, pointers, sockets or streams, and its invariants hold |
| `Server.RadioServer.SendEach` | server/routes.ts:40-44 | the message is appended to the outbox of exactly the open sockets of the set |
| `Server.RadioServer.BroadcastToRadio` | server/routes.ts:36-46 | only the open members of the radio's room hear the message, and nobody when there is no room |
| `Server.RadioServer.BroadcastToAll` | server/routes.ts:49-56 | every open connected socket hears the message |
| `Server.RadioServer.BroadcastRoster` | server/routes.ts:316-326 | every open connected socket hears the roster and then the notice |
| `Server.RadioServer.Reply` | server/routes.ts:294-297 | only the requesting socket hears the message |
| `Server.RadioServer.StartStreaming` | server/routes.ts:214-254 | a start succeeds exactly when the song's URL yields an id and the audio source answers; the stream table changes as `AfterStart` says |
| `Server.RadioServer.Announce` | server/routes.ts:164-178 | the current song and flag are stored and the room hears `now_playing` then `playback_state` |
| `Server.RadioServer.PlayNextSong` | server/routes.ts:157-211 | a missing radio changes nothing; otherwise the store, the room's messages and the stream table are those of `Playback.Advance` |
| `Server.RadioServer.AdvanceRadio` | server/routes.ts:161-209 | on a stored radio, the store, the room's messages and the stream table are those of `Playback.Advance`; `queue_updated` is skipped when the start fails |
| `Server.RadioServer.BroadcastQueue` | server/routes.ts:201-208 | the room hears the queue as it is stored now |
| `Server.RadioServer.Connect` | server/routes.ts:280-285 | a new socket is connected, open, points at no radio and has an empty outbox |
| `Server.RadioServer.ConnectionLost` | server/routes.ts:41 | a socket that leaves the open state stops receiving broadcasts and nothing else changes |
| `Server.RadioServer.Close` | server/routes.ts:578-595 | the socket is forgotten, leaves the room of its truthy current radio, an emptied room goes, and afterwards no room holds it |
| `Server.RadioServer.LeaveCurrentRoom` | server/routes.ts:581-590 | the rooms become `LeaveRoom` of the old rooms; no room is left empty and none grows |
| `Server.RadioServer.GetAllRadios` | server/routes.ts:292-298 | only the requester hears the roster |
| `Server.RadioServer.CreateRadio` | server/routes.ts:301-335 | a rejected name is answered to the requester only and nothing changes; otherwise the normal form is stored as an empty radio and every client hears the roster then `radio_created` |
| `Server.RadioServer.AddNewRadio` | server/routes.ts:314-325 | an accepted name is stored as an empty radio and every client hears the roster then `radio_created` |
| `Server.RadioServer.RepointMembers` | server/routes.ts:369-381 | each member of the room points at the new name, and exactly the open members hear `radio_renamed_rejoin` |
| `Server.RadioServer.RepointOne` | server/routes.ts:371-380 | one more member points at the new name and, when open, is told to rejoin |
| `Server.RadioServer.MoveStream` | server/routes.ts:357-362 | the stream entry moves to the new name unchanged |
| `Server.RadioServer.MoveRoom` | server/routes.ts:364-382 | the room moves to the new name, its members are repointed and its open members are told to rejoin |
| `Server.RadioServer.RenameRadio` | server/routes.ts:337-402 | a rejected rename is answered to the requester only and nothing changes; otherwise store entry, stream entry and room move to the new name, members are repointed and told to rejoin, every client hears the roster then `radio_renamed`, and room agreement is kept |
| `Server.RadioServer.RenameStored` | server/routes.ts:354-392 | with the new name accepted, a missing old radio is answered with the store's error and nothing changes; otherwise store entry, stream entry and room move and the notices go out |
| `Server.RadioServer.MoveRadio` | server/routes.ts:357-392 | after the store rename, stream entry and room move, the notices go out in order and the invariants hold again |
| `Server.RadioServer.DeleteRadio` | server/routes.ts:404-455 | a missing radio is answered with an error; otherwise radio, stream entry and room go, the room's open members hear the deletion error, every client hears the roster then `radio_deleted`, and pointers stay |
| `Server.RadioServer.RemoveRadio` | server/routes.ts:412-452 | an existing radio, its stream entry and its room go, the room's open members hear the deletion error, every client hears the roster then `radio_deleted`, and agreement is kept |
| `Server.RadioServer.DropStream` | server/routes.ts:414-421 | the radio's stream entry, if any, is removed and no other entry changes |
| `Server.RadioServer.DropRoom` | server/routes.ts:424-435 | the room's open members hear the deletion error, then the room is removed |
| `Server.RadioServer.JoinRadio` | server/routes.ts:457-494 | the socket leaves its truthy current room, enters the room of the name as given, the radio is created if missing, and the requester gets its state |
| `Server.RadioServer.SwitchRoom` | server/routes.ts:459-478 | the rooms become `EnterRoom` of `LeaveRoom`, the pointer is the new name, and agreement is kept for a non-empty name |
| `Server.RadioServer.AddSong` | server/routes.ts:496-538 | a URL that does not resolve or a missing radio is answered with an error to the requester and changes nothing; otherwise store, room messages and stream table follow `Playback.AddSong` |
| `Server.RadioServer.Enqueued` | server/routes.ts:513-530 | after queueing, the room hears `queue_updated` and `song_added`, and an idle radio advances |
| `Server.RadioServer.PlayPause` | server/routes.ts:540-561 | a missing radio changes nothing; otherwise store and room messages follow `Playback.PlayPause`, and the stream table changes only when playback advances |
| `Server.RadioServer.AttachListener` | server/routes.ts:599-641 | a missing radio is `NotFound` and nothing changes; an existing stream entry gains the listener; otherwise a new entry is made and the current song or the queue head is started |
| `Server.RadioServer.OpenStream` | server/routes.ts:615-637 | a current song is restarted, and its failure is a server error without the listener; with no current song the queue advances if non-empty and the listener joins |
| `Server.RadioServer.AdvanceForListener` | server/routes.ts:628-637 | the queue advances as `Playback.Advance` says, the fresh entry always gets the listener, and gets a process only when the start succeeded |
| `Server.RadioServer.ResumeStream` | server/routes.ts:624-637 | the entry gets a process and the listener exactly when the start succeeds; failure is a server error |
| `Server.RadioServer.OpenEntry` | server/routes.ts:618-623 | a fresh entry without process or listeners is stored for the radio and the invariants hold |
| `Server.RadioServer.Listen` | server/routes.ts:637 | the radio's entry gains the listener |
| `Server.RadioServer.DetachListener` | server/routes.ts:643-659 | the listener leaves the entry, and an entry left without listeners is removed only when the radio's room is absent or empty |
| `Client.RouteName` | client/src/pages/radio-page.tsx:13 | the route name is never empty and is the parameter when that is non-empty |
| `Client.InitialState` | client/src/pages/radio-page.tsx:12-21 | the page starts from an empty idle radio named by the route, "lofi" by default |
| `Client.Apply` | client/src/pages/radio-page.tsx:42-68 | `radio_state` replaces the whole state; `queue_updated`, `now_playing` and `playback_state` replace one field each; every other message leaves the state alone |
| `Client.ApplyAllAppend` | client/src/pages/radio-page.tsx:38-68 | receiving two message sequences one after the other is receiving their concatenation |
| `Client.IgnoredMessagesKeepState` | client/src/pages/radio-page.tsx:55-68 | messages the reducer does not act on, `radio_renamed_rejoin` included, leave the page's state as it was |
| `Client.SnapshotResets` | client/src/pages/radio-page.tsx:43-45 | after `radio_state` the page's earlier state no longer matters |
| `Client.AnnouncementSetsFields` | client/src/pages/radio-page.tsx:49-54 | `now_playing` then `playback_state` set exactly the current song and the flag |
| `Client.AdvanceKeepsPageInSync` | client/src/pages/radio-page.tsx:46-54 | a page with the radio's name that receives the room's `playNextSong` messages ends with the server's new state, unless a dequeued song failed to start |
| `Client.FailedStartLeavesStaleQueue` | client/src/pages/radio-page.tsx:46-48 | when the dequeued song's stream fails, an in-sync page keeps the old queue and differs from the server |
| `Client.PlayPauseKeepsPageInSync` | client/src/pages/radio-page.tsx:46-54 | an in-sync page stays in sync through `play_pause`, unless it advances to a song that fails to start |
| `Client.AddSongKeepsPageInSync` | client/src/pages/radio-page.tsx:46-54 | a page agreeing on everything but the queue is in sync after `add_song`, unless an idle radio's new head fails to start |
| `Client.PlayEnabled` | client/src/pages/radio-page.tsx:239 | play/pause is disabled exactly when there is no current song and the queue is empty; it is enabled whenever skip is |
| `Client.SkipEnabled` | client/src/pages/radio-page.tsx:253 | skip is disabled exactly when the queue is empty |
| `Client.SkipEnabledIffSkipPlays` | client/src/pages/radio-page.tsx:253 | skip is enabled exactly when skipping gets a song playing; a skip with an empty queue would stop playback |
| `Client.PlayDisabledOnlyFlipsFlag` | client/src/pages/radio-page.tsx:239 | with play disabled, a toggle would only flip the flag and leave no song |
| `Client.PlayEnabledStartsPlayback` | client/src/pages/radio-page.tsx:239 | pressing an enabled play button on a paused radio gets a song playing |
| `Client.FormatDuration` | client/src/pages/radio-page.tsx:141-146 | absent or zero is "0:00"; every label is digits, a colon and exactly two digits |
| `Client.Clock` | client/src/pages/radio-page.tsx:143-145 | the label is the whole minutes, a colon, and the seconds below a minute padded with zeros to two digits |
| `Client.FormatDurationRoundTrip` | client/src/pages/radio-page.tsx:141-146 | the label reads back as the duration it shows, an absent one as zero |
| `Client.ClockRoundTrip` | client/src/pages/radio-page.tsx:143-145 | minutes and padded seconds read back as the number of seconds |
| `Client.PaddedSecondsValue` | client/src/pages/radio-page.tsx:144-145 | the padded seconds are two digits that read back as the seconds |
| `Client.ZeroShortcutAgrees` | client/src/pages/radio-page.tsx:142 | the zero shortcut prints what the general formula would |

## Left out

- Track resolution: the fetches to Piped mirrors, spotify-url-info and the YouTube search (server/routes.ts:74-154) are not modelled. Their answers are the `Tracks.Lookup` parameter. Only the URL classification, the id extraction and the construction of the song record are modelled.
- Audio pipeline: the Piped `/streams` call, the ffmpeg transcoding and the piping to HTTP responses are not modelled. Their outcome is the `startOk` parameter. A stream entry keeps only whether it has a process and its listeners; killing a process clears that flag.
- Timers: the delayed `playNextSong` after an encoder end or error is a later, separate call of `Server.RadioServer.PlayNextSong`.
- Concurrency: handlers interleave at `await` points in the source. Each handler is modelled as one atomic step.
- Transport: JSON parsing, the `type`/`data` envelope, non-string names and the outer "An error occurred processing your request" catch are not modelled. That catch is unreachable in the model because every handler is total. The HTTP headers, the `PassThrough` piping and the status codes other than the missing-radio `404` and the streaming `500` are not modelled.
- Error fallbacks: the `error.message || "Failed to …"` fallbacks are not modelled because every error the model raises has a non-empty message.
- Aliasing: the store hands out its state objects and `addToQueue` and `getNextInQueue` change their queue arrays in place. The model stores values. No handler reads a state object after a later store operation has changed it, so nothing observable differs.
- `Storage.MemStorage.AllRadioInfo`: the shape of the summary is not visible in the source. It is modelled as name, queue length and play flag.
- `all_radios` order: the roster is modelled as a set, so the order of a JavaScript `Map`'s values is not captured.
- `Storage.MemStorage.GetAllRadios`: lists every stored radio once but does not promise the `Map`'s insertion order, because the store is modelled as a Dafny `map`, which keeps no order.
- `Storage.MemStorage.RemoveFromQueue`: no handler calls it, so it is modelled only on the store.
- `currentTime` in the radio state schema is not modelled, because nothing sets or reads it.
- Schema validators: the zod validators in shared/schema.ts are not modelled; only their shapes are used. server/spotify-url-info.d.ts is not part of this model.
- Durations: a duration is a whole number of seconds, so `Math.floor` on fractional values in `formatDuration` is not modelled. The resolver's `Math.floor(duration / 1000)` is whole-number division.
- Strings: `toLowerCase` and `trim` are modelled for ASCII and Latin-1 letters and the usual whitespace characters, not full Unicode.
- Page: rendering, toasts, clipboard copy and the socket setup of the radio page are not modelled, and neither is the home page. The page's `join_radio` on open is `Server.RadioServer.JoinRadio` with `Client.RouteName`.
- `/api/radios` (server/routes.ts:668-675) is not modelled; it returns `getAllRadios`, which is modelled.
