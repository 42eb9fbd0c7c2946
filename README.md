# Live translation rooms and audio transfer, modelled in Dafny

This project models the sequential core of a live-translation video meeting
application and proves properties of the model. The core has four parts.

- **First room registry** (`backend/app.js`, `backend_rooms.dfy`).
  - A socket.io server keeps a map from room id to a set of users and a host id.
  - `join-room` creates a room on first use and makes the first joiner host.
  - `disconnect` removes the user. A leaving host is replaced by the earliest remaining user, and an empty room is deleted.
  - `kick-user` lets the host disconnect another user's socket.
  - `request-host-id` answers with the host.
- **Second room registry** (`socket-server/server.js`, `meeting_rooms.dfy`).
  - Rooms have an explicit host, a participant set and a capacity of four.
  - The handlers are `check-room`, `initialize-host`, `join-as-participant` and `disconnect`.
  - `disconnect` sweeps every room in key order.
  - The host controls mute, unmute and remove find the caller's room with `findUserRoom`.
  - End meeting instead looks up the room id given in its payload.
  - The participant controls are toggle mute, toggle video and leave.
- **Chunked audio transfer** (`frontend/hooks/peer.js`, `audio_codec.dfy` and `peer_session.dfy`).
  - The sender cuts a byte buffer into 1024-byte slices. It sends one `audio-info` frame, then one `audio-chunk` frame per slice.
  - The receiver keeps a reassembly entry per message id. Each entry holds a JavaScript array of slots and a counter.
  - When the counter reaches the announced total, the receiver hands the concatenation of the slots to the consumer.
  - Data connections are kept at most one per peer, and are reused.
- **Mock translation endpoint** (`frontend/pages/api/translate.js`, `mock_translate.dfy`).
  - Non-POST requests and missing parameters are rejected.
  - Otherwise the text is prefixed with the bracketed, upper-cased target language.

`basics.dfy` holds what the parts share: an `Option`, the truthiness of JavaScript strings, and the JavaScript `Set` of ids. A `Set` iterates in insertion order, so it is a duplicate-free sequence here.

## How the model is built

**Server state is a class.**
- `BackendRooms.SignalingServer` and `MeetingRooms.MeetingServer` are classes with that state as fields. Their handler methods update the fields in place.
- Each handler is proved against a pure function of the old state (`Join`, `Leave`, `AfterJoin`, `AfterDisconnect`, ...). Each function carries the properties the source promises.
- Lemmas show that every handler keeps the registry invariant.
- Emitted events are returned as a list in emission order. The list records who receives each event: the room, the caller, or the room without the caller.

**In the first registry, listeners stack.**
- Each `join-room` registers one more `disconnect` listener on the socket, and the client sends `join-room` more than once.
- So a socket remembers how many listeners it has. Its disconnect runs the leave step once per listener.
- A lemma proves that the repeated runs change the registry no further.
- Each repeated run emits only `user-disconnected`, and only while the room still exists. It never emits `set-host`, and it emits nothing once the first run deleted the room (`LaterLeaveEvents`).

**In the second registry, key order is kept.**
- The `rooms` map's insertion order is part of the state, because `findUserRoom` and the disconnect sweep visit keys in that order.
- The sweep loop is proved against `AfterDisconnect` through a prefix function (`SweptPrefix`).

**The audio receiver is specified by a function.**
- `AudioCodec.Receive` is the `data` handler applied to one frame.
- `PeerSessions.PeerSession.OnData` performs the same steps on the session's `audioChunks` field and is proved equal to `Receive`.
- The sender's chunking loop (`SplitIntoChunks`) and frame loop (`EncodeFrames`) are proved against `ChunksOf` and `AudioFrames`.
- The round trip is proved over every arrival order of the chunk frames.

## Model

| member | source | states |
|---|---|---|
| Basics.Add | backend/app.js:42 | `set.add`: a new id goes to the end and a present id changes nothing; membership is the old set plus the id; the old order is kept as a prefix; no duplicates arise |
| Basics.Delete | backend/app.js:67 | `set.delete`: exactly the id is removed, the others keep their order; the first remaining element is the earliest inserted one other than the id (what `users.values().next()` reads at app.js:72) |
| BackendRooms.Join | backend/app.js:25-59 | joining an unknown room creates it with the joiner as only user and host; joining an existing room adds the user at the end (nothing if present), keeps the host if it is truthy, otherwise makes the joiner host; other rooms unchanged |
| BackendRooms.Leave | backend/app.js:62-86 | with a falsy or unknown room id nothing changes; otherwise the room survives iff someone other than the leaver remains, its users are `Delete` of the old users (exactly the leaver removed, the rest in insertion order), keeps its host unless the host left, and a leaving host is replaced by the earliest remaining user |
| BackendRooms.JoinKeepsConsistent | backend/app.js:34-54 | a join keeps every room's host among its users and its users duplicate-free |
| BackendRooms.LeaveKeepsConsistent | backend/app.js:64-80 | a leave keeps every room's host among its users and its users duplicate-free |
| BackendRooms.LeaveIsIdempotent | backend/app.js:62-86 | running the disconnect listener a second time leaves the registry as the first run left it |
| BackendRooms.LaterLeaveEvents | backend/app.js:62-86 | a listener run after the first emits `user-disconnected` to the others iff the room still exists, and never `set-host` |
| BackendRooms.HostIsAlwaysMember | backend/app.js:19-86 | after any sequence of joins and leaves from the empty registry, every room's host is one of its users |
| BackendRooms.TwoUserSession | backend/app.js:25-86 | alice creates r1 and is host; bob joining is told alice is host; alice leaving makes bob host of `{bob}`; bob leaving deletes r1 |
| BackendRooms.FindSocket | backend/app.js:98 | the chosen socket joined the caller's room as the target user, and no earlier socket in connection order did |
| BackendRooms.SignalingServer.constructor | backend/app.js:19 | the registry and the socket table start empty |
| BackendRooms.SignalingServer.Connect | backend/app.js:22-23 | a new socket joins the end of the table with no session; rooms unchanged |
| BackendRooms.SignalingServer.JoinRoom | backend/app.js:25-59 | the registry becomes `Join` of the old one; `set-host` goes to the room when the joiner becomes host, otherwise to the joiner alone, then `user-connected` to the others; the socket records user and room and one more disconnect listener |
| BackendRooms.SignalingServer.RunDisconnectListener | backend/app.js:62-86 | one listener run: the registry becomes `Leave` of the old one, with `set-host` on re-election and then `user-disconnected` to the others; the socket table is unchanged |
| BackendRooms.SignalingServer.RunDisconnectListeners | backend/app.js:62-86 | all of a socket's listeners: the registry is left once, the first run's events are followed by the second run's events once per further listener |
| BackendRooms.SignalingServer.Disconnect | backend/app.js:62-86 | the socket leaves the table; a socket that never joined changes no room; otherwise the registry becomes `Leave` of its latest room and user |
| BackendRooms.SignalingServer.KickUser | backend/app.js:90-124 | only a caller whose truthy room exists and is hosted by it can kick; the first socket in that room with the target user id gets `user-kicked`, the room gets `user-kicked`, and that socket disconnects; otherwise nothing changes and nothing is sent |
| BackendRooms.SignalingServer.RequestHostId | backend/app.js:127-141 | the caller is sent `set-host` iff the room id is truthy, the room exists and its host is truthy, and then with that host |
| MeetingRooms.FirstIndexWith | socket-server/server.js:157-164 | the index found is the first room in key order whose participants hold the id; none means no room does |
| MeetingRooms.AfterInitializeHost | socket-server/server.js:38-49 | an existing room id changes nothing; a new one gets a room with the caller's `userId` as host and only participant, capacity four, and goes last in the key order |
| MeetingRooms.AfterJoin | socket-server/server.js:52-69 | a missing or full room changes nothing; an admitted join makes the participants `Add` of the old ones (the user at the end if new), keeps the key order, keeps host and capacity, and never exceeds the capacity |
| MeetingRooms.KeepInKeepsOrder | socket-server/server.js:76-97 | the rooms kept by the disconnect sweep stay in their old key order: of any two, the earlier one was earlier before |
| MeetingRooms.AfterDisconnect | socket-server/server.js:72-98 | the socket id is in no room afterwards; each surviving room's participants are `Delete` of its old ones and the key order is the old one restricted to surviving rooms (`KeepIn`); a room survives iff it did not hold the id or still has others; rooms without the id are untouched; a room whose host left gets the earliest remaining participant as host |
| MeetingRooms.AfterRemoval | socket-server/server.js:115-122 | `participants.delete`: the participants become `Delete` of the old ones, so exactly the id is removed and the rest keep their order; host and key set unchanged, even when the room empties |
| MeetingRooms.AfterEndMeeting | socket-server/server.js:124-130 | the room is deleted from the map, the key order becomes `Delete` of the old order, nothing else changes |
| MeetingRooms.InitializeHostKeepsWellFormed | socket-server/server.js:38-49 | keys stay listed once, participant sets duplicate-free and within capacity four |
| MeetingRooms.JoinKeepsWellFormed | socket-server/server.js:52-69 | the capacity check keeps every room at four participants or fewer |
| MeetingRooms.DisconnectKeepsWellFormed | socket-server/server.js:72-98 | the sweep keeps the registry well formed, key order included |
| MeetingRooms.RemovalKeepsWellFormed | socket-server/server.js:115-122 | removing a participant keeps the registry well formed |
| MeetingRooms.EndMeetingKeepsWellFormed | socket-server/server.js:124-130 | deleting a room keeps the registry well formed |
| MeetingRooms.SelfRemovalOrphansHost | socket-server/server.js:147-153 | a host who leaves its own new room stays its host while no longer in it, and the empty room is kept |
| MeetingRooms.MeetingServer.constructor | socket-server/server.js:18 | the room map starts empty |
| MeetingRooms.MeetingServer.FindUserRoom | socket-server/server.js:157-164 | the loop returns the first room in key order holding the id, or none exactly when no room holds it |
| MeetingRooms.MeetingServer.CheckRoom | socket-server/server.js:24-35 | an absent room answers "does not exist, be host"; an existing one answers exists, whether the caller's socket id is host, and the participants |
| MeetingRooms.MeetingServer.InitializeHost | socket-server/server.js:38-49 | the registry becomes `AfterInitializeHost`; the caller is told `host` whether or not it created the room |
| MeetingRooms.MeetingServer.JoinAsParticipant | socket-server/server.js:52-69 | the registry becomes `AfterJoin`; the caller gets the error, `room-full`, or `participant` followed by `participant-joined` to the others |
| MeetingRooms.MeetingServer.Disconnect | socket-server/server.js:72-98 | the loop over the keys leaves the registry at `AfterDisconnect` and emits each room's `host-changed`, `role-changed`, `participant-left` in key order |
| MeetingRooms.MeetingServer.SweepRoomAt | socket-server/server.js:76-97 | one loop pass: the room loses the id, is re-hosted or deleted when emptied, and the events follow the source's order |
| MeetingRooms.MeetingServer.MuteParticipant | socket-server/server.js:101-106 | `participant-muted` goes to the caller's first room only when the caller's socket id hosts it |
| MeetingRooms.MeetingServer.UnmuteParticipant | socket-server/server.js:108-113 | `participant-unmuted` goes to the caller's first room only when the caller's socket id hosts it |
| MeetingRooms.MeetingServer.RemoveParticipant | socket-server/server.js:115-122 | only the host of the caller's room removes; the registry becomes `AfterRemoval`, the target and the room are told; otherwise nothing changes |
| MeetingRooms.MeetingServer.EndMeeting | socket-server/server.js:124-130 | only the room's host ends it; the room is deleted after `meeting-ended` is sent; otherwise nothing changes |
| MeetingRooms.MeetingServer.ToggleMute | socket-server/server.js:133-138 | the mute state is relayed to the caller's first room, if any |
| MeetingRooms.MeetingServer.ToggleVideo | socket-server/server.js:140-145 | the video state is relayed to the caller's first room, if any |
| MeetingRooms.MeetingServer.LeaveMeeting | socket-server/server.js:147-153 | anyone deletes any user id from an existing room: registry becomes `AfterRemoval`, `participant-left` is sent only when the room exists |
| AudioCodec.ChunksOf | frontend/hooks/peer.js:146-154 | a buffer of length L gives ceil(L/1024) slices, none empty, each 1024 bytes except possibly the last |
| AudioCodec.ChunksReassemble | frontend/hooks/peer.js:152-154 | the slices concatenated in order are the buffer |
| AudioCodec.SplitIntoChunks | frontend/hooks/peer.js:149-154 | the stepping loop over `i += CHUNK_SIZE` produces exactly `ChunksOf` of the buffer |
| AudioCodec.AudioFrames | frontend/hooks/peer.js:156-173 | the info frame comes first with `totalChunks` equal to the slice count; then slice k's frame at position k+1, same message id, index k |
| AudioCodec.EncodeFrames | frontend/hooks/peer.js:148-176 | the sending loop emits exactly `AudioFrames` |
| AudioCodec.Holes | frontend/hooks/peer.js:61 | `new Array(n)` has n slots, all holes |
| AudioCodec.Store | frontend/hooks/peer.js:67 | writing index i sets slot i and keeps the others, growing the array with holes past its end; a negative or too large index leaves the slots unchanged |
| AudioCodec.InfoResetsEntry | frontend/hooks/peer.js:58-63 | an `audio-info` frame with a valid total creates its entry afresh (all holes, count 0), dropping earlier partial state, and leaves other entries alone |
| AudioCodec.UnknownChunkIgnored | frontend/hooks/peer.js:64-66 | a chunk for an id without entry changes nothing and delivers nothing |
| AudioCodec.ChunkAlwaysCounts | frontend/hooks/peer.js:64-86 | every chunk for a known id raises the count by one, repeated index or not; delivery happens iff the count reaches the info's total, and then the entry is deleted |
| AudioCodec.DeliveredAtMostOnce | frontend/hooks/peer.js:70-84 | after a delivery, any further chunk under that id is ignored |
| AudioCodec.DuplicateChunkCompletesWithHole | frontend/hooks/peer.js:67-72 | with total 2, chunk 0 received twice completes the message as the second copy followed by one zero byte for the hole |
| AudioCodec.StalledEntryNeverCompletes | frontend/hooks/peer.js:64-70 | an entry whose count is at or past its total is never completed by further chunks, and stays in the map |
| AudioCodec.EmptyAudioNeverCompletes | frontend/hooks/peer.js:152-164 | an empty buffer is announced with zero chunks; its entry is created and never completes |
| AudioCodec.RoundTrip | frontend/hooks/peer.js:53-88 | the sender's frames, chunks in any order, make the receiver deliver the original bytes and metadata exactly once, at the last chunk, leaving no entry |
| AudioCodec.ThirtyFiveHundredBytes | frontend/hooks/peer.js:146-173 | a 3500-byte buffer gives chunks of 1024, 1024, 1024 and 428 bytes, and arriving in order 2, 0, 3, 1 is delivered whole |
| PeerSessions.DataConnection.constructor | frontend/hooks/peer.js:41 | a new connection reaches the requested peer and is not open yet |
| PeerSessions.PeerSession.constructor | frontend/hooks/peer.js:36-37 | both maps start empty |
| PeerSessions.PeerSession.EnsureDataConnection | frontend/hooks/peer.js:39-46 | a stored connection for the peer is returned unchanged; otherwise a fresh, closed connection is stored under the peer and returned; one connection per peer id |
| PeerSessions.PeerSession.OnClose | frontend/hooks/peer.js:90-93 | closing any connection removes whatever is stored under its peer id |
| PeerSessions.PeerSession.SendTranscript | frontend/hooks/peer.js:128-133 | the transcript frame is sent only if the peer's connection already existed and is open, so the first send to a new peer is dropped; an existing connection is kept and the map is unchanged, otherwise exactly one fresh, closed connection is added for the peer |
| PeerSessions.PeerSession.SendLanguagePreferences | frontend/hooks/peer.js:135-140 | the preferences frame is sent only on an existing, open connection; the connection map changes as in `SendTranscript` |
| PeerSessions.PeerSession.SendAudioMessage | frontend/hooks/peer.js:142-180 | on an existing, open connection exactly `AudioFrames` is sent under the given message id, otherwise nothing; the connection map changes as in `SendTranscript` |
| PeerSessions.PeerSession.OnData | frontend/hooks/peer.js:53-88 | the in-place handler leaves `audioChunks` and the delivery exactly as `Receive` specifies; connections untouched |
| MockTranslate.Upper | frontend/pages/api/translate.js:44 | upper-casing keeps the length and maps each ASCII letter to its capital |
| MockTranslate.Translate | frontend/pages/api/translate.js:18-45 | for every target language the result is "[" + upper(target) + "] " + text: the eight listed cases agree with the default |
| MockTranslate.TranslateKeepsText | frontend/pages/api/translate.js:14-45 | the text is a suffix of the result, which is three characters plus the target's length longer |
| MockTranslate.Handle | frontend/pages/api/translate.js:2-54 | non-POST gives 405; a missing body gives 500; a missing or empty text, source or target gives 400; otherwise 200 with the translated text; status 200 iff a translation is returned |
| MockTranslate.SourceLanguageIgnored | frontend/pages/api/translate.js:8-45 | the response does not depend on which non-empty source language is given |

## Left out

- Transport: socket.io's `socket.join`, the network delivery of emitted events, and `targetSocket.disconnect` are not modelled. Emits are returned as an ordered list of events with their recipients. A kicked socket's disconnect runs at once, inside the kick.
- Peer media and wiring: `call`, `answer` and `stream` handling, and peer construction (frontend/hooks/peer.js:14-34 and 96-126), are left out. This includes registering handlers on incoming connections. `OnClose` accepts any connection, stored or incoming.
- `PeerSessions.DataConnection.Opened` is a stand-in for the PeerJS `open` event. The `open` flag is library state.
- Timers and asynchrony are left out. These are the 100 ms throttle between chunks, the 500 ms mock delay, and the await on the Blob's `arrayBuffer`. Frames are computed at the call. A connection that closes part-way through a send is not modelled.
- Blob and `Uint8Array` conversions are left out: audio is a sequence of byte values.
- Frames are taken to be well typed: indices and totals are integers, `data` is a byte array, and text fields are strings. Non-integer or non-numeric values, which JavaScript would coerce, are not modelled.
- `PeerSessions.PeerSession.OnData`: the source mutates the reassembly entry object in place. The model replaces the map's value. No other reference to an entry exists, so nothing observable differs.
- `AudioCodec.RoundTrip`: this lemma requires at most 2^32-1 slices. The source's `chunks.push` beyond that JavaScript array limit is not modelled.
- `MockTranslate.Upper` models `toUpperCase` for ASCII letters only. Other characters are kept unchanged. Non-ASCII case mappings, some of which change the length, are not modelled. The body fields are strings or absent; a non-string field is not modelled.
- Identifiers: `socket-server/server.js` stores the payload's `userId` as host and participant (lines 41-42 and 64), but its other handlers compare and remove `socket.id` (lines 31, 77-81, 102-103 and 117). The model keeps this mismatch as written. Ids are one type, and each handler uses the one its source uses.
- The model follows the code as written, including these behaviours:
  - A repeated chunk index is counted again and can complete a message with a hole (`DuplicateChunkCompletesWithHole`).
  - Out-of-range chunk indices are written, not rejected.
  - A chunk for an unknown message id is dropped.
  - There is no retry of failed sends.
  - There is no eviction of stale entries.
  - Kick and host checks fail silently, with no error event.
- Outside the core: the Python services, the other API routes, the React hooks and components, and the PeerJS server configuration.
