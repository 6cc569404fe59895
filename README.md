# Chat-room session continuity: the LiveView client hooks

This project models the client half of a chat application's session protocol: the two
Phoenix LiveView hooks `ChatRoom` and `ChatNickname` in `assets/js/app.js`.

- `ChatRoom` remembers, per room, which participant id the server issued. Each binding
  lives in the tab's `sessionStorage` under `participant_<room_id>`. On mount the hook asks
  the server to restore a remembered participant. It mirrors the server's
  `save_participant` and `clear_participant` instructions into the store. It forwards a
  nickname change to `/chat/set_nickname` out of band and writes `chat_nickname` when that
  request resolves. It pushes `leave_room` on `popstate`, `beforeunload` and
  `phx:page-loading-start`.
- `ChatNickname` gets or creates the tab's `chat_session_id` and announces it with
  `set_session_id`. It mirrors `save_nickname` and `clear_nickname` into `chat_nickname`.
  Without `crypto.randomUUID` it builds the id by filling the template
  `xxxxxxxx-xxxx-4xxx-yxxx-xxxxxxxxxxxx` from `Math.random()`.

The model has three modules.

- `Uuid` (uuid.dfy) is the template fill as a pure function of 31 supplied nibbles. It
  proves that the output is exactly a version-4 UUID in the layout of RFC 9562, sections 4
  and 5.4. Every such UUID is an output. Two outputs are equal exactly when the draws agree
  except in the two bits the variant mask discards.
- `Protocol` (protocol.dfy) is the state machine over values. A `World` is the store (a
  `map<string, string>`) plus the append-only log of pushes. Every handler is one `Event`;
  `Step` dispatches one event and `Run` a sequence. `RoomListeners` is one ChatRoom
  instance's registered termination listeners and its `_cleanup` flag.
- `Hooks` (hooks.dfy) is the imperative form. `Page` holds `sessionStorage` and the push
  channel; `ChatRoom` and `ChatNickname` are classes whose methods call `GetItem`,
  `SetItem`, `RemoveItem` and `PushEvent`. Each method is proved to change the state
  exactly as `Step`, `AfterMount`, `AfterDestroy` or `Deliver` says.

How the code behaves at its edges, as modelled:

- No `leave_room` latch: each listener run pushes, so two signals give two pushes
  (`Protocol.RunLeaves`, `Protocol.DeliverAllPushes`).
- The nickname is written on any resolved request: the `.then` at app.js:65 runs for every
  HTTP status, 4xx and 5xx included; only a network rejection leaves the store alone.
- The code reports no failure of the nickname request and has no fallback when storage is
  unavailable; the model has neither.
- Truthiness, not presence. `if (storedParticipantId)` and `if (!sessionId)` treat a stored
  empty string like an absent key. A stored `""` participant is not restored, and a stored
  `""` session id is regenerated (`Protocol.Truthy`).
- Deactivation removes only the `popstate` and `beforeunload` listeners. The
  `phx:page-loading-start` handler is registered with `this.handleEvent` (app.js:89), and
  `_cleanup` does not remove it (app.js:92-95); the model keeps it registered after
  `destroyed` (`Protocol.DestroyedHearsOnlyPageLoads`).

## Model

| member | source | states |
|---|---|---|
| `Uuid.HexDigit` | assets/js/app.js:115 | `v.toString(16)` of a value below 16 is the digit at position `v` of `0123456789abcdef`: one lowercase hex digit, a decimal digit exactly when the value is below 10 |
| `Uuid.Variant` | assets/js/app.js:114 | `r & 0x3` with bit `0x8` set lies in 8..11 and keeps the low two bits of the draw |
| `Uuid.Substitute` | assets/js/app.js:113-115 | the callback returns, for `x`, the hex digit whose value is the draw, and for `y`, the hex digit whose value is `Variant(r)`; either fits the template position |
| `Uuid.Replace` | assets/js/app.js:112-116 | the per-character `replace(/[xy]/g, …)` keeps the template's layout: `x` becomes a hex digit, `y` one of `8 9 a b`, every other character stays |
| `Uuid.ReplaceExtract` | assets/js/app.js:112-116 | every string with the template's layout is the rewrite of the draws read back from it |
| `Uuid.ExtractReplace` | assets/js/app.js:112-116 | reading back a rewrite gives the draws, with the variant slot reduced to its low two bits |
| `Uuid.ReplaceAt` | assets/js/app.js:112-116 | character `i` of the rewrite is the callback's value for the draw numbered by the placeholders before `i`, or the template's own character when `t[i]` is not a placeholder |
| `Uuid.ReplaceInjective` | assets/js/app.js:112-116 | two rewrites are equal exactly when their draws agree after the variant reduction |
| `Uuid.TemplatePlaceholders` | assets/js/app.js:112 | the template has 31 placeholders, so the fallback makes 31 draws |
| `Uuid.TemplateLayoutIsVersion4` | assets/js/app.js:112 | a string has the template's layout exactly when it is a version-4 UUID: 36 characters, `-` at 8, 13, 18 and 23, `4` at 14, one of `8 9 a b` at 19, lowercase hex elsewhere |
| `Uuid.FillTemplate` | assets/js/app.js:111-116 | the fallback id built from any 31 nibbles is a version-4 UUID |
| `Uuid.FillTemplateIsReplace` | assets/js/app.js:112-116 | the position-by-position fill of the template equals the rewrite `replace(/[xy]/g, …)` of the template literal |
| `Uuid.FillTemplateImage` | assets/js/app.js:111-116 | the fallback's outputs are exactly the version-4 UUIDs |
| `Uuid.FillTemplateInjective` | assets/js/app.js:112-116 | two fallback ids are equal exactly when the draws agree everywhere except the high two bits of draw 15; 122 random bits survive |
| `Protocol.ParticipantKey` | assets/js/app.js:35 | the key is `participant_` followed by the room id, never equals `chat_session_id` or `chat_nickname`, and the room id can be read back from it |
| `Protocol.ParticipantKeyInjective` | assets/js/app.js:46 | two rooms share a key exactly when they are the same room |
| `Protocol.Truthy` | assets/js/app.js:37 | a `getItem` result is truthy exactly when it is neither `null` nor the empty string; the same test guards the session id at app.js:110 |
| `Protocol.Push.Name` | assets/js/app.js:38-41 | the wire names `restore_participant`, `leave_room` and `set_session_id` (app.js:38, 73, 121) each belong to exactly one kind of push |
| `Protocol.Push.Payload` | assets/js/app.js:38-41 | the payload of `restore_participant` has exactly the keys `room_id` and `participant_id`, with `room_id` holding the push's room id and `participant_id` its participant id; that of `leave_room` is `{}` (app.js:73); that of `set_session_id` has exactly the key `session_id`, holding the push's session id (app.js:121) |
| `Protocol.PushWireInjective` | assets/js/app.js:38-41 | two pushes with the same name and payload are the same push, so the server can tell every push apart, `leave_room` (app.js:73) and `set_session_id` (app.js:121) included |
| `Protocol.GeneratedId` | assets/js/app.js:111-116 | a session id from the `Math.random` fallback is a version-4 UUID; one from `crypto.randomUUID` is taken as given |
| `Protocol.Restore` | assets/js/app.js:34-42 | mount never changes the store; it pushes something exactly when the room's binding is truthy, and then exactly `restore_participant {room_id, participant_id}` with the stored id |
| `Protocol.StoreParticipant` | assets/js/app.js:45-47 | after `save_participant` the room's binding is the given id, every other key reads as before, nothing is pushed |
| `Protocol.RemoveParticipant` | assets/js/app.js:50-52 | after `clear_participant` the room's binding is absent, every other key reads as before, nothing is pushed |
| `Protocol.SettleNickname` | assets/js/app.js:65-68 | a resolved request, whatever its status, sets `chat_nickname`; a rejected one changes nothing; no other key changes and nothing is pushed |
| `Protocol.AnnounceSession` | assets/js/app.js:109-121 | ChatNickname mount appends exactly one `set_session_id` whose id equals the stored `chat_session_id`; a truthy stored id is kept with the store unchanged, otherwise the generated id is stored; no other key changes |
| `Protocol.PushLeave` | assets/js/app.js:72-84 | each termination listener appends exactly one `leave_room` after the existing log and leaves the store alone |
| `Protocol.StoreNickname` | assets/js/app.js:124-126 | `save_nickname` sets `chat_nickname` only, pushes nothing |
| `Protocol.RemoveNickname` | assets/js/app.js:129-131 | `clear_nickname` removes `chat_nickname` only, pushes nothing |
| `Protocol.Step` | assets/js/app.js:30-133 | every handler keeps the existing log as a prefix and pushes at most one event; only the two `mounted` functions and the termination listeners push |
| `Protocol.Run` | assets/js/app.js:30-133 | over any run of handlers the log is append-only: the old log is a prefix of the new one, which has at most one push per handler more |
| `Protocol.RestoreOnMount` | assets/js/app.js:34-42 | with a stored non-empty `v` mount pushes exactly one `restore_participant {roomId, v}` and keeps the store; otherwise the world is unchanged |
| `Protocol.SaveLastWriteWins` | assets/js/app.js:45-52 | a second save for the same room overrides the first; a clear after a save equals the clear alone |
| `Protocol.ClearIdempotent` | assets/js/app.js:50-52 | clearing an absent binding is a no-op; clearing twice equals clearing once |
| `Protocol.NicknameSideChannel` | assets/js/app.js:55-69 | the `update_session_nickname` handler changes nothing by itself; when the request settles nothing is pushed, a rejection changes nothing, a resolution writes `chat_nickname` |
| `Protocol.SessionIdStable` | assets/js/app.js:109-121 | two ChatNickname mounts in a row push the same session id, and the second leaves the store as the first left it |
| `Protocol.RunBinding` | assets/js/app.js:45-52 | over any run of handlers, each room's binding is what the last save or clear for that room left; other rooms and other handlers do not affect it |
| `Protocol.RunNickname` | assets/js/app.js:65-131 | over any run, `chat_nickname` is what the last `save_nickname`, `clear_nickname` or resolved nickname request left |
| `Protocol.RunLeaves` | assets/js/app.js:72-84 | over any run, every termination-listener run adds exactly one `leave_room` push and no other handler adds one |
| `Protocol.RunKeepsSessionIds` | assets/js/app.js:109-121 | over any run, every `set_session_id` pushed carries the currently stored, non-empty session id |
| `Protocol.SameSessionIdEverywhere` | assets/js/app.js:109-121 | starting from a log with no `set_session_id`, any two `set_session_id` pushes of a run carry the same id |
| `Protocol.AfterMount` | assets/js/app.js:86-95 | after `mounted` the popstate, beforeunload and page-loading listeners are all registered, none is lost, and `_cleanup` is set |
| `Protocol.AfterDestroy` | assets/js/app.js:92-103 | `destroyed` never adds a listener or changes `_cleanup`; with `_cleanup` set, the popstate and beforeunload listeners are gone; the page-loading listener stays as it was; without `_cleanup` nothing changes |
| `Protocol.Deliver` | assets/js/app.js:87-89 | a signal never touches the store; it appends one `leave_room` when its listener is registered and changes nothing otherwise |
| `Protocol.DeliverAll` | assets/js/app.js:87-89 | a sequence of signals never touches the store, keeps the log as a prefix, and pushes at most one event per signal |
| `Protocol.DeliverAllPushes` | assets/js/app.js:72-89 | a sequence of signals never touches the store and appends one `leave_room` per signal whose listener is registered |
| `Protocol.MountedHearsEverySignal` | assets/js/app.js:86-89 | after mount, all three listeners are registered, so k signals of any kinds give k pushes |
| `Protocol.DestroyedHearsOnlyPageLoads` | assets/js/app.js:92-102 | after mount and destroy only the page-loading listener remains; popstate and beforeunload push nothing, page-loading pushes once per signal |
| `Protocol.DestroyPushesNothing` | assets/js/app.js:98-103 | `destroyed` leaves the world unchanged, is a no-op when `_cleanup` is unset, and a second destroy changes nothing |
| `Hooks.Page.GetItem` | assets/js/app.js:35 | `sessionStorage.getItem` returns the stored value, or nothing when the key is absent |
| `Hooks.Page.SetItem` | assets/js/app.js:46 | `sessionStorage.setItem` overwrites one key and pushes nothing |
| `Hooks.Page.RemoveItem` | assets/js/app.js:51 | `sessionStorage.removeItem` removes one key, absent or not, and pushes nothing |
| `Hooks.Page.PushEvent` | assets/js/app.js:38-41 | `pushEvent` appends to the outgoing log and leaves the store alone |
| `Hooks.ChatRoom.constructor` | assets/js/app.js:34 | a hook instance starts bound to its element's room with no listeners and no `_cleanup` |
| `Hooks.ChatRoom.Mounted` | assets/js/app.js:32-96 | mount changes the page as `Step(RoomMounted)` and registers all three listeners and `_cleanup` |
| `Hooks.ChatRoom.SaveParticipant` | assets/js/app.js:45-47 | the handler changes the page as `StoreParticipant` |
| `Hooks.ChatRoom.ClearParticipant` | assets/js/app.js:50-52 | the handler changes the page as `RemoveParticipant` |
| `Hooks.ChatRoom.UpdateSessionNickname` | assets/js/app.js:55-64 | the handler leaves the page unchanged and returns a request carrying the nickname and session id |
| `Hooks.ChatRoom.NicknameRequestSettled` | assets/js/app.js:65-68 | the continuation changes the page as `SettleNickname` |
| `Hooks.ChatRoom.HandlePopState` | assets/js/app.js:72-74 | the listener appends one `leave_room` |
| `Hooks.ChatRoom.HandlePageLoading` | assets/js/app.js:77-79 | the listener appends one `leave_room` |
| `Hooks.ChatRoom.HandleBeforeUnload` | assets/js/app.js:82-84 | the listener appends one `leave_room` |
| `Hooks.ChatRoom.Fire` | assets/js/app.js:87-89 | a signal runs this instance's listener exactly when it is registered |
| `Hooks.ChatRoom.Destroyed` | assets/js/app.js:98-103 | destroy removes the popstate and beforeunload listeners when `_cleanup` is set, and changes neither the store nor the log |
| `Hooks.ChatNickname.constructor` | assets/js/app.js:106 | a hook instance is bound to its page |
| `Hooks.ChatNickname.Mounted` | assets/js/app.js:107-121 | mount changes the page as `AnnounceSession`: get or create the session id and push it once |
| `Hooks.ChatNickname.SaveNickname` | assets/js/app.js:124-126 | the handler changes the page as `StoreNickname` |
| `Hooks.ChatNickname.ClearNickname` | assets/js/app.js:129-131 | the handler changes the page as `RemoveNickname` |

## Left out

- Socket and transport setup (app.js:136-154): the `LiveSocket` construction, `connect` and `window.liveSocket`. These are Phoenix plumbing. The channel is the abstract push log `Page.pushes`.
- The progress bar (app.js:143-145). It is UI only.
- The live-reload editor integration (app.js:162-189). It is development tooling.
- The CSRF token lookup and the real request (app.js:28, 57-64): the URL, the `URLSearchParams` encoding and the headers are I/O. The request is the value `NicknameRequest`, and how it settles is an input, `Resolved(status)` or `Rejected`.
- `crypto.randomUUID` (app.js:111) is a foreign call. Its result is an opaque string supplied as `IdSource.CryptoRandomUuid`.
- `Math.random() * 16 | 0` is floating-point arithmetic. Each draw is supplied as a nibble in 0..15.
- LiveView's own hook machinery is not part of this model. That covers when server events reach a hook, whether `handleEvent` handlers are dropped on destroy, and how `handleEvent("phx:page-loading-start", …)` is dispatched. Server events may reach the modelled handlers at any time, and the page-loading handler is treated as a listener that `_cleanup` does not remove.
- `Hooks.ChatRoom.Mounted` requires `_cleanup` to be unset, because LiveView mounts each hook instance once. A second mount of the same instance would register new closures, which a set of listeners cannot represent.
- A missing `data-room-id` is not modelled. JavaScript would then use the key `participant_undefined`. The room id is always a string here.
- Payload values are strings. JavaScript's coercion of other values by `setItem` is not modelled.
- Storage exceptions (storage disabled, quota exceeded) are not modelled, because the code does not handle them.
- Interleaving is modelled only between handlers. Each handler runs to completion, and the nickname request is split into its sending handler and its continuation, so a `Run` may place other events between them. A `Run` is any sequence of events: nothing pairs a `NicknameRequestSettled` event with an earlier `UpdateSessionNickname`, so a run may settle a request that was never sent. The run lemmas hold for every sequence, and so also for the runs a real page produces. Other tabs writing to the same storage are out of scope.
- Protocol.SessionIdStable: assumes `crypto.randomUUID` returns a non-empty string (`ProducesId`). For an empty result the code would regenerate the id on the next mount. The fallback's 36-character output is proved non-empty.
- Protocol.RunKeepsSessionIds: assumes, through `Feasible`, that every `crypto.randomUUID` result is non-empty.
- Protocol.SameSessionIdEverywhere: assumes, through `Feasible`, that every `crypto.randomUUID` result is non-empty. With an empty result the stored id stays falsy, so the next mount generates a new id and may push a different one.
