/**
 * The session-continuity protocol of the two LiveView client hooks, ChatRoom and
 * ChatNickname (assets/js/app.js:30-133), as a state machine over values.
 *
 * A World is what the hooks read and write: the tab's `sessionStorage` (a map from string
 * keys to string values) and the log of everything pushed to the server with `pushEvent`.
 * Every handler of the two hooks is one Event; Step applies one, Run a sequence of them.
 * The classes in module Hooks are proved to change their state exactly as Step says.
 */
module Protocol {
  import Uuid

  datatype Option<T> = None | Some(value: T)

  /** The contents of `sessionStorage`. */
  type Storage = map<string, string>

  /** `sessionStorage.getItem(key)`: the stored value or `null`. */
  function GetItem(st: Storage, key: string): Option<string> {
    if key in st then Some(st[key]) else None
  }

  /** JavaScript truthiness of a `getItem` result: `null` and the empty string are falsy. */
  predicate Truthy(v: Option<string>): (b: bool)
    ensures b <==> v !in {None, Some("")}
  {
    v.Some? && v.value != ""
  }

  /** The key under which ChatNickname keeps the session id. */
  const SessionIdKey: string := "chat_session_id"

  /** The key that mirrors the nickname the server accepted. */
  const NicknameKey: string := "chat_nickname"

  /** The key `participant_<roomId>` of a room's participant binding. */
  function ParticipantKey(roomId: string): (key: string)
    ensures key != SessionIdKey && key != NicknameKey
    ensures |key| == 12 + |roomId| && key[..12] == "participant_" && key[12..] == roomId
  {
    var key := "participant_" + roomId;
    assert key[0] == 'p' && SessionIdKey[0] == 'c' && NicknameKey[0] == 'c';
    key
  }

  /** Distinct rooms never share a key. */
  lemma ParticipantKeyInjective(a: string, b: string)
    ensures ParticipantKey(a) == ParticipantKey(b) <==> a == b
  {
    if ParticipantKey(a) == ParticipantKey(b) {
      assert a == ParticipantKey(a)[12..];
    }
  }

  /** An event the client pushes to the server with `this.pushEvent(name, payload)`. */
  datatype Push =
    | RestoreParticipant(roomId: string, participantId: string)
    | LeaveRoom
    | SetSessionId(sessionId: string)
  {
    /** The event name on the wire. */
    function Name(): (n: string)
      ensures n == "restore_participant" <==> RestoreParticipant?
      ensures n == "leave_room" <==> LeaveRoom?
      ensures n == "set_session_id" <==> SetSessionId?
    {
      match this
      case RestoreParticipant(_, _) => "restore_participant"
      case LeaveRoom => "leave_room"
      case SetSessionId(_) => "set_session_id"
    }

    /** The payload object on the wire. */
    function Payload(): (p: map<string, string>)
      ensures RestoreParticipant? ==> p.Keys == {"room_id", "participant_id"}
      ensures RestoreParticipant? ==> p["room_id"] == roomId && p["participant_id"] == participantId
      ensures LeaveRoom? ==> p == map[]
      ensures SetSessionId? ==> p.Keys == {"session_id"} && p["session_id"] == sessionId
    {
      match this
      case RestoreParticipant(r, p) => map["room_id" := r, "participant_id" := p]
      case LeaveRoom => map[]
      case SetSessionId(s) => map["session_id" := s]
    }
  }

  /** The wire form determines the push: no two pushes share a name and a payload. */
  lemma PushWireInjective(p: Push, q: Push)
    ensures p.Name() == q.Name() && p.Payload() == q.Payload() <==> p == q
  {
    if p.Name() == q.Name() && p.Payload() == q.Payload() {
      match p
      case RestoreParticipant(r, i) =>
        assert q.roomId == q.Payload()["room_id"] == r;
        assert q.participantId == q.Payload()["participant_id"] == i;
      case SetSessionId(id) =>
        assert q.sessionId == q.Payload()["session_id"] == id;
      case LeaveRoom =>
    }
  }

  datatype World = World(storage: Storage, pushes: seq<Push>)

  /** The participant remembered for a room. */
  function Binding(w: World, roomId: string): Option<string> {
    GetItem(w.storage, ParticipantKey(roomId))
  }

  /** The termination signals ChatRoom listens to. */
  datatype Signal = PopState | BeforeUnload | PageLoadingStart

  /** How the out-of-band `fetch` of `/chat/set_nickname` settled. */
  datatype FetchOutcome =
    | Resolved(status: nat)   // any HTTP response, 2xx or not
    | Rejected                // network failure

  /** Exactly the 31 draws the fallback generator makes. */
  type Draws = d: seq<Uuid.Nibble> | |d| == 31 witness seq(31, (_: int) => 0 as Uuid.Nibble)

  /** Where a fresh session id comes from: `crypto.randomUUID()` when it exists, else the template fill. */
  datatype IdSource =
    | CryptoRandomUuid(uuid: string)
    | MathRandom(draws: Draws)

  function GeneratedId(source: IdSource): (id: string)
    ensures source.MathRandom? ==> Uuid.IsVersion4Uuid(id)
  {
    match source
    case CryptoRandomUuid(u) => u
    case MathRandom(d) => Uuid.FillTemplate(d)
  }

  /** `crypto.randomUUID` returns a non-empty string; the fallback always does. */
  predicate ProducesId(source: IdSource) {
    source.CryptoRandomUuid? ==> source.uuid != ""
  }

  /** Every handler of the two hooks, as a tagged variant. */
  datatype Event =
    | RoomMounted(roomId: string)                              // ChatRoom.mounted
    | SaveParticipant(roomId: string, participantId: string)   // server event save_participant
    | ClearParticipant(roomId: string)                         // server event clear_participant
    | UpdateSessionNickname(nickname: string, sessionId: string)  // server event update_session_nickname
    | NicknameRequestSettled(nickname: string, outcome: FetchOutcome)  // the fetch's continuation
    | LeaveSignal(signal: Signal)                              // handlePopState, handlePageLoading, handleBeforeUnload
    | RoomDestroyed                                            // ChatRoom.destroyed
    | NicknameMounted(source: IdSource)                        // ChatNickname.mounted
    | SaveNickname(nickname: string)                           // server event save_nickname
    | ClearNickname                                            // server event clear_nickname

  /** ChatRoom.mounted: ask the server to restore a remembered participant. */
  function Restore(w: World, roomId: string): (r: World)
    ensures r.storage == w.storage
    ensures r.pushes != w.pushes <==> Truthy(Binding(w, roomId))
    ensures Truthy(Binding(w, roomId)) ==>
              r.pushes == w.pushes + [RestoreParticipant(roomId, Binding(w, roomId).value)]
  {
    var stored := GetItem(w.storage, ParticipantKey(roomId));
    if Truthy(stored) then World(w.storage, w.pushes + [RestoreParticipant(roomId, stored.value)])
    else w
  }

  /** save_participant: `setItem(participant_<room_id>, participant_id)`. */
  function StoreParticipant(w: World, roomId: string, participantId: string): (r: World)
    ensures Binding(r, roomId) == Some(participantId)
    ensures forall k :: k != ParticipantKey(roomId) ==> GetItem(r.storage, k) == GetItem(w.storage, k)
    ensures r.pushes == w.pushes
  {
    World(w.storage[ParticipantKey(roomId) := participantId], w.pushes)
  }

  /** clear_participant: `removeItem(participant_<room_id>)`. */
  function RemoveParticipant(w: World, roomId: string): (r: World)
    ensures Binding(r, roomId) == None
    ensures forall k :: k != ParticipantKey(roomId) ==> GetItem(r.storage, k) == GetItem(w.storage, k)
    ensures r.pushes == w.pushes
  {
    World(w.storage - {ParticipantKey(roomId)}, w.pushes)
  }

  /** The `.then` of the nickname request: it runs on every resolved fetch, whatever the status. */
  function SettleNickname(w: World, nickname: string, outcome: FetchOutcome): (r: World)
    ensures outcome.Resolved? ==> GetItem(r.storage, NicknameKey) == Some(nickname)
    ensures outcome.Rejected? ==> r == w
    ensures forall k :: k != NicknameKey ==> GetItem(r.storage, k) == GetItem(w.storage, k)
    ensures r.pushes == w.pushes
  {
    match outcome
    case Resolved(_) => World(w.storage[NicknameKey := nickname], w.pushes)
    case Rejected => w
  }

  /** The body shared by the three termination listeners: `pushEvent("leave_room", {})`. */
  function PushLeave(w: World): (r: World)
    ensures r.storage == w.storage
    ensures |r.pushes| == |w.pushes| + 1 && r.pushes[..|w.pushes|] == w.pushes && r.pushes[|w.pushes|] == LeaveRoom
  {
    World(w.storage, w.pushes + [LeaveRoom])
  }

  /** ChatNickname.mounted: get or create the session id, then announce it once. */
  function AnnounceSession(w: World, source: IdSource): (r: World)
    ensures |r.pushes| == |w.pushes| + 1 && r.pushes[..|w.pushes|] == w.pushes
    ensures r.pushes[|w.pushes|].SetSessionId?
    ensures GetItem(r.storage, SessionIdKey) == Some(r.pushes[|w.pushes|].sessionId)
    ensures Truthy(GetItem(w.storage, SessionIdKey)) ==> r.storage == w.storage
    ensures !Truthy(GetItem(w.storage, SessionIdKey)) ==> r.pushes[|w.pushes|].sessionId == GeneratedId(source)
    ensures forall k :: k != SessionIdKey ==> GetItem(r.storage, k) == GetItem(w.storage, k)
  {
    var stored := GetItem(w.storage, SessionIdKey);
    var sessionId := if Truthy(stored) then stored.value else GeneratedId(source);
    var storage := if Truthy(stored) then w.storage else w.storage[SessionIdKey := sessionId];
    var r := World(storage, w.pushes + [SetSessionId(sessionId)]);
    assert r.pushes[..|w.pushes|] == w.pushes;
    r
  }

  /** save_nickname: `setItem("chat_nickname", nickname)`. */
  function StoreNickname(w: World, nickname: string): (r: World)
    ensures GetItem(r.storage, NicknameKey) == Some(nickname)
    ensures forall k :: k != NicknameKey ==> GetItem(r.storage, k) == GetItem(w.storage, k)
    ensures r.pushes == w.pushes
  {
    World(w.storage[NicknameKey := nickname], w.pushes)
  }

  /** clear_nickname: `removeItem("chat_nickname")`. */
  function RemoveNickname(w: World): (r: World)
    ensures GetItem(r.storage, NicknameKey) == None
    ensures forall k :: k != NicknameKey ==> GetItem(r.storage, k) == GetItem(w.storage, k)
    ensures r.pushes == w.pushes
  {
    World(w.storage - {NicknameKey}, w.pushes)
  }

  /** The dispatch table: what each handler does to the World. */
  function Step(w: World, e: Event): (r: World)
    ensures |w.pushes| <= |r.pushes| <= |w.pushes| + 1 && r.pushes[..|w.pushes|] == w.pushes
    ensures !(e.RoomMounted? || e.LeaveSignal? || e.NicknameMounted?) ==> r.pushes == w.pushes
  {
    match e
    case RoomMounted(roomId) => Restore(w, roomId)
    case SaveParticipant(roomId, participantId) => StoreParticipant(w, roomId, participantId)
    case ClearParticipant(roomId) => RemoveParticipant(w, roomId)
    case UpdateSessionNickname(_, _) => w
    case NicknameRequestSettled(nickname, outcome) => SettleNickname(w, nickname, outcome)
    case LeaveSignal(_) => PushLeave(w)
    case RoomDestroyed => w
    case NicknameMounted(source) => AnnounceSession(w, source)
    case SaveNickname(nickname) => StoreNickname(w, nickname)
    case ClearNickname => RemoveNickname(w)
  }

  /** The handlers run one after another, each to completion; the log only grows, by at most one push per handler. */
  function Run(w: World, es: seq<Event>): (r: World)
    ensures |w.pushes| <= |r.pushes| <= |w.pushes| + |es|
    ensures r.pushes[..|w.pushes|] == w.pushes
    decreases |es|
  {
    if es == [] then w
    else
      var w1 := Step(w, es[0]);
      var r := Run(w1, es[1..]);
      assert r.pushes[..|w.pushes|] == r.pushes[..|w1.pushes|][..|w.pushes|];
      r
  }

  // ---------------------------------------------------------------------------------------
  // Single-handler properties

  /** Restoring pushes exactly `restore_participant {room_id, participant_id}` for a remembered, non-empty id. */
  lemma RestoreOnMount(w: World, roomId: string)
    ensures Truthy(Binding(w, roomId)) ==>
              Step(w, RoomMounted(roomId)) ==
                World(w.storage, w.pushes + [RestoreParticipant(roomId, Binding(w, roomId).value)])
    ensures !Truthy(Binding(w, roomId)) ==> Step(w, RoomMounted(roomId)) == w
  {
  }

  /** Of two saves for one room the later wins; a clear after a save forgets it. */
  lemma SaveLastWriteWins(w: World, roomId: string, a: string, b: string)
    ensures Step(Step(w, SaveParticipant(roomId, a)), SaveParticipant(roomId, b)) == Step(w, SaveParticipant(roomId, b))
    ensures Step(Step(w, SaveParticipant(roomId, a)), ClearParticipant(roomId)) == Step(w, ClearParticipant(roomId))
  {
  }

  /** Clearing is a no-op when nothing is stored, and clearing twice is clearing once. */
  lemma ClearIdempotent(w: World, roomId: string)
    ensures Binding(w, roomId) == None ==> Step(w, ClearParticipant(roomId)) == w
    ensures Step(Step(w, ClearParticipant(roomId)), ClearParticipant(roomId)) == Step(w, ClearParticipant(roomId))
  {
    if Binding(w, roomId) == None {
      assert w.storage - {ParticipantKey(roomId)} == w.storage;
    }
  }

  /** The two-step nickname update: nothing happens until the request settles; a rejection changes nothing. */
  lemma NicknameSideChannel(w: World, nickname: string, sessionId: string, outcome: FetchOutcome)
    ensures Step(w, UpdateSessionNickname(nickname, sessionId)) == w
    ensures var r := Step(w, NicknameRequestSettled(nickname, outcome));
            && r.pushes == w.pushes
            && (outcome.Rejected? ==> r == w)
            && (outcome.Resolved? ==> r.storage == w.storage[NicknameKey := nickname])
  {
  }

  /** Two mounts of ChatNickname in a row push the same session id and store it once. */
  lemma SessionIdStable(w: World, first: IdSource, second: IdSource)
    requires ProducesId(first)
    ensures var w1 := Step(w, NicknameMounted(first));
            var w2 := Step(w1, NicknameMounted(second));
            && |w2.pushes| == |w.pushes| + 2
            && w2.pushes[|w.pushes|] == w2.pushes[|w.pushes| + 1]
            && w2.storage == w1.storage
  {
    var w1 := Step(w, NicknameMounted(first));
    if !Truthy(GetItem(w.storage, SessionIdKey)) {
      match first
      case MathRandom(d) =>
        assert |GeneratedId(first)| == 36;
      case CryptoRandomUuid(_) =>
    }
    assert Truthy(GetItem(w1.storage, SessionIdKey));
  }

  // ---------------------------------------------------------------------------------------
  // Properties of whole runs

  /** How one event changes the binding of `roomId`, read off the event alone. */
  function BindingStep(b: Option<string>, roomId: string, e: Event): Option<string> {
    match e
    case SaveParticipant(r, p) => if r == roomId then Some(p) else b
    case ClearParticipant(r) => if r == roomId then None else b
    case _ => b
  }

  /** The binding of `roomId` after `es`: the last save or clear for that room wins, other rooms do not matter. */
  function BindingAfter(b: Option<string>, roomId: string, es: seq<Event>): Option<string>
    decreases |es|
  {
    if es == [] then b else BindingAfter(BindingStep(b, roomId, es[0]), roomId, es[1..])
  }

  lemma StepBinding(w: World, roomId: string, e: Event)
    ensures Binding(Step(w, e), roomId) == BindingStep(Binding(w, roomId), roomId, e)
  {
    match e
    case SaveParticipant(r, p) => ParticipantKeyInjective(r, roomId);
    case ClearParticipant(r) => ParticipantKeyInjective(r, roomId);
    case _ =>
  }

  /** The store holds, for every room, exactly the binding the save and clear events for that room leave. */
  lemma {:induction false} RunBinding(w: World, roomId: string, es: seq<Event>)
    ensures Binding(Run(w, es), roomId) == BindingAfter(Binding(w, roomId), roomId, es)
    decreases |es|
  {
    if es != [] {
      StepBinding(w, roomId, es[0]);
      RunBinding(Step(w, es[0]), roomId, es[1..]);
    }
  }

  /** How one event changes the mirrored nickname: any resolved request writes it. */
  function NicknameStep(n: Option<string>, e: Event): Option<string> {
    match e
    case SaveNickname(m) => Some(m)
    case ClearNickname => None
    case NicknameRequestSettled(m, Resolved(_)) => Some(m)
    case _ => n
  }

  function NicknameAfter(n: Option<string>, es: seq<Event>): Option<string>
    decreases |es|
  {
    if es == [] then n else NicknameAfter(NicknameStep(n, es[0]), es[1..])
  }

  /** The mirrored nickname is the one the last save, clear or resolved request left. */
  lemma {:induction false} RunNickname(w: World, es: seq<Event>)
    ensures GetItem(Run(w, es).storage, NicknameKey) == NicknameAfter(GetItem(w.storage, NicknameKey), es)
    decreases |es|
  {
    if es != [] {
      var w1 := Step(w, es[0]);
      assert GetItem(w1.storage, NicknameKey) == NicknameStep(GetItem(w.storage, NicknameKey), es[0]);
      RunNickname(w1, es[1..]);
    }
  }

  /** The number of `leave_room` pushes in a log. */
  function Leaves(pushes: seq<Push>): nat
    decreases |pushes|
  {
    if pushes == [] then 0 else (if pushes[0] == LeaveRoom then 1 else 0) + Leaves(pushes[1..])
  }

  lemma {:induction false} LeavesAppend(a: seq<Push>, b: seq<Push>)
    ensures Leaves(a + b) == Leaves(a) + Leaves(b)
    decreases |a|
  {
    if a == [] {
      assert a + b == b;
    } else {
      assert (a + b)[0] == a[0] && (a + b)[1..] == a[1..] + b;
      LeavesAppend(a[1..], b);
    }
  }

  /** The number of termination-listener runs among `es`. */
  function LeaveSignals(es: seq<Event>): nat
    decreases |es|
  {
    if es == [] then 0 else (if es[0].LeaveSignal? then 1 else 0) + LeaveSignals(es[1..])
  }

  lemma StepLeaves(w: World, e: Event)
    ensures Leaves(Step(w, e).pushes) == Leaves(w.pushes) + (if e.LeaveSignal? then 1 else 0)
  {
    var r := Step(w, e);
    if r.pushes != w.pushes {
      var d := r.pushes[|w.pushes|..];
      assert r.pushes == w.pushes + d;
      LeavesAppend(w.pushes, d);
      assert Leaves(d) == (if d[0] == LeaveRoom then 1 else 0) + Leaves(d[1..]);
      assert d[1..] == [];
    }
  }

  /** No latch: every termination-listener run pushes one `leave_room`, and nothing else pushes one. */
  lemma {:induction false} RunLeaves(w: World, es: seq<Event>)
    ensures Leaves(Run(w, es).pushes) == Leaves(w.pushes) + LeaveSignals(es)
    decreases |es|
  {
    if es != [] {
      StepLeaves(w, es[0]);
      RunLeaves(Step(w, es[0]), es[1..]);
    }
  }

  /** Every `set_session_id` pushed so far carries the session id the store now holds, and it is non-empty. */
  ghost predicate SessionIdsAgree(w: World) {
    forall i :: 0 <= i < |w.pushes| && w.pushes[i].SetSessionId? ==>
      Truthy(GetItem(w.storage, SessionIdKey)) && w.pushes[i].sessionId == w.storage[SessionIdKey]
  }

  /** The events a real page produces: `crypto.randomUUID` never yields an empty id. */
  predicate Feasible(e: Event) {
    e.NicknameMounted? ==> ProducesId(e.source)
  }

  lemma StepKeepsSessionIds(w: World, e: Event)
    requires SessionIdsAgree(w) && Feasible(e)
    ensures SessionIdsAgree(Step(w, e))
  {
    var r := Step(w, e);
    match e
    case NicknameMounted(source) =>
      if !Truthy(GetItem(w.storage, SessionIdKey)) {
        match source
        case MathRandom(d) =>
          assert |GeneratedId(source)| == 36;
        case CryptoRandomUuid(_) =>
      }
      forall i | 0 <= i < |r.pushes| && r.pushes[i].SetSessionId?
        ensures Truthy(GetItem(r.storage, SessionIdKey)) && r.pushes[i].sessionId == r.storage[SessionIdKey]
      {
        if i < |w.pushes| {
          assert r.pushes[i] == w.pushes[i];
        }
      }
    case _ =>
      assert GetItem(r.storage, SessionIdKey) == GetItem(w.storage, SessionIdKey);
      forall i | 0 <= i < |r.pushes| && r.pushes[i].SetSessionId?
        ensures Truthy(GetItem(r.storage, SessionIdKey)) && r.pushes[i].sessionId == r.storage[SessionIdKey]
      {
        assert i < |w.pushes| && r.pushes[i] == w.pushes[i];
      }
  }

  /**
   * The session id is never regenerated: over any run of feasible events, starting from a
   * store with no announced id, every `set_session_id` pushed carries the same id.
   */
  lemma {:induction false} RunKeepsSessionIds(w: World, es: seq<Event>)
    requires SessionIdsAgree(w)
    requires forall i :: 0 <= i < |es| ==> Feasible(es[i])
    ensures SessionIdsAgree(Run(w, es))
    decreases |es|
  {
    if es != [] {
      StepKeepsSessionIds(w, es[0]);
      assert forall i :: 0 <= i < |es[1..]| ==> Feasible(es[1..][i]) by {
        forall i | 0 <= i < |es[1..]| ensures Feasible(es[1..][i]) {
          assert es[1..][i] == es[i + 1];
        }
      }
      RunKeepsSessionIds(Step(w, es[0]), es[1..]);
    }
  }

  lemma SameSessionIdEverywhere(w: World, es: seq<Event>, i: int, j: int)
    requires forall k :: 0 <= k < |w.pushes| ==> !w.pushes[k].SetSessionId?
    requires forall k :: 0 <= k < |es| ==> Feasible(es[k])
    requires var r := Run(w, es);
             0 <= i < |r.pushes| && 0 <= j < |r.pushes| && r.pushes[i].SetSessionId? && r.pushes[j].SetSessionId?
    ensures Run(w, es).pushes[i] == Run(w, es).pushes[j]
  {
    RunKeepsSessionIds(w, es);
  }

  // ---------------------------------------------------------------------------------------
  // The termination listeners of one ChatRoom hook instance

  /** The listeners one ChatRoom instance has on `window`, and whether its `_cleanup` is set. */
  datatype RoomListeners = RoomListeners(registered: set<Signal>, cleanupSet: bool)

  /** A hook instance before `mounted`. */
  const Unmounted: RoomListeners := RoomListeners({}, false)

  /** `mounted` registers all three listeners and stores `_cleanup`. */
  function AfterMount(h: RoomListeners): (r: RoomListeners)
    ensures PopState in r.registered && BeforeUnload in r.registered && PageLoadingStart in r.registered
    ensures h.registered <= r.registered && r.cleanupSet
  {
    RoomListeners(h.registered + {PopState, BeforeUnload, PageLoadingStart}, true)
  }

  /** `destroyed` runs `_cleanup` when set; it removes the popstate and beforeunload listeners only. */
  function AfterDestroy(h: RoomListeners): (r: RoomListeners)
    ensures r.cleanupSet == h.cleanupSet && r.registered <= h.registered
    ensures h.cleanupSet ==> PopState !in r.registered && BeforeUnload !in r.registered
    ensures PageLoadingStart in r.registered <==> PageLoadingStart in h.registered
    ensures !h.cleanupSet ==> r == h
  {
    if h.cleanupSet then RoomListeners(h.registered - {PopState, BeforeUnload}, true) else h
  }

  /** A termination signal reaches the instance's listener only while that listener is registered. */
  function Deliver(w: World, h: RoomListeners, s: Signal): (r: World)
    ensures r.storage == w.storage
    ensures s in h.registered ==> r.pushes == w.pushes + [LeaveRoom]
    ensures s !in h.registered ==> r == w
  {
    if s in h.registered then Step(w, LeaveSignal(s)) else w
  }

  function DeliverAll(w: World, h: RoomListeners, ss: seq<Signal>): (r: World)
    ensures r.storage == w.storage
    ensures |w.pushes| <= |r.pushes| <= |w.pushes| + |ss| && r.pushes[..|w.pushes|] == w.pushes
    decreases |ss|
  {
    if ss == [] then w
    else
      var w1 := Deliver(w, h, ss[0]);
      var r := DeliverAll(w1, h, ss[1..]);
      assert r.pushes[..|w.pushes|] == r.pushes[..|w1.pushes|][..|w.pushes|];
      r
  }

  /** The number of signals in `ss` that have a registered listener. */
  function Heard(h: RoomListeners, ss: seq<Signal>): nat
    decreases |ss|
  {
    if ss == [] then 0 else (if ss[0] in h.registered then 1 else 0) + Heard(h, ss[1..])
  }

  /** `n` copies of `leave_room`. */
  function LeaveRooms(n: nat): (ps: seq<Push>)
    ensures |ps| == n && forall i :: 0 <= i < n ==> ps[i] == LeaveRoom
  {
    seq(n, _ => LeaveRoom)
  }

  /** Signals never touch the store; each one with a registered listener appends one `leave_room`. */
  lemma {:induction false} DeliverAllPushes(w: World, h: RoomListeners, ss: seq<Signal>)
    ensures DeliverAll(w, h, ss) == World(w.storage, w.pushes + LeaveRooms(Heard(h, ss)))
    decreases |ss|
  {
    if ss == [] {
      assert w.pushes + LeaveRooms(0) == w.pushes;
    } else {
      var w1 := Deliver(w, h, ss[0]);
      DeliverAllPushes(w1, h, ss[1..]);
      var n := Heard(h, ss[1..]);
      if ss[0] in h.registered {
        assert w1.pushes + LeaveRooms(n) == w.pushes + LeaveRooms(n + 1);
      }
    }
  }

  /** While mounted, k signals of any kinds give exactly k `leave_room` pushes. */
  lemma {:induction false} MountedHearsEverySignal(h: RoomListeners, ss: seq<Signal>)
    ensures Heard(AfterMount(h), ss) == |ss|
    decreases |ss|
  {
    if ss != [] {
      assert ss[0] in AfterMount(h).registered by {
        match ss[0]
        case PopState =>
        case BeforeUnload =>
        case PageLoadingStart =>
      }
      MountedHearsEverySignal(h, ss[1..]);
    }
  }

  /** The number of `phx:page-loading-start` signals in `ss`. */
  function PageLoads(ss: seq<Signal>): nat
    decreases |ss|
  {
    if ss == [] then 0 else (if ss[0] == PageLoadingStart then 1 else 0) + PageLoads(ss[1..])
  }

  /**
   * After mount and destroy, popstate and beforeunload push nothing, and the page-loading
   * listener, which `_cleanup` leaves in place, still pushes once per signal.
   */
  lemma {:induction false} DestroyedHearsOnlyPageLoads(ss: seq<Signal>)
    ensures AfterDestroy(AfterMount(Unmounted)).registered == {PageLoadingStart}
    ensures Heard(AfterDestroy(AfterMount(Unmounted)), ss) == PageLoads(ss)
    decreases |ss|
  {
    var h := AfterDestroy(AfterMount(Unmounted));
    assert h.registered == {PageLoadingStart};
    if ss != [] {
      DestroyedHearsOnlyPageLoads(ss[1..]);
    }
  }

  /** `destroyed` pushes nothing and leaves the store alone, and is a no-op when `_cleanup` is unset. */
  lemma DestroyPushesNothing(w: World, h: RoomListeners)
    ensures Step(w, RoomDestroyed) == w
    ensures !h.cleanupSet ==> AfterDestroy(h) == h
    ensures AfterDestroy(AfterDestroy(h)) == AfterDestroy(h)
  {
  }
}
