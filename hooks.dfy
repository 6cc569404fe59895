/**
 * The two hook objects of assets/js/app.js:30-133 and the page they run in, in the
 * imperative form: the handlers call `getItem`/`setItem`/`removeItem` on the tab's
 * `sessionStorage`, `pushEvent` on the LiveView channel, and add or remove `window`
 * listeners. Each method is proved to change the state exactly as the matching
 * Protocol.Step / Protocol.AfterMount / Protocol.AfterDestroy says; the properties of
 * those functions are proved in module Protocol.
 */
module Hooks {
  import opened Protocol

  /** The tab the hooks run in: its `sessionStorage` and the log of pushes on the LiveView channel. */
  class Page {
    var storage: Storage
    var pushes: seq<Push>

    function State(): World
      reads this
    {
      World(storage, pushes)
    }

    constructor (storage: Storage)
      ensures State() == World(storage, [])
    {
      this.storage := storage;
      this.pushes := [];
    }

    /** `sessionStorage.getItem(key)` */
    method GetItem(key: string) returns (v: Option<string>)
      ensures v == Protocol.GetItem(storage, key)
      ensures v.Some? <==> key in storage
    {
      v := if key in storage then Some(storage[key]) else None;
    }

    /** `sessionStorage.setItem(key, value)` */
    method SetItem(key: string, value: string)
      modifies this
      ensures storage == old(storage)[key := value]
      ensures pushes == old(pushes)
    {
      storage := storage[key := value];
    }

    /** `sessionStorage.removeItem(key)`: nothing happens when the key is absent. */
    method RemoveItem(key: string)
      modifies this
      ensures storage == old(storage) - {key}
      ensures pushes == old(pushes)
    {
      storage := storage - {key};
    }

    /** `this.pushEvent(name, payload)`: appended to the outgoing log, fire and forget. */
    method PushEvent(p: Push)
      modifies this
      ensures pushes == old(pushes) + [p]
      ensures storage == old(storage)
    {
      pushes := pushes + [p];
    }
  }

  /** The out-of-band request `GET /chat/set_nickname?nickname=…&session_id=…`. */
  datatype NicknameRequest = NicknameRequest(nickname: string, sessionId: string)

  /** One instance of the ChatRoom hook, bound to the element that carries `data-room-id`. */
  class ChatRoom {
    const page: Page
    /** `this.el.dataset.roomId` */
    const roomId: string
    /** This instance's termination listeners currently registered on `window`. */
    var listeners: set<Signal>
    /** Whether `this._cleanup` has been set. */
    var cleanup: bool

    function Listeners(): RoomListeners
      reads this
    {
      RoomListeners(listeners, cleanup)
    }

    constructor (page: Page, roomId: string)
      ensures this.page == page && this.roomId == roomId
      ensures Listeners() == Unmounted
    {
      this.page := page;
      this.roomId := roomId;
      listeners := {};
      cleanup := false;
    }

    /** `mounted()`: LiveView calls it once per hook instance, before `_cleanup` exists. */
    method Mounted()
      requires !cleanup
      modifies this, page
      ensures page.State() == Step(old(page.State()), RoomMounted(roomId))
      ensures Listeners() == AfterMount(old(Listeners()))
    {
      var stored := page.GetItem(ParticipantKey(roomId));
      if Truthy(stored) {
        page.PushEvent(RestoreParticipant(roomId, stored.value));
      }
      listeners := listeners + {PopState, BeforeUnload};
      listeners := listeners + {PageLoadingStart};
      cleanup := true;
    }

    /** The `save_participant` handler. */
    method SaveParticipant(roomId: string, participantId: string)
      modifies page
      ensures page.State() == Step(old(page.State()), Event.SaveParticipant(roomId, participantId))
    {
      page.SetItem(ParticipantKey(roomId), participantId);
    }

    /** The `clear_participant` handler. */
    method ClearParticipant(roomId: string)
      modifies page
      ensures page.State() == Step(old(page.State()), Event.ClearParticipant(roomId))
    {
      page.RemoveItem(ParticipantKey(roomId));
    }

    /** The `update_session_nickname` handler: it only sends the request; the store is written when it settles. */
    method UpdateSessionNickname(nickname: string, sessionId: string) returns (request: NicknameRequest)
      ensures request.nickname == nickname && request.sessionId == sessionId
      ensures page.State() == Step(old(page.State()), Event.UpdateSessionNickname(nickname, sessionId))
    {
      request := NicknameRequest(nickname, sessionId);
    }

    /** The `.then` continuation of the request: it runs on any resolved `fetch`, never on a rejected one. */
    method NicknameRequestSettled(request: NicknameRequest, outcome: FetchOutcome)
      modifies page
      ensures page.State() == Step(old(page.State()), Event.NicknameRequestSettled(request.nickname, outcome))
    {
      if outcome.Resolved? {
        page.SetItem(NicknameKey, request.nickname);
      }
    }

    /** `handlePopState` */
    method HandlePopState()
      modifies page
      ensures page.State() == Step(old(page.State()), LeaveSignal(PopState))
    {
      page.PushEvent(LeaveRoom);
    }

    /** `handlePageLoading` */
    method HandlePageLoading()
      modifies page
      ensures page.State() == Step(old(page.State()), LeaveSignal(PageLoadingStart))
    {
      page.PushEvent(LeaveRoom);
    }

    /** `handleBeforeUnload` */
    method HandleBeforeUnload()
      modifies page
      ensures page.State() == Step(old(page.State()), LeaveSignal(BeforeUnload))
    {
      page.PushEvent(LeaveRoom);
    }

    /** The browser fires signal `s`: this instance's listener for it runs if it is registered. */
    method Fire(s: Signal)
      modifies page
      ensures page.State() == Deliver(old(page.State()), Listeners(), s)
    {
      if s in listeners {
        match s
        case PopState => HandlePopState();
        case BeforeUnload => HandleBeforeUnload();
        case PageLoadingStart => HandlePageLoading();
      }
    }

    /** `destroyed()`: runs `_cleanup` if it is set; pushes nothing and leaves the store alone. */
    method Destroyed()
      modifies this
      ensures Listeners() == AfterDestroy(old(Listeners()))
      ensures page.State() == old(page.State())
    {
      if cleanup {
        listeners := listeners - {PopState};
        listeners := listeners - {BeforeUnload};
      }
    }
  }

  /** One instance of the ChatNickname hook. */
  class ChatNickname {
    const page: Page

    constructor (page: Page)
      ensures this.page == page
    {
      this.page := page;
    }

    /** `mounted()`: get or create `chat_session_id`, then push `set_session_id` once. */
    method Mounted(source: IdSource)
      modifies page
      ensures page.State() == Step(old(page.State()), NicknameMounted(source))
    {
      ghost var w := page.State();
      var sessionId := page.GetItem(SessionIdKey);
      var id: string;
      if !Truthy(sessionId) {
        id := GeneratedId(source);
        page.SetItem(SessionIdKey, id);
        assert page.storage == w.storage[SessionIdKey := id];
      } else {
        id := sessionId.value;
      }
      page.PushEvent(SetSessionId(id));
      assert page.State() == AnnounceSession(w, source);
    }

    /** The `save_nickname` handler. */
    method SaveNickname(nickname: string)
      modifies page
      ensures page.State() == Step(old(page.State()), Event.SaveNickname(nickname))
    {
      page.SetItem(NicknameKey, nickname);
    }

    /** The `clear_nickname` handler. */
    method ClearNickname()
      modifies page
      ensures page.State() == Step(old(page.State()), Event.ClearNickname)
    {
      page.RemoveItem(NicknameKey);
    }
  }
}
