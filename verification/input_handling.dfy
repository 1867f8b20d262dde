/** The `InputHandler` asset: it owns one `GameInputs` wrapper, registers
    itself as the callback interface of both maps, from the first enable
    until a disable keeps exactly one of the two maps enabled, and turns
    action callbacks into game events. Each
    operation is a pure step from a handler state to the next state plus the
    ordered trace of what it did: the events it raised and the maps it
    enabled or disabled. */
module InputHandling {
  import opened Results
  import opened Catalog
  import opened ActionMaps
  import opened Wrapper

  /** The value a `Value`-type action reads. Unity's components are floats;
      the model only passes them on, so reals stand in for them. */
  datatype Vector2 = Vector2(x: real, y: real)

  /** One observable effect. */
  datatype Effect =
    | MovementEvent(value: Vector2)
    | JumpEvent
    | SprintEvent
    | SprintCancelledEvent
    | InteractionEvent
    | LookEvent(value: Vector2)
    | PauseEvent
    | ResumeEvent
    | MapEnabled(which: MapName)
    | MapDisabled(which: MapName)

  /** The callback context an action passes to its subscribers: the phase it is in and the value it reads. */
  datatype Context = Context(phase: Phase, value: Vector2)

  /** The handler: its own identity (the object it registers) and its
      `inputs` field, `None` until the first `OnEnable` creates the wrapper. */
  datatype Handler = Handler(self: ObjectId, inputs: Option<GameInputs>)

  /** The outcome of one call: the handler afterwards, the effects in order,
      and the exception that ended the call early, if any (the effects before
      it stand, as they do in C#). */
  datatype Step = Step(handler: Handler, trace: seq<Effect>, thrown: Option<Error>)

  predicate Initialised(h: Handler) {
    h.inputs.Some?
  }

  /** Player enabled, UI disabled. */
  predicate InGameplay(h: Handler) {
    h.inputs.Some? && h.inputs.value.player.enabled && !h.inputs.value.ui.enabled
  }

  /** UI enabled, Player disabled. */
  predicate InUI(h: Handler) {
    h.inputs.Some? && h.inputs.value.ui.enabled && !h.inputs.value.player.enabled
  }

  /** Exactly one of the two maps is enabled. */
  predicate Exclusive(h: Handler) {
    h.inputs.Some? && h.inputs.value.player.enabled != h.inputs.value.ui.enabled
  }

  predicate AllDisabled(h: Handler) {
    h.inputs.Some? && !h.inputs.value.player.enabled && !h.inputs.value.ui.enabled
  }

  /** The wrapper with both enable flags cleared: everything a flag change leaves alone. */
  function Unflagged(g: GameInputs): GameInputs {
    GameInputs(g.player.(enabled := false), g.ui.(enabled := false))
  }

  /** `b` is `a` with at most its two enable flags changed. */
  ghost predicate OnlyFlagsDiffer(a: Handler, b: Handler) {
    && a.self == b.self
    && a.inputs.Some? && b.inputs.Some?
    && Unflagged(a.inputs.value) == Unflagged(b.inputs.value)
  }

  /** The `NullReferenceException` a call raises when it reaches `inputs` before `OnEnable` created it. */
  function Throw(h: Handler, trace: seq<Effect>): Step {
    Step(h, trace, Some(NullReference))
  }

  /** A call that raises nothing, changes nothing and does nothing observable. */
  function Nothing(h: Handler): Step {
    Step(h, [], None)
  }

  /** Sets one map's enable flag. */
  function WithFlag(g: GameInputs, m: MapName, on: bool): GameInputs {
    match m
    case Player => g.(player := if on then Enable(g.player) else Disable(g.player))
    case UI => g.(ui := if on then Enable(g.ui) else Disable(g.ui))
  }

  /** Enables one map, then disables the other, recording both calls. */
  function Switch(h: Handler, on: MapName, off: MapName): Step
    requires h.inputs.Some?
  {
    var g := WithFlag(WithFlag(h.inputs.value, on, true), off, false);
    Step(h.(inputs := Some(g)), [MapEnabled(on), MapDisabled(off)], None)
  }

  /** `SetGameplay`: whatever the flags were, Player ends enabled and UI
      disabled, in that order, and nothing else changes. */
  function SetGameplay(h: Handler): (r: Step)
    ensures !Initialised(h) ==> r == Throw(h, [])
    ensures Initialised(h) ==> r.thrown.None? && InGameplay(r.handler) && OnlyFlagsDiffer(h, r.handler)
    ensures Initialised(h) ==> r.trace == [MapEnabled(Player), MapDisabled(UI)]
  {
    if h.inputs.None? then Throw(h, []) else Switch(h, Player, UI)
  }

  /** `SetUI`: whatever the flags were, UI ends enabled and Player disabled,
      in that order, and nothing else changes. */
  function SetUI(h: Handler): (r: Step)
    ensures !Initialised(h) ==> r == Throw(h, [])
    ensures Initialised(h) ==> r.thrown.None? && InUI(r.handler) && OnlyFlagsDiffer(h, r.handler)
    ensures Initialised(h) ==> r.trace == [MapEnabled(UI), MapDisabled(Player)]
  {
    if h.inputs.None? then Throw(h, []) else Switch(h, UI, Player)
  }

  /** `OnEnable`: only the first call does anything. It builds the wrapper over
      the embedded asset, registers the handler on Player and then on UI, and
      switches to gameplay. A failed construction leaves `inputs` unset. */
  function OnEnable(h: Handler): (r: Step)
    ensures Initialised(h) ==> r == Nothing(h)
    ensures r.thrown.Some? ==> r.handler == h && r.trace == []
    ensures !Initialised(h) && r.thrown.None? ==> InGameplay(r.handler) && r.handler.self == h.self
    ensures !Initialised(h) && r.thrown.None? ==> r.trace == [MapEnabled(Player), MapDisabled(UI)]
  {
    if h.inputs.Some? then Nothing(h)
    else
      match New(Asset)
      case Failure(e) => Step(h, [], Some(e))
      case Success(g) =>
        var registered := GameInputs(AddCallbacks(g.player, Obj(h.self)), AddCallbacks(g.ui, Obj(h.self)));
        SetGameplay(h.(inputs := Some(registered)))
  }

  /** `OnDisable`: disables Player, then UI; before the first `OnEnable` it
      dereferences the unset wrapper and throws. */
  function OnDisable(h: Handler): (r: Step)
    ensures !Initialised(h) ==> r == Throw(h, [])
    ensures Initialised(h) ==> r.thrown.None? && AllDisabled(r.handler) && OnlyFlagsDiffer(h, r.handler)
    ensures Initialised(h) ==> r.trace == [MapDisabled(Player), MapDisabled(UI)]
  {
    if h.inputs.None? then Throw(h, [])
    else
      var g := WithFlag(WithFlag(h.inputs.value, Player, false), UI, false);
      Step(h.(inputs := Some(g)), [MapDisabled(Player), MapDisabled(UI)], None)
  }

  /** An event-only callback: raises `e` when `emit` holds, and touches no state. */
  function Emit(h: Handler, emit: bool, e: Effect): Step {
    Step(h, if emit then [e] else [], None)
  }

  /** `OnMovement`: forwards the value read in every phase. */
  function OnMovement(h: Handler, ctx: Context): (r: Step)
    ensures r.handler == h && r.thrown.None?
    ensures r.trace == [MovementEvent(ctx.value)]
  {
    Emit(h, true, MovementEvent(ctx.value))
  }

  /** `OnJump`: raises the jump event only when the press is performed. */
  function OnJump(h: Handler, ctx: Context): (r: Step)
    ensures r.handler == h && r.thrown.None?
    ensures r.trace == (if ctx.phase == Performed then [JumpEvent] else [])
  {
    Emit(h, ctx.phase == Performed, JumpEvent)
  }

  /** `OnSprint`: sprint on performed, sprint-cancelled on canceled, nothing on started. */
  function OnSprint(h: Handler, ctx: Context): (r: Step)
    ensures r.handler == h && r.thrown.None?
    ensures r.trace == (match ctx.phase
                        case Performed => [SprintEvent]
                        case Canceled => [SprintCancelledEvent]
                        case Started => [])
  {
    match ctx.phase
    case Performed => Emit(h, true, SprintEvent)
    case Canceled => Emit(h, true, SprintCancelledEvent)
    case Started => Nothing(h)
  }

  /** `OnLook`: forwards the value read in every phase. */
  function OnLook(h: Handler, ctx: Context): (r: Step)
    ensures r.handler == h && r.thrown.None?
    ensures r.trace == [LookEvent(ctx.value)]
  {
    Emit(h, true, LookEvent(ctx.value))
  }

  /** `OnInteract`: raises the interaction event only when the press is performed. */
  function OnInteract(h: Handler, ctx: Context): (r: Step)
    ensures r.handler == h && r.thrown.None?
    ensures r.trace == (if ctx.phase == Performed then [InteractionEvent] else [])
  {
    Emit(h, ctx.phase == Performed, InteractionEvent)
  }

  /** `OnPause`: when the press starts, raises the pause event and then
      switches to the UI map; other phases do nothing. */
  function OnPause(h: Handler, ctx: Context): (r: Step)
    ensures ctx.phase != Started ==> r == Nothing(h)
    ensures ctx.phase == Started ==> |r.trace| >= 1 && r.trace[0] == PauseEvent
    ensures ctx.phase == Started && Initialised(h) ==>
              r.thrown.None? && InUI(r.handler) && OnlyFlagsDiffer(h, r.handler)
              && r.trace == [PauseEvent, MapEnabled(UI), MapDisabled(Player)]
    ensures ctx.phase == Started && !Initialised(h) ==> r == Throw(h, [PauseEvent])
  {
    if ctx.phase == Started then
      var s := SetUI(h);
      Step(s.handler, [PauseEvent] + s.trace, s.thrown)
    else
      Nothing(h)
  }

  /** `OnResume`: when the press starts, raises the resume event and then
      switches back to the Player map; other phases do nothing. */
  function OnResume(h: Handler, ctx: Context): (r: Step)
    ensures ctx.phase != Started ==> r == Nothing(h)
    ensures ctx.phase == Started ==> |r.trace| >= 1 && r.trace[0] == ResumeEvent
    ensures ctx.phase == Started && Initialised(h) ==>
              r.thrown.None? && InGameplay(r.handler) && OnlyFlagsDiffer(h, r.handler)
              && r.trace == [ResumeEvent, MapEnabled(Player), MapDisabled(UI)]
    ensures ctx.phase == Started && !Initialised(h) ==> r == Throw(h, [ResumeEvent])
  {
    if ctx.phase == Started then
      var s := SetGameplay(h);
      Step(s.handler, [ResumeEvent] + s.trace, s.thrown)
    else
      Nothing(h)
  }

  /** The interface method the wrapper subscribed for an action: the
      `IPlayerActions` / `IUIActions` dispatch. A callback changes at most
      the enable flags, and throws only when a started pause or resume
      reaches a handler that has no wrapper yet. */
  function Handle(h: Handler, a: ActionName, ctx: Context): (r: Step)
    ensures r.handler == h || OnlyFlagsDiffer(h, r.handler)
    ensures r.thrown.Some? <==> (a == Pause || a == Resume) && ctx.phase == Started && !Initialised(h)
    ensures r.thrown.Some? ==> r.thrown == Some(NullReference)
  {
    match a
    case Movement => OnMovement(h, ctx)
    case Jump => OnJump(h, ctx)
    case Sprint => OnSprint(h, ctx)
    case Look => OnLook(h, ctx)
    case Interact => OnInteract(h, ctx)
    case Pause => OnPause(h, ctx)
    case Resume => OnResume(h, ctx)
  }

  /** The handler is registered, and only it, as the callback interface of
      both maps, and the bookkeeping of both maps is consistent. */
  ghost predicate Registered(h: Handler) {
    && h.inputs.Some? && Valid(h.inputs.value)
    && h.inputs.value.player.callbackInterfaces == [h.self]
    && h.inputs.value.ui.callbackInterfaces == [h.self]
  }

  /** A registered handler is the one subscriber of every phase of every action. */
  lemma RegisteredSubscribes(h: Handler, a: ActionName, p: Phase)
    ensures Registered(h) ==> Subscribers(MapNamed(h.inputs.value, MapOf(a)).subscribers, Slot(a, p)) == [h.self]
  {
    if Registered(h) {
      var m := MapNamed(h.inputs.value, MapOf(a));
      assert m.name == MapOf(a);
      assert a in Actions(MapOf(a)) by {
        if a == Resume { assert Actions(UI)[0] == a; }
        else if a == Movement { assert Actions(Player)[0] == a; }
        else if a == Jump { assert Actions(Player)[1] == a; }
        else if a == Sprint { assert Actions(Player)[2] == a; }
        else if a == Look { assert Actions(Player)[3] == a; }
        else if a == Interact { assert Actions(Player)[4] == a; }
        else { assert Actions(Player)[5] == a; }
      }
      assert Slot(a, p) in m.subscribers;
    }
  }

  /** Flag changes keep the registration. */
  lemma FlagsKeepRegistration(a: Handler, b: Handler)
    requires OnlyFlagsDiffer(a, b) && Registered(a)
    ensures Registered(b)
  {
    var g, g' := a.inputs.value, b.inputs.value;
    assert g'.player.(enabled := false) == g.player.(enabled := false);
    assert g'.ui.(enabled := false) == g.ui.(enabled := false);
    assert g'.player == g.player.(enabled := g'.player.enabled);
    assert g'.ui == g.ui.(enabled := g'.ui.enabled);
  }

  /** An action firing in a phase, as the input system delivers it: the
      handler's method runs when the action's map is enabled and the handler
      is among the subscribers of that action and phase. This gating is the
      input system's, assumed here rather than derived from code. */
  function Deliver(h: Handler, a: ActionName, ctx: Context): (r: Step)
    ensures !Initialised(h) ==> r == Nothing(h)
    ensures Initialised(h) && !MapNamed(h.inputs.value, MapOf(a)).enabled ==> r == Nothing(h)
    ensures Registered(h) && MapNamed(h.inputs.value, MapOf(a)).enabled ==> r == Handle(h, a, ctx)
  {
    if h.inputs.None? then Nothing(h)
    else
      RegisteredSubscribes(h, a, ctx.phase);
      var m := MapNamed(h.inputs.value, MapOf(a));
      if m.enabled && h.self in Subscribers(m.subscribers, Slot(a, ctx.phase)) then Handle(h, a, ctx)
      else Nothing(h)
  }

  /** One thing that can happen to the handler: Unity enabling or disabling the asset, or an action firing. */
  datatype Call = Enabled | Disabled | Input(action: ActionName, ctx: Context)

  /** One call. The handler keeps its identity, and once it has created its
      wrapper it keeps one. */
  function Apply(h: Handler, c: Call): (r: Step)
    ensures r.handler.self == h.self
    ensures Initialised(h) ==> Initialised(r.handler)
  {
    match c
    case Enabled => OnEnable(h)
    case Disabled => OnDisable(h)
    case Input(a, ctx) => Deliver(h, a, ctx)
  }

  /** Applies the calls in order, concatenating their traces; an exception
      ends the run with the state and trace reached so far. */
  function Run(h: Handler, calls: seq<Call>): (r: Step)
    ensures r.handler.self == h.self
    ensures Initialised(h) ==> Initialised(r.handler)
    decreases |calls|
  {
    if |calls| == 0 then Nothing(h)
    else
      var s := Apply(h, calls[0]);
      if s.thrown.Some? then s
      else
        var rest := Run(s.handler, calls[1..]);
        Step(rest.handler, s.trace + rest.trace, rest.thrown)
  }

  /** The first `OnEnable` cannot fail: it leaves the handler registered on
      both maps, in gameplay. */
  lemma FirstEnable(h: Handler)
    requires !Initialised(h)
    ensures OnEnable(h).thrown.None?
    ensures Registered(OnEnable(h).handler) && InGameplay(OnEnable(h).handler)
  {
    NewSucceeds();
    var g := New(Asset).value;
    var registered := GameInputs(AddCallbacks(g.player, Obj(h.self)), AddCallbacks(g.ui, Obj(h.self)));
    assert Registered(h.(inputs := Some(registered)));
    FlagsKeepRegistration(h.(inputs := Some(registered)), OnEnable(h).handler);
  }

  /** Enabling again after `OnDisable` changes nothing: both maps stay disabled. */
  lemma ReenableAfterDisable(h: Handler)
    requires Initialised(h)
    ensures OnEnable(OnDisable(h).handler) == Nothing(OnDisable(h).handler)
    ensures AllDisabled(OnEnable(OnDisable(h).handler).handler)
  {
  }

  /** Two handlers that differ at most in their flags and agree on the flags are equal. */
  lemma SameFlagsSameHandler(a: Handler, b: Handler)
    requires OnlyFlagsDiffer(a, b)
    requires a.inputs.value.player.enabled == b.inputs.value.player.enabled
    requires a.inputs.value.ui.enabled == b.inputs.value.ui.enabled
    ensures a == b
  {
    var g, g' := a.inputs.value, b.inputs.value;
    assert g'.player == g.player.(enabled := false).(enabled := g'.player.enabled);
    assert g'.ui == g.ui.(enabled := false).(enabled := g'.ui.enabled);
  }

  /** `SetGameplay` twice is `SetGameplay` once. */
  lemma SetGameplayIdempotent(h: Handler)
    ensures SetGameplay(SetGameplay(h).handler).handler == SetGameplay(h).handler
  {
    if Initialised(h) {
      var once := SetGameplay(h).handler;
      SameFlagsSameHandler(once, SetGameplay(once).handler);
    }
  }

  /** `SetUI` twice is `SetUI` once. */
  lemma SetUIIdempotent(h: Handler)
    ensures SetUI(SetUI(h).handler).handler == SetUI(h).handler
  {
    if Initialised(h) {
      var once := SetUI(h).handler;
      SameFlagsSameHandler(once, SetUI(once).handler);
    }
  }

  /** Pausing and then resuming from gameplay returns to the exact starting
      state, raising pause then resume around the two map switches. */
  lemma PauseResumeRoundTrip(h: Handler, v: Vector2, w: Vector2)
    requires InGameplay(h)
    ensures OnResume(OnPause(h, Context(Started, v)).handler, Context(Started, w)).handler == h
    ensures OnPause(h, Context(Started, v)).trace + OnResume(OnPause(h, Context(Started, v)).handler, Context(Started, w)).trace
            == [PauseEvent, MapEnabled(UI), MapDisabled(Player), ResumeEvent, MapEnabled(Player), MapDisabled(UI)]
  {
    var paused := OnPause(h, Context(Started, v)).handler;
    var back := OnResume(paused, Context(Started, w)).handler;
    SameFlagsSameHandler(h, back);
  }

  /** The movement and look callbacks forward their value in every phase, and no other callback does. */
  lemma StreamEvents(h: Handler, a: ActionName, ctx: Context)
    ensures MovementEvent(ctx.value) in Handle(h, a, ctx).trace <==> a == Movement
    ensures LookEvent(ctx.value) in Handle(h, a, ctx).trace <==> a == Look
  {
    var r := Handle(h, a, ctx);
    if (a == Pause || a == Resume) && ctx.phase == Started {
      assert r.trace[0] != MovementEvent(ctx.value) && r.trace[0] != LookEvent(ctx.value);
    }
  }

  /** The button callbacks raise their events only in the phase they filter
      for, and leave the handler as it was. */
  lemma ButtonEvents(h: Handler, a: ActionName, ctx: Context)
    ensures JumpEvent in Handle(h, a, ctx).trace <==> a == Jump && ctx.phase == Performed
    ensures InteractionEvent in Handle(h, a, ctx).trace <==> a == Interact && ctx.phase == Performed
    ensures SprintEvent in Handle(h, a, ctx).trace <==> a == Sprint && ctx.phase == Performed
    ensures SprintCancelledEvent in Handle(h, a, ctx).trace <==> a == Sprint && ctx.phase == Canceled
  {
    var r := Handle(h, a, ctx);
    if (a == Pause || a == Resume) && ctx.phase == Started {
      assert r.trace[0] == PauseEvent || r.trace[0] == ResumeEvent;
    }
  }

  /** Pause and resume are raised only when their press starts, and only a
      started pause or resume changes the handler. */
  lemma SwitchEvents(h: Handler, a: ActionName, ctx: Context)
    ensures PauseEvent in Handle(h, a, ctx).trace <==> a == Pause && ctx.phase == Started
    ensures ResumeEvent in Handle(h, a, ctx).trace <==> a == Resume && ctx.phase == Started
    ensures Handle(h, a, ctx).handler != h ==> (a == Pause || a == Resume) && ctx.phase == Started
  {
    var r := Handle(h, a, ctx);
    if (a == Pause || a == Resume) && ctx.phase == Started {
      if a == Pause {
        assert r.trace[0] == PauseEvent && ResumeEvent !in r.trace;
      } else {
        assert r.trace[0] == ResumeEvent && PauseEvent !in r.trace;
      }
    }
  }

  /** A delivered action keeps a registered handler registered, and keeps
      exactly one map enabled. */
  lemma DeliverKeepsExclusive(h: Handler, a: ActionName, ctx: Context)
    requires Registered(h) && Exclusive(h)
    ensures Deliver(h, a, ctx).thrown.None?
    ensures Registered(Deliver(h, a, ctx).handler) && Exclusive(Deliver(h, a, ctx).handler)
  {
    var r := Deliver(h, a, ctx);
    if r.handler != h {
      FlagsKeepRegistration(h, r.handler);
    }
  }

  /** Once the handler is registered with exactly one map enabled, any run of
      enables and actions without an `OnDisable` keeps exactly one map enabled. */
  lemma {:induction false} ExclusiveThroughout(h: Handler, calls: seq<Call>)
    requires Registered(h) && Exclusive(h)
    requires forall i :: 0 <= i < |calls| ==> !calls[i].Disabled?
    ensures Run(h, calls).thrown.None?
    ensures Registered(Run(h, calls).handler) && Exclusive(Run(h, calls).handler)
    decreases |calls|
  {
    if |calls| > 0 {
      if calls[0].Input? {
        DeliverKeepsExclusive(h, calls[0].action, calls[0].ctx);
      }
      var s := Apply(h, calls[0]);
      ExclusiveThroughout(s.handler, calls[1..]);
    }
  }

  /** How an action reaches a registered handler: through its method when its map is enabled, not at all otherwise. */
  lemma DeliverRegistered(h: Handler, a: ActionName, ctx: Context)
    requires Registered(h)
    ensures Apply(h, Input(a, ctx)) == (if MapNamed(h.inputs.value, MapOf(a)).enabled then Handle(h, a, ctx) else Nothing(h))
  {
  }

  /** A run is its first call followed by the run of the rest. */
  lemma RunCons(h: Handler, c: Call, rest: seq<Call>)
    ensures Apply(h, c).thrown.Some? ==> Run(h, [c] + rest) == Apply(h, c)
    ensures Apply(h, c).thrown.None? ==>
              Run(h, [c] + rest) == Step(Run(Apply(h, c).handler, rest).handler,
                                         Apply(h, c).trace + Run(Apply(h, c).handler, rest).trace,
                                         Run(Apply(h, c).handler, rest).thrown)
  {
    assert ([c] + rest)[1..] == rest;
  }

  /** From the first `OnEnable` until an `OnDisable`, exactly one of the two
      maps is enabled after every call. */
  lemma SessionExclusive(h: Handler, calls: seq<Call>, k: nat)
    requires !Initialised(h)
    requires forall i :: 0 <= i < |calls| ==> !calls[i].Disabled?
    requires k <= |calls|
    ensures Run(h, [Enabled] + calls[..k]).thrown.None?
    ensures Exclusive(Run(h, [Enabled] + calls[..k]).handler)
  {
    var prefix := calls[..k];
    var first := OnEnable(h);
    NewSucceeds();
    FirstEnable(h);
    ExclusiveThroughout(first.handler, prefix);
    var rest := Run(first.handler, prefix);
    assert Apply(h, Enabled) == first;
    RunCons(h, Enabled, prefix);
    assert Run(h, [Enabled] + prefix) == Step(rest.handler, first.trace + rest.trace, rest.thrown);
  }

  /** While paused, a jump is dropped; after resuming, the same jump is
      raised. */
  lemma PausedDropsJump(h: Handler, v: Vector2)
    requires !Initialised(h)
    ensures Run(h, [Enabled, Input(Pause, Context(Started, v)), Input(Jump, Context(Performed, v)),
                    Input(Resume, Context(Started, v)), Input(Jump, Context(Performed, v))]).trace
            == [MapEnabled(Player), MapDisabled(UI),
                PauseEvent, MapEnabled(UI), MapDisabled(Player),
                ResumeEvent, MapEnabled(Player), MapDisabled(UI),
                JumpEvent]
  {
    var calls: seq<Call> := [Input(Pause, Context(Started, v)), Input(Jump, Context(Performed, v)),
                                Input(Resume, Context(Started, v)), Input(Jump, Context(Performed, v))];
    assert [Enabled] + calls == [Enabled, Input(Pause, Context(Started, v)), Input(Jump, Context(Performed, v)),
                                 Input(Resume, Context(Started, v)), Input(Jump, Context(Performed, v))];
    var paused: seq<Effect> := [PauseEvent, MapEnabled(UI), MapDisabled(Player),
                                   ResumeEvent, MapEnabled(Player), MapDisabled(UI), JumpEvent];
    assert [MapEnabled(Player), MapDisabled(UI)] + paused
           == [MapEnabled(Player), MapDisabled(UI),
               PauseEvent, MapEnabled(UI), MapDisabled(Player),
               ResumeEvent, MapEnabled(Player), MapDisabled(UI),
               JumpEvent];
    EnableThenRun(h, calls);
    FirstEnable(h);
    PauseThenJump(OnEnable(h).handler, v);
    assert Run(OnEnable(h).handler, calls).trace == paused;
  }

  /** A run that starts by enabling a fresh handler: the gameplay switch, then the rest from the registered state. */
  lemma EnableThenRun(h: Handler, rest: seq<Call>)
    requires !Initialised(h)
    ensures Run(h, [Enabled] + rest).trace == [MapEnabled(Player), MapDisabled(UI)] + Run(OnEnable(h).handler, rest).trace
  {
    NewSucceeds();
    FirstEnable(h);
    assert Apply(h, Enabled) == OnEnable(h);
    RunCons(h, Enabled, rest);
  }

  /** The scenario from gameplay on: pausing, then the paused half. */
  lemma PauseThenJump(h: Handler, v: Vector2)
    requires Registered(h) && InGameplay(h)
    ensures Run(h, [Input(Pause, Context(Started, v)), Input(Jump, Context(Performed, v)),
                    Input(Resume, Context(Started, v)), Input(Jump, Context(Performed, v))]).trace
            == [PauseEvent, MapEnabled(UI), MapDisabled(Player),
                ResumeEvent, MapEnabled(Player), MapDisabled(UI),
                JumpEvent]
  {
    var c1: Call := Input(Pause, Context(Started, v));
    var rest: seq<Call> := [Input(Jump, Context(Performed, v)), Input(Resume, Context(Started, v)), Input(Jump, Context(Performed, v))];
    var resumed: seq<Effect> := [ResumeEvent, MapEnabled(Player), MapDisabled(UI), JumpEvent];
    assert [c1] + rest == [Input(Pause, Context(Started, v)), Input(Jump, Context(Performed, v)),
                           Input(Resume, Context(Started, v)), Input(Jump, Context(Performed, v))];
    assert [PauseEvent, MapEnabled(UI), MapDisabled(Player)] + resumed
           == [PauseEvent, MapEnabled(UI), MapDisabled(Player),
               ResumeEvent, MapEnabled(Player), MapDisabled(UI), JumpEvent];
    var h2 := OnPause(h, Context(Started, v)).handler;
    DeliverRegistered(h, Pause, Context(Started, v));
    assert Apply(h, c1) == Step(h2, [PauseEvent, MapEnabled(UI), MapDisabled(Player)], None);
    FlagsKeepRegistration(h, h2);
    JumpWhilePaused(h2, v);
    RunCons(h, c1, rest);
  }

  /** The paused half of the scenario: the jump is dropped, the resume switches back, the next jump is raised. */
  lemma JumpWhilePaused(h: Handler, v: Vector2)
    requires Registered(h) && InUI(h)
    ensures Run(h, [Input(Jump, Context(Performed, v)), Input(Resume, Context(Started, v)), Input(Jump, Context(Performed, v))]).trace
            == [ResumeEvent, MapEnabled(Player), MapDisabled(UI), JumpEvent]
  {
    var c2: Call := Input(Jump, Context(Performed, v));
    var c3: Call := Input(Resume, Context(Started, v));
    assert [c2, c3, c2] == [c2] + [c3, c2];
    assert [c3, c2] == [c3] + [c2];
    var resumed: seq<Effect> := [ResumeEvent, MapEnabled(Player), MapDisabled(UI)];
    assert resumed + [JumpEvent] == [ResumeEvent, MapEnabled(Player), MapDisabled(UI), JumpEvent];
    DeliverRegistered(h, Jump, Context(Performed, v));
    assert Apply(h, c2) == Nothing(h);
    var h4 := OnResume(h, Context(Started, v)).handler;
    DeliverRegistered(h, Resume, Context(Started, v));
    assert Apply(h, c3) == Step(h4, resumed, None);
    FlagsKeepRegistration(h, h4);
    JumpInGameplay(h4, v);
    RunCons(h, c3, [c2]);
    RunCons(h, c2, [c3, c2]);
  }

  /** In gameplay a performed jump is raised. */
  lemma JumpInGameplay(h: Handler, v: Vector2)
    requires Registered(h) && InGameplay(h)
    ensures Run(h, [Input(Jump, Context(Performed, v))]).trace == [JumpEvent]
  {
    var c: Call := Input(Jump, Context(Performed, v));
    DeliverRegistered(h, Jump, Context(Performed, v));
    RunCons(h, c, []);
  }
}
