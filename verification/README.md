# Input layer of a Unity 3D game template, in Dafny

This project models the input layer of the template. It has two parts:

- the generated `GameInputs` wrapper. It exposes two action maps: Player, with Movement, Jump, Sprint, Look, Interact and Pause; and UI, with Resume. Each map keeps a list of registered callback interfaces. Every action keeps a subscriber list for each of its three callback phases: started, performed and canceled. `AddCallbacks`, `RemoveCallbacks` and `SetCallbacks` keep these lists in step.
- the `InputHandler` asset. It creates the wrapper on first enable, registers itself on both maps, and from the first enable until a disable keeps exactly one map enabled (Player in gameplay, UI while paused). A later enable does not re-enable a map, because the wrapper already exists. It turns action callbacks into game events.

Everything is pure. Each handler operation maps a handler state to a `Step`. A `Step` holds the next state, the ordered trace of what the call did (events raised, maps enabled or disabled) and the exception that ended it, if any.

Modules:

- `Results`: `Option`, `Result` and the three errors that can be raised (map not found, action not found, null reference).
- `SubscriberLists`: identity lists without duplicates. Adding appends if absent. Removing drops the first occurrence, as `List<T>.Remove` does.
- `Catalog`: typed names for the maps, actions and phases. It also holds the declarations of the embedded asset and the name lookups done with `throwIfNotFound: true`.
- `ActionMaps`: the per-map callback bookkeeping. One definition, parameterised by the map name, serves both `PlayerActions` and `UIActions`.
- `Wrapper`: the `GameInputs` record and its constructor.
- `InputHandling`: the handler operations. It also defines the delivery of an action to the handler and runs of several calls.

Callback interfaces are compared by reference, so the model identifies each by an `ObjectId`; C#'s `null` instance is `Ref.Null`. The `Vector2` an action reads is a pair of reals and is passed through unchanged.

## Model

| member | source | states |
|---|---|---|
| `SubscriberLists.SubscribeFacts` | Assets/_Project/Scripts/Inputs/GameInputs.cs:552-553 | Registering keeps the existing list as a prefix and adds the instance exactly when it was absent; a duplicate-free list stays duplicate-free |
| `SubscriberLists.FirstIndex` | Assets/_Project/Scripts/Inputs/GameInputs.cs:609 | The position `List.Remove` acts on holds the instance, and no earlier position does |
| `SubscriberLists.RemoveFirstFacts` | Assets/_Project/Scripts/Inputs/GameInputs.cs:609 | Removal is a no-op on an absent instance. Otherwise it drops exactly the first occurrence: one shorter, multiset minus one copy, rest in order. On a duplicate-free list no copy remains |
| `SubscriberLists.RemoveUndoesSubscribe` | Assets/_Project/Scripts/Inputs/GameInputs.cs:552-553 | Removing a freshly appended instance gives back the original list |
| `SubscriberLists.RemoveHead` | Assets/_Project/Scripts/Inputs/GameInputs.cs:624-625 | Unregistering the head of the registration list leaves its tail: the step of the front-to-back `foreach` |
| `Catalog.IndexOfName` | Assets/_Project/Scripts/Inputs/GameInputs.cs:396-405 | A name lookup finds the first declaration with that name, and finds nothing exactly when no declaration has it |
| `Catalog.FindActionMap` | Assets/_Project/Scripts/Inputs/GameInputs.cs:396 | A map lookup returns a declared map of that name. It fails, with the map-not-found error, exactly when no map has the name |
| `Catalog.FindAction` | Assets/_Project/Scripts/Inputs/GameInputs.cs:397-402 | An action lookup returns a declared action of that name. It fails, with the action-not-found error for that map, exactly when the map declares no such action |
| `Catalog.MapLookup` | Assets/_Project/Scripts/Inputs/GameInputs.cs:89-405 | Exactly "Player" and "UI" name a map of the embedded asset; every other name fails |
| `Catalog.MapResolves` | Assets/_Project/Scripts/Inputs/GameInputs.cs:93-331 | Each typed map resolves to the asset's declaration of that name |
| `Catalog.ActionLookup` | Assets/_Project/Scripts/Inputs/GameInputs.cs:93-341 | Player declares exactly Movement, Jump, Sprint, Look, Interact, Pause in that order, and UI exactly Resume. An action lookup succeeds for those names and fails for any other |
| `Catalog.ResolveOwnAction` | Assets/_Project/Scripts/Inputs/GameInputs.cs:396-405 | Each typed action resolves, by its own name, within the map that owns it |
| `ActionMaps.SlotsOf` | Assets/_Project/Scripts/Inputs/GameInputs.cs:554-571 | The subscription points of a map are the three phases of each of its actions: three per action, no others, no point twice |
| `ActionMaps.Fresh` | Assets/_Project/Scripts/Inputs/GameInputs.cs:486 | A new map has an empty registration list, an empty subscriber list per (action, phase), is disabled, and satisfies the bookkeeping invariant |
| `ActionMaps.AddCallbacks` | Assets/_Project/Scripts/Inputs/GameInputs.cs:550-572 | `null` and an already registered instance change nothing. A new instance is appended to the registration list and to the list of every (action, phase), and nothing else changes. The invariant "every subscriber list equals the registration list, without duplicates" is preserved. The UI version at lines 676-683 is the same with Resume as the only action |
| `ActionMaps.RemoveCallbacks` | Assets/_Project/Scripts/Inputs/GameInputs.cs:607-611 | An absent or `null` instance changes nothing. A registered instance leaves the registration list by its first occurrence (no earlier position holds it) and leaves every one of the 3×N subscriber lists, and no slot is added or dropped. The invariant is preserved. The UI version is at lines 703-707 |
| `ActionMaps.UnregisterCallbacks` | Assets/_Project/Scripts/Inputs/GameInputs.cs:581-601 | Each of the map's slots loses the first occurrence of the instance; slots outside the map keep their lists, and the result has exactly the old slots plus the map's. `ActionMaps.SubscribersRestored` proves it undoes the subscription made by `AddCallbacks`. The UI version is at lines 692-697 |
| `ActionMaps.UnregisterAll` | Assets/_Project/Scripts/Inputs/GameInputs.cs:624-625 | Unregistering every registered interface, front to back, empties every subscriber list of a consistent map |
| `ActionMaps.SetCallbacks` | Assets/_Project/Scripts/Inputs/GameInputs.cs:622-628 | The registration list ends as exactly `[instance]`, or `[]` for `null`. Every subscriber list equals it: all earlier subscribers are gone. The enable flag is untouched and the invariant is preserved. The UI version is at lines 718-724 |
| `ActionMaps.Enable` | Assets/_Project/Scripts/Inputs/GameInputs.cs:533 | Enabling sets the flag and changes nothing else |
| `ActionMaps.Disable` | Assets/_Project/Scripts/Inputs/GameInputs.cs:535 | Disabling clears the flag and changes nothing else |
| `ActionMaps.AddCallbacksIdempotent` | Assets/_Project/Scripts/Inputs/GameInputs.cs:552 | Registering the same instance twice equals registering it once |
| `ActionMaps.AddRemoveRoundTrip` | Assets/_Project/Scripts/Inputs/GameInputs.cs:550-611 | On a consistent map, adding an unregistered instance and then removing it restores the map exactly |
| `Wrapper.MapNamed` | Assets/_Project/Scripts/Inputs/GameInputs.cs:633 | The `Player` / `UI` property gives one of the wrapper's two maps; on a valid wrapper, the map of that name, with consistent bookkeeping. The UI property is at line 729 |
| `Wrapper.ResolveActions` | Assets/_Project/Scripts/Inputs/GameInputs.cs:397-402 | Resolving a list of action names succeeds exactly when every name resolves; each result is the declaration the lookup of that name returns, in order; a failure names the first name the map does not declare, as the sequential lookups throw on it |
| `Wrapper.ResolveMap` | Assets/_Project/Scripts/Inputs/GameInputs.cs:396-405 | Resolving a map and its typed actions succeeds exactly when the map lookup and every action lookup succeed; each result is the declaration the action lookup returns for that typed action, in order, and carries its name; a failure is a lookup error |
| `Wrapper.DeclaredActionsResolve` | Assets/_Project/Scripts/Inputs/GameInputs.cs:397-402 | Every action name a typed map looks up is declared by the embedded asset's declaration of that map |
| `Wrapper.EmbeddedMapResolves` | Assets/_Project/Scripts/Inputs/GameInputs.cs:396-405 | Against the embedded asset both maps resolve, to declarations named after their typed actions position by position |
| `Wrapper.New` | Assets/_Project/Scripts/Inputs/GameInputs.cs:87-406 | Construction succeeds exactly when every lookup succeeds. It then yields both maps disabled, with no registered interface and consistent bookkeeping; otherwise the error of the first map (Player, then UI) whose resolution fails |
| `Wrapper.NewSucceeds` | Assets/_Project/Scripts/Inputs/GameInputs.cs:87-406 | Constructing the wrapper over the embedded asset never throws |
| `InputHandling.SetGameplay` | Assets/_Project/Scripts/Inputs/InputHandler.cs:49-56 | Whatever the flags were, Player ends enabled and UI disabled, in that order, and nothing else changes. Before initialisation it throws a null reference |
| `InputHandling.SetUI` | Assets/_Project/Scripts/Inputs/InputHandler.cs:58-65 | Whatever the flags were, UI ends enabled and Player disabled, in that order, and nothing else changes. Before initialisation it throws a null reference |
| `InputHandling.OnEnable` | Assets/_Project/Scripts/Inputs/InputHandler.cs:26-39 | On an initialised handler it does nothing. The first call ends in gameplay, having enabled Player and then disabled UI. A failed construction leaves the handler unchanged |
| `InputHandling.OnDisable` | Assets/_Project/Scripts/Inputs/InputHandler.cs:41-46 | Disables Player, then UI, leaving both disabled and nothing else changed. Before initialisation it throws a null reference |
| `InputHandling.OnMovement` | Assets/_Project/Scripts/Inputs/InputHandler.cs:69-73 | In every phase, exactly one movement event carrying the value read; no state change |
| `InputHandling.OnJump` | Assets/_Project/Scripts/Inputs/InputHandler.cs:75-82 | A jump event exactly when the phase is performed; no state change |
| `InputHandling.OnSprint` | Assets/_Project/Scripts/Inputs/InputHandler.cs:84-96 | Sprint on performed, sprint-cancelled on canceled, nothing on started; no state change |
| `InputHandling.OnLook` | Assets/_Project/Scripts/Inputs/InputHandler.cs:98-102 | In every phase, exactly one look event carrying the value read; no state change |
| `InputHandling.OnInteract` | Assets/_Project/Scripts/Inputs/InputHandler.cs:104-111 | An interaction event exactly when the phase is performed; no state change |
| `InputHandling.OnPause` | Assets/_Project/Scripts/Inputs/InputHandler.cs:113-123 | When started: the pause event, then UI enabled, then Player disabled, with only the flags changed. Other phases do nothing. Uninitialised, the event is raised before the null-reference exception |
| `InputHandling.OnResume` | Assets/_Project/Scripts/Inputs/InputHandler.cs:127-137 | When started: the resume event, then Player enabled, then UI disabled, with only the flags changed. Other phases do nothing. Uninitialised, the event is raised before the exception |
| `InputHandling.RegisteredSubscribes` | Assets/_Project/Scripts/Inputs/InputHandler.cs:33-34 | A handler registered on both maps is the one subscriber of every phase of every action |
| `InputHandling.Handle` | Assets/_Project/Scripts/Inputs/GameInputs.cs:761-819 | An interface callback changes at most the two enable flags; it throws, with a null reference, exactly when a started pause or resume reaches a handler with no wrapper |
| `InputHandling.Deliver` | Assets/_Project/Scripts/Inputs/GameInputs.cs:554-571 | An action on a disabled map, or before initialisation, reaches nobody. On an enabled map it runs the registered handler's method for that action |
| `InputHandling.FirstEnable` | Assets/_Project/Scripts/Inputs/InputHandler.cs:26-39 | The first enable cannot fail. It leaves the handler registered exactly once on both maps, subscribed everywhere, with Player enabled and UI disabled |
| `InputHandling.ReenableAfterDisable` | Assets/_Project/Scripts/Inputs/InputHandler.cs:26-46 | After `OnDisable`, a later `OnEnable` changes nothing, and both maps stay disabled |
| `InputHandling.SetGameplayIdempotent` | Assets/_Project/Scripts/Inputs/InputHandler.cs:49-56 | Switching to gameplay twice equals switching once |
| `InputHandling.SetUIIdempotent` | Assets/_Project/Scripts/Inputs/InputHandler.cs:58-65 | Switching to UI twice equals switching once |
| `InputHandling.PauseResumeRoundTrip` | Assets/_Project/Scripts/Inputs/InputHandler.cs:113-137 | From gameplay, a started pause followed by a started resume returns to the exact starting state. The trace is pause, UI on, Player off, resume, Player on, UI off |
| `InputHandling.StreamEvents` | Assets/_Project/Scripts/Inputs/InputHandler.cs:69-102 | A movement (look) event with the value read is raised exactly by the movement (look) callback, in any phase |
| `InputHandling.ButtonEvents` | Assets/_Project/Scripts/Inputs/InputHandler.cs:75-111 | Jump, interaction and sprint are raised exactly by their callback in performed; sprint-cancelled exactly by the sprint callback in canceled |
| `InputHandling.SwitchEvents` | Assets/_Project/Scripts/Inputs/InputHandler.cs:113-137 | Pause and resume are raised exactly by their callback in started, and only those two calls can change the handler |
| `InputHandling.Apply` | Assets/_Project/Scripts/Inputs/InputHandler.cs:26-46 | Any single call keeps the handler's identity, and once the wrapper exists it is never dropped |
| `InputHandling.Run` | Assets/_Project/Scripts/Inputs/InputHandler.cs:26-46 | Any run of calls keeps the handler's identity, and once the wrapper exists it is never dropped |
| `InputHandling.DeliverKeepsExclusive` | Assets/_Project/Scripts/Inputs/InputHandler.cs:69-137 | Any delivered action keeps a registered handler registered, with exactly one map enabled, and throws nothing |
| `InputHandling.ExclusiveThroughout` | Assets/_Project/Scripts/Inputs/InputHandler.cs:49-65 | From a registered state with one map enabled, any run of enables and actions without a disable keeps exactly one map enabled and throws nothing |
| `InputHandling.SessionExclusive` | Assets/_Project/Scripts/Inputs/InputHandler.cs:36-37 | After the first enable, exactly one of Player and UI is enabled after every later call until a disable |
| `InputHandling.PausedDropsJump` | Assets/_Project/Scripts/Inputs/InputHandler.cs:75-137 | Enable, pause, jump, resume, jump: the jump while paused is dropped and the jump after resuming is raised. The exact trace is given |

## Left out

- JSON parsing of the embedded asset: only the resulting names and action types are kept.
- Bindings, composites, processors (dead zones, vector scaling) and control schemes: device plumbing and floating-point work done by the input system.
- The input system's own dispatch. `InputHandling.Deliver` assumes that an action reaches its subscribers only while its map is enabled. This gating is the library's, not this repository's.
- `InputHandling.Deliver`: for a map that is enabled but has no registered handler, the contract says nothing.
- The finalizer's leak assertion and `Dispose`. They depend on garbage collection. `InputHandling.AllDisabled` records the state the finalizer expects.
- The `bindingMask`, `devices`, `Contains`, enumerators, `FindAction` and `FindBinding` forwards to the library.
- Float arithmetic on `Vector2` components (the model never computes with them), `ScriptableObject` lifecycle wiring and the null checks of `?.Invoke`. Every raised event is recorded in the trace, whether or not anyone listens.
- The input system's per-phase subscriber lists (`+=` / `-=` on `started`, `performed`, `canceled`) are not visible code. They are modelled as "append if absent" and "remove first occurrence". Under the bookkeeping invariant, these equal plain append and removal.
- Deferred mutation of those lists while callbacks are running is left out.
- A new action map starts disabled. This is input-system behaviour, assumed in `ActionMaps.Fresh`.
- `Catalog.FindActionMap`: compares names exactly. The input system's lookup also matches a name in other letter case, and a map's id (the GUIDs in the embedded JSON). For such arguments the program finds a map where the model reports `MapNotFound`.
- `Catalog.FindAction`: compares names exactly, for the same reason. It leaves out the case-insensitive and id matches of the `actionNameOrId` parameter.
- `Catalog.MapLookup`: its "every other name fails" half is a fact about the exact-name model. The program also accepts "player", "ui" and the map ids.
- `Catalog.ActionLookup`: its "fails for any other name" half is a fact about the exact-name model. The program also accepts case variants such as "jump" and the action ids.
- Exceptions are a `thrown` field of `Step`, and the effects before the throw are kept.
- `InputHandling.Run`: stops at the first exception. Unity logs an exception thrown by a callback or by `OnEnable`/`OnDisable` and keeps delivering later calls. A run that throws is therefore cut short in the model, and the later calls are not modelled. The runs the lemmas reason about never throw.
- `ActionMaps.UnregisterAll`: the contract covers only maps whose bookkeeping is consistent. That is every map the model builds.
- `ActionMaps.SetCallbacks`: the per-slot result is stated only for consistent maps.
- `Wrapper.ResolveMap`: on failure the contract gives only the kind of error, not which lookup failed first.
