/** The generated `GameInputs` wrapper as a value: one callback-bookkeeping
    record per action map. Its constructor resolves the "Player" and "UI"
    maps and their actions by name, failing on any name the asset lacks. */
module Wrapper {
  import opened Results
  import opened Catalog
  import opened ActionMaps

  datatype GameInputs = GameInputs(player: ActionMap, ui: ActionMap)

  /** Each field holds the map it is named after, and both keep the bookkeeping invariant. */
  ghost predicate Valid(g: GameInputs) {
    && g.player.name == Player && g.ui.name == UI
    && Inv(g.player) && Inv(g.ui)
  }

  /** The bookkeeping record of a map, by name: the `Player` / `UI` properties. */
  function MapNamed(g: GameInputs, m: MapName): (r: ActionMap)
    ensures r == g.player || r == g.ui
    ensures Valid(g) ==> r.name == m && Inv(r)
  {
    match m
    case Player => g.player
    case UI => g.ui
  }

  /** Resolves each name with `FindAction(name, throwIfNotFound: true)`, in
      order, stopping at the first name the map does not declare. */
  function ResolveActions(decl: MapDecl, names: seq<string>): (r: Result<seq<ActionDecl>>)
    ensures r.Success? <==> forall i :: 0 <= i < |names| ==> FindAction(decl, names[i]).Success?
    ensures r.Success? ==> |r.value| == |names| && forall i :: 0 <= i < |names| ==> r.value[i].name == names[i]
    ensures r.Success? ==> forall i :: 0 <= i < |names| ==> r.value[i] == FindAction(decl, names[i]).value
    ensures r.Failure? ==> exists i ::
      && 0 <= i < |names| && FindAction(decl, names[i]).Failure?
      && (forall j :: 0 <= j < i ==> FindAction(decl, names[j]).Success?)
      && r.error == ActionNotFound(decl.name, names[i])
  {
    if |names| == 0 then Success([])
    else
      var first :- FindAction(decl, names[0]);
      var rest :- ResolveActions(decl, names[1..]);
      Success([first] + rest)
  }

  /** Resolves a map and then each of its typed actions, in the order the
      constructor does. */
  function ResolveMap(asset: seq<MapDecl>, m: MapName): (r: Result<seq<ActionDecl>>)
    ensures r.Success? <==>
      && FindActionMap(asset, MapLabel(m)).Success?
      && forall i :: 0 <= i < |Actions(m)| ==> FindAction(FindActionMap(asset, MapLabel(m)).value, ActionLabel(Actions(m)[i])).Success?
    ensures r.Success? ==> |r.value| == |Actions(m)| && forall i :: 0 <= i < |Actions(m)| ==> r.value[i].name == ActionLabel(Actions(m)[i])
    ensures r.Success? ==> forall i :: 0 <= i < |Actions(m)| ==>
      r.value[i] == FindAction(FindActionMap(asset, MapLabel(m)).value, ActionLabel(Actions(m)[i])).value
    ensures r.Failure? ==> r.error == MapNotFound(MapLabel(m)) || r.error.ActionNotFound?
  {
    var decl :- FindActionMap(asset, MapLabel(m));
    LabelsAt(Actions(m));
    ResolveActions(decl, ActionLabels(Actions(m)))
  }

  lemma {:induction false} LabelsAt(actions: seq<ActionName>)
    ensures |ActionLabels(actions)| == |actions|
    ensures forall i :: 0 <= i < |actions| ==> ActionLabels(actions)[i] == ActionLabel(actions[i])
  {
    if |actions| > 0 {
      LabelsAt(actions[1..]);
    }
  }

  /** Against the embedded asset, each map resolves to declarations named
      after its typed actions, position by position. */
  lemma EmbeddedMapResolves(m: MapName)
    ensures ResolveMap(Asset, m).Success?
    ensures forall i :: 0 <= i < |Actions(m)| ==> ResolveMap(Asset, m).value[i].name == ActionLabel(Actions(m)[i])
  {
    MapResolves(m);
    DeclaredActionsResolve(m);
    LabelsAt(Actions(m));
  }

  /** Every typed action of a map is declared by the asset's declaration of that map. */
  lemma DeclaredActionsResolve(m: MapName)
    ensures ResolveActions(Declared(m), ActionLabels(Actions(m))).Success?
  {
    MapResolves(m);
    var names := ActionLabels(Actions(m));
    forall i | 0 <= i < |names| ensures FindAction(Declared(m), names[i]).Success? {
      ActionLookup(m, names[i]);
    }
  }

  /** The constructor over an asset: resolves both maps and every action it
      exposes, then starts with both maps disabled and no callback interface
      registered; the first failed lookup is the error. */
  function New(asset: seq<MapDecl>): (r: Result<GameInputs>)
    ensures r.Success? <==> ResolveMap(asset, Player).Success? && ResolveMap(asset, UI).Success?
    ensures r.Success? ==> Valid(r.value)
    ensures r.Success? ==> !r.value.player.enabled && !r.value.ui.enabled
    ensures r.Success? ==> r.value.player.callbackInterfaces == [] && r.value.ui.callbackInterfaces == []
    ensures r.Failure? ==> r.error.MapNotFound? || r.error.ActionNotFound?
    ensures ResolveMap(asset, Player).Failure? ==> r == Failure(ResolveMap(asset, Player).error)
    ensures ResolveMap(asset, Player).Success? && ResolveMap(asset, UI).Failure? ==> r == Failure(ResolveMap(asset, UI).error)
  {
    var _ :- ResolveMap(asset, Player);
    var _ :- ResolveMap(asset, UI);
    Success(GameInputs(Fresh(Player), Fresh(UI)))
  }

  /** Constructing the wrapper over the embedded asset never throws. */
  lemma NewSucceeds()
    ensures New(Asset).Success?
  {
    EmbeddedMapResolves(Player);
    EmbeddedMapResolves(UI);
  }
}
