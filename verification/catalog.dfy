/** The static action catalogue of the generated `GameInputs` wrapper: the
    map and action declarations of the embedded asset (names, action type,
    expected control type), the name lookups its constructor performs with
    `throwIfNotFound: true`, and typed names for the two maps, the seven
    actions and the three callback phases. */
module Catalog {
  import opened Results

  datatype MapName = Player | UI

  datatype ActionName = Movement | Jump | Sprint | Look | Interact | Pause | Resume

  /** The three phases on which an action invokes its subscribers. */
  datatype Phase = Started | Performed | Canceled

  datatype ActionType = Button | PassThrough

  datatype ActionDecl = ActionDecl(name: string, actionType: ActionType, expectedControlType: string)

  datatype MapDecl = MapDecl(name: string, actions: seq<ActionDecl>)

  /** The maps and actions the embedded asset declares, in declaration order. */
  const Asset: seq<MapDecl> := [
    MapDecl("Player", [
      ActionDecl("Movement", PassThrough, "Vector2"),
      ActionDecl("Jump", Button, ""),
      ActionDecl("Sprint", Button, ""),
      ActionDecl("Look", PassThrough, "Vector2"),
      ActionDecl("Interact", Button, ""),
      ActionDecl("Pause", Button, "")
    ]),
    MapDecl("UI", [
      ActionDecl("Resume", Button, "")
    ])
  ]

  function MapLabel(m: MapName): string {
    match m
    case Player => "Player"
    case UI => "UI"
  }

  function ActionLabel(a: ActionName): string {
    match a
    case Movement => "Movement"
    case Jump => "Jump"
    case Sprint => "Sprint"
    case Look => "Look"
    case Interact => "Interact"
    case Pause => "Pause"
    case Resume => "Resume"
  }

  /** The actions the wrapper resolves for each map, in the order it resolves them. */
  function Actions(m: MapName): seq<ActionName> {
    match m
    case Player => [Movement, Jump, Sprint, Look, Interact, Pause]
    case UI => [Resume]
  }

  /** The map that owns an action. */
  function MapOf(a: ActionName): MapName {
    if a == Resume then UI else Player
  }

  function ActionLabels(actions: seq<ActionName>): seq<string> {
    if |actions| == 0 then [] else [ActionLabel(actions[0])] + ActionLabels(actions[1..])
  }

  function DeclNames(decls: seq<ActionDecl>): seq<string> {
    if |decls| == 0 then [] else [decls[0].name] + DeclNames(decls[1..])
  }

  /** Index of the first element whose name is `name`, or None if no element has it. */
  function IndexOfName<T>(xs: seq<T>, nameOf: T -> string, name: string): (r: Option<nat>)
    ensures r.Some? ==> r.value < |xs| && nameOf(xs[r.value]) == name
    ensures r.Some? ==> forall j :: 0 <= j < r.value ==> nameOf(xs[j]) != name
    ensures r.None? <==> forall j :: 0 <= j < |xs| ==> nameOf(xs[j]) != name
  {
    if |xs| == 0 then None
    else if nameOf(xs[0]) == name then Some(0)
    else
      match IndexOfName(xs[1..], nameOf, name)
      case None => None
      case Some(k) => Some(k + 1)
  }

  /** `asset.FindActionMap(name, throwIfNotFound: true)`. */
  function FindActionMap(asset: seq<MapDecl>, name: string): (r: Result<MapDecl>)
    ensures r.Success? ==> r.value in asset && r.value.name == name
    ensures r.Failure? <==> forall d :: d in asset ==> d.name != name
    ensures r.Failure? ==> r.error == MapNotFound(name)
  {
    match IndexOfName(asset, (d: MapDecl) => d.name, name)
    case Some(i) => Success(asset[i])
    case None => Failure(MapNotFound(name))
  }

  /** `decl.FindAction(name, throwIfNotFound: true)`. */
  function FindAction(decl: MapDecl, name: string): (r: Result<ActionDecl>)
    ensures r.Success? ==> r.value in decl.actions && r.value.name == name
    ensures r.Failure? <==> forall d :: d in decl.actions ==> d.name != name
    ensures r.Failure? ==> r.error == ActionNotFound(decl.name, name)
  {
    match IndexOfName(decl.actions, (d: ActionDecl) => d.name, name)
    case Some(i) => Success(decl.actions[i])
    case None => Failure(ActionNotFound(decl.name, name))
  }

  lemma {:induction false} DeclNamesMembers(decls: seq<ActionDecl>, name: string)
    ensures name in DeclNames(decls) <==> exists d :: d in decls && d.name == name
  {
    if |decls| > 0 {
      DeclNamesMembers(decls[1..], name);
      if name in DeclNames(decls[1..]) {
        var d :| d in decls[1..] && d.name == name;
        assert d in decls;
      }
      assert decls == [decls[0]] + decls[1..];
    }
  }

  /** Declarations named after a list of typed actions, position by position, have those actions' labels as names. */
  lemma {:induction false} NamesMatchLabels(decls: seq<ActionDecl>, actions: seq<ActionName>)
    requires |decls| == |actions|
    requires forall i :: 0 <= i < |decls| ==> decls[i].name == ActionLabel(actions[i])
    ensures DeclNames(decls) == ActionLabels(actions)
  {
    if |decls| > 0 {
      NamesMatchLabels(decls[1..], actions[1..]);
    }
  }

  /** Under exact comparison, "Player" and "UI" name a map of the asset and any other name fails. */
  lemma MapLookup(name: string)
    ensures FindActionMap(Asset, name).Success? <==> name == MapLabel(Player) || name == MapLabel(UI)
  {
    if name == "Player" {
      assert Asset[0] in Asset;
    } else if name == "UI" {
      assert Asset[1] in Asset;
    }
  }

  /** The asset's declaration of a typed map. */
  function Declared(m: MapName): MapDecl {
    match m
    case Player => Asset[0]
    case UI => Asset[1]
  }

  /** Each typed map resolves to the asset's declaration of that name. */
  lemma MapResolves(m: MapName)
    ensures FindActionMap(Asset, MapLabel(m)) == Success(Declared(m))
  {
    if m == Player {
      assert IndexOfName(Asset, (d: MapDecl) => d.name, "Player") == Some(0);
    } else {
      assert IndexOfName(Asset, (d: MapDecl) => d.name, "UI") == Some(1);
    }
  }

  /** Each typed map resolves to the asset's declaration of that name, which
      declares exactly the map's typed actions, in order; an action lookup
      in it, comparing names exactly, succeeds for those names and fails for any other. */
  lemma ActionLookup(m: MapName, name: string)
    ensures FindActionMap(Asset, MapLabel(m)).Success?
    ensures DeclNames(FindActionMap(Asset, MapLabel(m)).value.actions) == ActionLabels(Actions(m))
    ensures FindAction(FindActionMap(Asset, MapLabel(m)).value, name).Success? <==> name in ActionLabels(Actions(m))
  {
    MapResolves(m);
    var d := Declared(m);
    NamesMatchLabels(d.actions, Actions(m));
    DeclNamesMembers(d.actions, name);
  }

  /** Looking up an action by its own label finds a declaration of that name. */
  lemma ResolveOwnAction(a: ActionName)
    ensures FindActionMap(Asset, MapLabel(MapOf(a))).Success?
    ensures FindAction(FindActionMap(Asset, MapLabel(MapOf(a))).value, ActionLabel(a)).Success?
  {
    ActionLookup(MapOf(a), ActionLabel(a));
  }
}
