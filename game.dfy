/**
 * The game component's state machine: the adventure it displays and the
 * reader's path through it. Loading, choosing, reverting and restarting
 * update the path in place; the current unit, the options, the sidebar items,
 * the highlighted entry and the contribution are views computed from the state.
 */
module GameComponent {
  import opened Wrappers
  import opened Units
  import opened Adventures
  import opened PathState
  import opened Contribute

  /**
   * The rule shared by restart and the initial load: the path becomes the
   * root's id alone when the adventure has a root, and is left as it was
   * otherwise.
   */
  function RestartedPath(adv: Adventure, path: seq<string>): (r: seq<string>)
    requires adv.Valid()
    ensures (exists k :: k in adv.units && adv.units[k].parentId.None?) ==>
      && |r| == 1
      && (exists k :: k in adv.units && adv.units[k].id == r[0] && adv.units[k].parentId.None?)
    ensures (forall k :: k in adv.units ==> adv.units[k].parentId.Some?) ==> r == path
  {
    match Root(adv)
    case Some(root) => [root.id]
    case None => path
  }

  /** Restarting twice is restarting once. */
  lemma RestartIdempotent(adv: Adventure, path: seq<string>)
    requires adv.Valid()
    ensures RestartedPath(adv, RestartedPath(adv, path)) == RestartedPath(adv, path)
  {
  }

  /** In an adventure with a root and units keyed by id, restarting puts the reader on a walk. */
  lemma RestartMakesWalk(adv: Adventure, path: seq<string>)
    requires adv.Valid() && KeyedById(adv.units)
    requires exists k :: k in adv.units && adv.units[k].parentId.None?
    ensures IsWalk(adv, RestartedPath(adv, path))
    ensures |RestartedPath(adv, path)| == 1
  {
  }

  class Game {
    var adventure: Adventure
    var path: seq<string>

    ghost predicate Valid()
      reads this
    {
      adventure.Valid()
    }

    /** The component starts with the default adventure and an empty path. */
    constructor ()
      ensures Valid()
      ensures adventure == Empty && path == []
    {
      adventure := Empty;
      path := [];
    }

    /**
     * The fetch on mount completes: on success the path follows the restart
     * rule for the new data and the data replaces the adventure; on failure
     * neither changes.
     */
    method Load(fetched: Result<Adventure, string>)
      requires Valid()
      requires fetched.Ok? ==> fetched.value.Valid()
      modifies this
      ensures Valid()
      ensures fetched.Ok? ==> adventure == fetched.value && path == RestartedPath(adventure, old(path))
      ensures fetched.Err? ==> adventure == old(adventure) && path == old(path)
    {
      match fetched
      case Ok(data) =>
        var root := Root(data);
        if root.Some? {
          path := [root.value.id];
        }
        adventure := data;
      case Err(_) =>
    }

    /** Choosing an option appends its id; a walk stays a walk. */
    method Choose(unit: Unit)
      requires Valid()
      modifies this
      ensures Valid() && adventure == old(adventure)
      ensures |path| == |old(path)| + 1
      ensures path[..|old(path)|] == old(path) && Last(path) == unit.id
      ensures KeyedById(adventure.units) && unit in old(Options()) ==> Current() == Some(unit)
      ensures old(IsWalk(adventure, path)) && KeyedById(adventure.units) && unit in old(Options())
        ==> IsWalk(adventure, path)
    {
      ghost var before := path;
      ghost var options := Options();
      path := path + [unit.id];
      if IsWalk(adventure, before) && KeyedById(adventure.units) && unit in options {
        ChooseChildKeepsWalk(adventure, before, unit);
      }
    }

    /** Reverting to sidebar entry `index` truncates the path to `index + 1` entries. */
    method RevertTo(index: nat)
      requires Valid()
      modifies this
      ensures Valid() && adventure == old(adventure)
      ensures path == Truncate(old(path), index + 1)
      ensures index < |old(path)| ==> |path| == index + 1 && Last(path) == old(path)[index]
      ensures old(IsWalk(adventure, path)) ==> IsWalk(adventure, path)
    {
      ghost var before := path;
      path := Truncate(path, index + 1);
      if index < |before| {
        TruncateAfterIndex(before, index);
      }
      if IsWalk(adventure, before) {
        TruncateKeepsWalk(adventure, before, index + 1);
      }
    }

    /** "Try Again" / "Start Over": back to the root, when there is one. */
    method Restart()
      requires Valid()
      modifies this
      ensures Valid() && adventure == old(adventure)
      ensures path == RestartedPath(adventure, old(path))
    {
      match Root(adventure)
      case Some(root) =>
        path := [root.id];
      case None =>
    }

    /** The unit stored under the last id of the path, if any. */
    function Current(): (r: Option<Unit>)
      reads this
      ensures r.None? <==> path == [] || Last(path) !in adventure.units
      ensures r.Some? ==> r.value == adventure.units[Last(path)]
    {
      if path == [] then None else Get(adventure, Last(path))
    }

    /** The children of the last id of the path; none for an empty path. */
    function Options(): (r: seq<Unit>)
      reads this
      requires Valid()
      ensures path == [] ==> r == []
      ensures path != [] ==> forall u :: u in r <==> u in adventure.units.Values && u.parentId == Some(Last(path))
    {
      if path == [] then [] else Children(adventure, Last(path))
    }

    /** One sidebar item per path entry: the unit stored under it, or None when it is missing. */
    function PathItems(): (r: seq<Option<Unit>>)
      reads this
      ensures |r| == |path|
      ensures forall i :: 0 <= i < |path| ==> (r[i].Some? <==> path[i] in adventure.units)
      ensures forall i :: 0 <= i < |path| && r[i].Some? ==> r[i].value == adventure.units[path[i]]
    {
      var p, adv := path, adventure;
      seq(|p|, i requires 0 <= i < |p| => Get(adv, p[i]))
    }

    /** Sidebar entry `i` is highlighted. */
    function IsCurrent(i: nat): (r: bool)
      reads this
      ensures path != [] ==> (r <==> i == |path| - 1)
      ensures path == [] ==> (r <==> i == 0)
    {
      IsCurrentIndex(|path|, i)
    }

    /** The contribute form is offered when the current unit exists and has no children. */
    predicate ContributeOffered(): (r: bool)
      reads this
      requires Valid()
      ensures r <==> && path != [] && Last(path) in adventure.units
                     && forall u :: u in adventure.units.Values ==> u.parentId != Some(Last(path))
    {
      var options := Options();
      assert options != [] ==> options[0] in options;
      Current().Some? && options == []
    }

    /**
     * The unit the contribute form builds when submitted at clock reading
     * `millis`; None when the form is not on screen.
     */
    function Contribution(millis: u64, choiceText: string, storyText: string): (r: Option<Unit>)
      reads this
      requires Valid()
      ensures r.Some? <==> ContributeOffered()
      ensures r.Some? ==> r.value.parentId == Some(Current().value.id)
      ensures r.Some? ==> r.value.choiceText == choiceText && r.value.storyText == storyText
      ensures r.Some? ==> forall u :: u in adventure.units.Values ==> u.parentId != Some(Last(path))
    {
      if ContributeOffered() then Some(NewUnit(Current().value.id, millis, choiceText, storyText))
      else None
    }
  }
}
