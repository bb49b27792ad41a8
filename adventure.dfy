/**
 * The adventure store that the game reads: units keyed by id, with lookup,
 * root selection and children listing, plus the parent-chain vocabulary used
 * to state that a story tree is acyclic.
 *
 * The store is a hash map, whose iteration order is unspecified. `order`
 * stands for that iteration order: root selection and children listing walk
 * the values in this order, and every contract below holds for ANY valid
 * order, so nothing depends on which unit the hash map happens to yield first.
 */
module Adventures {
  import opened Wrappers
  import opened Units

  datatype Adventure = Adventure(units: map<string, Unit>, order: seq<string>) {
    /** `order` enumerates every key of `units` exactly once. */
    ghost predicate Valid() {
      && (forall k :: k in order <==> k in units)
      && (forall i, j :: 0 <= i < j < |order| ==> order[i] != order[j])
    }
  }

  /** The default (empty) adventure the game starts with. */
  const Empty: Adventure := Adventure(map[], [])

  /** Every unit is stored under its own id. */
  ghost predicate KeyedById(units: map<string, Unit>) {
    forall k :: k in units ==> units[k].id == k
  }

  lemma EmptyIsValid()
    ensures Empty.Valid() && KeyedById(Empty.units)
    ensures Empty.units == map[]
  {
  }

  /** Lookup by key. */
  function Get(adv: Adventure, id: string): (r: Option<Unit>)
    ensures r.Some? <==> id in adv.units
    ensures r.Some? ==> r.value == adv.units[id] && r.value in adv.units.Values
  {
    if id in adv.units then Some(adv.units[id]) else None
  }

  /** The first unit, in `keys` order, that has no parent. */
  function FindParentless(units: map<string, Unit>, keys: seq<string>): (r: Option<Unit>)
    requires forall k :: k in keys ==> k in units
    ensures r.None? <==> forall k :: k in keys ==> units[k].parentId.Some?
    ensures r.Some? ==> r.value.parentId.None? && r.value in units.Values
    decreases |keys|
  {
    if keys == [] then None
    else if units[keys[0]].parentId.None? then Some(units[keys[0]])
    else FindParentless(units, keys[1..])
  }

  /** The root: some unit without a parent, if there is one. */
  function Root(adv: Adventure): (r: Option<Unit>)
    requires adv.Valid()
    ensures r.None? <==> forall k :: k in adv.units ==> adv.units[k].parentId.Some?
    ensures r.Some? ==> r.value.parentId.None? && r.value in adv.units.Values
  {
    FindParentless(adv.units, adv.order)
  }

  /** The units, in `keys` order, whose parent is `p`. */
  function ChildrenOf(units: map<string, Unit>, keys: seq<string>, p: string): (r: seq<Unit>)
    requires forall k :: k in keys ==> k in units
    ensures forall u :: u in r ==> u.parentId == Some(p) && u in units.Values
    ensures forall k :: k in keys && units[k].parentId == Some(p) ==> units[k] in r
    decreases |keys|
  {
    if keys == [] then []
    else
      var rest := ChildrenOf(units, keys[1..], p);
      if units[keys[0]].parentId == Some(p) then [units[keys[0]]] + rest else rest
  }

  /** The children of `p`: exactly the stored units whose parent is `p`. */
  function Children(adv: Adventure, p: string): (r: seq<Unit>)
    requires adv.Valid()
    ensures forall u :: u in r <==> u in adv.units.Values && u.parentId == Some(p)
  {
    ChildrenOf(adv.units, adv.order, p)
  }

  /** The keys in `keys` whose unit has parent `p`. */
  ghost function ChildKeys(units: map<string, Unit>, keys: seq<string>, p: string): set<string>
    requires forall k :: k in keys ==> k in units
  {
    set k | k in keys && units[k].parentId == Some(p)
  }

  lemma {:induction false} ChildrenOfCount(units: map<string, Unit>, keys: seq<string>, p: string)
    requires forall k :: k in keys ==> k in units
    requires forall i, j :: 0 <= i < j < |keys| ==> keys[i] != keys[j]
    ensures |ChildrenOf(units, keys, p)| == |ChildKeys(units, keys, p)|
    decreases |keys|
  {
    if keys != [] {
      var rest := keys[1..];
      assert forall i, j :: 0 <= i < j < |rest| ==> rest[i] != rest[j] by {
        forall i, j | 0 <= i < j < |rest| ensures rest[i] != rest[j] {
          assert rest[i] == keys[i + 1] && rest[j] == keys[j + 1];
        }
      }
      ChildrenOfCount(units, rest, p);
      assert keys[0] !in rest by {
        forall i | 0 <= i < |rest| ensures rest[i] != keys[0] {
          assert rest[i] == keys[i + 1];
        }
      }
      assert keys == [keys[0]] + rest;
      if units[keys[0]].parentId == Some(p) {
        assert ChildKeys(units, keys, p) == {keys[0]} + ChildKeys(units, rest, p);
      } else {
        assert ChildKeys(units, keys, p) == ChildKeys(units, rest, p);
      }
    }
  }

  /**
   * The children listing holds one entry per stored key whose unit has parent
   * `p`, whatever the iteration order: no child is lost or repeated.
   */
  lemma ChildrenCount(adv: Adventure, p: string)
    requires adv.Valid()
    ensures |Children(adv, p)| == |set k | k in adv.units && adv.units[k].parentId == Some(p)|
  {
    ChildrenOfCount(adv.units, adv.order, p);
    assert ChildKeys(adv.units, adv.order, p)
      == set k | k in adv.units && adv.units[k].parentId == Some(p);
  }

  /** The `j`-th ancestor key of `k` (0 is `k` itself), following parent ids. */
  function Ancestor(units: map<string, Unit>, k: string, j: nat): (r: Option<string>)
    ensures j == 0 ==> r == Some(k)
    ensures j > 0 && (k !in units || units[k].parentId.None?) ==> r.None?
    decreases j
  {
    if j == 0 then Some(k)
    else if k in units && units[k].parentId.Some? then Ancestor(units, units[k].parentId.value, j - 1)
    else None
  }

  /** Following parents from `k` reaches a stored parentless unit within `n` steps. */
  ghost predicate ReachesRoot(units: map<string, Unit>, k: string, n: nat)
    decreases n
  {
    && k in units
    && (units[k].parentId.None?
        || (n > 0 && ReachesRoot(units, units[k].parentId.value, n - 1)))
  }

  lemma {:induction false} AncestorCompose(units: map<string, Unit>, k: string, a: nat, b: nat)
    ensures Ancestor(units, k, a + b)
      == (match Ancestor(units, k, a)
          case None => None
          case Some(x) => Ancestor(units, x, b))
    decreases a
  {
    if a > 0 && k in units && units[k].parentId.Some? {
      AncestorCompose(units, units[k].parentId.value, a - 1, b);
    }
  }

  lemma {:induction false} ReachesRootBoundsAncestors(units: map<string, Unit>, k: string, n: nat, j: nat)
    requires ReachesRoot(units, k, n)
    requires j > n
    ensures Ancestor(units, k, j).None?
    decreases n
  {
    if units[k].parentId.Some? {
      ReachesRootBoundsAncestors(units, units[k].parentId.value, n - 1, j - 1);
    }
  }

  lemma {:induction false} CycleRepeats(units: map<string, Unit>, k: string, j: nat, t: nat)
    requires Ancestor(units, k, j) == Some(k)
    ensures Ancestor(units, k, j * t) == Some(k)
    decreases t
  {
    if t > 0 {
      CycleRepeats(units, k, j, t - 1);
      assert j * t == j * (t - 1) + j;
      AncestorCompose(units, k, j * (t - 1), j);
    }
  }

  /**
   * A key that reaches a root by following parents is on no cycle: none of
   * its proper ancestors is itself.
   */
  lemma ReachesRootIsAcyclic(units: map<string, Unit>, k: string, n: nat, j: nat)
    requires ReachesRoot(units, k, n)
    requires j >= 1
    ensures Ancestor(units, k, j) != Some(k)
  {
    if Ancestor(units, k, j) == Some(k) {
      CycleRepeats(units, k, j, n + 1);
      assert j * (n + 1) >= n + 1 by {
        assert j * (n + 1) == (j - 1) * (n + 1) + (n + 1);
      }
      ReachesRootBoundsAncestors(units, k, n, j * (n + 1));
      assert false;
    }
  }
}
