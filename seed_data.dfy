/**
 * The seed adventure: a literal list of (id, parent id, choice text, story
 * text) rows collected into a map keyed by id, and the facts that make it a
 * well-formed story tree.
 */
module SeedData {
  import opened Wrappers
  import opened Units
  import opened Adventures
  import opened GameComponent

  type SeedRow = (string, Option<string>, string, string)

  function ToUnit(row: SeedRow): (u: Unit)
    ensures u.id == row.0 && u.parentId == row.1
    ensures u.choiceText == row.2 && u.storyText == row.3
  {
    Unit(row.0, row.1, row.2, row.3)
  }

  /**
   * Collecting (key, unit) pairs into a hash map: each row inserts under its
   * own id, a later row replacing an earlier one with the same id.
   */
  function Collect(rows: seq<SeedRow>): (m: map<string, Unit>)
    ensures m.Keys == set i | 0 <= i < |rows| :: rows[i].0
    ensures KeyedById(m)
    decreases |rows|
  {
    if rows == [] then map[]
    else
      var row := rows[|rows| - 1];
      var prefix := rows[..|rows| - 1];
      var m := Collect(prefix)[row.0 := ToUnit(row)];
      assert (set i | 0 <= i < |rows| :: rows[i].0)
        == (set i | 0 <= i < |prefix| :: prefix[i].0) + {row.0} by {
        forall i | 0 <= i < |prefix| ensures prefix[i] == rows[i] { }
      }
      m
  }

  ghost predicate DistinctIds(rows: seq<SeedRow>) {
    forall i, j :: 0 <= i < j < |rows| ==> rows[i].0 != rows[j].0
  }

  /** With distinct ids, every row is stored under its id unchanged. */
  lemma {:induction false} CollectStoresRow(rows: seq<SeedRow>, i: nat)
    requires DistinctIds(rows)
    requires i < |rows|
    ensures rows[i].0 in Collect(rows)
    ensures Collect(rows)[rows[i].0] == ToUnit(rows[i])
    decreases |rows|
  {
    var prefix := rows[..|rows| - 1];
    if i < |rows| - 1 {
      assert prefix[i] == rows[i];
      assert DistinctIds(prefix);
      CollectStoresRow(prefix, i);
    }
  }

  /** With distinct ids, collecting loses no row. */
  lemma {:induction false} CollectSize(rows: seq<SeedRow>)
    requires DistinctIds(rows)
    ensures |Collect(rows)| == |rows|
    decreases |rows|
  {
    if rows != [] {
      var prefix := rows[..|rows| - 1];
      var last := rows[|rows| - 1];
      assert DistinctIds(prefix);
      CollectSize(prefix);
      assert last.0 !in Collect(prefix);
    }
  }

  const RootText: string := "This is a branching text adventure. Click on one of the options to read it and see its branching paths, or contribute one of your own at any point."
  const TorchChoice: string := "Take the torch and explore the dark passage ahead"
  const TorchText: string := "You grab the torch from its sconce. The warmth is comforting against the chill. The passage ahead slopes downward, and you can hear the faint sound of dripping water echoing from somewhere deeper within."
  const SearchChoice: string := "Search the chamber for clues about your identity"
  const SearchText: string := "You run your hands along the rough stone walls, searching for anything that might explain your situation. In a corner, your fingers brush against something metallic - a small iron key, covered in cobwebs. Near it lies a torn piece of parchment with faded writing."
  const CallChoice: string := "Call out into the darkness"
  const CallText: string := "\"Hello?\" your voice echoes through the chamber, bouncing off unseen walls in the darkness. For a moment, silence. Then... footsteps. Slow, deliberate footsteps approaching from the passage ahead. A raspy voice calls back: \"Another one awakens...\""
  const DeepChoice: string := "Continue deeper into the passage"
  const DeepText: string := "The passage opens into a vast underground cavern. Your torchlight barely reaches the ceiling high above. In the center, an ancient stone altar stands, covered in strange symbols that seem to glow faintly. Three corridors branch off in different directions."

  /** The literal seed rows, in source order. */
  const SeedRows: seq<SeedRow> := [
    ("root", None, "Root", RootText),
    ("torch_passage", Some("root"), TorchChoice, TorchText),
    ("search_chamber", Some("root"), SearchChoice, SearchText),
    ("call_out", Some("root"), CallChoice, CallText),
    ("deep_passage", Some("torch_passage"), DeepChoice, DeepText)
  ]

  /** `get_seed_data`: the seed rows keyed by id. */
  function Seed(): (m: map<string, Unit>)
    ensures KeyedById(m)
  {
    Collect(SeedRows)
  }

  lemma SeedIdsDistinct()
    ensures DistinctIds(SeedRows)
  {
  }

  /** The seed keys and the unit stored under each. */
  lemma SeedContents()
    ensures Seed().Keys == {"root", "torch_passage", "search_chamber", "call_out", "deep_passage"}
    ensures Seed()["root"] == Unit("root", None, "Root", RootText)
    ensures Seed()["torch_passage"] == Unit("torch_passage", Some("root"), TorchChoice, TorchText)
    ensures Seed()["search_chamber"] == Unit("search_chamber", Some("root"), SearchChoice, SearchText)
    ensures Seed()["call_out"] == Unit("call_out", Some("root"), CallChoice, CallText)
    ensures Seed()["deep_passage"] == Unit("deep_passage", Some("torch_passage"), DeepChoice, DeepText)
  {
    SeedIdsDistinct();
    CollectStoresRow(SeedRows, 0);
    CollectStoresRow(SeedRows, 1);
    CollectStoresRow(SeedRows, 2);
    CollectStoresRow(SeedRows, 3);
    CollectStoresRow(SeedRows, 4);
    assert Seed().Keys == {"root", "torch_passage", "search_chamber", "call_out", "deep_passage"} by {
      assert forall i :: 0 <= i < |SeedRows| ==> SeedRows[i].0 in {"root", "torch_passage", "search_chamber", "call_out", "deep_passage"};
      assert SeedRows[0].0 == "root" && SeedRows[1].0 == "torch_passage" && SeedRows[2].0 == "search_chamber";
      assert SeedRows[3].0 == "call_out" && SeedRows[4].0 == "deep_passage";
    }
  }

  /** The seed keys and the parent of each. */
  lemma SeedParents()
    ensures Seed().Keys == {"root", "torch_passage", "search_chamber", "call_out", "deep_passage"}
    ensures Seed()["root"].parentId == None
    ensures Seed()["torch_passage"].parentId == Some("root")
    ensures Seed()["search_chamber"].parentId == Some("root")
    ensures Seed()["call_out"].parentId == Some("root")
    ensures Seed()["deep_passage"].parentId == Some("torch_passage")
  {
    SeedContents();
  }

  /** The seed map has exactly five entries. */
  lemma SeedSize()
    ensures |Seed()| == 5
  {
    SeedIdsDistinct();
    CollectSize(SeedRows);
  }

  /** `"root"` is the one and only unit without a parent. */
  lemma SeedSingleRoot()
    ensures forall k :: k in Seed() ==> (Seed()[k].parentId.None? <==> k == "root")
  {
    SeedParents();
  }

  /** Every parent id names a unit in the seed. */
  lemma SeedNoDanglingParent()
    ensures forall k :: k in Seed() && Seed()[k].parentId.Some? ==> Seed()[k].parentId.value in Seed()
  {
    SeedParents();
  }

  /** Every unit reaches the root within two parent steps, so no unit is its own ancestor. */
  lemma SeedAcyclic()
    ensures forall k :: k in Seed() ==> ReachesRoot(Seed(), k, 2)
    ensures forall k, j: nat :: k in Seed() && j >= 1 ==> Ancestor(Seed(), k, j) != Some(k)
  {
    SeedParents();
    var m := Seed();
    assert ReachesRoot(m, "root", 0);
    assert ReachesRoot(m, "torch_passage", 1);
    assert ReachesRoot(m, "deep_passage", 2);
    forall k, j: nat | k in m && j >= 1 ensures Ancestor(m, k, j) != Some(k) {
      ReachesRootIsAcyclic(m, k, 2, j);
    }
  }

  /** The seed keys whose unit has `"root"` as parent. */
  lemma SeedRootChildKeys()
    ensures (set k | k in Seed() && Seed()[k].parentId == Some("root"))
      == {"torch_passage", "search_chamber", "call_out"}
  {
    SeedParents();
  }

  /**
   * In the seed adventure, whatever the hash map's iteration order, the
   * children of `"root"` are exactly the three first choices.
   */
  lemma SeedRootChildren(order: seq<string>)
    requires Adventure(Seed(), order).Valid()
    ensures (set u | u in Children(Adventure(Seed(), order), "root") :: u.id)
      == {"torch_passage", "search_chamber", "call_out"}
    ensures |Children(Adventure(Seed(), order), "root")| == 3
  {
    SeedParents();
    var m := Seed();
    var kids := Children(Adventure(m, order), "root");
    ChildrenCount(Adventure(m, order), "root");
    SeedRootChildKeys();
    assert m["torch_passage"] in kids;
    assert m["search_chamber"] in kids;
    assert m["call_out"] in kids;
  }

  /** The seed keys whose unit has `"torch_passage"` as parent. */
  lemma SeedTorchChildKeys()
    ensures "deep_passage" in Seed() && Seed()["deep_passage"].parentId == Some("torch_passage")
    ensures (set k | k in Seed() && Seed()[k].parentId == Some("torch_passage")) == {"deep_passage"}
  {
    SeedParents();
  }

  /**
   * In the seed adventure, whatever the hash map's iteration order,
   * `"deep_passage"` is the only child of `"torch_passage"`.
   */
  lemma SeedTorchChildren(order: seq<string>)
    requires Adventure(Seed(), order).Valid()
    ensures Children(Adventure(Seed(), order), "torch_passage") == [Seed()["deep_passage"]]
  {
    var m := Seed();
    var adv := Adventure(m, order);
    var kids := Children(adv, "torch_passage");
    ChildrenCount(adv, "torch_passage");
    SeedTorchChildKeys();
    assert "deep_passage" in m && m["deep_passage"].parentId == Some("torch_passage");
    assert m["deep_passage"] in kids;
  }


  /** Loading or restarting on the seed adventure puts the reader at `"root"`. */
  lemma SeedRestartsAtRoot(order: seq<string>, path: seq<string>)
    requires Adventure(Seed(), order).Valid()
    ensures RestartedPath(Adventure(Seed(), order), path) == ["root"]
  {
    SeedParents();
    SeedSingleRoot();
    var r := RestartedPath(Adventure(Seed(), order), path);
    assert "root" in Seed();
    var k :| k in Seed() && Seed()[k].id == r[0] && Seed()[k].parentId.None?;
  }
}
