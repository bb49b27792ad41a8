# Collaborative text adventure: reader navigation and seed story tree

This project models, in Dafny, the reader side of a community-written
branching text adventure. Story units form a tree: each unit has an id, an
optional parent id (none marks the root), a choice text and a story text.

- **Game component** (`src/components/game.rs`). The reader's *path* is a
  list of unit ids, and the component updates it in place. Loading the
  adventure and "restart" set the path to the root's id, but only when a root
  exists. Choosing an option appends the option's id. Clicking a sidebar entry
  truncates the path with `Vec::truncate(index + 1)`. The views are computed
  from the state:
  - the current unit: a lookup of the last id;
  - the options: the children of the last id;
  - the sidebar items: a lookup of every id, where a missing unit becomes
    `None` instead of being dropped;
  - the highlighted sidebar entry: `i == len.saturating_sub(1)`.

  When the current unit has no children, a contribute form appears. It builds
  a new unit with id `user_<milliseconds>`, the current unit as its parent,
  and the entered texts.
- **Seed data** (`src/seed_data.rs`). Five literal rows are collected into a
  map keyed by id. The lemmas prove that this map is a well-formed tree:
  - exactly five entries;
  - every key equals its unit's id;
  - `"root"` is the only unit without a parent;
  - no parent id dangles;
  - every unit reaches the root within two parent steps, so the tree has no
    cycle;
  - the children of `"root"` and of `"torch_passage"` are exactly the
    expected ones.

`crate::api` (not shown), which the game component imports, is not part of
this model. `Adventure`, with its `get`, `root` and `children`, follows
the type of the same name in `cta frontend/src/api.rs`: a hash map of units.
There, `root()` returns the first parentless value in iteration order, and
`children(p)` filters the values whose parent is `p`.

A hash map's iteration order is unspecified. The model therefore carries it
as an explicit `order` (a duplicate-free list of exactly the keys). Every
contract about `Root` and `Children` holds for every such order, so no child
order is assumed.

Files:
- `wrappers.dfy`: `Option`, `Result`.
- `units.dfy`: the story unit.
- `adventure.dfy`: the adventure store, plus the parent-chain (ancestor)
  vocabulary.
- `path_state.dfy`: truncation, saturating subtraction and walks.
- `game.dfy`: the `Game` class.
- `contribute.dfy`: the unit that the contribute form builds.
- `seed_data.dfy`: the seed tree.

Behaviour of the code worth noting:
- Restart leaves the path untouched when the adventure has no root. It does
  not empty the path (src/components/game.rs:59-63).
- Reverting to an index past the end leaves the path unchanged. It is not an
  error (src/components/game.rs:55-57).
- Choosing does not check that the chosen unit is a child of the current one
  (src/components/game.rs:51-53). The "path is a walk down the tree"
  invariant (`IsWalk`) is therefore proved only for choices taken from
  `Options()` in an adventure whose units are stored under their own ids.

## Model

| member | source | states |
|---|---|---|
| `Adventures.EmptyIsValid` | src/components/game.rs:8 | The default adventure the component starts with is empty, valid and keyed by id |
| `Adventures.Get` | src/components/game.rs:34 | Lookup yields a unit exactly when the key is stored, and then the stored unit |
| `Adventures.FindParentless` | src/components/game.rs:18-19 | Scanning keys finds nothing iff every scanned unit has a parent; a found unit is stored and parentless |
| `Adventures.Root` | src/components/game.rs:18-19 | `root()` is None iff every stored unit has a parent; otherwise it is a stored parentless unit, for any iteration order |
| `Adventures.ChildrenOf` | src/components/game.rs:39-41 | Filtering keeps only stored units whose parent is `p`, and keeps every scanned unit whose parent is `p` |
| `Adventures.Children` | src/components/game.rs:39-41 | `children(p)` contains a unit iff the unit is stored and its parent is `p`, for any iteration order |
| `Adventures.ChildrenOfCount` | src/components/game.rs:39-41 | Over distinct keys, the filtered list has one entry per key whose unit has parent `p` |
| `Adventures.ChildrenCount` | src/components/game.rs:39-41 | `children(p)` has exactly as many entries as there are stored keys with parent `p`: no child is lost or repeated |
| `Adventures.Ancestor` | src/seed_data.rs:8-12 | The 0th ancestor is the key itself; a missing or parentless key has no proper ancestor |
| `Adventures.AncestorCompose` | src/seed_data.rs:8-12 | Going up `a + b` parent steps is going up `a` steps and then `b` steps |
| `Adventures.ReachesRootBoundsAncestors` | src/seed_data.rs:8-12 | A key that reaches a parentless unit within `n` steps has no ancestor beyond `n` steps |
| `Adventures.CycleRepeats` | src/seed_data.rs:8-12 | A key that is its own `j`-th ancestor is also its own `j*t`-th ancestor |
| `Adventures.ReachesRootIsAcyclic` | src/seed_data.rs:8-12 | A key that reaches a root by following parents is never its own proper ancestor |
| `PathState.Truncate` | src/components/game.rs:55-57 | `Vec::truncate(len)`: the result is the prefix of length min(len, old length) |
| `PathState.TruncateIdempotent` | src/components/game.rs:55-57 | Reverting twice to the same entry is the same as reverting once |
| `PathState.TruncateAfterIndex` | src/components/game.rs:55-57 | For an index inside the path, reverting keeps entries 0..index, so entry `index` becomes the last |
| `PathState.SaturatingSub` | src/components/game.rs:75 | `usize::saturating_sub`: exact difference when it is non-negative, otherwise 0 |
| `PathState.ExactlyOneCurrent` | src/components/game.rs:75 | For a non-empty path, the set of highlighted sidebar indices is exactly {len - 1} |
| `PathState.TruncateKeepsWalk` | src/components/game.rs:55-57 | Truncating a walk down the tree leaves a walk |
| `PathState.ChooseChildKeepsWalk` | src/components/game.rs:51-53 | Appending the id of a child of the last unit to a walk leaves a walk, in an adventure keyed by id |
| `GameComponent.RestartedPath` | src/components/game.rs:59-63 | With a parentless unit stored, the path becomes a single id naming a stored parentless unit; with none, the path is unchanged |
| `GameComponent.RestartIdempotent` | src/components/game.rs:59-63 | Restarting twice is the same as restarting once |
| `GameComponent.RestartMakesWalk` | src/components/game.rs:18-20 | Loading or restarting an adventure that has a root and is keyed by id puts the reader on a one-unit walk |
| `GameComponent.Game.constructor` | src/components/game.rs:8-9 | The component starts with the default adventure and an empty path |
| `GameComponent.Game.Load` | src/components/game.rs:16-27 | A successful fetch sets the path by the restart rule and replaces the adventure; a failed fetch changes neither |
| `GameComponent.Game.Choose` | src/components/game.rs:51-53 | Choosing appends exactly the unit's id: the length grows by one and the old path is a prefix. A chosen option becomes the current unit, and a walk stays a walk |
| `GameComponent.Game.RevertTo` | src/components/game.rs:55-57 | The path becomes its prefix of `index + 1` entries and stays unchanged when it is no longer; entry `index` becomes the last; a walk stays a walk |
| `GameComponent.Game.Restart` | src/components/game.rs:59-63 | The path follows the restart rule and the adventure is unchanged |
| `GameComponent.Game.Current` | src/components/game.rs:33-35 | None iff the path is empty or its last id is not stored; otherwise the unit stored under the last id |
| `GameComponent.Game.Options` | src/components/game.rs:38-42 | Empty for an empty path; otherwise a unit is offered iff it is stored and its parent is the last id |
| `GameComponent.Game.PathItems` | src/components/game.rs:45-49 | One item per path entry: the stored unit, or None for a missing id, which is kept and not dropped |
| `GameComponent.Game.IsCurrent` | src/components/game.rs:75 | For a non-empty path, exactly the last index is highlighted; for an empty path, index 0 |
| `GameComponent.Game.ContributeOffered` | src/components/game.rs:116-118 | The form is shown iff the last id names a stored unit and no stored unit has that id as its parent |
| `GameComponent.Game.Contribution` | src/components/game.rs:157-162 | A unit is built only when the form is shown; its parent is the current unit's id and it carries the entered choice and story texts |
| `Contribute.DigitChar` | src/components/game.rs:158 | A digit below ten becomes the character with that digit value |
| `Contribute.Decimal` | src/components/game.rs:158 | `{}` formatting of an unsigned number: non-empty, digits only, no leading zero except for 0 itself |
| `Contribute.DecimalRoundTrip` | src/components/game.rs:158 | Reading the formatted digits back gives the original number |
| `Contribute.NewUnit` | src/components/game.rs:157-162 | The new unit has the given parent and texts; its id is `user_` followed by digits that denote the clock reading |
| `Contribute.NewUnitIdsDiffer` | src/components/game.rs:158 | Submissions at different clock readings get different ids |
| `SeedData.ToUnit` | src/seed_data.rs:15-21 | A row becomes a unit with the row's id, parent, choice and story text |
| `SeedData.Collect` | src/seed_data.rs:14-23 | The collected map's keys are exactly the row ids, and every key equals its unit's id |
| `SeedData.CollectStoresRow` | src/seed_data.rs:14-23 | With distinct ids, every row is stored unchanged under its id |
| `SeedData.CollectSize` | src/seed_data.rs:14-23 | With distinct ids, the map has one entry per row |
| `SeedData.Seed` | src/seed_data.rs:6-24 | The seed map stores every unit under its own id |
| `SeedData.SeedIdsDistinct` | src/seed_data.rs:8-12 | The five literal ids are pairwise distinct |
| `SeedData.SeedContents` | src/seed_data.rs:7-23 | The seed keys are the five literal ids, and each stores its literal row |
| `SeedData.SeedParents` | src/seed_data.rs:8-12 | The parent of each of the five seed units |
| `SeedData.SeedSize` | src/seed_data.rs:7-13 | The seed map has exactly five entries |
| `SeedData.SeedSingleRoot` | src/seed_data.rs:8-12 | A seed unit has no parent iff its key is `"root"` |
| `SeedData.SeedNoDanglingParent` | src/seed_data.rs:9-12 | Every parent id in the seed names a stored unit |
| `SeedData.SeedAcyclic` | src/seed_data.rs:8-12 | Every seed unit reaches the root within two parent steps, and none is its own proper ancestor |
| `SeedData.SeedRootChildKeys` | src/seed_data.rs:9-11 | The seed keys whose parent is `"root"` are exactly `torch_passage`, `search_chamber` and `call_out` |
| `SeedData.SeedTorchChildKeys` | src/seed_data.rs:12 | `deep_passage` is the only seed key whose parent is `"torch_passage"` |
| `SeedData.SeedRootChildren` | src/seed_data.rs:9-11 | For any iteration order, `children("root")` has exactly three entries, whose ids are `torch_passage`, `search_chamber` and `call_out` |
| `SeedData.SeedTorchChildren` | src/seed_data.rs:12 | For any iteration order, `children("torch_passage")` is exactly the one unit `deep_passage` |
| `SeedData.SeedRestartsAtRoot` | src/components/game.rs:18-20 | Loading or restarting on the seed adventure sets the path to `["root"]`, for any iteration order |

## Left out

- View markup: the Leptos markup, `<Show>`/`<For>` rendering, CSS classes, and the sidebar's skipping of `None` items when it draws them. These are presentation only.
- Reactivity: the signal/Effect system. Signals become plain fields of `Game`, and each closure becomes a function over those fields.
- The async `fetch_adventure` call and the `loading` and `error` flags. The fetch result is a parameter of `Game.Load`. On failure, only those flags change, so the model's state stays as it was.
- The clock: `js_sys::Date::now()` and its float-to-`u64` cast. The clock reading arrives as a `u64` parameter.
- `log::info!` and the form's `submitting` flag. The form builds a unit and submits nothing, so no store changes.
- `GameComponent.Game.RevertTo`: does not model the `usize` overflow of `index + 1` at `usize::MAX`. The index is a natural number, and the sidebar only passes indices below the path length.
- `Adventures.Root`: does not say which parentless unit is returned when there are several. The hash map's iteration order decides, and that order is a parameter of the model.
- The wire message type `ServerMessage` and its serde derives. This is serialization done by a library.
- Descendant counting, node deletion and its authorization, session-based authorship, the backend store and the language-model proxy. None of these appear in the game component or the seed data.
