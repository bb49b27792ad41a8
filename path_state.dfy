/**
 * The reader's path through the story: a sequence of unit ids from the
 * starting unit to the current one. This module holds the pure vocabulary the
 * game's path transitions are specified with: `Vec::truncate`, `usize`
 * saturating subtraction, and what it means for a path to be a walk down the
 * story tree.
 */
module PathState {
  import opened Wrappers
  import opened Units
  import opened Adventures

  function Last(path: seq<string>): string
    requires path != []
  {
    path[|path| - 1]
  }

  /**
   * `Vec::truncate(len)`: keeps the first `len` elements, and leaves the
   * vector alone when it is no longer than `len`.
   */
  function Truncate<T>(s: seq<T>, len: nat): (r: seq<T>)
    ensures |r| == if len < |s| then len else |s|
    ensures r == s[..|r|]
  {
    if len < |s| then s[..len] else s
  }

  /** Truncating twice to the same length is the same as truncating once. */
  lemma TruncateIdempotent<T>(s: seq<T>, len: nat)
    ensures Truncate(Truncate(s, len), len) == Truncate(s, len)
  {
  }

  /** Reverting to the entry at `index` makes that entry the last one. */
  lemma TruncateAfterIndex<T>(s: seq<T>, index: nat)
    requires index < |s|
    ensures |Truncate(s, index + 1)| == index + 1
    ensures Truncate(s, index + 1)[index] == s[index]
    ensures forall i :: 0 <= i <= index ==> Truncate(s, index + 1)[i] == s[i]
  {
  }

  /** `usize::saturating_sub`: never goes below zero. */
  function SaturatingSub(a: nat, b: nat): (r: nat)
    ensures a >= b ==> r + b == a
    ensures a < b ==> r == 0
  {
    if a >= b then a - b else 0
  }

  /** The sidebar entry `i` of a path of length `len` is highlighted. */
  predicate IsCurrentIndex(len: nat, i: nat) {
    i == SaturatingSub(len, 1)
  }

  /**
   * For a non-empty path exactly one sidebar entry, the last one, is
   * highlighted.
   */
  lemma ExactlyOneCurrent(len: nat)
    requires len > 0
    ensures (set i: nat | i < len && IsCurrentIndex(len, i)) == {len - 1}
  {
  }

  /**
   * `path` is a walk down the story tree: it starts at a parentless unit and
   * every id after the first names a stored child of the id before it.
   */
  ghost predicate IsWalk(adv: Adventure, path: seq<string>) {
    && (forall i :: 0 <= i < |path| ==> path[i] in adv.units)
    && (forall i :: 0 < i < |path| ==> adv.units[path[i]].parentId == Some(path[i - 1]))
    && (path != [] ==> adv.units[path[0]].parentId.None?)
  }

  /** Cutting a walk short leaves a walk. */
  lemma TruncateKeepsWalk(adv: Adventure, path: seq<string>, len: nat)
    requires IsWalk(adv, path)
    ensures IsWalk(adv, Truncate(path, len))
  {
  }

  /** Extending a walk by a child of its last unit leaves a walk. */
  lemma ChooseChildKeepsWalk(adv: Adventure, path: seq<string>, u: Unit)
    requires adv.Valid() && KeyedById(adv.units)
    requires IsWalk(adv, path) && path != []
    requires u in Children(adv, Last(path))
    ensures IsWalk(adv, path + [u.id])
  {
  }
}
