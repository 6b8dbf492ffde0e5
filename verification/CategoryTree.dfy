/**
 The category table: parent pointers plus a redundant, materialized `path` string.
 This module says what the cached path means in terms of the tree.
 */
module CategoryTree {
  import opened Common

  /** Ids are UUIDs: non-empty, and without '/' or a character special to LIKE. */
  predicate IsId(s: string) {
    s != "" && PlainText(s) && '/' !in s
  }

  predicate PlainText(s: string) {
    '%' !in s && '_' !in s && '\\' !in s
  }

  type Id = s: string | IsId(s) witness "0"

  datatype Category = Category(
    name: string, slug: string, parent: Option<Id>, path: string, sortOrder: nat, isActive: bool)

  type Table = map<Id, Category>

  ghost predicate ParentsExist(t: Table) {
    forall c {:trigger t[c].parent} :: c in t && t[c].parent.Some? ==> t[c].parent.value in t
  }

  function PathUnder(t: Table, parent: Option<Id>): string
    requires parent.Some? ==> parent.value in t
  {
    if parent.Some? then t[parent.value].path else "/"
  }

  function PathFor(t: Table, parent: Option<Id>, id: Id): string
    requires parent.Some? ==> parent.value in t
  {
    PathUnder(t, parent) + id + "/"
  }

  ghost predicate SlugsUnique(t: Table) {
    forall c, d {:trigger t[c].slug, t[d].slug} :: c in t && d in t && c != d ==> t[c].slug != t[d].slug
  }

  ghost predicate PathAgrees(t: Table, c: Id)
    requires ParentsExist(t) && c in t
  {
    t[c].path == PathFor(t, t[c].parent, c)
  }

  /** The table invariant: foreign keys resolve, cached paths agree with the tree, slugs are unique. */
  ghost predicate Valid(t: Table) {
    && ParentsExist(t)
    && (forall c {:trigger PathAgrees(t, c)} :: c in t ==> PathAgrees(t, c))
    && SlugsUnique(t)
  }

  /** The category reached from `c` by following `n` parent pointers. */
  ghost function Up(t: Table, c: Id, n: nat): Option<Id>
    requires ParentsExist(t) && c in t
    decreases n
  {
    if n == 0 then Some(c)
    else if t[c].parent.None? then None
    else Up(t, t[c].parent.value, n - 1)
  }

  /** `y` lies in the subtree rooted at `x`. */
  ghost predicate Descends(t: Table, y: Id, x: Id)
    requires ParentsExist(t) && y in t
  {
    exists n: nat :: Up(t, y, n) == Some(x)
  }

  lemma DescendsUnfold(t: Table, y: Id, x: Id)
    requires ParentsExist(t) && y in t
    ensures Descends(t, y, x) <==>
            (y == x || (t[y].parent.Some? && Descends(t, t[y].parent.value, x)))
  {
    if Descends(t, y, x) && y != x {
      var n: nat :| Up(t, y, n) == Some(x);
      assert Up(t, t[y].parent.value, n - 1) == Some(x);
    }
    if y == x {
      assert Up(t, y, 0) == Some(x);
    }
    if t[y].parent.Some? && Descends(t, t[y].parent.value, x) {
      var n: nat :| Up(t, t[y].parent.value, n) == Some(x);
      assert Up(t, y, n + 1) == Some(x);
    }
  }

  lemma {:induction false} UpStaysInside(t: Table, y: Id, n: nat)
    requires ParentsExist(t) && y in t && Up(t, y, n).Some?
    ensures Up(t, y, n).value in t
    decreases n
  {
    if n == 0 {
    } else {
      UpStaysInside(t, t[y].parent.value, n - 1);
    }
  }

  /** Path length is a depth measure: every parent step makes it smaller by at least two. */
  lemma {:induction false} PathLengthMeasuresDepth(t: Table, y: Id, n: nat)
    requires Valid(t) && y in t && Up(t, y, n).Some?
    ensures Up(t, y, n).value in t && |t[Up(t, y, n).value].path| + 2 * n <= |t[y].path|
    decreases n
  {
    UpStaysInside(t, y, n);
    assert PathAgrees(t, y);
    if n == 0 {
    } else {
      PathLengthMeasuresDepth(t, t[y].parent.value, n - 1);
    }
  }

  /** The parent relation has no cycle. */
  lemma Acyclic(t: Table, y: Id, n: nat)
    requires Valid(t) && y in t && n > 0
    ensures Up(t, y, n) != Some(y)
  {
    if Up(t, y, n) == Some(y) {
      PathLengthMeasuresDepth(t, y, n);
    }
  }

  /** Every category hangs below a root: its chain of parents ends. */
  lemma {:induction false} EveryChainEnds(t: Table, y: Id) returns (root: Id)
    requires Valid(t) && y in t
    ensures root in t && t[root].parent.None? && Descends(t, y, root)
    decreases |t[y].path|
  {
    DescendsUnfold(t, y, y);
    if t[y].parent.None? {
      root := y;
    } else {
      assert PathAgrees(t, y);
      root := EveryChainEnds(t, t[y].parent.value);
      DescendsUnfold(t, y, root);
    }
  }

  /** A path that ends in '/' and is a proper prefix of `base + id + "/"` already is a prefix of `base`. */
  lemma PrefixStopsAtSegment(p: string, base: string, id: Id)
    requires p != "" && p[|p| - 1] == '/'
    requires p <= base + id + "/" && p != base + id + "/"
    ensures p <= base
  {
  }

  lemma LastSegmentIsId(base1: string, id1: Id, base2: string, id2: Id)
    requires base1 + id1 + "/" == base2 + id2 + "/"
    requires base1 != "" && base1[|base1| - 1] == '/' && base2 != "" && base2[|base2| - 1] == '/'
    ensures base1 == base2 && id1 == id2
  {
    var whole := base1 + id1 + "/";
    assert forall i :: |base1| <= i < |base1| + |id1| ==> whole[i] == id1[i - |base1|];
    assert forall i :: |base2| <= i < |base2| + |id2| ==> whole[i] == id2[i - |base2|];
    assert base1 == whole[..|base1|] && id1 == whole[|base1|..|whole| - 1];
    assert id2 == whole[|base2|..|whole| - 1];
  }

  lemma PathEndsInSlash(t: Table, parent: Option<Id>)
    requires Valid(t) && (parent.Some? ==> parent.value in t)
    ensures PathUnder(t, parent) != "" && PathUnder(t, parent)[|PathUnder(t, parent)| - 1] == '/'
  {
    if parent.Some? {
      assert PathAgrees(t, parent.value);
    }
  }

  /** Main fact about materialized paths: the string prefix test is exactly the ancestor test. */
  lemma {:induction false} PrefixIsAncestry(t: Table, x: Id, y: Id)
    requires Valid(t) && x in t && y in t
    ensures t[x].path <= t[y].path <==> Descends(t, y, x)
    decreases |t[y].path|
  {
    var px, py := PathUnder(t, t[x].parent), PathUnder(t, t[y].parent);
    PathEndsInSlash(t, t[x].parent);
    PathEndsInSlash(t, t[y].parent);
    DescendsUnfold(t, y, x);
    assert PathAgrees(t, x) && PathAgrees(t, y);
    if t[x].path == t[y].path {
      LastSegmentIsId(px, x, py, y);
    } else {
      if t[x].path <= t[y].path {
        PrefixStopsAtSegment(t[x].path, py, y);
      }
      if t[y].parent.Some? {
        PrefixIsAncestry(t, x, t[y].parent.value);
        assert t[t[y].parent.value].path == py;
        assert py <= t[y].path;
      }
    }
  }

  /** Two categories never share a path. */
  lemma PathsDistinct(t: Table, x: Id, y: Id)
    requires Valid(t) && x in t && y in t && t[x].path == t[y].path
    ensures x == y
  {
    PathEndsInSlash(t, t[x].parent);
    PathEndsInSlash(t, t[y].parent);
    assert PathAgrees(t, x) && PathAgrees(t, y);
    LastSegmentIsId(PathUnder(t, t[x].parent), x, PathUnder(t, t[y].parent), y);
  }
}
