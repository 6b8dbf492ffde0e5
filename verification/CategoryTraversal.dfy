/** The structure findTree builds is a forest that shows every category exactly once. */
module CategoryTraversal {
  import opened Common
  import opened Sorting
  import opened CategoryTree
  import opened CategoryForest

  /** `listing` shows the table's rows, each once, in any order. */
  ghost predicate Lists(listing: seq<Listed>, t: Table) {
    && IdsDistinct(listing)
    && (forall r :: r in listing ==> r.id in t && t[r.id] == r.category)
    && forall c :: c in t ==> Listed(c, t[c]) in listing
  }

  lemma {:induction false} IdsUnderAreChildren(listing: seq<Listed>, t: Table, parent: Option<Id>)
    requires IdsDistinct(listing) && forall r :: r in listing ==> r.id in t && t[r.id] == r.category
    ensures var ids := IdsUnder(listing, parent);
            && Distinct(ids)
            && forall c :: c in ids <==> c in t && t[c].parent == parent && Listed(c, t[c]) in listing
  {
    if listing == [] {
    } else {
      var init, last := listing[..|listing| - 1], listing[|listing| - 1];
      assert listing == init + [last];
      IdsUnderAreChildren(init, t, parent);
    }
  }

  lemma ChildrenAreDeeper(t: Table, listing: seq<Listed>, x: Id)
    requires Valid(t) && Lists(listing, t) && x in t
    ensures forall c :: c in IdsUnder(listing, Some(x)) ==> c in t && |t[x].path| < |t[c].path|
  {
    IdsUnderAreChildren(listing, t, Some(x));
    forall c | c in IdsUnder(listing, Some(x))
      ensures |t[x].path| < |t[c].path|
    {
      assert PathAgrees(t, c);
    }
  }

  /** How many of `ids` have `y` in their subtree. */
  ghost function Covering(t: Table, ids: seq<Id>, y: Id): nat
    requires ParentsExist(t) && y in t
  {
    if ids == [] then 0
    else (if Descends(t, y, ids[0]) then 1 else 0) + Covering(t, ids[1..], y)
  }

  lemma DescendsTransitive(t: Table, y: Id, c: Id, x: Id)
    requires Valid(t) && y in t && c in t && x in t && Descends(t, y, c) && Descends(t, c, x)
    ensures Descends(t, y, x)
  {
    PrefixIsAncestry(t, c, y);
    PrefixIsAncestry(t, x, c);
    PrefixIsAncestry(t, x, y);
  }

  /** Different siblings have no descendant in common. */
  lemma SiblingsDisjoint(t: Table, c: Id, d: Id, y: Id)
    requires Valid(t) && c in t && d in t && y in t && t[c].parent == t[d].parent
    requires Descends(t, y, c) && Descends(t, y, d)
    ensures c == d
  {
    PrefixIsAncestry(t, c, y);
    PrefixIsAncestry(t, d, y);
    if |t[c].path| <= |t[d].path| {
      assert t[c].path <= t[d].path;
      SiblingsNotNested(t, c, d);
    } else {
      assert t[d].path <= t[c].path;
      SiblingsNotNested(t, d, c);
    }
  }

  lemma SiblingsNotNested(t: Table, c: Id, d: Id)
    requires Valid(t) && c in t && d in t && t[c].parent == t[d].parent && t[c].path <= t[d].path
    ensures c == d
  {
    PrefixIsAncestry(t, c, d);
    DescendsUnfold(t, d, c);
    assert PathAgrees(t, c);
    if t[d].parent.Some? {
      PrefixIsAncestry(t, c, t[d].parent.value);
    }
  }

  lemma {:induction false} ChildOnTheWay(t: Table, y: Id, x: Id) returns (c: Id)
    requires Valid(t) && x in t && y in t && y != x && Descends(t, y, x)
    ensures c in t && t[c].parent == Some(x) && Descends(t, y, c)
    decreases |t[y].path|
  {
    DescendsUnfold(t, y, x);
    DescendsUnfold(t, y, y);
    assert PathAgrees(t, y);
    if t[y].parent == Some(x) {
      c := y;
    } else {
      c := ChildOnTheWay(t, t[y].parent.value, x);
      DescendsUnfold(t, y, c);
    }
  }

  lemma {:induction false} CoveringSiblings(t: Table, ids: seq<Id>, parent: Option<Id>, y: Id)
    requires Valid(t) && y in t && Distinct(ids)
    requires forall c :: c in ids ==> c in t && t[c].parent == parent
    ensures Covering(t, ids, y) == if exists c :: c in ids && Descends(t, y, c) then 1 else 0
  {
    if ids == [] {
    } else {
      assert ids == [ids[0]] + ids[1..];
      CoveringSiblings(t, ids[1..], parent, y);
      if Descends(t, y, ids[0]) {
        forall c | c in ids[1..] && Descends(t, y, c)
          ensures false
        {
          SiblingsDisjoint(t, ids[0], c, y);
        }
      }
    }
  }

  lemma CoveringChildren(t: Table, listing: seq<Listed>, x: Id, y: Id)
    requires Valid(t) && Lists(listing, t) && x in t && y in t
    ensures Covering(t, IdsUnder(listing, Some(x)), y) == if Descends(t, y, x) && y != x then 1 else 0
  {
    var ids := IdsUnder(listing, Some(x));
    IdsUnderAreChildren(listing, t, Some(x));
    CoveringSiblings(t, ids, Some(x), y);
    if Descends(t, y, x) && y != x {
      var c := ChildOnTheWay(t, y, x);
      assert c in ids;
    }
    forall c | c in ids && Descends(t, y, c)
      ensures Descends(t, y, x) && y != x
    {
      DescendsUnfold(t, c, x);
      DescendsUnfold(t, x, x);
      DescendsTransitive(t, y, c, x);
      PrefixIsAncestry(t, c, y);
      ChildrenAreDeeper(t, listing, x);
    }
  }

  // ---------- Walking the forest ----------

  /** Depth-first listing of the trees hanging below `ids`, this many levels down. */
  ghost function Shown(next: Id -> seq<Id>, ids: seq<Id>, levels: nat): seq<Id>
    decreases levels, |ids|
  {
    if ids == [] || levels == 0 then []
    else [ids[0]] + Shown(next, next(ids[0]), levels - 1) + Shown(next, ids[1..], levels)
  }

  ghost function ChildrenIn(listing: seq<Listed>): Id -> seq<Id> {
    x => IdsUnder(listing, Some(x))
  }

  /** `next` lists a category's children: deeper categories, covering exactly its proper descendants, each once. */
  ghost predicate ListsChildren(t: Table, next: Id -> seq<Id>, y: Id)
    requires ParentsExist(t) && y in t
  {
    forall x {:trigger next(x)} :: x in t ==>
      && Below(t, next(x), |t[x].path|)
      && Covering(t, next(x), y) == if Descends(t, y, x) && y != x then 1 else 0
  }

  /** All of `ids` are categories with paths longer than this. */
  ghost predicate Below(t: Table, ids: seq<Id>, depth: nat) {
    forall i :: 0 <= i < |ids| ==> ids[i] in t && depth < |t[ids[i]].path|
  }

  lemma ChildrenAreListed(t: Table, listing: seq<Listed>, y: Id)
    requires Valid(t) && Lists(listing, t) && y in t
    ensures ListsChildren(t, ChildrenIn(listing), y)
  {
    forall x | x in t
      ensures Below(t, ChildrenIn(listing)(x), |t[x].path|)
      ensures Covering(t, ChildrenIn(listing)(x), y) == if Descends(t, y, x) && y != x then 1 else 0
    {
      var ids := IdsUnder(listing, Some(x));
      ChildrenAreDeeper(t, listing, x);
      assert forall i :: 0 <= i < |ids| ==> ids[i] in ids;
      CoveringChildren(t, listing, x, y);
    }
  }

  lemma {:induction false} ShownCounts(t: Table, next: Id -> seq<Id>, ids: seq<Id>, depth: nat, levels: nat, y: Id)
    requires ParentsExist(t) && y in t && ListsChildren(t, next, y) && Below(t, ids, depth)
    requires forall c :: c in t ==> |t[c].path| <= depth + levels
    ensures multiset(Shown(next, ids, levels))[y] == Covering(t, ids, y)
    decreases levels, |ids|
  {
    if ids == [] {
    } else {
      var x := ids[0];
      assert x in t && levels > 0;
      ShownCounts(t, next, next(x), depth + 1, levels - 1, y);
      ShownCounts(t, next, ids[1..], depth, levels, y);
      DescendsUnfold(t, y, x);
    }
  }

  /** Walking the whole forest from its roots meets every category exactly once, whatever the listing order. */
  lemma ForestShowsEveryCategoryOnce(t: Table, listing: seq<Listed>, levels: nat, y: Id)
    requires Valid(t) && Lists(listing, t) && y in t
    requires forall c :: c in t ==> |t[c].path| <= levels
    ensures multiset(Shown(ChildrenIn(listing), IdsUnder(listing, None), levels))[y] == 1
  {
    var roots := IdsUnder(listing, None);
    IdsUnderAreChildren(listing, t, None);
    forall i | 0 <= i < |roots|
      ensures roots[i] in t && 0 < |t[roots[i]].path|
    {
      assert roots[i] in roots && PathAgrees(t, roots[i]);
    }
    ChildrenAreListed(t, listing, y);
    ShownCounts(t, ChildrenIn(listing), roots, 0, levels, y);
    CoveringSiblings(t, roots, None, y);
    var root := EveryChainEnds(t, y);
    assert Listed(root, t[root]) in listing;
  }

  // ---------- The nodes findTree returns ----------

  /** Depth-first listing of the built nodes, following their children this many levels down. */
  ghost function Walk(s: seq<TreeNode>, repr: set<TreeNode>, levels: nat): seq<Id>
    reads repr
    decreases levels, |s|
  {
    if s == [] || levels == 0 || s[0] !in repr then []
    else [s[0].id] + Walk(s[0].children, repr, levels - 1) + Walk(s[1..], repr, levels)
  }

  /** The children of every node are the nodes `next` gives. */
  ghost predicate Follows(nodes: map<Id, TreeNode>, repr: set<TreeNode>, next: Id -> seq<Id>)
    requires Owns(repr, nodes)
    reads repr
  {
    forall x {:trigger next(x)} :: x in nodes ==> nodes[x].id == x && AreNodes(nodes[x].children, nodes, next(x))
  }

  lemma {:induction false} WalkIsShown(nodes: map<Id, TreeNode>, repr: set<TreeNode>, next: Id -> seq<Id>,
                                       s: seq<TreeNode>, ids: seq<Id>, levels: nat)
    requires Owns(repr, nodes) && Follows(nodes, repr, next) && AreNodes(s, nodes, ids)
    ensures Walk(s, repr, levels) == Shown(next, ids, levels)
    decreases levels, |ids|
  {
    if ids == [] || levels == 0 {
    } else {
      var x := ids[0];
      assert x in nodes && s[0] == nodes[x] && s[0] in repr;
      WalkIsShown(nodes, repr, next, nodes[x].children, next(x), levels - 1);
      WalkIsShown(nodes, repr, next, s[1..], ids[1..], levels);
    }
  }

  lemma {:induction false} ShownAreNodes(nodes: map<Id, TreeNode>, repr: set<TreeNode>, next: Id -> seq<Id>,
                                         ids: seq<Id>, levels: nat)
    requires Owns(repr, nodes) && Follows(nodes, repr, next) && forall i :: 0 <= i < |ids| ==> ids[i] in nodes
    ensures forall c :: c in Shown(next, ids, levels) ==> c in nodes
    decreases levels, |ids|
  {
    if ids == [] || levels == 0 {
    } else {
      ShownAreNodes(nodes, repr, next, next(ids[0]), levels - 1);
      ShownAreNodes(nodes, repr, next, ids[1..], levels);
    }
  }

  /** Following `children` down from the roots findTree built meets the node of every category exactly once. */
  lemma BuiltForestShowsEveryCategoryOnce(t: Table, listing: seq<Listed>, nodes: map<Id, TreeNode>,
                                          roots: seq<TreeNode>,
                                          repr: set<TreeNode>, levels: nat, y: Id)
    requires Valid(t) && Lists(listing, t) && y in t
    requires forall c :: c in t ==> |t[c].path| <= levels
    requires Owns(repr, nodes) && Linked(listing, nodes, roots, repr) && forall id :: id in nodes ==> nodes[id].id == id
    requires nodes.Keys == set r | r in listing :: r.id
    ensures multiset(Walk(roots, repr, levels))[y] == 1
    ensures forall c :: c in Walk(roots, repr, levels) ==> c in t
  {
    var next := ChildrenIn(listing);
    ForestShowsEveryCategoryOnce(t, listing, levels, y);
    WalkIsShown(nodes, repr, next, roots, IdsUnder(listing, None), levels);
    ShownAreNodes(nodes, repr, next, IdsUnder(listing, None), levels);
  }
}
