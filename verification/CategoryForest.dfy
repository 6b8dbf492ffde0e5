/** findTree: two passes over the listed categories build the forest of tree nodes. */
module CategoryForest {
  import opened Common
  import opened CategoryTree

  datatype Listed = Listed(id: Id, category: Category)

  class TreeNode {
    const id: Id
    const name: string
    const slug: string
    const sortOrder: nat
    const isActive: bool
    var children: seq<TreeNode>

    constructor (row: Listed)
      ensures id == row.id && name == row.category.name && slug == row.category.slug
      ensures sortOrder == row.category.sortOrder && isActive == row.category.isActive
      ensures children == []
    {
      id, name, slug := row.id, row.category.name, row.category.slug;
      sortOrder, isActive := row.category.sortOrder, row.category.isActive;
      children := [];
    }
  }

  ghost predicate IdsDistinct(listing: seq<Listed>) {
    forall i, j :: 0 <= i < j < |listing| ==> listing[i].id != listing[j].id
  }

  /** The listed ids whose parent is `parent`, in listing order. */
  function IdsUnder(listing: seq<Listed>, parent: Option<Id>): seq<Id> {
    if listing == [] then []
    else
      var last := listing[|listing| - 1];
      IdsUnder(listing[..|listing| - 1], parent) + (if last.category.parent == parent then [last.id] else [])
  }

  /** A row is listed exactly under its own parent, and the list keeps the order of the rows. */
  lemma {:induction false} IdsUnderMeaning(rows: seq<Listed>, more: seq<Listed>, r: Listed, parent: Option<Id>)
    ensures IdsUnder([r], parent) == if r.category.parent == parent then [r.id] else []
    ensures IdsUnder(rows + more, parent) == IdsUnder(rows, parent) + IdsUnder(more, parent)
  {
    assert [r][..0] == [];
    if more == [] {
      assert rows + more == rows;
    } else {
      IdsUnderMeaning(rows, more[..|more| - 1], r, parent);
      assert (rows + more)[..|rows + more| - 1] == rows + more[..|more| - 1];
    }
  }

  /** `s` is the list of the nodes of `ids`. */
  ghost predicate AreNodes(s: seq<TreeNode>, nodes: map<Id, TreeNode>, ids: seq<Id>) {
    |s| == |ids| && forall k :: 0 <= k < |s| ==> ids[k] in nodes && s[k] == nodes[ids[k]]
  }

  ghost predicate Owns(repr: set<TreeNode>, nodes: map<Id, TreeNode>) {
    forall id :: id in nodes ==> nodes[id] in repr
  }

  /** After listing `rows`, the roots and every node's children are the nodes of the right ids, in listing order. */
  ghost predicate Linked(rows: seq<Listed>, nodes: map<Id, TreeNode>, roots: seq<TreeNode>, repr: set<TreeNode>)
    requires Owns(repr, nodes)
    reads repr
  {
    && AreNodes(roots, nodes, IdsUnder(rows, None))
    && forall p {:trigger nodes[p].children} ::
         p in nodes ==> AreNodes(nodes[p].children, nodes, IdsUnder(rows, Some(p)))
  }

  /** First pass: one childless node per listed category. */
  method MakeNodes(listing: seq<Listed>) returns (nodeById: map<Id, TreeNode>, ghost repr: set<TreeNode>)
    requires IdsDistinct(listing)
    ensures nodeById.Keys == (set r | r in listing :: r.id)
    ensures Owns(repr, nodeById) && fresh(repr)
    ensures forall id :: id in nodeById ==> nodeById[id].id == id && nodeById[id].children == []
    ensures forall r :: r in listing ==> Displays(nodeById[r.id], r.category)
  {
    nodeById, repr := map[], {};
    for i := 0 to |listing|
      invariant nodeById.Keys == (set r | r in listing[..i] :: r.id)
      invariant Owns(repr, nodeById) && fresh(repr)
      invariant forall id :: id in nodeById ==> nodeById[id].id == id && nodeById[id].children == []
      invariant forall r :: r in listing[..i] ==> Displays(nodeById[r.id], r.category)
    {
      var node := new TreeNode(listing[i]);
      nodeById, repr := nodeById[listing[i].id := node], repr + {node};
      assert listing[..i + 1] == listing[..i] + [listing[i]];
    }
    assert listing[..|listing|] == listing;
  }

  ghost predicate Displays(node: TreeNode, c: Category) {
    node.name == c.name && node.slug == c.slug && node.sortOrder == c.sortOrder && node.isActive == c.isActive
  }

  /** One step of the second pass: hang a node under its parent, or among the roots. */
  method Hang(ghost done: seq<Listed>, row: Listed, nodeById: map<Id, TreeNode>, roots: seq<TreeNode>,
              ghost repr: set<TreeNode>)
    returns (newRoots: seq<TreeNode>)
    requires row.id in nodeById && (forall id :: id in nodeById ==> nodeById[id].id == id)
    requires Owns(repr, nodeById) && Linked(done, nodeById, roots, repr)
    modifies repr
    ensures Linked(done + [row], nodeById, newRoots, repr)
  {
    var node := nodeById[row.id];
    newRoots := roots;
    if row.category.parent.Some? {
      if row.category.parent.value in nodeById {
        var parent := nodeById[row.category.parent.value];
        parent.children := parent.children + [node];
      }
    } else {
      newRoots := roots + [node];
    }
  }

  method FindTree(listing: seq<Listed>)
    returns (roots: seq<TreeNode>, ghost nodes: map<Id, TreeNode>, ghost repr: set<TreeNode>)
    requires IdsDistinct(listing)
    ensures fresh(repr) && Owns(repr, nodes)
    ensures nodes.Keys == (set r | r in listing :: r.id)
    ensures forall id :: id in nodes ==> nodes[id].id == id
    ensures Linked(listing, nodes, roots, repr)
    ensures forall r :: r in listing ==> Displays(nodes[r.id], r.category)
  {
    var nodeById;
    nodeById, repr := MakeNodes(listing);
    assert forall r :: r in listing ==> r.id in nodeById;
    roots := HangAll(listing, nodeById, repr);
    nodes := nodeById;
  }

  /** The second pass. */
  method HangAll(listing: seq<Listed>, nodeById: map<Id, TreeNode>,
                 ghost repr: set<TreeNode>) returns (roots: seq<TreeNode>)
    requires forall r :: r in listing ==> r.id in nodeById
    requires Owns(repr, nodeById) && forall id :: id in nodeById ==>
      nodeById[id].id == id && nodeById[id].children == []
    modifies repr
    ensures Linked(listing, nodeById, roots, repr)
  {
    roots := [];
    for i := 0 to |listing|
      invariant Linked(listing[..i], nodeById, roots, repr)
    {
      assert listing[i] in listing;
      roots := Hang(listing[..i], listing[i], nodeById, roots, repr);
      assert listing[..i + 1] == listing[..i] + [listing[i]];
    }
    assert listing[..|listing|] == listing;
  }
}
