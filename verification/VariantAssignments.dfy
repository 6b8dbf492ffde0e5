/** Keys of assignments: one value per attribute, as a variant stores them. */
module VariantAssignments {
  import opened Sorting
  import opened VariantKeys

  function ValueIds(values: seq<AttributeValue>): (ids: seq<string>)
    ensures |ids| == |values|
  {
    seq(|values|, i requires 0 <= i < |values| => values[i].attributeId)
  }

  /** A value for each of some of these attributes, no attribute twice. */
  ghost predicate Assigns(ids: iset<string>, values: seq<AttributeValue>) {
    Over(ids, values) && Distinct(ValueIds(values))
  }

  /** All the attributes but the one whose entry comes first in every key. */
  ghost function Behind(ids: iset<string>): iset<string> {
    iset q: string | q in ids && exists p :: p in ids && SortsBefore(p, q)
  }

  // ---------- The parts of an assignment's key ----------

  lemma {:induction false} SameIdSameValue(values: seq<AttributeValue>, v: AttributeValue, w: AttributeValue)
    requires Distinct(ValueIds(values)) && v in values && w in values && v.attributeId == w.attributeId
    ensures v == w
  {
    var i :| 0 <= i < |values| && values[i] == v;
    var j :| 0 <= j < |values| && values[j] == w;
    assert ValueIds(values)[i] == ValueIds(values)[j];
  }

  lemma {:induction false} PartsDiffer(values: seq<AttributeValue>)
    requires PlainIds(values) && Distinct(ValueIds(values))
    ensures Distinct(Parts(values))
  {
    var entries := Map(Entry, values);
    MapAt(Entry, values);
    forall i, j | 0 <= i < j < |entries|
      ensures entries[i] != entries[j]
    {
      EntryRoundTrip(values[i]);
      EntryRoundTrip(values[j]);
      assert ValueIds(values)[i] != ValueIds(values)[j];
    }
    LexIsTotalPreorder();
    SortSorts(LexLeq, entries);
    forall x
      ensures multiset(Parts(values))[x] <= 1
    {
      DistinctCounts(entries, x);
    }
    DistinctWhenCounted(Parts(values));
  }

  lemma OrderTellsTags(v: AttributeValue, w: AttributeValue)
    requires PlainId(v.attributeId) && PlainId(w.attributeId) && v.attributeId != w.attributeId
    requires LexLeq(Entry(v), Entry(w))
    ensures SortsBefore(v.attributeId, w.attributeId)
  {
    LexTotal(Tag(v.attributeId), Tag(w.attributeId));
    if SortsBefore(w.attributeId, v.attributeId) {
      OrderOfEntries(w.attributeId, v.attributeId, w.value, v.value);
    }
  }

  lemma {:induction false} PartsAreBehind(ids: iset<string>, values: seq<AttributeValue>)
    requires AllPlain(ids) && Assigns(ids, values)
    ensures PlainIds(values) && LaterParts(values, Behind(ids))
  {
    PartsDiffer(values);
    LexIsTotalPreorder();
    SortSorts(LexLeq, Map(Entry, values));
    forall i | 0 < i < |Parts(values)|
      ensures IdOf(Parts(values)[i]) in Behind(ids)
    {
      var v := PartIsEntry(values, 0);
      var w := PartIsEntry(values, i);
      if v.attributeId == w.attributeId {
        SameIdSameValue(values, v, w);
      }
      OrderTellsTags(v, w);
    }
  }

  // ---------- What the key of an assignment says ----------

  lemma {:induction false} DistinctIdsDistinctValues(values: seq<AttributeValue>)
    requires Distinct(ValueIds(values))
    ensures Distinct(values)
  {
    forall i, j | 0 <= i < j < |values|
      ensures values[i] != values[j]
    {
      assert ValueIds(values)[i] != ValueIds(values)[j];
    }
  }

  /** The key stands for the assignment when no value carries an entry of an attribute behind the first. */
  lemma {:induction false} KeyStandsForAssignment(ids: iset<string>, a: seq<AttributeValue>, b: seq<AttributeValue>)
    requires AllPlain(ids) && Assigns(ids, a) && Assigns(ids, b)
    requires NoneCarry(Behind(ids), a) && NoneCarry(Behind(ids), b)
    ensures ComputeCombinationKey(a) == ComputeCombinationKey(b) <==> forall v :: v in a <==> v in b
  {
    PartsAreBehind(ids, a);
    PartsAreBehind(ids, b);
    KeyGivesValues(Behind(ids), a, b);
    DistinctIdsDistinctValues(a);
    DistinctIdsDistinctValues(b);
    if forall v :: v in a <==> v in b {
      DistinctPermutes(a, b);
    }
    if multiset(a) == multiset(b) {
      assert forall v :: v in a <==> v in multiset(a);
      assert forall v :: v in b <==> v in multiset(b);
    }
  }

  /** Two different assignments with the same key. */
  ghost predicate AssignmentsCollide(a: seq<AttributeValue>, b: seq<AttributeValue>) {
    ComputeCombinationKey(a) == ComputeCombinationKey(b) && !(forall v :: v in a <==> v in b)
  }

  ghost predicate Made(ids: iset<string>, values: seq<AttributeValue>, v: string) {
    Assigns(ids, values) && MadeFrom(ids, values, v)
  }

  /** A value breaks the keys of assignments exactly when it holds a '|' and the beginning of an entry of an attribute
      behind the first: if so, two different assignments made of nothing but pieces of it share their key; if not, none
      do. */
  lemma AssignmentsCollideIff(ids: iset<string>, v: string)
    requires AllPlain(ids)
    ensures Carries(Behind(ids), v) <==> exists a, b :: Made(ids, a, v) && Made(ids, b, v) && AssignmentsCollide(a, b)
  {
    if Carries(Behind(ids), v) {
      var q :| q in Behind(ids) && HoldsEntry(v, q);
      var p :| p in ids && SortsBefore(p, q);
      MarkMoves(ids, v, p, q);
    }
    forall a, b | Made(ids, a, v) && Made(ids, b, v) && AssignmentsCollide(a, b)
      ensures Carries(Behind(ids), v)
    {
      if !Carries(Behind(ids), v) {
        PiecesAreClean(Behind(ids), a, v);
        PiecesAreClean(Behind(ids), b, v);
        KeyStandsForAssignment(ids, a, b);
      }
    }
  }

  /** The mark moves from the value of one attribute to that of the other. */
  lemma MarkMoves(ids: iset<string>, v: string, p: string, q: string)
    requires AllPlain(ids) && p in ids && q in ids && SortsBefore(p, q) && HoldsEntry(v, q)
    ensures var (a, b) := (Marked(p, "|" + Tag(q), q, ""), Marked(p, "", q, "|" + Tag(q)));
            Made(ids, a, v) && Made(ids, b, v) && AssignmentsCollide(a, b)
  {
    MarkCollides(p, q, "|" + Tag(q));
    assert FoundAt("", v, 0);
  }

  function Marked(p: string, x: string, q: string, y: string): seq<AttributeValue> {
    [AttributeValue(p, x), AttributeValue(q, y)]
  }

  lemma MarkCollides(p: string, q: string, mark: string)
    requires PlainId(p) && PlainId(q) && SortsBefore(p, q) && mark == "|" + Tag(q)
    ensures AssignmentsCollide(Marked(p, mark, q, ""), Marked(p, "", q, mark))
  {
    BarAndIdCollide(p, q, "", "", "");
    assert "" + "|" + Tag(q) + "" == mark;
    assert Marked(p, mark, q, "")[0] in Marked(p, mark, q, "");
  }
}
