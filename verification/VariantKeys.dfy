/** computeCombinationKey: "attributeId:value" entries, sorted and joined by '|', as a canonical form. */
module VariantKeys {
  import opened Sorting

  datatype AttributeValue = AttributeValue(attributeId: string, value: string)

  /** Character-by-character order of strings. */
  predicate LexLeq(a: string, b: string) {
    a == "" || (b != "" && (a[0] < b[0] || (a[0] == b[0] && LexLeq(a[1..], b[1..]))))
  }

  function Entry(v: AttributeValue): string {
    v.attributeId + ":" + v.value
  }

  function Join(parts: seq<string>): string {
    if parts == [] then "" else if |parts| == 1 then parts[0] else parts[0] + "|" + Join(parts[1..])
  }

  function ComputeCombinationKey(values: seq<AttributeValue>): string {
    Join(Sort(LexLeq, Map(Entry, values)))
  }

  // ---------- The order of strings ----------

  lemma {:induction false} LexTotal(a: string, b: string)
    ensures LexLeq(a, b) || LexLeq(b, a)
    ensures LexLeq(a, b) && LexLeq(b, a) ==> a == b
  {
    if a == "" || b == "" || a[0] != b[0] {
    } else {
      LexTotal(a[1..], b[1..]);
      assert a == [a[0]] + a[1..] && b == [b[0]] + b[1..];
    }
  }

  lemma {:induction false} LexTransitive(a: string, b: string, c: string)
    requires LexLeq(a, b) && LexLeq(b, c)
    ensures LexLeq(a, c)
  {
    if a == "" || a[0] != b[0] || b[0] != c[0] {
    } else {
      LexTransitive(a[1..], b[1..], c[1..]);
    }
  }

  lemma LexIsTotalPreorder()
    ensures TotalPreorder(LexLeq)
    ensures forall a, b :: LexLeq(a, b) && LexLeq(b, a) ==> a == b
  {
    forall a, b
      ensures LexLeq(a, b) || LexLeq(b, a)
      ensures LexLeq(a, b) && LexLeq(b, a) ==> a == b
    {
      LexTotal(a, b);
    }
    forall a, b, c | LexLeq(a, b) && LexLeq(b, c)
      ensures LexLeq(a, c)
    {
      LexTransitive(a, b, c);
    }
  }

  // ---------- Taking the key apart again ----------

  /** Text before the first `c`, and whether there is one. */
  function Before(s: string, c: char): string {
    if s == "" || s[0] == c then "" else [s[0]] + Before(s[1..], c)
  }

  lemma {:induction false} BeforeOfConcat(a: string, c: char, rest: string)
    requires c !in a
    ensures Before(a + [c] + rest, c) == a && Before(a, c) == a
  {
    if a != "" {
      assert (a + [c] + rest)[1..] == a[1..] + [c] + rest;
      BeforeOfConcat(a[1..], c, rest);
    } else {
      assert a + [c] + rest == [c] + rest;
    }
  }

  predicate PlainId(id: string) {
    ':' !in id && '|' !in id
  }

  /** What an entry of this attribute begins with. */
  function Tag(id: string): string {
    id + ":"
  }

  function IdOf(part: string): string {
    Before(part, ':')
  }

  /** `part` begins with a plain id and its ':'. */
  ghost predicate IsEntry(part: string) {
    PlainId(IdOf(part)) && Tag(IdOf(part)) <= part
  }

  ghost predicate AreEntries(parts: seq<string>) {
    forall i :: 0 <= i < |parts| ==> IsEntry(parts[i])
  }

  ghost predicate CutFrom(piece: string, s: string) {
    exists k :: FoundAt(piece, s, k)
  }

  predicate FoundAt(piece: string, s: string, k: int) {
    0 <= k <= |s| - |piece| && s[k..k + |piece|] == piece
  }

  /** The text holds a '|' and the beginning of an entry of this attribute. */
  ghost predicate HoldsEntry(s: string, id: string) {
    CutFrom("|" + Tag(id), s)
  }

  /** What follows the first part: nothing, or a '|' and the next part. */
  lemma JoinAfterFirst(parts: seq<string>)
    requires parts != []
    ensures |parts| == 1 ==> Join(parts) == parts[0]
    ensures |parts| > 1 ==> Join(parts) == parts[0] + "|" + Join(parts[1..]) && parts[1] <= Join(parts[1..])
  {
    if |parts| > 2 {
      assert Join(parts[1..]) == parts[1] + "|" + Join(parts[1..][1..]);
    }
  }

  lemma NextTagFollows(a: seq<string>)
    requires AreEntries(a) && |a| > 1
    ensures FoundAt("|" + Tag(IdOf(a[1])), Join(a), |a[0]|)
  {
    JoinAfterFirst(a);
    assert IsEntry(a[1]);
    var (mark, rest) := ("|" + Tag(IdOf(a[1])), "|" + Join(a[1..]));
    assert mark <= rest && Join(a) == a[0] + rest;
    assert (a[0] + rest)[|a[0]|..|a[0]| + |mark|] == rest[..|mark|];
  }

  /** A first part in which an entry begins holds all of its tag: the '|' after the part would split a plain id. */
  lemma TagInsideFirst(b: seq<string>, id: string, i: nat)
    requires b != [] && PlainId(id) && i < |b[0]| && FoundAt("|" + Tag(id), Join(b), i)
    ensures HoldsEntry(b[0], id)
  {
    JoinAfterFirst(b);
    var (s, mark, n) := (Join(b), "|" + Tag(id), |b[0]|);
    forall j | i < j < i + |mark|
      ensures s[j] != '|'
    {
      assert s[j] == s[i..i + |mark|][j - i] == mark[j - i];
    }
    assert |s| > n ==> s[n] == '|';
    assert i + |mark| <= n && s[..n] == b[0];
    assert b[0][i..i + |mark|] == mark;
    assert FoundAt(mark, b[0], i);
  }

  /** In no part of b does an entry of an id begin that a later part of a has. */
  ghost predicate ReadsApart(a: seq<string>, b: seq<string>) {
    forall i, j :: 0 < i < |a| && 0 <= j < |b| ==> !HoldsEntry(b[j], IdOf(a[i]))
  }

  lemma FirstPartNotShorter(a: seq<string>, b: seq<string>)
    requires AreEntries(a) && AreEntries(b) && a != [] && b != [] && Join(a) == Join(b) && ReadsApart(a, b)
    ensures |a[0]| >= |b[0]|
  {
    JoinAfterFirst(a);
    JoinAfterFirst(b);
    if |a[0]| < |b[0]| {
      assert IsEntry(a[1]);
      NextTagFollows(a);
      TagInsideFirst(b, IdOf(a[1]), |a[0]|);
    }
  }

  lemma RestReadsApart(a: seq<string>, b: seq<string>)
    requires ReadsApart(a, b) && a != [] && b != []
    ensures ReadsApart(a[1..], b[1..])
  {
    var (c, d) := (a[1..], b[1..]);
    forall i, j | 0 < i < |c| && 0 <= j < |d|
      ensures !HoldsEntry(d[j], IdOf(c[i]))
    {
      assert c[i] == a[i + 1] && d[j] == b[j + 1];
    }
  }

  /** Joining entries loses nothing as long as neither list can be read as the other one in part. */
  lemma {:induction false} JoinInjective(a: seq<string>, b: seq<string>)
    requires AreEntries(a) && AreEntries(b) && Join(a) == Join(b) && ReadsApart(a, b) && ReadsApart(b, a)
    ensures a == b
  {
    if a == [] || b == [] {
      EmptyJoin(a);
      EmptyJoin(b);
    } else {
      FirstPartNotShorter(a, b);
      FirstPartNotShorter(b, a);
      JoinAfterFirst(a);
      JoinAfterFirst(b);
      var n := |a[0]|;
      assert a[0] == Join(a)[..n] == Join(b)[..n] == b[0];
      assert |a| > 1 ==> Join(a)[n + 1..] == Join(a[1..]);
      assert |b| > 1 ==> Join(b)[n + 1..] == Join(b[1..]);
      if |a| > 1 && |b| > 1 {
        RestReadsApart(a, b);
        RestReadsApart(b, a);
        JoinInjective(a[1..], b[1..]);
      }
      assert a == [a[0]] + a[1..] && b == [b[0]] + b[1..];
    }
  }

  lemma EmptyJoin(parts: seq<string>)
    requires AreEntries(parts)
    ensures parts == [] <==> Join(parts) == ""
  {
    if parts != [] {
      assert IsEntry(parts[0]);
      JoinAfterFirst(parts);
    }
  }

  /** The entry read back: the id ends at the first ':'. */
  function Unentry(s: string): AttributeValue {
    var id := Before(s, ':');
    AttributeValue(id, if |id| < |s| then s[|id| + 1..] else "")
  }

  ghost predicate PlainIds(values: seq<AttributeValue>) {
    forall i :: 0 <= i < |values| ==> PlainId(values[i].attributeId)
  }

  lemma EntryRoundTrip(v: AttributeValue)
    requires PlainId(v.attributeId)
    ensures Unentry(Entry(v)) == v && IdOf(Entry(v)) == v.attributeId && IsEntry(Entry(v))
  {
    BeforeOfConcat(v.attributeId, ':', v.value);
  }

  lemma EntriesRoundTrip(values: seq<AttributeValue>)
    requires PlainIds(values)
    ensures Map(Unentry, Map(Entry, values)) == values
  {
    MapAt(Entry, values);
    MapAt(Unentry, Map(Entry, values));
    forall i | 0 <= i < |values|
      ensures Unentry(Map(Entry, values)[i]) == values[i]
    {
      EntryRoundTrip(values[i]);
    }
  }

  /** The parts of a key. */
  function Parts(values: seq<AttributeValue>): seq<string> {
    Sort(LexLeq, Map(Entry, values))
  }

  /** Each part is the entry of a given value. */
  lemma PartIsEntry(values: seq<AttributeValue>, i: nat) returns (v: AttributeValue)
    requires PlainIds(values) && i < |Parts(values)|
    ensures v in values && Parts(values)[i] == Entry(v) && IsEntry(Parts(values)[i])
    ensures IdOf(Parts(values)[i]) == v.attributeId
  {
    var entries := Map(Entry, values);
    LexIsTotalPreorder();
    SortSorts(LexLeq, entries);
    MapAt(Entry, values);
    assert Parts(values)[i] in multiset(entries);
    var k :| 0 <= k < |entries| && entries[k] == Parts(values)[i];
    v := values[k];
    EntryRoundTrip(v);
  }

  /** An entry that begins inside another one begins in its value. */
  lemma HeldInValue(v: AttributeValue, id: string)
    requires PlainId(v.attributeId) && HoldsEntry(Entry(v), id)
    ensures HoldsEntry(v.value, id)
  {
    var (s, mark, n) := (Entry(v), "|" + Tag(id), |v.attributeId| + 1);
    var k :| FoundAt(mark, s, k);
    assert s[k] == s[k..k + |mark|][0] == '|';
    assert k >= n;
    assert v.value[k - n..k - n + |mark|] == s[k..k + |mark|];
    assert FoundAt(mark, v.value, k - n);
  }

  /** The order in which values are given never matters, whatever they contain. */
  lemma PermutationsShareKey(a: seq<AttributeValue>, b: seq<AttributeValue>)
    requires multiset(a) == multiset(b)
    ensures ComputeCombinationKey(a) == ComputeCombinationKey(b)
  {
    MapPermutes(Entry, a, b);
    LexIsTotalPreorder();
    SortSorts(LexLeq, Map(Entry, a));
    SortSorts(LexLeq, Map(Entry, b));
    SortedIsUnique(LexLeq, Sort(LexLeq, Map(Entry, a)), Sort(LexLeq, Map(Entry, b)));
  }

  /** The value holds a '|' and the beginning of an entry of one of these attributes. */
  ghost predicate Carries(ids: iset<string>, value: string) {
    exists id :: id in ids && HoldsEntry(value, id)
  }

  ghost predicate NoneCarry(ids: iset<string>, values: seq<AttributeValue>) {
    forall i :: 0 <= i < |values| ==> !Carries(ids, values[i].value)
  }

  /** Every part but the first is an entry of one of these attributes. */
  ghost predicate LaterParts(values: seq<AttributeValue>, ids: iset<string>) {
    forall i :: 0 < i < |Parts(values)| ==> IdOf(Parts(values)[i]) in ids
  }

  lemma {:induction false} PartsReadApart(ids: iset<string>, a: seq<AttributeValue>, b: seq<AttributeValue>)
    requires PlainIds(a) && PlainIds(b) && LaterParts(a, ids) && NoneCarry(ids, b)
    ensures AreEntries(Parts(b)) && ReadsApart(Parts(a), Parts(b))
  {
    forall j | 0 <= j < |Parts(b)|
      ensures IsEntry(Parts(b)[j])
      ensures forall id :: id in ids ==> !HoldsEntry(Parts(b)[j], id)
    {
      var v := PartIsEntry(b, j);
      assert !Carries(ids, v.value);
      forall id | id in ids
        ensures !HoldsEntry(Parts(b)[j], id)
      {
        if HoldsEntry(Parts(b)[j], id) {
          HeldInValue(v, id);
          assert false;
        }
      }
    }
  }

  /** The key gives the values back when no value carries an entry of an attribute that stands behind the first. */
  lemma {:induction false} KeyGivesValues(ids: iset<string>, a: seq<AttributeValue>, b: seq<AttributeValue>)
    requires PlainIds(a) && PlainIds(b) && LaterParts(a, ids) && LaterParts(b, ids) && NoneCarry(ids, a)
    requires NoneCarry(ids, b)
    ensures ComputeCombinationKey(a) == ComputeCombinationKey(b) <==> multiset(a) == multiset(b)
  {
    if multiset(a) == multiset(b) {
      PermutationsShareKey(a, b);
    }
    if ComputeCombinationKey(a) == ComputeCombinationKey(b) {
      PartsReadApart(ids, a, b);
      PartsReadApart(ids, b, a);
      JoinInjective(Parts(a), Parts(b));
      SamePartsSameValues(a, b);
    }
  }

  lemma SamePartsSameValues(a: seq<AttributeValue>, b: seq<AttributeValue>)
    requires PlainIds(a) && PlainIds(b) && Parts(a) == Parts(b)
    ensures multiset(a) == multiset(b)
  {
    LexIsTotalPreorder();
    SortSorts(LexLeq, Map(Entry, a));
    SortSorts(LexLeq, Map(Entry, b));
    MapPermutes(Unentry, Map(Entry, a), Map(Entry, b));
    EntriesRoundTrip(a);
    EntriesRoundTrip(b);
  }

  // ---------- Lists of values ----------

  /** The attributes of a category; their ids are UUIDs, so they hold neither separator. */
  ghost predicate AllPlain(ids: iset<string>) {
    forall id :: id in ids ==> PlainId(id)
  }

  ghost predicate Over(ids: iset<string>, values: seq<AttributeValue>) {
    forall i :: 0 <= i < |values| ==> values[i].attributeId in ids
  }

  /** The key is a canonical form, equal exactly for permutations, when no value carries an entry of an attribute. */
  lemma {:induction false} KeyIsCanonical(ids: iset<string>, a: seq<AttributeValue>, b: seq<AttributeValue>)
    requires AllPlain(ids) && Over(ids, a) && Over(ids, b) && NoneCarry(ids, a) && NoneCarry(ids, b)
    ensures ComputeCombinationKey(a) == ComputeCombinationKey(b) <==> multiset(a) == multiset(b)
  {
    PartsOver(ids, a);
    PartsOver(ids, b);
    KeyGivesValues(ids, a, b);
  }

  lemma {:induction false} PartsOver(ids: iset<string>, values: seq<AttributeValue>)
    requires AllPlain(ids) && Over(ids, values)
    ensures PlainIds(values) && LaterParts(values, ids)
  {
    forall i | 0 <= i < |Parts(values)|
      ensures IdOf(Parts(values)[i]) in ids
    {
      var v := PartIsEntry(values, i);
    }
  }

  ghost predicate Collide(a: seq<AttributeValue>, b: seq<AttributeValue>) {
    ComputeCombinationKey(a) == ComputeCombinationKey(b) && multiset(a) != multiset(b)
  }

  /** Values of these attributes, cut out of v. */
  ghost predicate MadeFrom(ids: iset<string>, values: seq<AttributeValue>, v: string) {
    Over(ids, values) && forall i :: 0 <= i < |values| ==> CutFrom(values[i].value, v)
  }

  lemma CutsStayClean(ids: iset<string>, piece: string, v: string)
    requires CutFrom(piece, v) && Carries(ids, piece)
    ensures Carries(ids, v)
  {
    var id :| id in ids && HoldsEntry(piece, id);
    var mark := "|" + Tag(id);
    var k :| FoundAt(piece, v, k);
    var j :| FoundAt(mark, piece, j);
    SliceOfSlice(v, k, |piece|, j, |mark|);
    assert FoundAt(mark, v, k + j);
  }

  lemma SliceOfSlice(s: string, k: nat, n: nat, j: nat, m: nat)
    requires k + n <= |s| && j + m <= n
    ensures s[k..k + n][j..j + m] == s[k + j..k + j + m]
  {
    var (left, right) := (s[k..k + n][j..j + m], s[k + j..k + j + m]);
    assert |left| == |right| && forall i :: 0 <= i < m ==> left[i] == right[i];
  }

  lemma PiecesAreClean(ids: iset<string>, values: seq<AttributeValue>, v: string)
    requires (forall i :: 0 <= i < |values| ==> CutFrom(values[i].value, v)) && !Carries(ids, v)
    ensures NoneCarry(ids, values)
  {
    forall i | 0 <= i < |values|
      ensures !Carries(ids, values[i].value)
    {
      if Carries(ids, values[i].value) {
        CutsStayClean(ids, values[i].value, v);
      }
    }
  }

  /** A value breaks the key exactly when it holds a '|' and the beginning of an entry of one of the attributes: if so,
      two lists that are no permutations of each other, made of nothing but pieces of it, share their key; if not, none
      do. */
  lemma CollidesIff(ids: iset<string>, v: string)
    requires AllPlain(ids)
    ensures Carries(ids, v) <==> exists a, b :: MadeFrom(ids, a, v) && MadeFrom(ids, b, v) && Collide(a, b)
  {
    if Carries(ids, v) {
      var id :| id in ids && HoldsEntry(v, id);
      MarkReadsAsTwo(ids, v, id);
    }
    forall a, b | MadeFrom(ids, a, v) && MadeFrom(ids, b, v) && Collide(a, b)
      ensures Carries(ids, v)
    {
      if !Carries(ids, v) {
        PiecesAreClean(ids, a, v);
        PiecesAreClean(ids, b, v);
        KeyIsCanonical(ids, a, b);
      }
    }
  }

  /** The mark itself as a value reads as two empty values. */
  lemma MarkReadsAsTwo(ids: iset<string>, v: string, id: string)
    requires id in ids && HoldsEntry(v, id)
    ensures var (a, b) := ([AttributeValue(id, "|" + Tag(id))], [AttributeValue(id, ""), AttributeValue(id, "")]);
            MadeFrom(ids, a, v) && MadeFrom(ids, b, v) && Collide(a, b)
  {
    var (x, y) := (AttributeValue(id, "|" + Tag(id)), AttributeValue(id, ""));
    assert FoundAt("", v, 0);
    LexIsTotalPreorder();
    assert Entry(y) == Tag(id);
    assert Entry(x) == Tag(id) + ("|" + Tag(id)) == Entry(y) + "|" + Entry(y);
    TwoReadAsOne(x, y, y);
  }

  lemma TwoReadAsOne(x: AttributeValue, y: AttributeValue, z: AttributeValue)
    requires Entry(x) == Entry(y) + "|" + Entry(z) && LexLeq(Entry(y), Entry(z))
    ensures Collide([x], [y, z])
  {
    KeyOfTwo(y, z);
    KeyOfOne(x);
    assert |multiset([x])| == 1 && |multiset([y, z])| == 2;
  }

  // ---------- One value per attribute ----------

  /** Entries of p sort before entries of q, whatever the values. */
  predicate SortsBefore(p: string, q: string) {
    p != q && LexLeq(Tag(p), Tag(q))
  }

  lemma {:induction false} OrderOfEntries(p: string, q: string, x: string, y: string)
    requires PlainId(p) && PlainId(q) && SortsBefore(p, q)
    ensures LexLeq(Tag(p) + x, Tag(q) + y) && !LexLeq(Tag(q) + y, Tag(p) + x)
  {
    var (left, right) := (Tag(p) + x, Tag(q) + y);
    assert left[0] == Tag(p)[0] && right[0] == Tag(q)[0];
    if p == "" || q == "" || p[0] != q[0] {
    } else {
      assert Tag(p)[1..] == Tag(p[1..]) && Tag(q)[1..] == Tag(q[1..]);
      assert left[1..] == Tag(p[1..]) + x && right[1..] == Tag(q[1..]) + y;
      assert p == [p[0]] + p[1..] && q == [q[0]] + q[1..];
      OrderOfEntries(p[1..], q[1..], x, y);
    }
  }

  /** Two assignments to the same two attributes that share their key although they are no permutations of each other,
      whatever u, m and w are, as soon as the first value holds the beginning of an entry of the second attribute. */
  lemma BarAndIdCollide(p: string, q: string, u: string, m: string, w: string)
    requires PlainId(p) && PlainId(q) && SortsBefore(p, q)
    ensures Collide([AttributeValue(p, u + "|" + Tag(q) + m), AttributeValue(q, w)],
                    [AttributeValue(p, u), AttributeValue(q, m + "|" + Tag(q) + w)])
  {
    var (x1, x2) := (AttributeValue(p, u + "|" + Tag(q) + m), AttributeValue(q, w));
    var (y1, y2) := (AttributeValue(p, u), AttributeValue(q, m + "|" + Tag(q) + w));
    OrderOfEntries(p, q, x1.value, x2.value);
    OrderOfEntries(p, q, y1.value, y2.value);
    KeyOfTwo(x1, x2);
    KeyOfTwo(y1, y2);
    Reassociate(p, q, u, m, w);
    assert |x1.value| > |y1.value|;
    assert x1 in multiset([x1, x2]) && x1 !in multiset([y1, y2]);
  }

  lemma Reassociate(p: string, q: string, u: string, m: string, w: string)
    ensures (p + ":" + (u + "|" + Tag(q) + m)) + "|" + (q + ":" + w)
         == (p + ":" + u) + "|" + (q + ":" + (m + "|" + Tag(q) + w))
  {
  }

  lemma KeyOfTwo(a: AttributeValue, b: AttributeValue)
    requires LexLeq(Entry(a), Entry(b))
    ensures ComputeCombinationKey([a, b]) == Entry(a) + "|" + Entry(b)
  {
    assert [a, b][1..] == [b] && [b][1..] == [];
    assert Map(Entry, [b]) == [Entry(b)];
    assert Map(Entry, [a, b]) == [Entry(a), Entry(b)];
    assert [Entry(a), Entry(b)][1..] == [Entry(b)];
    assert Sort(LexLeq, [Entry(b)]) == [Entry(b)];
    assert Join([Entry(a), Entry(b)]) == Entry(a) + "|" + Join([Entry(b)]);
    assert Sort(LexLeq, [Entry(a), Entry(b)]) == [Entry(a), Entry(b)];
  }

  /** What a key looks like: ids and values with a colon, in the order of the ids, with a bar between them. */
  lemma KeyOfPair(p: string, x: string, q: string, y: string)
    requires p != "" && q != "" && p[0] < q[0]
    ensures ComputeCombinationKey([AttributeValue(q, y), AttributeValue(p, x)]) == p + ":" + x + "|" + q + ":" + y
  {
    var (a, b) := (AttributeValue(p, x), AttributeValue(q, y));
    assert Entry(a)[0] == p[0] && Entry(b)[0] == q[0];
    KeyOfTwo(a, b);
    assert multiset([b, a]) == multiset([a, b]);
    PermutationsShareKey([b, a], [a, b]);
    assert Entry(a) + "|" + Entry(b) == p + ":" + x + "|" + q + ":" + y;
  }

  lemma KeyOfOne(x: AttributeValue)
    ensures ComputeCombinationKey([x]) == Entry(x)
  {
    assert [x][1..] == [];
    assert Map(Entry, [x]) == [Entry(x)];
    assert [Entry(x)][1..] == [];
    assert Sort(LexLeq, [Entry(x)]) == [Entry(x)];
  }

  lemma {:induction false} StemKeepsOrder(stem: string, x: string, y: string)
    requires LexLeq(x, y)
    ensures LexLeq(stem + x, stem + y)
  {
    if stem == "" {
      assert stem + x == x && stem + y == y;
    } else {
      var (left, right) := (stem + x, stem + y);
      StemKeepsOrder(stem[1..], x, y);
      assert left[0] == right[0] && left[1..] == stem[1..] + x && right[1..] == stem[1..] + y;
    }
  }

  lemma LastDigitCollides(stem: string, u: string, m: string, w: string)
    requires PlainId(stem)
    ensures var (p, q) := (stem + "1", stem + "2");
            Collide([AttributeValue(p, u + "|" + Tag(q) + m), AttributeValue(q, w)],
                    [AttributeValue(p, u), AttributeValue(q, m + "|" + Tag(q) + w)])
  {
    var (p, q) := (stem + "1", stem + "2");
    assert Tag(p) == stem + "1:" && Tag(q) == stem + "2:";
    assert "1:"[0] < "2:"[0];
    StemKeepsOrder(stem, "1:", "2:");
    assert p[|stem|] != q[|stem|];
    BarAndIdCollide(p, q, u, m, w);
  }

  const STEM := "3f2a9c10-7b4e-4d58-9a61-0c5d8e7f1b2"

  /** A concrete collision, with two UUIDs that differ in their last digit: a size with the beginning of a finish
      written into it, and a finish that is written out twice. */
  lemma CollisionExample()
    ensures |STEM + "1"| == 36
    ensures var (p, q) := (STEM + "1", STEM + "2");
            Collide([AttributeValue(p, "A4" + "|" + Tag(q) + "matt"), AttributeValue(q, "gloss")],
                    [AttributeValue(p, "A4"), AttributeValue(q, "matt" + "|" + Tag(q) + "gloss")])
  {
    LastDigitCollides(STEM, "A4", "matt", "gloss");
  }
}
