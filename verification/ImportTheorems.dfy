/** What a valid verdict promises: about one row, about two rows, and about validating again. */
module ImportTheorems {
  import opened Sorting
  import opened VariantKeys
  import opened ImportRows
  import opened ImportValidation

  ghost predicate IsValid(text: Text, known: Known, rows: seq<Row>, i: nat)
    requires i < |rows|
  {
    RowProblems(text, known, rows, i) == []
  }

  /** The row's own fields and attribute values are all in order. */
  predicate FieldsOk(text: Text, known: Known, row: Row) {
    && FieldProblems(text, known, row) == []
    && match CategoryOf(known, row)
       case None => false
       case Some(c) => VariantProblems(text, c.rules.variant, row) == [] && InfoProblems(text, c.rules.info, row) == []
  }

  /** A row is valid exactly when its fields are, its SKU is new to catalogue and file, and its combination
      (or its being the only row) is new to its product. */
  lemma ValidMeans(text: Text, known: Known, rows: seq<Row>, i: nat)
    requires i < |rows|
    ensures IsValid(text, known, rows, i) <==>
            && FieldsOk(text, known, rows[i]) && rows[i].sku != ""
            && rows[i].sku !in known.skus && rows[i].sku !in SkusBefore(text, rows, i)
            && var rules := CategoryOf(known, rows[i]).value.rules;
               if rules.variant != [] then KeyOf(rules, rows[i]) !in KeysBefore(text, known, rows, i)
               else |Members(text, rows, GroupKey(text, rows[i]))| <= 1
  {
  }

  /** Two valid rows have different SKUs, neither of them in the catalogue. */
  lemma ValidSkusDiffer(text: Text, known: Known, rows: seq<Row>, i: nat, j: nat)
    requires i < |rows| && j < |rows| && i != j && IsValid(text, known, rows, i) && IsValid(text, known, rows, j)
    ensures rows[i].sku != rows[j].sku && rows[i].sku !in known.skus && rows[i].sku != ""
  {
    ValidMeans(text, known, rows, i);
    ValidMeans(text, known, rows, j);
    assert CheckedBefore(text, rows, i, j) ==> rows[i].sku in SkusBefore(text, rows, j);
    assert CheckedBefore(text, rows, j, i) ==> rows[j].sku in SkusBefore(text, rows, i);
  }

  /** Two valid rows of one product have different combination keys, so their variant values are not even
      permutations of each other; and the category does have variant attributes. */
  lemma ValidKeysDiffer(text: Text, known: Known, rows: seq<Row>, i: nat, j: nat)
    requires SlugsPlain(rows) && i < j < |rows| && IsValid(text, known, rows, i) && IsValid(text, known, rows, j)
    requires SameProduct(text, rows[i], rows[j])
    ensures CategoryOf(known, rows[i]).Some? && CategoryOf(known, rows[i]) == CategoryOf(known, rows[j])
    ensures var rules := CategoryOf(known, rows[i]).value.rules;
            && rules.variant != []
            && KeyOf(rules, rows[i]) != KeyOf(rules, rows[j])
            && multiset(ValuesOf(rules.variant, rows[i])) != multiset(ValuesOf(rules.variant, rows[j]))
  {
    ValidMeans(text, known, rows, i);
    ValidMeans(text, known, rows, j);
    GroupKeyMeaning(text, rows[i], rows[j]);
    var rules := CategoryOf(known, rows[i]).value.rules;
    if rules.variant == [] {
      TwoMembers(text, rows, i, j);
    } else {
      assert KeyOf(rules, rows[i]) in KeysBefore(text, known, rows, j);
      if multiset(ValuesOf(rules.variant, rows[i])) == multiset(ValuesOf(rules.variant, rows[j])) {
        PermutationsShareKey(ValuesOf(rules.variant, rows[i]), ValuesOf(rules.variant, rows[j]));
      }
    }
  }

  lemma TwoMembers(text: Text, rows: seq<Row>, i: nat, j: nat)
    requires i < j < |rows| && GroupKey(text, rows[i]) == GroupKey(text, rows[j])
    ensures |Members(text, rows, GroupKey(text, rows[i]))| >= 2
  {
    var ms := Members(text, rows, GroupKey(text, rows[i]));
    MembersMeaning(text, rows, GroupKey(text, rows[i]));
    assert i in ms && j in ms;
    var p :| 0 <= p < |ms| && ms[p] == i;
    var q :| 0 <= q < |ms| && ms[q] == j;
    assert p != q;
  }

  /** A choice of rows, in any order. */
  ghost function Chosen(rows: seq<Row>, picks: seq<nat>): (chosen: seq<Row>)
    requires forall p :: 0 <= p < |picks| ==> picks[p] < |rows|
    ensures |chosen| == |picks|
  {
    seq(|picks|, p requires 0 <= p < |picks| => rows[picks[p]])
  }

  lemma AloneInGroup(text: Text, rows: seq<Row>, p: nat)
    requires p < |rows|
    requires forall q :: 0 <= q < |rows| && q != p ==> GroupKey(text, rows[q]) != GroupKey(text, rows[p])
    ensures |Members(text, rows, GroupKey(text, rows[p]))| <= 1
  {
    var ms := Members(text, rows, GroupKey(text, rows[p]));
    MembersMeaning(text, rows, GroupKey(text, rows[p]));
    assert forall k :: 0 <= k < |ms| ==> ms[k] in ms;
    if ms != [] {
      AscendingGrows(ms, |ms| - 1);
    }
  }

  lemma {:induction false} AscendingGrows(ms: seq<nat>, k: nat)
    requires k < |ms| && forall p, q :: 0 <= p < q < |ms| ==> ms[p] < ms[q]
    ensures ms[k] >= ms[0] + k
  {
    if k == 0 {
    } else {
      AscendingGrows(ms, k - 1);
    }
  }

  /** Validity only depends on the row itself and on how it differs from the other rows. */
  lemma ValidByDifference(text: Text, known: Known, rows: seq<Row>, p: nat)
    requires p < |rows| && FieldsOk(text, known, rows[p]) && rows[p].sku != "" && rows[p].sku !in known.skus
    requires forall q :: 0 <= q < |rows| && q != p ==>
               && rows[q].sku != rows[p].sku
               && (GroupKey(text, rows[q]) == GroupKey(text, rows[p]) ==>
                     var rules := CategoryOf(known, rows[p]).value.rules;
                     rules.variant != [] && KeyOf(rules, rows[q]) != KeyOf(rules, rows[p]))
    ensures IsValid(text, known, rows, p)
  {
    ValidMeans(text, known, rows, p);
    if CategoryOf(known, rows[p]).value.rules.variant == [] {
      AloneInGroup(text, rows, p);
    }
  }

  /** Validating any choice of the valid rows again, in any order, finds every one of them valid. */
  lemma ValidRowsStayValid(text: Text, known: Known, rows: seq<Row>, picks: seq<nat>, p: nat)
    requires SlugsPlain(rows) && Distinct(picks) && p < |picks|
    requires forall q :: 0 <= q < |picks| ==> picks[q] < |rows| && IsValid(text, known, rows, picks[q])
    ensures IsValid(text, known, Chosen(rows, picks), p)
  {
    var chosen := Chosen(rows, picks);
    ValidMeans(text, known, rows, picks[p]);
    forall q | 0 <= q < |chosen| && q != p
      ensures chosen[q].sku != chosen[p].sku
      ensures GroupKey(text, chosen[q]) == GroupKey(text, chosen[p]) ==>
                var rules := CategoryOf(known, chosen[p]).value.rules;
                rules.variant != [] && KeyOf(rules, chosen[q]) != KeyOf(rules, chosen[p])
    {
      ChosenPair(text, known, rows, picks[p], picks[q]);
    }
    ValidByDifference(text, known, chosen, p);
  }

  lemma ChosenPair(text: Text, known: Known, rows: seq<Row>, i: nat, j: nat)
    requires SlugsPlain(rows) && i < |rows| && j < |rows| && i != j
    requires IsValid(text, known, rows, i) && IsValid(text, known, rows, j)
    ensures rows[i].sku != rows[j].sku && CategoryOf(known, rows[i]).Some?
    ensures GroupKey(text, rows[i]) == GroupKey(text, rows[j]) ==>
              var rules := CategoryOf(known, rows[i]).value.rules;
              rules.variant != [] && KeyOf(rules, rows[j]) != KeyOf(rules, rows[i])
  {
    ValidSkusDiffer(text, known, rows, i, j);
    ValidMeans(text, known, rows, i);
    GroupKeyMeaning(text, rows[i], rows[j]);
    if GroupKey(text, rows[i]) == GroupKey(text, rows[j]) {
      if i < j {
        ValidKeysDiffer(text, known, rows, i, j);
      } else {
        ValidKeysDiffer(text, known, rows, j, i);
      }
    }
  }
}
