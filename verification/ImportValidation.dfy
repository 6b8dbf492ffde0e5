/** validateRows: rows are checked group by group, against the catalogue and against the rows checked before them. */
module ImportValidation {
  import opened Common
  import opened Sorting
  import opened ImportRows

  datatype Checked = Checked(rowNumber: nat, row: Row, problems: seq<Problem>)

  // ---------- The order of checking ----------

  function Position(keys: seq<string>, key: string): nat {
    if keys == [] || keys[0] == key then 0 else 1 + Position(keys[1..], key)
  }

  lemma {:induction false} PositionMeaning(keys: seq<string>, key: string)
    requires key in keys
    ensures Position(keys, key) < |keys| && keys[Position(keys, key)] == key
  {
    if keys[0] == key {
    } else {
      PositionMeaning(keys[1..], key);
    }
  }

  lemma PositionAt(keys: seq<string>, p: nat)
    requires Distinct(keys) && p < |keys|
    ensures Position(keys, keys[p]) == p
  {
    PositionMeaning(keys, keys[p]);
  }

  /** Which group, in order of first appearance, row i belongs to. */
  function GroupOf(text: Text, rows: seq<Row>, i: nat): nat
    requires i < |rows|
  {
    Position(Keys(text, rows), GroupKey(text, rows[i]))
  }

  /** Row j is checked before row i. */
  predicate CheckedBefore(text: Text, rows: seq<Row>, j: nat, i: nat)
    requires i < |rows| && j < |rows|
  {
    GroupOf(text, rows, j) < GroupOf(text, rows, i) || (GroupOf(text, rows, j) == GroupOf(text, rows, i) && j < i)
  }

  lemma GroupOfMeaning(text: Text, rows: seq<Row>, i: nat, j: nat)
    requires i < |rows| && j < |rows|
    ensures GroupOf(text, rows, i) < |Keys(text, rows)|
    ensures Keys(text, rows)[GroupOf(text, rows, i)] == GroupKey(text, rows[i])
    ensures GroupOf(text, rows, i) == GroupOf(text, rows, j) <==> GroupKey(text, rows[i]) == GroupKey(text, rows[j])
  {
    KeysMeaning(text, rows);
    PositionMeaning(Keys(text, rows), GroupKey(text, rows[i]));
    PositionMeaning(Keys(text, rows), GroupKey(text, rows[j]));
  }

  // ---------- What validation reports for each row ----------

  ghost function SkusBefore(text: Text, rows: seq<Row>, i: nat): set<string>
    requires i < |rows|
  {
    set j | 0 <= j < |rows| && CheckedBefore(text, rows, j, i) && rows[j].sku != "" :: rows[j].sku
  }

  /** Combination keys of the earlier rows of the same product. */
  ghost function KeysBefore(text: Text, known: Known, rows: seq<Row>, i: nat): set<string>
    requires i < |rows|
  {
    match CategoryOf(known, rows[i])
    case None => {}
    case Some(c) =>
      if c.rules.variant == [] then {}
      else set j | 0 <= j < i && GroupKey(text, rows[j]) == GroupKey(text, rows[i]) :: KeyOf(c.rules, rows[j])
  }

  ghost function RowProblems(text: Text, known: Known, rows: seq<Row>, i: nat): seq<Problem>
    requires i < |rows|
  {
    Problems(text, known, rows[i], SkusBefore(text, rows, i), KeysBefore(text, known, rows, i),
             |Members(text, rows, GroupKey(text, rows[i]))|)
  }

  /** The report: one entry per row, in file order, numbered from 2 because line 1 holds the column names. */
  ghost function Report(text: Text, known: Known, rows: seq<Row>): (r: seq<Checked>)
    ensures |r| == |rows|
  {
    seq(|rows|, i requires 0 <= i < |rows| => Checked(i + 2, rows[i], RowProblems(text, known, rows, i)))
  }

  predicate RowNumberLeq(a: Checked, b: Checked) {
    a.rowNumber <= b.rowNumber
  }

  /** The positions in the order they are checked, up to group n. */
  function CheckOrder(text: Text, rows: seq<Row>, n: nat): seq<nat>
    requires n <= |Keys(text, rows)|
  {
    if n == 0 then [] else CheckOrder(text, rows, n - 1) + Members(text, rows, Keys(text, rows)[n - 1])
  }

  lemma {:induction false} CheckOrderMeaning(text: Text, rows: seq<Row>, n: nat)
    requires n <= |Keys(text, rows)|
    ensures var order := CheckOrder(text, rows, n);
            && Distinct(order)
            && forall i :: i in order <==> 0 <= i < |rows| && GroupOf(text, rows, i) < n
  {
    if n == 0 {
    } else {
      var (init, last) := (CheckOrder(text, rows, n - 1), Members(text, rows, Keys(text, rows)[n - 1]));
      CheckOrderMeaning(text, rows, n - 1);
      GroupsAreGroups(text, rows, n - 1);
      DistinctConcat(init, last);
    }
  }

  lemma {:induction false} DistinctConcat(a: seq<nat>, b: seq<nat>)
    requires Distinct(a) && Distinct(b) && forall x :: x in a ==> x !in b
    ensures Distinct(a + b)
  {
    assert forall p :: 0 <= p < |a| ==> a[p] in a;
    assert forall p :: 0 <= p < |b| ==> b[p] in b;
  }

  /** `results` are the entries of `report` at the positions in `order`. */
  ghost predicate Picks(results: seq<Checked>, order: seq<nat>, report: seq<Checked>) {
    |results| == |order| && forall p :: 0 <= p < |order| ==> order[p] < |report| && results[p] == report[order[p]]
  }

  ghost predicate Numbered(report: seq<Checked>) {
    forall i :: 0 <= i < |report| ==> report[i].rowNumber == i + 2
  }

  /** Sorting the results by row number puts them in file order, whatever order they were checked in. */
  lemma SortingRestoresFileOrder(results: seq<Checked>, order: seq<nat>, report: seq<Checked>)
    requires Picks(results, order, report) && Numbered(report)
    requires Distinct(order) && forall i :: 0 <= i < |report| ==> i in order
    ensures Sort(RowNumberLeq, results) == report
  {
    PicksPermute(results, order, report);
    assert TotalPreorder(RowNumberLeq) && Sorted(RowNumberLeq, report);
    SortSorts(RowNumberLeq, results);
    assert forall x, y :: x in report && y in report && RowNumberLeq(x, y) && RowNumberLeq(y, x) ==> x == y;
    SortedIsUnique(RowNumberLeq, report, Sort(RowNumberLeq, results));
  }

  lemma PicksPermute(results: seq<Checked>, order: seq<nat>, report: seq<Checked>)
    requires Picks(results, order, report) && Numbered(report)
    requires Distinct(order) && forall i :: 0 <= i < |report| ==> i in order
    ensures multiset(results) == multiset(report)
  {
    forall x
      ensures x in results <==> x in report
    {
      if x in report {
        var i :| 0 <= i < |report| && report[i] == x;
        assert i in order;
        var p :| 0 <= p < |order| && order[p] == i;
        assert results[p] == x;
      }
    }
    forall p, q | 0 <= p < q < |results|
      ensures results[p] != results[q]
    {
      assert order[p] != order[q];
      assert report[order[p]].rowNumber != report[order[q]].rowNumber;
    }
    DistinctPermutes(results, report);
  }

  // ---------- The code ----------

  method PushIf(errors: seq<Problem>, condition: bool, problem: Problem) returns (r: seq<Problem>)
    ensures r == errors + When(condition, problem)
  {
    r := errors;
    if condition {
      r := r + [problem];
    }
  }

  method CheckVariantRules(text: Text, rules: seq<Rule>, row: Row) returns (errors: seq<Problem>)
    ensures errors == VariantProblems(text, rules, row)
  {
    errors := [];
    for r := 0 to |rules|
      invariant errors == VariantProblems(text, rules[..r], row)
    {
      var rule := rules[r];
      assert rules[..r + 1][..r] == rules[..r];
      if !HasValue(row, rule.attribute.key) {
        errors := errors + [MissingVariantValue(rule.attribute.key)];
      } else if !ValidValue(text, rule.attribute.kind, row.attributes[rule.attribute.key]) {
        errors := errors + [InvalidValue(rule.attribute.key)];
      }
    }
    assert rules[..|rules|] == rules;
  }

  method CheckInfoRules(text: Text, rules: seq<Rule>, row: Row) returns (errors: seq<Problem>)
    ensures errors == InfoProblems(text, rules, row)
  {
    errors := [];
    for r := 0 to |rules|
      invariant errors == InfoProblems(text, rules[..r], row)
    {
      var rule := rules[r];
      assert rules[..r + 1][..r] == rules[..r];
      if rule.isRequired && !HasValue(row, rule.attribute.key) {
        errors := errors + [MissingValue(rule.attribute.key)];
      } else if HasValue(row, rule.attribute.key) {
        if !ValidValue(text, rule.attribute.kind, row.attributes[rule.attribute.key]) {
          errors := errors + [InvalidValue(rule.attribute.key)];
        }
      }
    }
    assert rules[..|rules|] == rules;
  }

  method CheckNames(known: Known, category: Option<Category>, row: Row) returns (errors: seq<Problem>)
    requires category == CategoryOf(known, row)
    ensures errors == NameProblems(known, row)
  {
    errors := PushIf([], row.sku == "", SkuRequired);
    errors := PushIf(errors, row.productName == "", NameRequired);
    errors := PushIf(errors, row.categorySlug == "", CategoryRequired);
    errors := PushIf(errors, category.None?, CategoryNotFound);
  }

  method CheckValues(text: Text, known: Known, row: Row) returns (errors: seq<Problem>)
    ensures errors == ValueProblems(text, known, row)
  {
    errors := PushIf([], row.brandSlug.Some? && row.brandSlug.value !in known.brands, BrandNotFound);
    errors := PushIf(errors, !PriceOk(text, row), BadPrice);
    errors := PushIf(errors, row.sellingUnit.Some? && row.sellingUnit.value !in SELLING_UNITS, BadSellingUnit);
    errors := PushIf(errors, row.weight.Some? && text.number(row.weight.value) == NaN, BadWeight);
  }

  method CheckFields(text: Text, known: Known, category: Option<Category>, row: Row) returns (errors: seq<Problem>)
    requires category == CategoryOf(known, row)
    ensures errors == FieldProblems(text, known, row)
  {
    var nameErrors := CheckNames(known, category, row);
    var valueErrors := CheckValues(text, known, row);
    errors := nameErrors + valueErrors;
  }

  method CheckCategory(text: Text, rules: Rules, row: Row, seenKeys: set<string>, rowsInGroup: nat)
    returns (errors: seq<Problem>, newKeys: set<string>)
    ensures errors == RuleProblems(text, rules, row, seenKeys, rowsInGroup)
    ensures newKeys == seenKeys + (if rules.variant != [] then {KeyOf(rules, row)} else {})
  {
    var variantErrors := CheckVariantRules(text, rules.variant, row);
    var infoErrors := CheckInfoRules(text, rules.info, row);
    errors, newKeys := variantErrors + infoErrors, seenKeys;
    if |rules.variant| > 0 {
      var combinationKey := KeyOf(rules, row);
      errors := PushIf(errors, combinationKey in seenKeys, CombinationDuplicated);
      newKeys := newKeys + {combinationKey};
    } else {
      errors := PushIf(errors, rowsInGroup > 1, OneRowOnly);
    }
  }

  method CheckSku(known: Known, row: Row, seenSkus: set<string>) returns (errors: seq<Problem>, newSkus: set<string>)
    ensures errors == SkuProblems(known, row, seenSkus)
    ensures newSkus == seenSkus + (if row.sku != "" then {row.sku} else {})
  {
    errors, newSkus := [], seenSkus;
    if row.sku != "" {
      errors := PushIf(errors, row.sku in known.skus, SkuExists);
      errors := PushIf(errors, row.sku in seenSkus, SkuDuplicated);
      newSkus := newSkus + {row.sku};
    }
  }

  method CheckRow(text: Text, known: Known, category: Option<Category>, row: Row,
                  seenSkus: set<string>, seenKeys: set<string>, rowsInGroup: nat)
    returns (errors: seq<Problem>, newSkus: set<string>, newKeys: set<string>)
    requires category == CategoryOf(known, row)
    ensures errors == Problems(text, known, row, seenSkus, seenKeys, rowsInGroup)
    ensures newSkus == seenSkus + (if row.sku != "" then {row.sku} else {})
    ensures newKeys == seenKeys + (if UsesKeys(category) then {KeyOf(category.value.rules, row)} else {})
  {
    newKeys := seenKeys;
    errors := CheckFields(text, known, category, row);
    var skuErrors;
    skuErrors, newSkus := CheckSku(known, row, seenSkus);
    var ruleErrors: seq<Problem> := [];
    if category.Some? {
      ruleErrors, newKeys := CheckCategory(text, category.value.rules, row, seenKeys, rowsInGroup);
    }
    errors := errors + skuErrors + ruleErrors;
  }

  predicate UsesKeys(category: Option<Category>) {
    category.Some? && category.value.rules.variant != []
  }

  // ---------- What has been seen when a row is checked ----------

  ghost function SkusOfGroups(text: Text, rows: seq<Row>, n: nat): set<string> {
    set j | 0 <= j < |rows| && GroupOf(text, rows, j) < n && rows[j].sku != "" :: rows[j].sku
  }

  ghost predicate Positions(rows: seq<Row>, members: seq<nat>) {
    forall q :: 0 <= q < |members| ==> members[q] < |rows|
  }

  ghost function SkusAmong(rows: seq<Row>, members: seq<nat>, m: nat): set<string>
    requires Positions(rows, members) && m <= |members|
  {
    set q | 0 <= q < m && rows[members[q]].sku != "" :: rows[members[q]].sku
  }

  ghost function KeysAmong(rules: Rules, rows: seq<Row>, members: seq<nat>, m: nat): set<string>
    requires Positions(rows, members) && m <= |members|
  {
    set q | 0 <= q < m :: KeyOf(rules, rows[members[q]])
  }

  /** `members` are the rows of group n. */
  ghost predicate IsGroup(text: Text, rows: seq<Row>, n: nat, members: seq<nat>) {
    && n < |Keys(text, rows)|
    && (forall i :: i in members <==> 0 <= i < |rows| && GroupOf(text, rows, i) == n)
    && (forall p, q :: 0 <= p < q < |members| ==> members[p] < members[q])
    && members == Members(text, rows, Keys(text, rows)[n])
  }

  lemma GroupsAreGroups(text: Text, rows: seq<Row>, n: nat)
    requires n < |Keys(text, rows)|
    ensures IsGroup(text, rows, n, Members(text, rows, Keys(text, rows)[n]))
    ensures Members(text, rows, Keys(text, rows)[n]) != []
  {
    var members := Members(text, rows, Keys(text, rows)[n]);
    MembersMeaning(text, rows, Keys(text, rows)[n]);
    KeysMeaning(text, rows);
    PositionAt(Keys(text, rows), n);
    forall i | 0 <= i < |rows|
      ensures i in members <==> GroupOf(text, rows, i) == n
    {
      GroupOfMeaning(text, rows, i, i);
    }
    assert Keys(text, rows)[n] in Keys(text, rows);
    var i :| 0 <= i < |rows| && GroupKey(text, rows[i]) == Keys(text, rows)[n];
    assert i in members;
  }

  /** The rows of group n before its m-th are its first m members. */
  lemma EarlierMembers(text: Text, rows: seq<Row>, n: nat, members: seq<nat>, m: nat, j: nat)
    requires IsGroup(text, rows, n, members) && m < |members| && j < |rows|
    ensures j < members[m] && GroupOf(text, rows, j) == n <==> exists q :: 0 <= q < m && members[q] == j
  {
  }

  lemma {:induction false} GroupPositions(text: Text, rows: seq<Row>, n: nat, members: seq<nat>)
    requires IsGroup(text, rows, n, members)
    ensures Positions(rows, members)
  {
    assert forall q :: 0 <= q < |members| ==> members[q] in members;
  }

  lemma {:induction false} SkusSeen(text: Text, rows: seq<Row>, n: nat, members: seq<nat>, m: nat)
    requires IsGroup(text, rows, n, members) && m < |members|
    ensures Positions(rows, members)
    ensures SkusBefore(text, rows, members[m]) == SkusOfGroups(text, rows, n) + SkusAmong(rows, members, m)
  {
    GroupPositions(text, rows, n, members);
    var i := members[m];
    assert i in members;
    forall s | s in SkusBefore(text, rows, i)
      ensures s in SkusOfGroups(text, rows, n) + SkusAmong(rows, members, m)
    {
      var j :| 0 <= j < |rows| && CheckedBefore(text, rows, j, i) && rows[j].sku != "" && rows[j].sku == s;
      EarlierMembers(text, rows, n, members, m, j);
    }
    forall s | s in SkusAmong(rows, members, m)
      ensures s in SkusBefore(text, rows, i)
    {
      var q :| 0 <= q < m && rows[members[q]].sku != "" && rows[members[q]].sku == s;
      EarlierMembers(text, rows, n, members, m, members[q]);
      assert CheckedBefore(text, rows, members[q], i);
    }
  }

  lemma SkusOfNextGroup(text: Text, rows: seq<Row>, n: nat, members: seq<nat>)
    requires IsGroup(text, rows, n, members)
    ensures Positions(rows, members)
    ensures SkusOfGroups(text, rows, n + 1) == SkusOfGroups(text, rows, n) + SkusAmong(rows, members, |members|)
  {
    assert forall q :: 0 <= q < |members| ==> members[q] in members;
    forall s | s in SkusOfGroups(text, rows, n + 1)
      ensures s in SkusOfGroups(text, rows, n) + SkusAmong(rows, members, |members|)
    {
      var j :| 0 <= j < |rows| && GroupOf(text, rows, j) < n + 1 && rows[j].sku != "" && rows[j].sku == s;
      if GroupOf(text, rows, j) == n {
        assert j in members;
        var q :| 0 <= q < |members| && members[q] == j;
      }
    }
  }

  lemma {:induction false} KeysSeen(text: Text, known: Known, rows: seq<Row>, n: nat, members: seq<nat>, m: nat)
    requires IsGroup(text, rows, n, members) && m < |members|
    ensures Positions(rows, members)
    ensures var category := CategoryOf(known, rows[members[m]]);
            KeysBefore(text, known, rows, members[m]) ==
            if UsesKeys(category) then KeysAmong(category.value.rules, rows, members, m) else {}
  {
    GroupPositions(text, rows, n, members);
    var i := members[m];
    assert i in members;
    var category := CategoryOf(known, rows[i]);
    if UsesKeys(category) {
      var rules := category.value.rules;
      forall s | s in KeysBefore(text, known, rows, i)
        ensures s in KeysAmong(rules, rows, members, m)
      {
        var j :| 0 <= j < i && GroupKey(text, rows[j]) == GroupKey(text, rows[i]) && KeyOf(rules, rows[j]) == s;
        GroupOfMeaning(text, rows, i, j);
        EarlierMembers(text, rows, n, members, m, j);
      }
      forall s | s in KeysAmong(rules, rows, members, m)
        ensures s in KeysBefore(text, known, rows, i)
      {
        var q :| 0 <= q < m && KeyOf(rules, rows[members[q]]) == s;
        EarlierMembers(text, rows, n, members, m, members[q]);
        GroupOfMeaning(text, rows, i, members[q]);
      }
    }
  }

  /** All rows of a group have the category of its first row. */
  lemma OneCategory(text: Text, known: Known, rows: seq<Row>, n: nat, members: seq<nat>, m: nat)
    requires IsGroup(text, rows, n, members) && m < |members| && SlugsPlain(rows)
    ensures members[0] < |rows| && members[m] < |rows|
    ensures CategoryOf(known, rows[members[m]]) == CategoryOf(known, rows[members[0]])
  {
    assert members[0] in members && members[m] in members;
    GroupOfMeaning(text, rows, members[0], members[m]);
    GroupKeyMeaning(text, rows[members[0]], rows[members[m]]);
  }

  // ---------- The loops of validateRows ----------

  /** What the code has collected when it reaches member m of group n. */
  ghost predicate Collected(text: Text, known: Known, rows: seq<Row>, n: nat, members: seq<nat>, m: nat,
                            skus: set<string>, keys: set<string>)
    requires Positions(rows, members) && members != [] && m <= |members|
  {
    var category := CategoryOf(known, rows[members[0]]);
    && skus == SkusOfGroups(text, rows, n) + SkusAmong(rows, members, m)
    && keys == if UsesKeys(category) then KeysAmong(category.value.rules, rows, members, m) else {}
  }

  /** In terms of what has been collected, these are a row's problems. */
  lemma ProblemsInGroup(text: Text, known: Known, rows: seq<Row>, n: nat, members: seq<nat>, m: nat,
                        skus: set<string>, keys: set<string>)
    requires SlugsPlain(rows) && IsGroup(text, rows, n, members) && Positions(rows, members) && m < |members|
    requires Collected(text, known, rows, n, members, m, skus, keys)
    ensures var i := members[m];
            && CategoryOf(known, rows[i]) == CategoryOf(known, rows[members[0]])
            && RowProblems(text, known, rows, i) == Problems(text, known, rows[i], skus, keys, |members|)
  {
    OneCategory(text, known, rows, n, members, m);
    SkusSeen(text, rows, n, members, m);
    KeysSeen(text, known, rows, n, members, m);
    assert members[m] in members;
    GroupSize(text, known, rows, n, members, members[m]);
    assert skus == SkusBefore(text, rows, members[m]) && keys == KeysBefore(text, known, rows, members[m]);
  }

  lemma CollectedNext(text: Text, known: Known, rows: seq<Row>, n: nat, members: seq<nat>, m: nat,
                      skus: set<string>, keys: set<string>, newSkus: set<string>, newKeys: set<string>)
    requires Positions(rows, members) && m < |members|
    requires Collected(text, known, rows, n, members, m, skus, keys)
    requires var (row, category) := (rows[members[m]], CategoryOf(known, rows[members[0]]));
             && newSkus == skus + (if row.sku != "" then {row.sku} else {})
             && newKeys == keys + (if UsesKeys(category) then {KeyOf(category.value.rules, row)} else {})
    ensures Collected(text, known, rows, n, members, m + 1, newSkus, newKeys)
  {
    var category := CategoryOf(known, rows[members[0]]);
  }

  /** One pass of the inner loop. */
  method CheckMember(text: Text, known: Known, rows: seq<Row>, ghost n: nat, members: seq<nat>, m: nat,
                     category: Option<Category>, skus: set<string>, keys: set<string>)
    returns (entry: Checked, newSkus: set<string>, newKeys: set<string>)
    requires SlugsPlain(rows) && IsGroup(text, rows, n, members) && Positions(rows, members) && m < |members|
    requires category == CategoryOf(known, rows[members[0]]) && Collected(text, known, rows, n, members, m, skus, keys)
    ensures entry == Checked(members[m] + 2, rows[members[m]], RowProblems(text, known, rows, members[m]))
    ensures Collected(text, known, rows, n, members, m + 1, newSkus, newKeys)
  {
    ProblemsInGroup(text, known, rows, n, members, m, skus, keys);
    var i := members[m];
    var errors;
    errors, newSkus, newKeys := CheckRow(text, known, category, rows[i], skus, keys, |members|);
    CollectedNext(text, known, rows, n, members, m, skus, keys, newSkus, newKeys);
    entry := Checked(i + 2, rows[i], errors);
  }

  /** The inner loop: the rows of one group, in file order. */
  method CheckGroup(text: Text, known: Known, rows: seq<Row>, ghost n: nat, members: seq<nat>, seenSkus: set<string>)
    returns (results: seq<Checked>, newSkus: set<string>)
    requires SlugsPlain(rows) && IsGroup(text, rows, n, members) && members != [] && Positions(rows, members)
    requires seenSkus == SkusOfGroups(text, rows, n)
    ensures Picks(results, members, Report(text, known, rows))
    ensures newSkus == SkusOfGroups(text, rows, n + 1)
  {
    results, newSkus := [], seenSkus;
    var seenKeys: set<string> := {};
    var category := CategoryOf(known, rows[members[0]]);
    ghost var report := Report(text, known, rows);
    for m := 0 to |members|
      invariant Picks(results, members[..m], report)
      invariant Collected(text, known, rows, n, members, m, newSkus, seenKeys)
    {
      var entry;
      entry, newSkus, seenKeys := CheckMember(text, known, rows, n, members, m, category, newSkus, seenKeys);
      results := results + [entry];
      assert members[..m + 1] == members[..m] + [members[m]];
    }
    assert members[..|members|] == members;
    SkusOfNextGroup(text, rows, n, members);
  }

  lemma PicksConcat(results: seq<Checked>, order: seq<nat>, more: seq<Checked>, next: seq<nat>, report: seq<Checked>)
    requires Picks(results, order, report) && Picks(more, next, report)
    ensures Picks(results + more, order + next, report)
  {
  }

  lemma GroupSize(text: Text, known: Known, rows: seq<Row>, n: nat, members: seq<nat>, i: nat)
    requires IsGroup(text, rows, n, members) && i in members
    ensures i < |rows| && Members(text, rows, GroupKey(text, rows[i])) == members
  {
    GroupOfMeaning(text, rows, i, i);
  }

  lemma {:induction false} EveryRowChecked(text: Text, rows: seq<Row>)
    ensures var order := CheckOrder(text, rows, |Keys(text, rows)|);
            Distinct(order) && forall i :: 0 <= i < |rows| ==> i in order
  {
    CheckOrderMeaning(text, rows, |Keys(text, rows)|);
    forall i | 0 <= i < |rows|
      ensures i in CheckOrder(text, rows, |Keys(text, rows)|)
    {
      GroupOfMeaning(text, rows, i, i);
    }
  }

  method ValidateRows(text: Text, known: Known, rows: seq<Row>) returns (results: seq<Checked>)
    requires SlugsPlain(rows)
    ensures results == Report(text, known, rows)
  {
    var groups := GroupRows(text, rows);
    var seenSkusInFile: set<string> := {};
    results := [];
    for n := 0 to |groups.keys|
      invariant Picks(results, CheckOrder(text, rows, n), Report(text, known, rows))
      invariant seenSkusInFile == SkusOfGroups(text, rows, n)
    {
      GroupsAreGroups(text, rows, n);
      var groupRows := groups.members[groups.keys[n]];
      GroupPositions(text, rows, n, groupRows);
      var checked;
      checked, seenSkusInFile := CheckGroup(text, known, rows, n, groupRows, seenSkusInFile);
      PicksConcat(results, CheckOrder(text, rows, n), checked, groupRows, Report(text, known, rows));
      results := results + checked;
    }
    EveryRowChecked(text, rows);
    SortingRestoresFileOrder(results, CheckOrder(text, rows, |groups.keys|), Report(text, known, rows));
    results := Sort(RowNumberLeq, results);
  }
}
