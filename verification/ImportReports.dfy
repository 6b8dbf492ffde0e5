/** The report on an uploaded file, problem by problem: exactly when each is reported, and in which order. */
module ImportReports {
  import opened VariantKeys
  import opened ImportRows
  import opened ImportValidation
  import opened ImportTheorems

  // ---------- Which rows are checked before which ----------

  /** Row f is the first of the file with the product of row i. */
  ghost predicate FirstWith(text: Text, rows: seq<Row>, f: nat, i: nat) {
    && f < |rows| && i < |rows| && GroupKey(text, rows[f]) == GroupKey(text, rows[i])
    && forall j :: 0 <= j < f ==> GroupKey(text, rows[j]) != GroupKey(text, rows[i])
  }

  /** Groups are numbered in the order in which their first rows appear. */
  lemma {:induction false} KeysInFileOrder(text: Text, rows: seq<Row>, f: nat, g: nat)
    requires FirstWith(text, rows, f, f) && FirstWith(text, rows, g, g) && f < g
    ensures Position(Keys(text, rows), GroupKey(text, rows[f])) < Position(Keys(text, rows), GroupKey(text, rows[g]))
  {
    var (init, last) := (rows[..|rows| - 1], |rows| - 1);
    KeysMeaning(text, init);
    assert forall j :: 0 <= j < last ==> init[j] == rows[j];
    assert GroupKey(text, init[f]) in Keys(text, init);
    KeptPosition(Keys(text, init), GroupKey(text, rows[last]), GroupKey(text, rows[f]));
    if g < last {
      KeysInFileOrder(text, init, f, g);
      assert GroupKey(text, init[g]) in Keys(text, init);
      KeptPosition(Keys(text, init), GroupKey(text, rows[last]), GroupKey(text, rows[g]));
    } else {
      assert GroupKey(text, rows[last]) !in Keys(text, init);
      NewPosition(Keys(text, init), GroupKey(text, rows[last]));
      PositionMeaning(Keys(text, init), GroupKey(text, rows[f]));
    }
  }

  lemma {:induction false} KeptPosition(keys: seq<string>, more: string, key: string)
    requires key in keys
    ensures Position(keys + [more], key) == Position(keys, key)
  {
    if keys[0] == key {
    } else {
      assert (keys + [more])[1..] == keys[1..] + [more];
      KeptPosition(keys[1..], more, key);
    }
  }

  lemma {:induction false} NewPosition(keys: seq<string>, key: string)
    requires key !in keys
    ensures Position(keys + [key], key) == |keys|
  {
    if keys == [] {
    } else {
      assert (keys + [key])[1..] == keys[1..] + [key];
      NewPosition(keys[1..], key);
    }
  }

  /** A row is checked before another if its product appears first, or if it comes first among rows of one product. */
  lemma {:induction false} CheckedBeforeMeans(text: Text, rows: seq<Row>, j: nat, i: nat, f: nat, g: nat)
    requires FirstWith(text, rows, f, j) && FirstWith(text, rows, g, i)
    ensures CheckedBefore(text, rows, j, i) <==> f < g || (f == g && j < i)
  {
    GroupOfMeaning(text, rows, j, i);
    if f < g {
      KeysInFileOrder(text, rows, f, g);
    } else if g < f {
      KeysInFileOrder(text, rows, g, f);
    }
  }

  // ---------- When each problem is reported ----------

  ghost predicate Blank(row: Row, key: string) {
    key !in row.attributes || row.attributes[key] == ""
  }

  ghost predicate PositiveNumber(text: Text, s: string) {
    s != "" && match text.number(s)
               case NaN => false
               case Infinite(positive) => positive
               case Finite(x) => 0.0 < x
  }

  const UNITS: set<string> := {"PIECE", "METER", "ROLL", "KILOGRAM", "PACKAGE", "PARCEL", "SHEET"}

  /** What is wrong with the row's own fields. */
  ghost predicate FieldProblem(text: Text, known: Known, row: Row, x: Problem) {
    match x
    case SkuRequired => row.sku == ""
    case NameRequired => row.productName == ""
    case CategoryRequired => row.categorySlug == ""
    case CategoryNotFound => row.categorySlug == "" || row.categorySlug !in known.categories
    case BrandNotFound => row.brandSlug.Some? && row.brandSlug.value !in known.brands
    case BadPrice => !PositiveNumber(text, row.price)
    case BadSellingUnit => row.sellingUnit.Some? && row.sellingUnit.value !in UNITS
    case BadWeight => row.weight.Some? && text.number(row.weight.value) == NaN
    case SkuExists => row.sku != "" && row.sku in known.skus
    case _ => false
  }

  /** What is wrong with its attribute values, by the rules of its category. */
  ghost predicate ValueProblem(text: Text, rules: Rules, row: Row, x: Problem) {
    match x
    case MissingVariantValue(key) => Blank(row, key) && exists r :: r in rules.variant && r.attribute.key == key
    case MissingValue(key) => Blank(row, key) && exists r :: r in rules.info && r.attribute.key == key && r.isRequired
    case InvalidValue(key) =>
      && !Blank(row, key)
      && exists r :: (r in rules.variant || r in rules.info) && r.attribute.key == key
                     && !ValidValue(text, r.attribute.kind, row.attributes[key])
    case _ => false
  }

  /** What is wrong between this row and the others. */
  ghost predicate FileProblem(text: Text, known: Known, rows: seq<Row>, i: nat, x: Problem)
    requires i < |rows|
  {
    var (row, category) := (rows[i], CategoryOf(known, rows[i]));
    match x
    case SkuDuplicated =>
      row.sku != "" && exists j: nat :: j < |rows| && CheckedBefore(text, rows, j, i) && rows[j].sku == row.sku
    case CombinationDuplicated =>
      && category.Some? && category.value.rules.variant != []
      && exists j: nat :: j < i && GroupKey(text, rows[j]) == GroupKey(text, row)
                          && KeyOf(category.value.rules, rows[j]) == KeyOf(category.value.rules, row)
    case OneRowOnly =>
      && category.Some? && category.value.rules.variant == []
      && exists j: nat :: j < |rows| && j != i && GroupKey(text, rows[j]) == GroupKey(text, row)
    case _ => false
  }

  lemma {:induction false} VariantProblemsAre(text: Text, rules: seq<Rule>, row: Row, x: Problem)
    ensures x in VariantProblems(text, rules, row) <==> exists r :: r in rules && x in VariantRuleProblems(text, r, row)
  {
    if rules == [] {
    } else {
      var (init, last) := (rules[..|rules| - 1], rules[|rules| - 1]);
      assert rules == init + [last];
      VariantProblemsAre(text, init, row, x);
    }
  }

  lemma {:induction false} InfoProblemsAre(text: Text, rules: seq<Rule>, row: Row, x: Problem)
    ensures x in InfoProblems(text, rules, row) <==> exists r :: r in rules && x in InfoRuleProblems(text, r, row)
  {
    if rules == [] {
    } else {
      var (init, last) := (rules[..|rules| - 1], rules[|rules| - 1]);
      assert rules == init + [last];
      InfoProblemsAre(text, init, row, x);
    }
  }

  lemma {:induction false} ValueProblemsAre(text: Text, rules: Rules, row: Row, x: Problem)
    ensures x in VariantProblems(text, rules.variant, row) + InfoProblems(text, rules.info, row) <==>
            ValueProblem(text, rules, row, x)
  {
    VariantProblemsAre(text, rules.variant, row, x);
    InfoProblemsAre(text, rules.info, row, x);
    if ValueProblem(text, rules, row, x) {
      match x
      case MissingVariantValue(key) => var r :| r in rules.variant && r.attribute.key == key;
        assert x in VariantRuleProblems(text, r, row);
      case MissingValue(key) => var r :| r in rules.info && r.attribute.key == key && r.isRequired;
        assert x in InfoRuleProblems(text, r, row);
      case InvalidValue(key) =>
        var r :| (r in rules.variant || r in rules.info) && r.attribute.key == key
          && !ValidValue(text, r.attribute.kind, row.attributes[key]);
        assert x in VariantRuleProblems(text, r, row) && x in InfoRuleProblems(text, r, row);
    }
  }

  lemma {:induction false} NameProblemsAre(known: Known, row: Row, x: Problem)
    ensures x in NameProblems(known, row) <==>
            || (x == SkuRequired && row.sku == "") || (x == NameRequired && row.productName == "")
            || (x == CategoryRequired && row.categorySlug == "")
            || (x == CategoryNotFound && (row.categorySlug == "" || row.categorySlug !in known.categories))
  {
  }

  lemma {:induction false} OtherProblemsAre(text: Text, known: Known, row: Row, x: Problem)
    ensures x in ValueProblems(text, known, row) <==>
            || (x == BrandNotFound && row.brandSlug.Some? && row.brandSlug.value !in known.brands)
            || (x == BadPrice && !PositiveNumber(text, row.price))
            || (x == BadSellingUnit && row.sellingUnit.Some? && row.sellingUnit.value !in UNITS)
            || (x == BadWeight && row.weight.Some? && text.number(row.weight.value) == NaN)
  {
    assert forall s :: s in SELLING_UNITS <==> s in UNITS;
  }

  lemma {:induction false} FieldProblemsAre(text: Text, known: Known, row: Row, x: Problem)
    ensures x in FieldProblems(text, known, row) <==> FieldProblem(text, known, row, x) && x != SkuExists
  {
    NameProblemsAre(known, row, x);
    OtherProblemsAre(text, known, row, x);
  }

  lemma {:induction false} SkuProblemsAre(text: Text, known: Known, rows: seq<Row>, i: nat, x: Problem)
    requires i < |rows|
    ensures x in SkuProblems(known, rows[i], SkusBefore(text, rows, i)) <==>
            || (x == SkuExists && FieldProblem(text, known, rows[i], x))
            || (x == SkuDuplicated && FileProblem(text, known, rows, i, x))
  {
  }

  lemma {:induction false} OthersInGroup(text: Text, rows: seq<Row>, i: nat)
    requires i < |rows|
    ensures |Members(text, rows, GroupKey(text, rows[i]))| > 1 <==>
            exists j: nat :: j < |rows| && j != i && GroupKey(text, rows[j]) == GroupKey(text, rows[i])
  {
    if j: nat :| j < |rows| && j != i && GroupKey(text, rows[j]) == GroupKey(text, rows[i]) {
      if i < j {
        TwoMembers(text, rows, i, j);
      } else {
        TwoMembers(text, rows, j, i);
      }
    } else {
      AloneInGroup(text, rows, i);
    }
  }

  lemma {:induction false} RuleProblemsAre(text: Text, known: Known, rows: seq<Row>, i: nat, x: Problem)
    requires i < |rows| && CategoryOf(known, rows[i]).Some?
    ensures var rules := CategoryOf(known, rows[i]).value.rules;
            x in RuleProblems(text, rules, rows[i], KeysBefore(text, known, rows, i),
                              |Members(text, rows, GroupKey(text, rows[i]))|) <==>
            || ValueProblem(text, rules, rows[i], x)
            || (x != SkuDuplicated && FileProblem(text, known, rows, i, x))
  {
    ValueProblemsAre(text, CategoryOf(known, rows[i]).value.rules, rows[i], x);
    KeySeenBefore(text, known, rows, i);
    OthersInGroup(text, rows, i);
  }

  /** A problem stands in the report on a row exactly when the row has it. */
  ghost predicate HasProblem(text: Text, known: Known, rows: seq<Row>, i: nat, x: Problem)
    requires i < |rows|
  {
    || FieldProblem(text, known, rows[i], x) || FileProblem(text, known, rows, i, x)
    || (CategoryOf(known, rows[i]).Some? && ValueProblem(text, CategoryOf(known, rows[i]).value.rules, rows[i], x))
  }

  lemma {:induction false} ReportedIff(text: Text, known: Known, rows: seq<Row>, i: nat, x: Problem)
    requires i < |rows|
    ensures x in RowProblems(text, known, rows, i) <==> HasProblem(text, known, rows, i, x)
  {
    FieldProblemsAre(text, known, rows[i], x);
    SkuProblemsAre(text, known, rows, i, x);
    if CategoryOf(known, rows[i]).Some? {
      RuleProblemsAre(text, known, rows, i, x);
    }
  }

  predicate IsWhole(x: real, n: int) {
    x == n as real
  }

  /** Which texts are values of an attribute. */
  lemma ValidValueIff(text: Text, kind: AttributeKind, value: string)
    ensures ValidValue(text, kind, value) <==>
            match kind
            case TEXT => true
            case BOOLEAN => value in {"true", "false"}
            case SELECT(options) => exists k :: 0 <= k < |options| && options[k] == value
            case DECIMAL_UNIT => text.number(value).Finite? || text.number(value).Infinite?
            case INTEGER_UNIT => text.number(value).Finite? && exists n :: IsWhole(text.number(value).value, n)
  {
    if kind == INTEGER_UNIT && text.number(value).Finite? {
      var x := text.number(value).value;
      assert x.Floor as real == x ==> IsWhole(x, x.Floor);
      if n :| IsWhole(x, n) {
        assert (n as real).Floor == n;
      }
    }
  }

  /** The values that enter a combination key: one for every attribute the row gives a value for. */
  lemma {:induction false} ValuesAre(rules: seq<Rule>, row: Row, v: AttributeValue)
    ensures v in ValuesOf(rules, row) <==>
            exists r :: r in rules && !Blank(row, r.attribute.key)
                        && v == AttributeValue(r.attribute.id, row.attributes[r.attribute.key])
  {
    if rules == [] {
    } else {
      var (init, last) := (rules[..|rules| - 1], rules[|rules| - 1]);
      assert rules == init + [last];
      ValuesAre(init, row, v);
    }
  }

  // ---------- Which rows are valid ----------

  /** The row has a value for the rule's attribute, and one that fits. */
  ghost predicate Meets(text: Text, r: Rule, row: Row) {
    !Blank(row, r.attribute.key) && ValidValue(text, r.attribute.kind, row.attributes[r.attribute.key])
  }

  /** Everything validation asks of a row on its own. */
  ghost predicate InOrder(text: Text, known: Known, row: Row) {
    && row.sku != "" && row.productName != "" && row.categorySlug != "" && row.categorySlug in known.categories
    && (row.brandSlug.Some? ==> row.brandSlug.value in known.brands)
    && PositiveNumber(text, row.price)
    && (row.sellingUnit.Some? ==> row.sellingUnit.value in UNITS)
    && (row.weight.Some? ==> text.number(row.weight.value) != NaN)
    && var rules := known.categories[row.categorySlug].rules;
       && (forall r :: r in rules.variant ==> Meets(text, r, row))
       && (forall r :: r in rules.info ==> Meets(text, r, row) || (!r.isRequired && Blank(row, r.attribute.key)))
  }

  lemma {:induction false} FieldsOkIff(text: Text, known: Known, row: Row)
    ensures FieldsOk(text, known, row) && row.sku != "" <==> InOrder(text, known, row)
  {
    assert forall s :: s in SELLING_UNITS <==> s in UNITS;
    if CategoryOf(known, row).Some? {
      var rules := CategoryOf(known, row).value.rules;
      NoVariantProblems(text, rules.variant, row);
      NoInfoProblems(text, rules.info, row);
    }
  }

  lemma {:induction false} NoVariantProblems(text: Text, rules: seq<Rule>, row: Row)
    ensures VariantProblems(text, rules, row) == [] <==> forall r :: r in rules ==> Meets(text, r, row)
  {
    if rules == [] {
    } else {
      var (init, last) := (rules[..|rules| - 1], rules[|rules| - 1]);
      NoVariantProblems(text, init, row);
      assert rules == init + [last];
      assert VariantRuleProblems(text, last, row) == [] <==> Meets(text, last, row);
    }
  }

  lemma {:induction false} NoInfoProblems(text: Text, rules: seq<Rule>, row: Row)
    ensures InfoProblems(text, rules, row) == [] <==>
            forall r :: r in rules ==> Meets(text, r, row) || (!r.isRequired && Blank(row, r.attribute.key))
  {
    if rules == [] {
    } else {
      var (init, last) := (rules[..|rules| - 1], rules[|rules| - 1]);
      NoInfoProblems(text, init, row);
      assert rules == init + [last];
      assert InfoRuleProblems(text, last, row) == [] <==>
             Meets(text, last, row) || (!last.isRequired && Blank(row, last.attribute.key));
    }
  }

  /** A row is VALID exactly when it is in order on its own, its SKU is new to the catalogue and to the rows checked
      before it, and its combination is new to its product, or it is its product's only row. */
  lemma {:induction false} ValidIff(text: Text, known: Known, rows: seq<Row>, i: nat)
    requires i < |rows|
    ensures IsValid(text, known, rows, i) <==>
            && InOrder(text, known, rows[i]) && rows[i].sku !in known.skus
            && !FileProblem(text, known, rows, i, SkuDuplicated)
            && !FileProblem(text, known, rows, i, CombinationDuplicated)
            && !FileProblem(text, known, rows, i, OneRowOnly)
  {
    ValidMeans(text, known, rows, i);
    FieldsOkIff(text, known, rows[i]);
    SkuSeenBefore(text, known, rows, i);
    if CategoryOf(known, rows[i]).Some? {
      KeySeenBefore(text, known, rows, i);
      OthersInGroup(text, rows, i);
    }
  }

  lemma {:induction false} SkuSeenBefore(text: Text, known: Known, rows: seq<Row>, i: nat)
    requires i < |rows|
    ensures rows[i].sku != "" ==>
              (rows[i].sku in SkusBefore(text, rows, i) <==> FileProblem(text, known, rows, i, SkuDuplicated))
  {
  }

  lemma {:induction false} KeySeenBefore(text: Text, known: Known, rows: seq<Row>, i: nat)
    requires i < |rows| && CategoryOf(known, rows[i]).Some?
    ensures var rules := CategoryOf(known, rows[i]).value.rules;
            rules.variant != [] ==>
              (KeyOf(rules, rows[i]) in KeysBefore(text, known, rows, i) <==>
                 FileProblem(text, known, rows, i, CombinationDuplicated))
  {
  }

  // ---------- The order of the report ----------

  function Rank(x: Problem): nat {
    match x
    case SkuRequired => 0
    case NameRequired => 1
    case CategoryRequired => 2
    case CategoryNotFound => 3
    case BrandNotFound => 4
    case BadPrice => 5
    case BadSellingUnit => 6
    case BadWeight => 7
    case SkuExists => 8
    case SkuDuplicated => 9
    case MissingVariantValue(_) | InvalidValue(_) | MissingValue(_) => 10
    case CombinationDuplicated | OneRowOnly => 11
  }

  ghost predicate Ranked(s: seq<Problem>, low: nat, high: nat) {
    && (forall p :: 0 <= p < |s| ==> low <= Rank(s[p]) <= high)
    && (forall p, q :: 0 <= p < q < |s| ==> Rank(s[p]) <= Rank(s[q]))
  }

  lemma RankedConcat(a: seq<Problem>, b: seq<Problem>, low: nat, mid: nat, next: nat, high: nat)
    requires Ranked(a, low, mid) && Ranked(b, next, high) && low <= mid <= next <= high
    ensures Ranked(a + b, low, high)
  {
  }

  lemma {:induction false} VariantProblemsRanked(text: Text, rules: seq<Rule>, row: Row)
    ensures Ranked(VariantProblems(text, rules, row), 10, 10)
  {
    if rules == [] {
    } else {
      VariantProblemsRanked(text, rules[..|rules| - 1], row);
    }
  }

  lemma {:induction false} InfoProblemsRanked(text: Text, rules: seq<Rule>, row: Row)
    ensures Ranked(InfoProblems(text, rules, row), 10, 10)
  {
    if rules == [] {
    } else {
      InfoProblemsRanked(text, rules[..|rules| - 1], row);
    }
  }

  lemma RankedSnoc(a: seq<Problem>, condition: bool, x: Problem, low: nat, mid: nat)
    requires Ranked(a, low, mid) && low <= mid <= Rank(x)
    ensures Ranked(a + When(condition, x), low, Rank(x))
  {
  }

  lemma {:induction false} NamesRanked(known: Known, row: Row)
    ensures Ranked(NameProblems(known, row), 0, 3)
  {
    var first := When(row.sku == "", SkuRequired);
    var second := first + When(row.productName == "", NameRequired);
    var third := second + When(row.categorySlug == "", CategoryRequired);
    RankedSnoc(first, row.productName == "", NameRequired, 0, 0);
    RankedSnoc(second, row.categorySlug == "", CategoryRequired, 0, 1);
    RankedSnoc(third, CategoryOf(known, row).None?, CategoryNotFound, 0, 2);
  }

  lemma {:induction false} ValuesRanked(text: Text, known: Known, row: Row)
    ensures Ranked(ValueProblems(text, known, row), 4, 7)
  {
    var first := When(row.brandSlug.Some? && row.brandSlug.value !in known.brands, BrandNotFound);
    var second := first + When(!PriceOk(text, row), BadPrice);
    var badUnit := row.sellingUnit.Some? && row.sellingUnit.value !in SELLING_UNITS;
    RankedSnoc(first, !PriceOk(text, row), BadPrice, 4, 4);
    RankedSnoc(second, badUnit, BadSellingUnit, 4, 5);
    RankedSnoc(second + When(badUnit, BadSellingUnit), row.weight.Some? && text.number(row.weight.value) == NaN,
               BadWeight, 4, 6);
  }

  lemma FieldsRanked(text: Text, known: Known, row: Row)
    ensures Ranked(FieldProblems(text, known, row), 0, 7)
  {
    NamesRanked(known, row);
    ValuesRanked(text, known, row);
    RankedConcat(NameProblems(known, row), ValueProblems(text, known, row), 0, 3, 4, 7);
  }

  lemma {:induction false} RulesRanked(text: Text, rules: Rules, row: Row, seenKeys: set<string>, rowsInGroup: nat)
    ensures Ranked(RuleProblems(text, rules, row, seenKeys, rowsInGroup), 10, 11)
  {
    var (variant, info) := (VariantProblems(text, rules.variant, row), InfoProblems(text, rules.info, row));
    VariantProblemsRanked(text, rules.variant, row);
    InfoProblemsRanked(text, rules.info, row);
    RankedConcat(variant, info, 10, 10, 10, 10);
    if rules.variant != [] {
      RankedSnoc(variant + info, KeyOf(rules, row) in seenKeys, CombinationDuplicated, 10, 10);
    } else {
      RankedSnoc(variant + info, rowsInGroup > 1, OneRowOnly, 10, 10);
    }
  }

  /** Problems stand in a fixed order: SKU, name, category, brand, price, unit, weight, SKU clashes, attribute values,
      and last what concerns the product as a whole. */
  lemma {:induction false} ReportIsRanked(text: Text, known: Known, rows: seq<Row>, i: nat)
    requires i < |rows|
    ensures Ranked(RowProblems(text, known, rows, i), 0, 11)
  {
    var (row, sku) := (rows[i], SkuProblems(known, rows[i], SkusBefore(text, rows, i)));
    FieldsRanked(text, known, row);
    RankedConcat(FieldProblems(text, known, row), sku, 0, 7, 8, 9);
    if CategoryOf(known, row).Some? {
      var (keys, n) := (KeysBefore(text, known, rows, i), |Members(text, rows, GroupKey(text, row))|);
      var rules := CategoryOf(known, row).value.rules;
      RulesRanked(text, rules, row, keys, n);
      RankedConcat(FieldProblems(text, known, row) + sku, RuleProblems(text, rules, row, keys, n), 0, 9, 10, 11);
    }
  }
}
