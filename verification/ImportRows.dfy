/** Import rows: the checks one row goes through, and the groups rows form. */
module ImportRows {
  import opened Common
  import opened VariantKeys

  // ---------- Catalogue rules ----------

  datatype AttributeKind = TEXT | SELECT(options: seq<string>) | DECIMAL_UNIT | INTEGER_UNIT | BOOLEAN

  datatype Attribute = Attribute(id: string, key: string, kind: AttributeKind)

  datatype Rule = Rule(attribute: Attribute, isRequired: bool)

  /** getCategoryAttributeRules: variant-creating attributes and informational ones. */
  datatype Rules = Rules(variant: seq<Rule>, info: seq<Rule>)

  datatype Category = Category(id: nat, rules: Rules)

  /** What JavaScript's Number(text) yields. */
  datatype JsNumber = NaN | Infinite(positive: bool) | Finite(value: real)

  /** Text functions the code gets from JavaScript; `letter` says which characters are letters or digits. */
  datatype Text = Text(
    number: string -> JsNumber, trim: string -> string, lower: string -> string, upper: string -> string,
    letter: char -> bool)

  /** The part of the catalogue validation looks at. */
  datatype Known = Known(categories: map<string, Category>, brands: set<string>, skus: set<string>)

  /** A CSV record after normalizeRow. */
  datatype Row = Row(
    sku: string, productName: string, categorySlug: string, brandSlug: Option<string>, price: string,
    sellingUnit: Option<string>, weight: Option<string>, attributes: map<string, string>)

  datatype Problem =
    | SkuRequired | NameRequired | CategoryRequired | CategoryNotFound | BrandNotFound | BadPrice | BadSellingUnit
    | BadWeight | SkuExists | SkuDuplicated | MissingVariantValue(key: string) | InvalidValue(key: string)
    | MissingValue(key: string) | CombinationDuplicated | OneRowOnly

  const SELLING_UNITS: seq<string> := ["PIECE", "METER", "ROLL", "KILOGRAM", "PACKAGE", "PARCEL", "SHEET"]

  /** assertValidAttributeValue */
  predicate ValidValue(text: Text, kind: AttributeKind, value: string) {
    match kind
    case SELECT(options) => value in options
    case DECIMAL_UNIT => text.number(value) != NaN
    case INTEGER_UNIT =>
      text.number(value).Finite? && text.number(value).value.Floor as real == text.number(value).value
    case BOOLEAN => value == "true" || value == "false"
    case TEXT => true
  }

  predicate HasValue(row: Row, key: string) {
    key in row.attributes && row.attributes[key] != ""
  }

  function CategoryOf(known: Known, row: Row): Option<Category> {
    var slug := row.categorySlug;
    if slug != "" && slug in known.categories then Some(known.categories[slug]) else None
  }

  predicate PriceOk(text: Text, row: Row) {
    row.price != "" &&
    match text.number(row.price)
    case NaN => false
    case Infinite(positive) => positive
    case Finite(value) => value > 0.0
  }

  function When(condition: bool, problem: Problem): seq<Problem> {
    if condition then [problem] else []
  }

  /** The checks made on the row alone, in the order the code reports them. */
  function FieldProblems(text: Text, known: Known, row: Row): seq<Problem> {
    NameProblems(known, row) + ValueProblems(text, known, row)
  }

  function NameProblems(known: Known, row: Row): seq<Problem> {
    When(row.sku == "", SkuRequired) + When(row.productName == "", NameRequired)
    + When(row.categorySlug == "", CategoryRequired) + When(CategoryOf(known, row).None?, CategoryNotFound)
  }

  function ValueProblems(text: Text, known: Known, row: Row): seq<Problem> {
    When(row.brandSlug.Some? && row.brandSlug.value !in known.brands, BrandNotFound)
    + When(!PriceOk(text, row), BadPrice)
    + When(row.sellingUnit.Some? && row.sellingUnit.value !in SELLING_UNITS, BadSellingUnit)
    + When(row.weight.Some? && text.number(row.weight.value) == NaN, BadWeight)
  }

  function SkuProblems(known: Known, row: Row, seenSkus: set<string>): seq<Problem> {
    if row.sku == "" then []
    else When(row.sku in known.skus, SkuExists) + When(row.sku in seenSkus, SkuDuplicated)
  }

  function VariantRuleProblems(text: Text, rule: Rule, row: Row): seq<Problem> {
    var key := rule.attribute.key;
    if !HasValue(row, key) then [MissingVariantValue(key)]
    else When(!ValidValue(text, rule.attribute.kind, row.attributes[key]), InvalidValue(key))
  }

  function InfoRuleProblems(text: Text, rule: Rule, row: Row): seq<Problem> {
    var key := rule.attribute.key;
    if !HasValue(row, key) then When(rule.isRequired, MissingValue(key))
    else When(!ValidValue(text, rule.attribute.kind, row.attributes[key]), InvalidValue(key))
  }

  function VariantProblems(text: Text, rules: seq<Rule>, row: Row): seq<Problem> {
    if rules == [] then []
    else VariantProblems(text, rules[..|rules| - 1], row) + VariantRuleProblems(text, rules[|rules| - 1], row)
  }

  function InfoProblems(text: Text, rules: seq<Rule>, row: Row): seq<Problem> {
    if rules == [] then []
    else InfoProblems(text, rules[..|rules| - 1], row) + InfoRuleProblems(text, rules[|rules| - 1], row)
  }

  /** The row's values of the given attributes, in rule order, leaving out attributes without a value. */
  function ValuesOf(rules: seq<Rule>, row: Row): seq<AttributeValue> {
    if rules == [] then []
    else
      var a := rules[|rules| - 1].attribute;
      ValuesOf(rules[..|rules| - 1], row)
        + (if HasValue(row, a.key) then [AttributeValue(a.id, row.attributes[a.key])] else [])
  }

  function KeyOf(rules: Rules, row: Row): string {
    ComputeCombinationKey(ValuesOf(rules.variant, row))
  }

  function RuleProblems(text: Text, rules: Rules, row: Row, seenKeys: set<string>, rowsInGroup: nat): seq<Problem> {
    VariantProblems(text, rules.variant, row) + InfoProblems(text, rules.info, row)
    + (if rules.variant != [] then When(KeyOf(rules, row) in seenKeys, CombinationDuplicated)
       else When(rowsInGroup > 1, OneRowOnly))
  }

  /** All problems of a row, given what was seen before it. */
  function Problems(text: Text, known: Known, row: Row, seenSkus: set<string>, seenKeys: set<string>,
                    rowsInGroup: nat): seq<Problem> {
    FieldProblems(text, known, row) + SkuProblems(known, row, seenSkus)
    + (match CategoryOf(known, row)
       case None => []
       case Some(c) => RuleProblems(text, c.rules, row, seenKeys, rowsInGroup))
  }

  // ---------- Groups ----------

  /** Rows of one product: same category slug, same name up to case. */
  function GroupKey(text: Text, row: Row): string {
    row.categorySlug + "::" + text.lower(row.productName)
  }

  predicate SameProduct(text: Text, a: Row, b: Row) {
    a.categorySlug == b.categorySlug && text.lower(a.productName) == text.lower(b.productName)
  }

  /** No slug holds ':', as slugify guarantees (see NormalizeRow). */
  ghost predicate SlugsPlain(rows: seq<Row>) {
    forall i :: 0 <= i < |rows| ==> ':' !in rows[i].categorySlug
  }

  lemma GroupKeyMeaning(text: Text, a: Row, b: Row)
    requires ':' !in a.categorySlug && ':' !in b.categorySlug
    ensures GroupKey(text, a) == GroupKey(text, b) <==> SameProduct(text, a, b)
  {
    var (ra, rb) := (":" + text.lower(a.productName), ":" + text.lower(b.productName));
    assert GroupKey(text, a) == a.categorySlug + [':'] + ra && GroupKey(text, b) == b.categorySlug + [':'] + rb;
    BeforeOfConcat(a.categorySlug, ':', ra);
    BeforeOfConcat(b.categorySlug, ':', rb);
    if GroupKey(text, a) == GroupKey(text, b) {
      assert ra == GroupKey(text, a)[|a.categorySlug| + 1..] && rb == GroupKey(text, b)[|b.categorySlug| + 1..];
      assert ra[1..] == text.lower(a.productName) && rb[1..] == text.lower(b.productName);
    }
  }

  /** Group keys in order of first appearance. */
  function Keys(text: Text, rows: seq<Row>): seq<string> {
    if rows == [] then []
    else
      var init := Keys(text, rows[..|rows| - 1]);
      var key := GroupKey(text, rows[|rows| - 1]);
      if key in init then init else init + [key]
  }

  /** The positions of a group's rows, in file order. */
  function Members(text: Text, rows: seq<Row>, key: string): seq<nat> {
    if rows == [] then []
    else Members(text, rows[..|rows| - 1], key) + (if GroupKey(text, rows[|rows| - 1]) == key then [|rows| - 1] else [])
  }

  lemma {:induction false} MembersMeaning(text: Text, rows: seq<Row>, key: string)
    ensures var ms := Members(text, rows, key);
            && (forall i :: i in ms <==> 0 <= i < |rows| && GroupKey(text, rows[i]) == key)
            && (forall p, q :: 0 <= p < q < |ms| ==> ms[p] < ms[q])
  {
    if rows == [] {
    } else {
      var init := Members(text, rows[..|rows| - 1], key);
      MembersMeaning(text, rows[..|rows| - 1], key);
      assert forall p :: 0 <= p < |init| ==> init[p] in init;
    }
  }

  lemma {:induction false} KeysMeaning(text: Text, rows: seq<Row>)
    ensures var ks := Keys(text, rows);
            && (forall i :: 0 <= i < |rows| ==> GroupKey(text, rows[i]) in ks)
            && (forall k :: k in ks ==> exists i :: 0 <= i < |rows| && GroupKey(text, rows[i]) == k)
            && (forall p, q :: 0 <= p < q < |ks| ==> ks[p] != ks[q])
  {
    if rows == [] {
    } else {
      var init := rows[..|rows| - 1];
      KeysMeaning(text, init);
      assert forall i :: 0 <= i < |init| ==> rows[i] == init[i];
      forall k | k in Keys(text, rows)
        ensures exists i :: 0 <= i < |rows| && GroupKey(text, rows[i]) == k
      {
        if k in Keys(text, init) {
          var i :| 0 <= i < |init| && GroupKey(text, init[i]) == k;
          assert GroupKey(text, rows[i]) == k;
        } else {
          assert GroupKey(text, rows[|rows| - 1]) == k;
        }
      }
    }
  }

  /** Groups in insertion order: the keys, and the positions of each group's rows. */
  datatype Groups = Groups(keys: seq<string>, members: map<string, seq<nat>>)

  ghost predicate AreGroupsOf(g: Groups, text: Text, rows: seq<Row>) {
    && g.keys == Keys(text, rows)
    && (forall k :: k in g.keys <==> k in g.members)
    && (forall k :: k in g.members ==> g.members[k] == Members(text, rows, k))
  }

  lemma MembersHaveKey(text: Text, rows: seq<Row>, key: string)
    requires Members(text, rows, key) != []
    ensures key in Keys(text, rows)
  {
    MembersMeaning(text, rows, key);
    KeysMeaning(text, rows);
    assert Members(text, rows, key)[0] in Members(text, rows, key);
  }

  function WithRow(g: Groups, key: string, i: nat): Groups {
    Groups(if key in g.members then g.keys else g.keys + [key],
           g.members[key := (if key in g.members then g.members[key] else []) + [i]])
  }

  lemma WithRowGroups(g: Groups, text: Text, done: seq<Row>, row: Row)
    requires AreGroupsOf(g, text, done)
    ensures AreGroupsOf(WithRow(g, GroupKey(text, row), |done|), text, done + [row])
  {
    var key := GroupKey(text, row);
    assert (done + [row])[..|done|] == done;
    if Members(text, done, key) != [] {
      MembersHaveKey(text, done, key);
    }
  }

  method GroupRows(text: Text, rows: seq<Row>) returns (g: Groups)
    ensures AreGroupsOf(g, text, rows)
  {
    var keys: seq<string> := [];
    var members: map<string, seq<nat>> := map[];
    for i := 0 to |rows|
      invariant AreGroupsOf(Groups(keys, members), text, rows[..i])
    {
      var groupKey := GroupKey(text, rows[i]);
      WithRowGroups(Groups(keys, members), text, rows[..i], rows[i]);
      assert rows[..i + 1] == rows[..i] + [rows[i]];
      var group := if groupKey in members then members[groupKey] else [];
      keys := if groupKey in members then keys else keys + [groupKey];
      members := members[groupKey := group + [i]];
    }
    assert rows[..|rows|] == rows;
    g := Groups(keys, members);
  }
}
