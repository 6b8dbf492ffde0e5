/** Normalising an uploaded record: slugs, blank fields and attribute columns. */
module ImportNormalize {
  import opened Common
  import opened ImportRows

  // ---------- Slugs ----------

  function AfterGap(text: Text, s: string): (rest: string)
    ensures |rest| <= |s| && (s != "" && !text.letter(s[0]) ==> |rest| < |s|)
    ensures rest != "" ==> text.letter(rest[0])
  {
    if s == "" || text.letter(s[0]) then s else AfterGap(text, s[1..])
  }

  /** Every run of other characters becomes one hyphen. */
  function Hyphenate(text: Text, s: string): string
    decreases |s|
  {
    if s == "" then ""
    else if text.letter(s[0]) then [s[0]] + Hyphenate(text, s[1..])
    else "-" + Hyphenate(text, AfterGap(text, s))
  }

  function StripHead(s: string): string {
    if s != "" && s[0] == '-' then StripHead(s[1..]) else s
  }

  function StripTail(s: string): string {
    if s != "" && s[|s| - 1] == '-' then StripTail(s[..|s| - 1]) else s
  }

  function Slugify(text: Text, input: string): string {
    StripTail(StripHead(Hyphenate(text, text.lower(text.trim(input)))))
  }

  /** Words of letters and digits with single hyphens between them. */
  ghost predicate Spaced(text: Text, s: string) {
    && (forall i :: 0 <= i < |s| ==> text.letter(s[i]) || s[i] == '-')
    && (forall i :: 0 < i < |s| ==> s[i - 1] != '-' || s[i] != '-')
  }

  ghost predicate IsSlug(text: Text, s: string) {
    Spaced(text, s) && (s != "" ==> s[0] != '-' && s[|s| - 1] != '-')
  }

  lemma {:induction false} HyphenateSpaces(text: Text, s: string)
    requires !text.letter('-')
    ensures Spaced(text, Hyphenate(text, s))
    ensures s != "" && text.letter(s[0]) ==> Hyphenate(text, s) != "" && Hyphenate(text, s)[0] == s[0]
    decreases |s|
  {
    if s == "" {
    } else {
      HyphenateSpaces(text, if text.letter(s[0]) then s[1..] else AfterGap(text, s));
    }
  }

  lemma StripHeadKeepsSpacing(text: Text, s: string)
    requires Spaced(text, s)
    ensures Spaced(text, StripHead(s)) && (StripHead(s) != "" ==> StripHead(s)[0] != '-')
  {
  }

  lemma StripTailMakesSlug(text: Text, s: string)
    requires Spaced(text, s) && (s != "" ==> s[0] != '-')
    ensures IsSlug(text, StripTail(s))
  {
  }

  /** Whatever the input, slugify yields a slug; in particular one without ':'. */
  lemma SlugifyMakesSlugs(text: Text, input: string)
    requires !text.letter('-') && !text.letter(':')
    ensures IsSlug(text, Slugify(text, input)) && ':' !in Slugify(text, input)
  {
    var cleaned := text.lower(text.trim(input));
    HyphenateSpaces(text, cleaned);
    StripHeadKeepsSpacing(text, Hyphenate(text, cleaned));
    StripTailMakesSlug(text, StripHead(Hyphenate(text, cleaned)));
  }

  lemma {:induction false} HyphenateFixesSpaced(text: Text, s: string)
    requires Spaced(text, s) && !text.letter('-')
    ensures Hyphenate(text, s) == s
  {
    if s == "" {
    } else {
      HyphenateFixesSpaced(text, s[1..]);
      if s[0] == '-' {
        assert |s| > 1 ==> text.letter(s[1]);
        assert AfterGap(text, s) == AfterGap(text, s[1..]) == s[1..];
      }
    }
  }

  /** A lower-case slug is its own slug. */
  lemma SlugifyFixesSlugs(text: Text, s: string)
    requires IsSlug(text, s) && !text.letter('-') && text.lower(text.trim(s)) == s
    ensures Slugify(text, s) == s
  {
    HyphenateFixesSpaced(text, s);
  }

  // ---------- A slug is its words ----------

  /** The longest runs of letters and digits, in order. */
  function Words(text: Text, s: string): (words: seq<string>)
    ensures s != "" && text.letter(s[0]) ==> words != []
  {
    if s == "" then []
    else
      var rest := Words(text, s[1..]);
      if !text.letter(s[0]) then rest
      else if |s| > 1 && text.letter(s[1]) then [[s[0]] + rest[0]] + rest[1..]
      else [[s[0]]] + rest
  }

  function Hyphenated(words: seq<string>): string {
    if words == [] then "" else if |words| == 1 then words[0] else words[0] + "-" + Hyphenated(words[1..])
  }

  lemma {:induction false} AfterGapWords(text: Text, s: string)
    ensures Words(text, AfterGap(text, s)) == Words(text, s)
  {
    if s == "" || text.letter(s[0]) {
    } else {
      AfterGapWords(text, s[1..]);
    }
  }

  lemma {:induction false} HyphenateWords(text: Text, s: string)
    requires !text.letter('-')
    ensures Words(text, Hyphenate(text, s)) == Words(text, s)
    ensures s != "" ==> Hyphenate(text, s) != "" && (text.letter(Hyphenate(text, s)[0]) <==> text.letter(s[0]))
    decreases |s|
  {
    if s == "" {
    } else if text.letter(s[0]) {
      HyphenateWords(text, s[1..]);
      assert Hyphenate(text, s)[1..] == Hyphenate(text, s[1..]);
    } else {
      HyphenateWords(text, AfterGap(text, s));
      AfterGapWords(text, s);
      assert Hyphenate(text, s)[1..] == Hyphenate(text, AfterGap(text, s));
    }
  }

  lemma {:induction false} WordsSnoc(text: Text, s: string)
    requires !text.letter('-')
    ensures Words(text, s + "-") == Words(text, s)
  {
    if s == "" {
      assert Words(text, "-") == Words(text, "");
    } else {
      WordsSnoc(text, s[1..]);
      assert (s + "-")[1..] == s[1..] + "-";
    }
  }

  lemma {:induction false} StripKeepsWords(text: Text, s: string)
    requires !text.letter('-')
    ensures Words(text, StripHead(s)) == Words(text, s) == Words(text, StripTail(s))
  {
    if s == "" {
    } else {
      if s[0] == '-' {
        StripKeepsWords(text, s[1..]);
      }
      if s[|s| - 1] == '-' {
        StripKeepsWords(text, s[..|s| - 1]);
        WordsSnoc(text, s[..|s| - 1]);
        assert s == s[..|s| - 1] + "-";
      }
    }
  }

  lemma {:induction false} SlugIsItsWords(text: Text, s: string)
    requires IsSlug(text, s) && !text.letter('-')
    ensures s == Hyphenated(Words(text, s)) && (s != "" ==> Words(text, s) != [])
    decreases |s|
  {
    if |s| <= 1 {
    } else if s[1] == '-' {
      assert s[2] != '-' && s == [s[0]] + "-" + s[2..] && s[1..][1..] == s[2..];
      SlugIsItsWords(text, s[2..]);
      assert Words(text, s) == [[s[0]]] + Words(text, s[2..]);
    } else {
      SlugIsItsWords(text, s[1..]);
      var rest := Words(text, s[1..]);
      assert Words(text, s) == [[s[0]] + rest[0]] + rest[1..] && Words(text, s)[1..] == rest[1..];
    }
  }

  /** The slug of a text is the words of its trimmed lower case, with one hyphen between them. */
  lemma SlugifyJoinsWords(text: Text, input: string)
    requires !text.letter('-') && !text.letter(':')
    ensures Slugify(text, input) == Hyphenated(Words(text, text.lower(text.trim(input))))
  {
    var spaced := Hyphenate(text, text.lower(text.trim(input)));
    HyphenateWords(text, text.lower(text.trim(input)));
    StripKeepsWords(text, spaced);
    StripKeepsWords(text, StripHead(spaced));
    SlugifyMakesSlugs(text, input);
    SlugIsItsWords(text, Slugify(text, input));
  }

  // ---------- Records ----------

  datatype Cell = Cell(column: string, value: string)

  /** A parsed record: one cell for each column of the file. */
  type Record = seq<Cell>

  function Field(record: Record, column: string): string {
    if record == [] then "" else if record[0].column == column then record[0].value else Field(record[1..], column)
  }

  function AttributeColumn(text: Text, column: string): Option<string> {
    var prefix := "attr_";
    if |text.lower(column)| >= |prefix| && text.lower(column)[..|prefix|] == prefix then
      Some(text.trim(text.lower(if |column| < |prefix| then "" else column[|prefix|..])))
    else None
  }

  /** The key is what follows the prefix, however either is spelled; a column without the prefix is no attribute. */
  lemma ColumnOfKey(text: Text, column: string, rest: string)
    ensures |column| >= 5 && |text.lower(column)| >= 5 && text.lower(column)[..5] == "attr_" && column[5..] == rest ==>
              AttributeColumn(text, column) == Some(text.trim(text.lower(rest)))
    ensures !("attr_" <= text.lower(column)) ==> AttributeColumn(text, column) == None
  {
  }

  /** The cell gives a value for this attribute key. */
  predicate GivesValue(text: Text, cell: Cell, key: string) {
    AttributeColumn(text, cell.column) == Some(key) && text.trim(cell.value) != ""
  }

  function Filled(s: string): Option<string> {
    if s == "" then None else Some(s)
  }

  /** Each attribute key some non-blank column spells has the trimmed value of the last such column. */
  ghost predicate AttributesOf(text: Text, record: Record, attributes: map<string, string>) {
    && (forall key :: key in attributes ==> exists i :: 0 <= i < |record| && LastValue(text, record, i, key))
    && (forall key, i :: 0 <= i < |record| && LastValue(text, record, i, key) ==>
          key in attributes && attributes[key] == text.trim(record[i].value))
  }

  ghost predicate LastValue(text: Text, record: Record, i: nat, key: string)
    requires i < |record|
  {
    GivesValue(text, record[i], key) && forall j :: i < j < |record| ==> !GivesValue(text, record[j], key)
  }

  /** The attributes with one more cell taken in. */
  function WithCell(text: Text, attributes: map<string, string>, cell: Cell): map<string, string> {
    var key := AttributeColumn(text, cell.column);
    if key.Some? && text.trim(cell.value) != "" then attributes[key.value := text.trim(cell.value)] else attributes
  }

  lemma AttributesNext(text: Text, record: Record, attributes: map<string, string>, cell: Cell)
    requires AttributesOf(text, record, attributes)
    ensures AttributesOf(text, record + [cell], WithCell(text, attributes, cell))
  {
    var longer := record + [cell];
    var after := WithCell(text, attributes, cell);
    forall key | key in after
      ensures exists i :: 0 <= i < |longer| && LastValue(text, longer, i, key)
    {
      if GivesValue(text, cell, key) {
        assert LastValue(text, longer, |record|, key);
      } else {
        var i :| 0 <= i < |record| && LastValue(text, record, i, key);
        assert LastValue(text, longer, i, key);
      }
    }
    forall key, i | 0 <= i < |longer| && LastValue(text, longer, i, key)
      ensures key in after && after[key] == text.trim(longer[i].value)
    {
      if i < |record| {
        assert !GivesValue(text, longer[|record|], key);
        assert forall j :: i < j < |record| ==> longer[j] == record[j];
        assert LastValue(text, record, i, key);
      }
    }
  }

  /** What normalising makes of a record. */
  ghost predicate Normalized(text: Text, record: Record, row: Row) {
    && AttributesOf(text, record, row.attributes)
    && (forall key :: key in row.attributes ==> HasValue(row, key))
    && row.sku == text.trim(Field(record, "sku")) && row.productName == text.trim(Field(record, "productName"))
    && row.price == text.trim(Field(record, "price")) && row.weight == Filled(text.trim(Field(record, "weight")))
    && row.sellingUnit == Filled(text.upper(text.trim(Field(record, "sellingUnit"))))
    && row.categorySlug == Slugify(text, text.trim(Field(record, "categorySlug")))
    && row.brandSlug == (if text.trim(Field(record, "brandSlug")) == "" then None
                         else Filled(Slugify(text, text.trim(Field(record, "brandSlug")))))
  }

  /** Commit normalises the stored record again; it gets the row that was validated. */
  lemma NormalizedOnce(text: Text, record: Record, a: Row, b: Row)
    requires Normalized(text, record, a) && Normalized(text, record, b)
    ensures a == b
  {
  }

  lemma {:induction false} FieldOfCell(record: Record, i: nat)
    requires i < |record| && forall j :: 0 <= j < i ==> record[j].column != record[i].column
    ensures Field(record, record[i].column) == record[i].value
  {
    if i == 0 {
    } else {
      FieldOfCell(record[1..], i - 1);
    }
  }

  lemma {:induction false} FieldOfNoCell(record: Record, column: string)
    requires forall cell :: cell in record ==> cell.column != column
    ensures Field(record, column) == ""
  {
    if record == [] {
    } else {
      assert record[0] in record;
      FieldOfNoCell(record[1..], column);
    }
  }

  /** Every column of the file reaches the field of its name: trimmed, in upper case for the selling unit, as a slug for
      category and brand; a column that is absent or blank leaves an optional field absent. */
  lemma {:induction false} ColumnsAreRead(text: Text, record: Record, row: Row, i: nat)
    requires Normalized(text, record, row) && i < |record|
    requires forall j :: 0 <= j < i ==> record[j].column != record[i].column
    ensures var v := text.trim(record[i].value);
            match record[i].column
            case "sku" => row.sku == v
            case "productName" => row.productName == v
            case "price" => row.price == v
            case "categorySlug" => row.categorySlug == Slugify(text, v)
            case "weight" => if v == "" then row.weight.None? else row.weight == Some(v)
            case "brandSlug" =>
              if v == "" || Slugify(text, v) == "" then row.brandSlug.None? else row.brandSlug == Some(Slugify(text, v))
            case "sellingUnit" =>
              if text.upper(v) == "" then row.sellingUnit.None? else row.sellingUnit == Some(text.upper(v))
            case _ => true
  {
    FieldOfCell(record, i);
  }

  lemma {:induction false} MissingColumns(text: Text, record: Record, row: Row, column: string)
    requires Normalized(text, record, row) && text.trim("") == "" && text.upper("") == ""
    requires forall cell :: cell in record ==> cell.column != column
    ensures match column
            case "sku" => row.sku == ""
            case "productName" => row.productName == ""
            case "price" => row.price == ""
            case "weight" => row.weight.None?
            case "brandSlug" => row.brandSlug.None?
            case "sellingUnit" => row.sellingUnit.None?
            case _ => true
  {
    FieldOfNoCell(record, column);
  }

  method NormalizeRow(text: Text, record: Record) returns (row: Row)
    ensures Normalized(text, record, row)
    ensures !text.letter('-') && !text.letter(':') ==> IsSlug(text, row.categorySlug) && ':' !in row.categorySlug
  {
    var attributes: map<string, string> := map[];
    for i := 0 to |record|
      invariant AttributesOf(text, record[..i], attributes)
      invariant forall key :: key in attributes ==> attributes[key] != ""
    {
      AttributesNext(text, record[..i], attributes, record[i]);
      assert record[..i + 1] == record[..i] + [record[i]];
      var key := AttributeColumn(text, record[i].column);
      if key.Some? && text.trim(record[i].value) != "" {
        attributes := attributes[key.value := text.trim(record[i].value)];
      }
    }
    assert record[..|record|] == record;
    var brand := text.trim(Field(record, "brandSlug"));
    var categorySlug := Slugify(text, text.trim(Field(record, "categorySlug")));
    if !text.letter('-') && !text.letter(':') {
      SlugifyMakesSlugs(text, text.trim(Field(record, "categorySlug")));
    }
    row := Row(
      text.trim(Field(record, "sku")),
      text.trim(Field(record, "productName")),
      categorySlug,
      if brand == "" then None else Filled(Slugify(text, brand)),
      text.trim(Field(record, "price")),
      Filled(text.upper(text.trim(Field(record, "sellingUnit")))),
      Filled(text.trim(Field(record, "weight"))),
      attributes);
  }
}
