/** commit: writing the valid rows of a staged batch as products, variants and prices, all or nothing. */
module ImportCommit {
  import opened Common
  import opened VariantKeys
  import opened ImportRows
  import opened ImportNormalize
  import opened ImportTheorems

  datatype Product = Product(category: nat, name: string, slug: string, variable: bool)
  /** `weight` in thousandths */
  datatype Variant = Variant(product: nat, sku: string, key: string, weight: Option<int>)

  /** The tables a commit writes; `nextId` stands for the freshness of random ids. */
  datatype Store = Store(products: map<nat, Product>, variants: map<nat, Variant>, prices: map<nat, int>, nextId: nat)

  datatype CommitError =
    | BatchNotFound | NotPreviewed | NoValidRows
    | CategoryMissing | SlugTaken | SkuTaken | CombinationTaken | NumberNotStorable
  datatype Resolution = Resolution(product: nat, variant: nat)

  /** What the commit reads besides the rows: text functions, the categories as they are now, and which of several
      matching products the database finds first. */
  datatype Setting = Setting(
    text: Text, categories: map<string, Category>, brands: set<string>, findFirst: set<nat> -> nat)

  ghost predicate FindsMatch(e: Setting) {
    forall ids: set<nat> {:trigger e.findFirst(ids)} :: ids != {} ==> e.findFirst(ids) in ids
  }

  ghost predicate Below<V>(m: map<nat, V>, n: nat) {
    forall k :: k in m ==> k < n
  }

  /** Ids are below the next one, and every variant's product exists. */
  ghost predicate StoreOk(s: Store) {
    && Below(s.products, s.nextId) && Below(s.variants, s.nextId) && Below(s.prices, s.nextId)
    && forall v {:trigger s.variants[v]} :: v in s.variants ==> s.variants[v].product in s.products
  }

  /** Every old row is still there, unchanged. */
  ghost predicate Extends<V(!new)>(before: map<nat, V>, after: map<nat, V>) {
    forall k :: k in before ==> k in after && after[k] == before[k]
  }

  /** Different slugs are different categories. */
  ghost predicate CategoriesDistinct(e: Setting) {
    forall a, b :: a in e.categories && b in e.categories && e.categories[a].id == e.categories[b].id ==> a == b
  }

  function KnownBy(e: Setting, s: Store): Known {
    Known(e.categories, e.brands, set v | v in s.variants :: s.variants[v].sku)
  }

  lemma KeyOfNothing()
    ensures ComputeCombinationKey([]) == ""
  {
  }

  // ---------- Numbers ----------

  /** What a decimal column keeps of a number, in units of its last digit: halves are rounded away from zero. */
  function Scaled(x: real, scale: int): int {
    if x >= 0.0 then (x * scale as real + 0.5).Floor else -((-x) * scale as real + 0.5).Floor
  }

  /** Decimal(12, 2), in cents */
  const PRICE_LIMIT := 1_000_000_000_000
  /** Decimal(10, 3), in thousandths */
  const WEIGHT_LIMIT := 10_000_000_000

  /** A decimal column takes finite numbers that are in its range once they are rounded. */
  predicate FitsColumn(n: JsNumber, scale: int, limit: int) {
    n.Finite? && -limit < Scaled(n.value, scale) < limit
  }

  predicate Storable(text: Text, row: Row) {
    && FitsColumn(text.number(row.price), 100, PRICE_LIMIT)
    && (row.weight.Some? ==> FitsColumn(text.number(row.weight.value), 1000, WEIGHT_LIMIT))
  }

  function PriceInCents(text: Text, row: Row): int {
    if text.number(row.price).Finite? then Scaled(text.number(row.price).value, 100) else 0
  }

  function WeightOf(text: Text, row: Row): Option<int> {
    if row.weight.Some? && text.number(row.weight.value).Finite?
    then Some(Scaled(text.number(row.weight.value).value, 1000)) else None
  }

  /** n is the whole number nearest to x, the one away from zero when x lies halfway. */
  predicate Nearest(x: real, n: int) {
    if x >= 0.0 then n as real - 0.5 <= x < n as real + 0.5 else n as real - 0.5 < x <= n as real + 0.5
  }

  /** The stored price, in cents, is what the row's text says. */
  predicate PriceStored(text: Text, row: Row, cents: int) {
    text.number(row.price).Finite? && Nearest(100.0 * text.number(row.price).value, cents)
  }

  /** The stored weight, in thousandths, is what the row's text says; it is absent when the text is. */
  predicate WeightStored(text: Text, row: Row, weight: Option<int>) {
    && (weight.Some? <==> row.weight.Some?)
    && (weight.Some? ==>
          var n := text.number(row.weight.value); n.Finite? && Nearest(1000.0 * n.value, weight.value))
  }

  lemma ScaledIsNearest(x: real)
    ensures Nearest(100.0 * x, Scaled(x, 100)) && Nearest(1000.0 * x, Scaled(x, 1000))
  {
  }

  lemma NumbersAreStored(text: Text, row: Row)
    requires Storable(text, row)
    ensures PriceStored(text, row, PriceInCents(text, row)) && WeightStored(text, row, WeightOf(text, row))
  {
    ScaledIsNearest(text.number(row.price).value);
    if row.weight.Some? {
      ScaledIsNearest(text.number(row.weight.value).value);
    }
  }

  // ---------- What holds while rows are being written ----------

  ghost predicate Keeps(before: Store, tx: Store) {
    && before.nextId <= tx.nextId && StoreOk(tx)
    && Extends(before.products, tx.products) && Extends(before.variants, tx.variants)
    && Extends(before.prices, tx.prices)
  }

  /** The row at `p` has become a new variant with its SKU, combination key and price, under a fitting product. */
  ghost predicate Written(e: Setting, before: Store, tx: Store, row: Row, r: Resolution) {
    && r.variant >= before.nextId && r.variant in tx.variants && r.variant in tx.prices && r.product in tx.products
    && row.categorySlug in e.categories
    && var c := e.categories[row.categorySlug];
       var v := tx.variants[r.variant];
       && v.product == r.product && v.sku == row.sku
       && v.key == ComputeCombinationKey(ValuesOf(c.rules.variant, row)) && WeightStored(e.text, row, v.weight)
       && Storable(e.text, row) && PriceStored(e.text, row, tx.prices[r.variant])
       && tx.products[r.product].category == c.id
       && e.text.lower(tx.products[r.product].name) == e.text.lower(row.productName)
  }

  ghost predicate AllWritten(e: Setting, before: Store, tx: Store, rows: seq<Row>, done: map<nat, Resolution>) {
    forall p {:trigger done[p]} :: p in done ==> p < |rows| && Written(e, before, tx, rows[p], done[p])
  }

  ghost predicate OneVariantEach(before: Store, tx: Store, done: map<nat, Resolution>) {
    && VariantsDiffer(done)
    && tx.variants.Keys == before.variants.Keys + VariantsOf(done)
    && tx.prices.Keys == before.prices.Keys + VariantsOf(done)
  }

  ghost predicate VariantsDiffer(done: map<nat, Resolution>) {
    forall p, q {:trigger done[p], done[q]} :: p in done && q in done && done[p].variant == done[q].variant ==> p == q
  }

  ghost function VariantsOf(done: map<nat, Resolution>): set<nat> {
    set p | p in done :: done[p].variant
  }

  lemma VariantsOfNext(done: map<nat, Resolution>, p: nat, r: Resolution)
    requires p !in done
    ensures VariantsOf(done[p := r]) == VariantsOf(done) + {r.variant}
  {
    var after := done[p := r];
    assert after[p] == r;
    forall v | v in VariantsOf(done)
      ensures v in VariantsOf(after)
    {
      var q :| q in done && done[q].variant == v;
      assert after[q].variant == v;
    }
  }

  ghost predicate OneProductAGroup(e: Setting, rows: seq<Row>, done: map<nat, Resolution>) {
    forall p, q {:trigger done[p], done[q]} ::
      (p in done && q in done && p < |rows| && q < |rows| && GroupKey(e.text, rows[p]) == GroupKey(e.text, rows[q]))
      ==> done[p].product == done[q].product
  }

  ghost predicate Progress(e: Setting, before: Store, tx: Store, rows: seq<Row>, done: map<nat, Resolution>) {
    && Keeps(before, tx)
    && AllWritten(e, before, tx, rows, done)
    && OneVariantEach(before, tx, done)
    && OneProductAGroup(e, rows, done)
  }

  // ---------- One row ----------

  /** What writing one row changes, once its checks pass. */
  function WithVariant(tx: Store, v: Variant, cents: int): Store {
    Store(tx.products, tx.variants[tx.nextId := v], tx.prices[tx.nextId := cents], tx.nextId + 1)
  }

  function VariantFor(text: Text, pid: nat, rules: Rules, row: Row): Variant {
    Variant(pid, row.sku, KeyOf(rules, row), WeightOf(text, row))
  }

  function WithRow(text: Text, tx: Store, pid: nat, rules: Rules, row: Row): Store {
    WithVariant(tx, VariantFor(text, pid, rules, row), PriceInCents(text, row))
  }

  ghost predicate SkuFree(tx: Store, sku: string) {
    forall v {:trigger tx.variants[v]} :: v in tx.variants ==> tx.variants[v].sku != sku
  }

  ghost predicate KeyFree(tx: Store, pid: nat, key: string) {
    forall v {:trigger tx.variants[v]} :: v in tx.variants ==>
      !(tx.variants[v].product == pid && tx.variants[v].key == key)
  }

  method WriteRow(e: Setting, tx: Store, pid: nat, rules: Rules, row: Row)
    returns (error: Option<CommitError>, next: Store, vid: nat)
    ensures match error
            case None =>
              && SkuFree(tx, row.sku) && KeyFree(tx, pid, KeyOf(rules, row))
              && Storable(e.text, row) && vid == tx.nextId
              && next == WithRow(e.text, tx, pid, rules, row)
            case Some(SkuTaken) => !SkuFree(tx, row.sku)
            case Some(CombinationTaken) => !KeyFree(tx, pid, KeyOf(rules, row))
            case Some(NumberNotStorable) => !Storable(e.text, row)
            case Some(_) => false
  {
    next, vid := tx, tx.nextId;
    var variantAttrs := ValuesOf(rules.variant, row);
    KeyOfNothing();
    var combinationKey := if |variantAttrs| > 0 then ComputeCombinationKey(variantAttrs) else "";
    if exists v :: v in tx.variants && tx.variants[v].sku == row.sku {
      return Some(SkuTaken), next, vid;
    }
    if exists v :: v in tx.variants && tx.variants[v].product == pid && tx.variants[v].key == combinationKey {
      return Some(CombinationTaken), next, vid;
    }
    var weight: Option<int> := None;
    if row.weight.Some? {
      var n := e.text.number(row.weight.value);
      if !FitsColumn(n, 1000, WEIGHT_LIMIT) {
        return Some(NumberNotStorable), next, vid;
      }
      weight := Some(Scaled(n.value, 1000));
    }
    next := next.(variants := next.variants[vid := Variant(pid, row.sku, combinationKey, weight)], nextId := vid + 1);
    var amount := e.text.number(row.price);
    if !FitsColumn(amount, 100, PRICE_LIMIT) {
      return Some(NumberNotStorable), next, vid;
    }
    next := next.(prices := next.prices[vid := Scaled(amount.value, 100)]);
    error := None;
  }

  /** The next row can be written: its category is known and `pid` is the product of its group. */
  ghost predicate Fits(e: Setting, tx: Store, rows: seq<Row>, done: map<nat, Resolution>, p: nat, pid: nat,
                       c: Category) {
    && p < |rows| && p !in done
    && rows[p].categorySlug in e.categories && e.categories[rows[p].categorySlug] == c
    && pid in tx.products && tx.products[pid].category == c.id
    && e.text.lower(tx.products[pid].name) == e.text.lower(rows[p].productName)
    && forall q {:trigger done[q]} :: q in done && q < |rows| && GroupKey(e.text, rows[q]) == GroupKey(e.text, rows[p])
         ==> done[q].product == pid
  }

  lemma WrittenNext(e: Setting, before: Store, tx: Store, rows: seq<Row>, done: map<nat, Resolution>, p: nat, pid: nat,
                    c: Category)
    requires Keeps(before, tx) && AllWritten(e, before, tx, rows, done) && Fits(e, tx, rows, done, p, pid, c)
    requires Storable(e.text, rows[p])
    ensures AllWritten(e, before, WithRow(e.text, tx, pid, c.rules, rows[p]), rows,
                       done[p := Resolution(pid, tx.nextId)])
  {
    var next := WithRow(e.text, tx, pid, c.rules, rows[p]);
    var after := done[p := Resolution(pid, tx.nextId)];
    NumbersAreStored(e.text, rows[p]);
    forall q | q in after
      ensures q < |rows| && Written(e, before, next, rows[q], after[q])
    {
      if q != p {
        assert Written(e, before, tx, rows[q], done[q]);
      }
    }
  }

  lemma {:induction false} OneVariantNext(before: Store, tx: Store, done: map<nat, Resolution>, p: nat, v: Variant,
                                          cents: int)
    requires OneVariantEach(before, tx, done) && p !in done
    requires forall q {:trigger done[q]} :: q in done ==> done[q].variant < tx.nextId
    ensures OneVariantEach(before, WithVariant(tx, v, cents), done[p := Resolution(v.product, tx.nextId)])
  {
    VariantsOfNext(done, p, Resolution(v.product, tx.nextId));
    var next := WithVariant(tx, v, cents);
    assert next.variants.Keys == tx.variants.Keys + {tx.nextId} && next.prices.Keys == tx.prices.Keys + {tx.nextId};
  }

  lemma KeepsNext(before: Store, tx: Store, v: Variant, cents: int)
    requires Keeps(before, tx) && v.product in tx.products
    ensures Keeps(before, WithVariant(tx, v, cents))
  {
  }

  lemma OneProductNext(e: Setting, rows: seq<Row>, done: map<nat, Resolution>, p: nat, r: Resolution)
    requires OneProductAGroup(e, rows, done) && p < |rows| && p !in done
    requires forall q {:trigger done[q]} ::
      q in done && q < |rows| && GroupKey(e.text, rows[q]) == GroupKey(e.text, rows[p]) ==> done[q].product == r.product
    ensures OneProductAGroup(e, rows, done[p := r])
  {
  }

  lemma VariantWritten(e: Setting, before: Store, tx: Store, rows: seq<Row>, done: map<nat, Resolution>, p: nat,
                       pid: nat, c: Category)
    requires Progress(e, before, tx, rows, done) && Fits(e, tx, rows, done, p, pid, c)
    requires Storable(e.text, rows[p])
    ensures Progress(e, before, WithRow(e.text, tx, pid, c.rules, rows[p]), rows,
                     done[p := Resolution(pid, tx.nextId)])
  {
    var (v, cents) := (VariantFor(e.text, pid, c.rules, rows[p]), PriceInCents(e.text, rows[p]));
    WrittenNext(e, before, tx, rows, done, p, pid, c);
    OneVariantNext(before, tx, done, p, v, cents);
    KeepsNext(before, tx, v, cents);
    OneProductNext(e, rows, done, p, Resolution(pid, tx.nextId));
  }

  // ---------- What validation has already ruled out ----------

  /** Every row would be found valid against the catalogue as it is. */
  ghost predicate Staged(e: Setting, before: Store, rows: seq<Row>) {
    && SlugsPlain(rows) && CategoriesDistinct(e)
    && forall p :: 0 <= p < |rows| ==> IsValid(e.text, KnownBy(e, before), rows, p)
  }

  lemma StagedSkuIsFree(e: Setting, before: Store, tx: Store, rows: seq<Row>, done: map<nat, Resolution>, p: nat)
    requires Staged(e, before, rows) && Progress(e, before, tx, rows, done) && p < |rows| && p !in done
    ensures SkuFree(tx, rows[p].sku) && rows[p].categorySlug in e.categories
  {
    var known := KnownBy(e, before);
    ValidMeans(e.text, known, rows, p);
    forall v | v in tx.variants
      ensures tx.variants[v].sku != rows[p].sku
    {
      if v in before.variants {
        assert before.variants[v].sku in known.skus;
      } else {
        assert v in VariantsOf(done);
        var q :| q in done && done[q].variant == v;
        assert Written(e, before, tx, rows[q], done[q]);
        ValidSkusDiffer(e.text, known, rows, p, q);
      }
    }
  }

  /** Rows share a product exactly when they share category slug and case-folded name. */
  lemma ProductsMatchRows(e: Setting, before: Store, tx: Store, rows: seq<Row>, done: map<nat, Resolution>, p: nat,
                          q: nat)
    requires SlugsPlain(rows) && CategoriesDistinct(e) && Progress(e, before, tx, rows, done) && p in done && q in done
    ensures p < |rows| && q < |rows|
    ensures done[p].product == done[q].product <==> SameProduct(e.text, rows[p], rows[q])
  {
    assert Written(e, before, tx, rows[p], done[p]) && Written(e, before, tx, rows[q], done[q]);
    GroupKeyMeaning(e.text, rows[p], rows[q]);
  }

  /** For a staged batch, a combination can only clash with a variant that was there before. */
  lemma StagedClashIsOld(e: Setting, before: Store, tx: Store, rows: seq<Row>, done: map<nat, Resolution>, p: nat,
                         pid: nat, c: Category)
    requires Staged(e, before, rows) && Progress(e, before, tx, rows, done) && Fits(e, tx, rows, done, p, pid, c)
    requires !KeyFree(tx, pid, KeyOf(c.rules, rows[p]))
    ensures !KeyFree(before, pid, KeyOf(c.rules, rows[p]))
  {
    var v :| v in tx.variants && tx.variants[v].product == pid && tx.variants[v].key == KeyOf(c.rules, rows[p]);
    if v in before.variants {
      assert before.variants[v] == tx.variants[v];
    } else {
      assert v in VariantsOf(done);
      var q :| q in done && done[q].variant == v;
      StagedKeysDiffer(e, before, tx, rows, done, p, q, pid, c);
    }
  }

  lemma StagedKeysDiffer(e: Setting, before: Store, tx: Store, rows: seq<Row>, done: map<nat, Resolution>, p: nat,
                         q: nat,
                         pid: nat, c: Category)
    requires Staged(e, before, rows) && Progress(e, before, tx, rows, done) && Fits(e, tx, rows, done, p, pid, c)
    requires q in done && q < |rows| && tx.variants[done[q].variant].product == pid
    ensures tx.variants[done[q].variant].key != KeyOf(c.rules, rows[p])
  {
    assert Written(e, before, tx, rows[q], done[q]);
    assert rows[q].categorySlug == rows[p].categorySlug;
    GroupKeyMeaning(e.text, rows[p], rows[q]);
    ChosenPair(e.text, KnownBy(e, before), rows, p, q);
    ValidMeans(e.text, KnownBy(e, before), rows, p);
  }

  // ---------- One group ----------

  ghost predicate SlugUsed(s: Store, slug: string) {
    exists k :: k in s.products && s.products[k].slug == slug
  }

  function MatchesIn(s: Store, category: nat, name: string): set<nat> {
    set k | k in s.products && s.products[k].category == category && s.products[k].name == name
  }

  function NewProduct(e: Setting, c: Category, first: Row): Product {
    Product(c.id, first.productName, Slugify(e.text, first.productName), |c.rules.variant| > 0)
  }

  function WithProduct(tx: Store, product: Product): Store {
    tx.(products := tx.products[tx.nextId := product], nextId := tx.nextId + 1)
  }

  /** The product of a group: one with this category and exact name, or a new draft if its slug is free. */
  method ProductFor(e: Setting, tx: Store, c: Category, first: Row)
    returns (error: Option<CommitError>, next: Store, pid: nat)
    ensures var matches := MatchesIn(tx, c.id, first.productName);
            if matches != {} then error == None && next == tx && pid == e.findFirst(matches)
            else if SlugUsed(tx, Slugify(e.text, first.productName)) then error == Some(SlugTaken) && next == tx
            else error == None && next == WithProduct(tx, NewProduct(e, c, first)) && pid == tx.nextId
  {
    error, next, pid := None, tx, tx.nextId;
    var matches := MatchesIn(tx, c.id, first.productName);
    if matches != {} {
      pid := e.findFirst(matches);
      return;
    }
    var slug := Slugify(e.text, first.productName);
    if exists k :: k in tx.products && tx.products[k].slug == slug {
      error := Some(SlugTaken);
      return;
    }
    var product := Product(c.id, first.productName, slug, |c.rules.variant| > 0);
    next := tx.(products := tx.products[pid := product], nextId := pid + 1);
  }

  lemma ProductAdded(e: Setting, before: Store, tx: Store, next: Store, rows: seq<Row>, done: map<nat, Resolution>)
    requires Progress(e, before, tx, rows, done)
    requires next.variants == tx.variants && next.prices == tx.prices && tx.nextId <= next.nextId && StoreOk(next)
    requires Extends(tx.products, next.products)
    ensures Progress(e, before, next, rows, done)
  {
  }
}
