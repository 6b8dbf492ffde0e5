/** Where a commit puts the groups of a batch, and exactly what can keep a staged batch from being committed. */
module ImportPlacement {
  import opened Common
  import opened ImportRows
  import opened ImportNormalize
  import opened ImportValidation
  import opened ImportTheorems
  import opened ImportCommit

  // ---------- The first row of a product ----------

  /** No earlier row has the product of row f: a new product gets its name. */
  ghost predicate IsFirst(text: Text, rows: seq<Row>, f: nat) {
    f < |rows| && forall q :: 0 <= q < f ==> !SameProduct(text, rows[q], rows[f])
  }

  /** Row f is the first with the product of row p. */
  ghost predicate FirstFor(text: Text, rows: seq<Row>, f: nat, p: nat) {
    p < |rows| && IsFirst(text, rows, f) && SameProduct(text, rows[f], rows[p])
  }

  lemma {:induction false} FirstOfGroup(text: Text, rows: seq<Row>, n: nat, members: seq<nat>, m: nat)
    requires SlugsPlain(rows) && IsGroup(text, rows, n, members) && m < |members|
    ensures FirstFor(text, rows, members[0], members[m])
    ensures forall f: nat :: FirstFor(text, rows, f, members[m]) ==> f == members[0]
  {
    var (first, p) := (members[0], members[m]);
    assert first in members && p in members;
    GroupOfMeaning(text, rows, first, p);
    GroupKeyMeaning(text, rows[first], rows[p]);
    assert forall k :: 0 <= k < |members| ==> members[k] >= first;
    forall q | 0 <= q < first
      ensures !SameProduct(text, rows[q], rows[first])
    {
      GroupOfMeaning(text, rows, q, first);
      GroupKeyMeaning(text, rows[q], rows[first]);
    }
  }

  // ---------- What keeps a batch from being committed ----------

  /** Row p opens a product that no product of its category has the exact name of, so one has to be created. */
  ghost predicate NeedsProduct(e: Setting, before: Store, rows: seq<Row>, p: nat) {
    && IsFirst(e.text, rows, p) && rows[p].categorySlug in e.categories
    && MatchesIn(before, e.categories[rows[p].categorySlug].id, rows[p].productName) == {}
  }

  /** The slug of a product to be created is in use, or two products to be created have the same one. */
  ghost predicate SlugClash(e: Setting, before: Store, rows: seq<Row>) {
    exists p :: NeedsProduct(e, before, rows, p) && SlugHeld(e, before, rows, p)
  }

  ghost predicate SlugHeld(e: Setting, before: Store, rows: seq<Row>, p: nat)
    requires p < |rows|
  {
    var slug := Slugify(e.text, rows[p].productName);
    SlugUsed(before, slug)
    || exists q: nat :: NeedsProduct(e, before, rows, q) && q != p && Slugify(e.text, rows[q].productName) == slug
  }

  /** Row p goes to an existing product that already has a variant with its combination. */
  ghost predicate ClashesWithOld(e: Setting, before: Store, rows: seq<Row>, p: nat, f: nat) {
    && FirstFor(e.text, rows, f, p) && rows[f].categorySlug in e.categories
    && var c := e.categories[rows[f].categorySlug];
       var matches := MatchesIn(before, c.id, rows[f].productName);
       matches != {} && !KeyFree(before, e.findFirst(matches), KeyOf(c.rules, rows[p]))
  }

  ghost predicate OldCombination(e: Setting, before: Store, rows: seq<Row>) {
    exists p: nat, f: nat :: ClashesWithOld(e, before, rows, p, f)
  }

  ghost predicate AllStorable(e: Setting, rows: seq<Row>) {
    forall p :: 0 <= p < |rows| ==> Storable(e.text, rows[p])
  }

  ghost predicate CanCommit(e: Setting, before: Store, rows: seq<Row>) {
    !SlugClash(e, before, rows) && !OldCombination(e, before, rows) && AllStorable(e, rows)
  }

  /** The errors a staged batch can still meet, and what has to be the case for each. */
  ghost predicate ErrorExplained(e: Setting, before: Store, rows: seq<Row>, error: CommitError) {
    && error !in {BatchNotFound, NotPreviewed, NoValidRows}
    && (Staged(e, before, rows) ==>
      match error
      case SlugTaken => SlugClash(e, before, rows)
      case CombinationTaken => OldCombination(e, before, rows)
      case NumberNotStorable => !AllStorable(e, rows)
      case _ => false)
  }

  // ---------- Where the rows written so far have gone ----------

  /** The product of a group: an old one of this category and exact name if there is one, else a new one under the data
      of the group's first row. */
  ghost predicate IsHome(e: Setting, before: Store, tx: Store, first: Row, pid: nat) {
    && first.categorySlug in e.categories
    && var c := e.categories[first.categorySlug];
       var matches := MatchesIn(before, c.id, first.productName);
       if matches != {} then pid == e.findFirst(matches)
       else
         && pid !in before.products && pid in tx.products
         && var product := tx.products[pid];
            && product.category == c.id && product.name == first.productName
            && product.slug == Slugify(e.text, first.productName)
            && (product.variable <==> c.rules.variant != [])
  }

  ghost predicate PlacedAt(e: Setting, before: Store, tx: Store, rows: seq<Row>, p: nat, pid: nat)
    requires p < |rows|
  {
    && (forall f: nat :: FirstFor(e.text, rows, f, p) ==> IsHome(e, before, tx, rows[f], pid))
    && rows[p].categorySlug in e.categories
    && KeyFree(before, pid, KeyOf(e.categories[rows[p].categorySlug].rules, rows[p]))
  }

  ghost predicate AllPlaced(e: Setting, before: Store, tx: Store, rows: seq<Row>, done: map<nat, Resolution>) {
    forall p {:trigger done[p]} :: p in done ==> p < |rows| && PlacedAt(e, before, tx, rows, p, done[p].product)
  }

  /** A new product's slug is nobody else's. */
  ghost predicate SlugsApart(before: Store, tx: Store) {
    forall k, j {:trigger tx.products[k], tx.products[j]} ::
      k in tx.products && j in tx.products && k !in before.products && k != j ==>
        tx.products[k].slug != tx.products[j].slug
  }

  /** New products are those of groups before group n. */
  ghost predicate NewFromGroups(e: Setting, before: Store, tx: Store, rows: seq<Row>, n: nat) {
    forall k {:trigger tx.products[k]} :: k in tx.products && k !in before.products ==>
      AddedBefore(e, before, rows, n, tx.products[k])
  }

  ghost predicate AddedBefore(e: Setting, before: Store, rows: seq<Row>, n: nat, product: Product) {
    exists q: nat :: FromGroup(e, before, rows, n, q, product)
  }

  ghost predicate FromGroup(e: Setting, before: Store, rows: seq<Row>, n: nat, q: nat, product: Product) {
    && NeedsProduct(e, before, rows, q) && GroupOf(e.text, rows, q) < n
    && product == NewProduct(e, e.categories[rows[q].categorySlug], rows[q])
  }

  ghost predicate Placed(e: Setting, before: Store, tx: Store, rows: seq<Row>, done: map<nat, Resolution>, n: nat) {
    AllPlaced(e, before, tx, rows, done) && SlugsApart(before, tx) && NewFromGroups(e, before, tx, rows, n)
  }

  lemma {:induction false} PlacedAtStays(e: Setting, before: Store, tx: Store, next: Store, rows: seq<Row>, p: nat,
                                         pid: nat)
    requires p < |rows| && PlacedAt(e, before, tx, rows, p, pid) && Extends(tx.products, next.products)
    ensures PlacedAt(e, before, next, rows, p, pid)
  {
    forall f: nat | FirstFor(e.text, rows, f, p)
      ensures IsHome(e, before, next, rows[f], pid)
    {
    }
  }

  lemma {:induction false} PlacedStay(e: Setting, before: Store, tx: Store, next: Store, rows: seq<Row>, done: map<nat,
                                      Resolution>)
    requires AllPlaced(e, before, tx, rows, done) && Extends(tx.products, next.products)
    ensures AllPlaced(e, before, next, rows, done)
  {
    forall p | p in done
      ensures p < |rows| && PlacedAt(e, before, next, rows, p, done[p].product)
    {
      PlacedAtStays(e, before, tx, next, rows, p, done[p].product);
    }
  }

  /** Products the batch has added never match a later group. */
  lemma {:induction false} MatchesStay(e: Setting, before: Store, tx: Store, rows: seq<Row>, n: nat, f: nat)
    requires SlugsPlain(rows) && CategoriesDistinct(e) && Extends(before.products, tx.products)
    requires NewFromGroups(e, before, tx, rows, n)
    requires f < |rows| && GroupOf(e.text, rows, f) == n && rows[f].categorySlug in e.categories
    ensures var c := e.categories[rows[f].categorySlug];
            MatchesIn(tx, c.id, rows[f].productName) == MatchesIn(before, c.id, rows[f].productName)
  {
    var c := e.categories[rows[f].categorySlug];
    forall k | k in tx.products && k !in before.products
      ensures !(tx.products[k].category == c.id && tx.products[k].name == rows[f].productName)
    {
      assert AddedBefore(e, before, rows, n, tx.products[k]);
      var q: nat :| FromGroup(e, before, rows, n, q, tx.products[k]);
      GroupOfMeaning(e.text, rows, q, f);
      GroupKeyMeaning(e.text, rows[q], rows[f]);
    }
  }

  lemma {:induction false} NewProductPlaced(e: Setting, before: Store, tx: Store, rows: seq<Row>, done: map<nat,
                                            Resolution>,
                                            n: nat, f: nat)
    requires Placed(e, before, tx, rows, done, n) && Keeps(before, tx)
    requires NeedsProduct(e, before, rows, f) && GroupOf(e.text, rows, f) == n
    requires !SlugUsed(tx, Slugify(e.text, rows[f].productName))
    ensures var next := WithProduct(tx, NewProduct(e, e.categories[rows[f].categorySlug], rows[f]));
            Placed(e, before, next, rows, done, n + 1) && IsHome(e, before, next, rows[f], tx.nextId)
  {
    var product := NewProduct(e, e.categories[rows[f].categorySlug], rows[f]);
    var next := WithProduct(tx, product);
    PlacedStay(e, before, tx, next, rows, done);
    forall k | k in next.products && k !in before.products
      ensures AddedBefore(e, before, rows, n + 1, next.products[k])
    {
      if k == tx.nextId {
        assert FromGroup(e, before, rows, n + 1, f, product);
      } else {
        assert AddedBefore(e, before, rows, n, tx.products[k]);
        var q: nat :| FromGroup(e, before, rows, n, q, tx.products[k]);
        assert FromGroup(e, before, rows, n + 1, q, next.products[k]);
      }
    }
  }

  lemma {:induction false} OldProductPlaced(e: Setting, before: Store, tx: Store, rows: seq<Row>, done: map<nat,
                                            Resolution>, n: nat)
    requires Placed(e, before, tx, rows, done, n)
    ensures Placed(e, before, tx, rows, done, n + 1)
  {
    forall k | k in tx.products && k !in before.products
      ensures AddedBefore(e, before, rows, n + 1, tx.products[k])
    {
      assert AddedBefore(e, before, rows, n, tx.products[k]);
      var q: nat :| FromGroup(e, before, rows, n, q, tx.products[k]);
      assert FromGroup(e, before, rows, n + 1, q, tx.products[k]);
    }
  }

  lemma {:induction false} SlugErrorExplained(e: Setting, before: Store, tx: Store, rows: seq<Row>, n: nat, f: nat)
    requires Extends(before.products, tx.products) && NewFromGroups(e, before, tx, rows, n)
    requires NeedsProduct(e, before, rows, f) && GroupOf(e.text, rows, f) == n
    requires SlugUsed(tx, Slugify(e.text, rows[f].productName))
    ensures SlugClash(e, before, rows)
  {
    var k :| k in tx.products && tx.products[k].slug == Slugify(e.text, rows[f].productName);
    if k !in before.products {
      assert AddedBefore(e, before, rows, n, tx.products[k]);
      var q: nat :| FromGroup(e, before, rows, n, q, tx.products[k]);
      assert NeedsProduct(e, before, rows, q) && q != f;
    }
    assert SlugHeld(e, before, rows, f);
  }

  lemma KeyFreeBefore(before: Store, tx: Store, pid: nat, key: string)
    requires Extends(before.variants, tx.variants) && KeyFree(tx, pid, key)
    ensures KeyFree(before, pid, key)
  {
    forall v | v in before.variants
      ensures !(before.variants[v].product == pid && before.variants[v].key == key)
    {
      assert tx.variants[v] == before.variants[v];
    }
  }

  lemma {:induction false} SameProductsPlaced(e: Setting, before: Store, tx: Store, next: Store, rows: seq<Row>,
                                              done: map<nat, Resolution>, n: nat)
    requires Placed(e, before, tx, rows, done, n) && next.products == tx.products
    ensures Placed(e, before, next, rows, done, n)
  {
    PlacedStay(e, before, tx, next, rows, done);
    forall k | k in next.products && k !in before.products
      ensures AddedBefore(e, before, rows, n, next.products[k])
    {
      assert AddedBefore(e, before, rows, n, tx.products[k]);
    }
  }

  lemma {:induction false} RowPlaced(e: Setting, before: Store, tx: Store, rows: seq<Row>, done: map<nat, Resolution>,
                                     n: nat, p: nat, f: nat, v: Variant, cents: int)
    requires Placed(e, before, tx, rows, done, n) && Extends(before.variants, tx.variants) && p < |rows| && p !in done
    requires f < |rows| && IsHome(e, before, tx, rows[f], v.product)
    requires forall g: nat :: FirstFor(e.text, rows, g, p) ==> g == f
    requires rows[p].categorySlug in e.categories && v.key == KeyOf(e.categories[rows[p].categorySlug].rules, rows[p])
    requires KeyFree(tx, v.product, v.key)
    ensures Placed(e, before, WithVariant(tx, v, cents), rows, done[p := Resolution(v.product, tx.nextId)], n)
  {
    SameProductsPlaced(e, before, tx, WithVariant(tx, v, cents), rows, done, n);
    KeyFreeBefore(before, tx, v.product, v.key);
  }

  /** An old variant can only be in the way at an old product, and that is the product its row is sent to. */
  lemma {:induction false} ClashExplained(e: Setting, before: Store, tx: Store, rows: seq<Row>, done: map<nat,
                                          Resolution>, p: nat,
                                          f: nat, pid: nat, c: Category)
    requires Staged(e, before, rows) && StoreOk(before) && Progress(e, before, tx, rows, done)
    requires Fits(e, tx, rows, done, p, pid, c)
    requires FirstFor(e.text, rows, f, p) && IsHome(e, before, tx, rows[f], pid)
    requires !KeyFree(tx, pid, KeyOf(c.rules, rows[p]))
    ensures OldCombination(e, before, rows)
  {
    StagedClashIsOld(e, before, tx, rows, done, p, pid, c);
    var v :| v in before.variants && before.variants[v].product == pid
      && before.variants[v].key == KeyOf(c.rules, rows[p]);
    assert before.variants[v].product in before.products;
    assert ClashesWithOld(e, before, rows, p, f);
  }

  // ---------- A finished commit was possible ----------

  lemma {:induction false} CreatedProduct(e: Setting, before: Store, tx: Store, rows: seq<Row>, p: nat, pid: nat)
    requires p < |rows| && PlacedAt(e, before, tx, rows, p, pid)
    ensures NeedsProduct(e, before, rows, p) ==>
              && pid !in before.products && pid in tx.products
              && tx.products[pid].slug == Slugify(e.text, rows[p].productName)
  {
    assert IsFirst(e.text, rows, p) ==> FirstFor(e.text, rows, p, p);
  }

  lemma {:induction false} CreatedSlugsDiffer(e: Setting, before: Store, tx: Store, rows: seq<Row>, done: map<nat,
                                              Resolution>,
                                              p: nat, q: nat)
    requires SlugsPlain(rows) && CategoriesDistinct(e) && Progress(e, before, tx, rows, done)
    requires AllPlaced(e, before, tx, rows, done) && SlugsApart(before, tx)
    requires p in done && q in done && p != q
    ensures NeedsProduct(e, before, rows, p) && NeedsProduct(e, before, rows, q) ==>
              Slugify(e.text, rows[q].productName) != Slugify(e.text, rows[p].productName)
  {
    if NeedsProduct(e, before, rows, p) && NeedsProduct(e, before, rows, q) {
      CreatedProduct(e, before, tx, rows, p, done[p].product);
      CreatedProduct(e, before, tx, rows, q, done[q].product);
      ProductsMatchRows(e, before, tx, rows, done, p, q);
      assert tx.products[done[q].product].slug != tx.products[done[p].product].slug;
    }
  }

  /** A batch creates no product but those its rows go to. */
  lemma {:induction false} NewProductsAreUsed(e: Setting, before: Store, tx: Store, rows: seq<Row>,
                                              done: map<nat, Resolution>, n: nat, k: nat) returns (q: nat)
    requires Placed(e, before, tx, rows, done, n) && k in tx.products && k !in before.products
    requires forall i :: 0 <= i < |rows| ==> i in done
    ensures q in done && q < |rows| && done[q].product == k
  {
    assert AddedBefore(e, before, rows, n, tx.products[k]);
    q :| FromGroup(e, before, rows, n, q, tx.products[k]);
    CreatedProduct(e, before, tx, rows, q, done[q].product);
    assert tx.products[done[q].product].slug == tx.products[k].slug;
  }

  lemma {:induction false} CreatedSlugIsNew(e: Setting, before: Store, tx: Store, rows: seq<Row>, p: nat, pid: nat)
    requires Extends(before.products, tx.products) && SlugsApart(before, tx)
    requires p < |rows| && PlacedAt(e, before, tx, rows, p, pid)
    ensures NeedsProduct(e, before, rows, p) ==> !SlugUsed(before, Slugify(e.text, rows[p].productName))
  {
    CreatedProduct(e, before, tx, rows, p, pid);
    if NeedsProduct(e, before, rows, p) {
      forall k | k in before.products
        ensures before.products[k].slug != Slugify(e.text, rows[p].productName)
      {
        assert tx.products[k].slug != tx.products[pid].slug;
      }
    }
  }

  lemma {:induction false} NoSlugClash(e: Setting, before: Store, tx: Store, rows: seq<Row>, done: map<nat,
                                       Resolution>, n: nat, p: nat)
    requires SlugsPlain(rows) && CategoriesDistinct(e) && Progress(e, before, tx, rows, done)
    requires Placed(e, before, tx, rows, done, n)
    requires forall q :: 0 <= q < |rows| ==> q in done
    requires NeedsProduct(e, before, rows, p)
    ensures !SlugHeld(e, before, rows, p)
  {
    CreatedSlugIsNew(e, before, tx, rows, p, done[p].product);
    forall q: nat | NeedsProduct(e, before, rows, q) && q != p
      ensures Slugify(e.text, rows[q].productName) != Slugify(e.text, rows[p].productName)
    {
      CreatedSlugsDiffer(e, before, tx, rows, done, p, q);
    }
  }

  lemma {:induction false} CommittedWasPossible(e: Setting, before: Store, tx: Store, rows: seq<Row>, done: map<nat,
                                                Resolution>, n: nat)
    requires SlugsPlain(rows) && CategoriesDistinct(e) && Progress(e, before, tx, rows, done)
    requires Placed(e, before, tx, rows, done, n)
    requires forall q :: 0 <= q < |rows| ==> q in done
    ensures CanCommit(e, before, rows)
  {
    forall p | NeedsProduct(e, before, rows, p)
      ensures !SlugHeld(e, before, rows, p)
    {
      NoSlugClash(e, before, tx, rows, done, n, p);
    }
    forall p: nat, f: nat | p < |rows|
      ensures !ClashesWithOld(e, before, rows, p, f)
    {
      assert PlacedAt(e, before, tx, rows, p, done[p].product);
    }
    forall p | 0 <= p < |rows|
      ensures Storable(e.text, rows[p])
    {
      assert Written(e, before, tx, rows[p], done[p]);
    }
  }

  // ---------- Numbers ----------

  /** The price is below ten thousand million once it is rounded to cents. */
  predicate PriceInRange(n: JsNumber) {
    n.Finite? && n.value < 9999999999.995
  }

  /** The weight is below ten million, on either side of zero, once it is rounded to thousandths. */
  predicate WeightInRange(n: JsNumber) {
    n.Finite? && -9999999.9995 < n.value < 9999999.9995
  }

  /** Exactly which numbers a valid row can be committed with. */
  lemma ValidNumbersStorable(text: Text, known: Known, rows: seq<Row>, p: nat)
    requires p < |rows|
    ensures IsValid(text, known, rows, p) ==>
              (Storable(text, rows[p]) <==>
                 && PriceInRange(text.number(rows[p].price))
                 && (rows[p].weight.Some? ==> WeightInRange(text.number(rows[p].weight.value))))
  {
    ValidMeans(text, known, rows, p);
    if rows[p].weight.Some? {
      WeightLimit(text.number(rows[p].weight.value));
    }
    if text.number(rows[p].price).Finite? && text.number(rows[p].price).value > 0.0 {
      PriceLimit(text.number(rows[p].price));
    }
  }

  lemma PriceLimit(n: JsNumber)
    requires n.Finite? && n.value > 0.0
    ensures FitsColumn(n, 100, PRICE_LIMIT) <==> PriceInRange(n)
  {
  }

  lemma WeightLimit(n: JsNumber)
    ensures FitsColumn(n, 1000, WEIGHT_LIMIT) <==> WeightInRange(n)
  {
  }

  const LAMP := Row("A1", "Lamp", "lamps", None, "Infinity", None, None, map[])
  const LAMPS := Known(map["lamps" := Category(0, Rules([], []))], {}, {})

  /** An infinite price passes validation, and no column can hold it. */
  lemma InfinitePriceIsValid(text: Text)
    requires text.number("Infinity") == Infinite(true)
    ensures IsValid(text, LAMPS, [LAMP], 0) && !Storable(text, LAMP)
  {
    OnlyRowIsValid(text, LAMP);
  }

  /** So does an infinite weight, of either sign. */
  lemma InfiniteWeightIsValid(text: Text, weight: string)
    requires text.number("9.5") == Finite(9.5) && text.number(weight).Infinite?
    ensures var row := LAMP.(price := "9.5", weight := Some(weight));
            IsValid(text, LAMPS, [row], 0) && !Storable(text, row)
  {
    OnlyRowIsValid(text, LAMP.(price := "9.5", weight := Some(weight)));
  }

  /** A finite price of 10^12 passes validation, and its column cannot hold it. */
  lemma HugePriceIsValid(text: Text)
    requires text.number("1e12") == Finite(1000000000000.0)
    ensures var row := LAMP.(price := "1e12"); IsValid(text, LAMPS, [row], 0) && !Storable(text, row)
  {
    OnlyRowIsValid(text, LAMP.(price := "1e12"));
  }

  /** So does a finite weight of twenty million. */
  lemma HugeWeightIsValid(text: Text)
    requires text.number("9.5") == Finite(9.5) && text.number("20000000") == Finite(20000000.0)
    ensures var row := LAMP.(price := "9.5", weight := Some("20000000"));
            IsValid(text, LAMPS, [row], 0) && !Storable(text, row)
  {
    OnlyRowIsValid(text, LAMP.(price := "9.5", weight := Some("20000000")));
  }

  lemma {:induction false} OnlyRowIsValid(text: Text, row: Row)
    requires FieldsOk(text, LAMPS, row) && row.sku != ""
    ensures IsValid(text, LAMPS, [row], 0)
  {
    ValidByDifference(text, LAMPS, [row], 0);
  }
}
