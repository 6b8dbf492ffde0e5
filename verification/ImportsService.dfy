/** ImportsService: upload stages a checked batch, commit writes its valid rows in one transaction. */
module ImportsService {
  import opened Common
  import opened ImportRows
  import opened ImportNormalize
  import opened ImportValidation
  import opened ImportTheorems
  import opened ImportCommit
  import opened ImportPlacement

  datatype RowStatus = VALID | ERROR | COMMITTED | SKIPPED
  datatype ImportRow = ImportRow(row: Row, status: RowStatus, resolved: Option<Resolution>)
  datatype BatchStatus = PREVIEWED | CLOSED
  datatype Batch = Batch(status: BatchStatus, rows: seq<ImportRow>)

  // ---------- The valid rows of a batch ----------

  function ValidPositions(rows: seq<ImportRow>): seq<nat> {
    if rows == [] then []
    else ValidPositions(rows[..|rows| - 1]) + (if rows[|rows| - 1].status == VALID then [|rows| - 1] else [])
  }

  lemma {:induction false} ValidPositionsMeaning(rows: seq<ImportRow>)
    ensures var ps := ValidPositions(rows);
            && (forall i :: i in ps <==> 0 <= i < |rows| && rows[i].status == VALID)
            && (forall p, q :: 0 <= p < q < |ps| ==> ps[p] < ps[q])
            && (forall p :: 0 <= p < |ps| ==> ps[p] in ps)
  {
    if rows == [] {
    } else {
      var init := ValidPositions(rows[..|rows| - 1]);
      ValidPositionsMeaning(rows[..|rows| - 1]);
      assert forall i :: 0 <= i < |rows| - 1 ==> rows[..|rows| - 1][i] == rows[i];
      assert rows[|rows| - 1].status == VALID ==> ValidPositions(rows) == init + [|rows| - 1];
      assert forall p :: 0 <= p < |init| ==> init[p] in init;
    }
  }

  lemma {:induction false} ValidPositionAt(rows: seq<ImportRow>, i: nat)
    requires i < |rows| && rows[i].status == VALID
    ensures var p := |ValidPositions(rows[..i])|; p < |ValidPositions(rows)| && ValidPositions(rows)[p] == i
  {
    if i == |rows| - 1 {
      assert rows[..i] == rows[..|rows| - 1];
    } else {
      var init := rows[..|rows| - 1];
      ValidPositionAt(init, i);
      assert init[..i] == rows[..i];
    }
  }

  function RowsOf(rows: seq<ImportRow>): (r: seq<Row>)
    ensures |r| == |rows|
  {
    seq(|rows|, i requires 0 <= i < |rows| => rows[i].row)
  }

  /** The rows a commit works on. */
  ghost function ValidRows(rows: seq<ImportRow>): (r: seq<Row>)
    ensures |r| == |ValidPositions(rows)|
  {
    ValidPositionsMeaning(rows);
    Chosen(RowsOf(rows), ValidPositions(rows))
  }

  // ---------- What a successful commit has done ----------

  /** Each VALID row became one new variant with one price; every other row was skipped. */
  ghost predicate RowClosed(e: Setting, before: Store, after: Store, staged: ImportRow, closed: ImportRow) {
    && closed.row == staged.row
    && (if staged.status == VALID then
          && closed.status == COMMITTED && closed.resolved.Some?
          && Written(e, before, after, staged.row, closed.resolved.value)
        else closed.status == SKIPPED && closed.resolved == staged.resolved)
  }

  /** Row f is the first VALID row with the product of row i. */
  ghost predicate Opens(e: Setting, staged: seq<ImportRow>, f: nat, i: nat)
    requires f < |staged| && i < |staged|
  {
    && staged[f].status == VALID && SameProduct(e.text, staged[f].row, staged[i].row)
    && forall g :: 0 <= g < f && staged[g].status == VALID ==> !SameProduct(e.text, staged[g].row, staged[f].row)
  }

  /** Every row has its own variant; rows share a product exactly when they are of the same one. */
  ghost predicate RowsApart(e: Setting, staged: seq<ImportRow>, closed: seq<ImportRow>)
    requires |closed| == |staged|
    requires forall i :: 0 <= i < |staged| && staged[i].status == VALID ==> closed[i].resolved.Some?
  {
    forall i, j :: 0 <= i < j < |staged| && staged[i].status == VALID && staged[j].status == VALID ==>
      && closed[i].resolved.value.variant != closed[j].resolved.value.variant
      && (closed[i].resolved.value.product == closed[j].resolved.value.product <==>
            SameProduct(e.text, staged[i].row, staged[j].row))
  }

  ghost predicate AllAtHome(e: Setting, before: Store, after: Store, staged: seq<ImportRow>, closed: seq<ImportRow>)
    requires |closed| == |staged|
    requires forall i :: 0 <= i < |staged| && staged[i].status == VALID ==> closed[i].resolved.Some?
  {
    forall i, f :: 0 <= i < |staged| && 0 <= f < |staged| && staged[i].status == VALID && Opens(e, staged, f, i) ==>
      IsHome(e, before, after, staged[f].row, closed[i].resolved.value.product)
  }

  ghost predicate CommitDone(e: Setting, before: Store, after: Store, staged: seq<ImportRow>, closed: seq<ImportRow>) {
    && |closed| == |staged| && Keeps(before, after)
    && (forall i :: 0 <= i < |staged| ==> RowClosed(e, before, after, staged[i], closed[i]))
    && RowsApart(e, staged, closed) && AllAtHome(e, before, after, staged, closed)
    && after.products.Keys == before.products.Keys + ProductsUsed(staged, closed)
    && after.variants.Keys == before.variants.Keys + NewVariants(staged, closed)
    && after.prices.Keys == before.prices.Keys + NewVariants(staged, closed)
  }

  // ---------- The transaction ----------

  ghost predicate DoneSoFar(done: map<nat, Resolution>, start: set<nat>, members: seq<nat>, m: nat)
    requires m <= |members|
  {
    done.Keys == start + (set q | 0 <= q < m :: members[q])
  }

  /** The group's rows that are written already all went to its product; rows of other groups have other keys. */
  ghost predicate GroupOwns(e: Setting, rows: seq<Row>, members: seq<nat>, done: map<nat, Resolution>, pid: nat) {
    forall q {:trigger done[q]} :: q in done && q < |rows| && q in members ==> done[q].product == pid
  }

  ghost predicate StartsBefore(e: Setting, rows: seq<Row>, n: nat, done: map<nat, Resolution>) {
    forall q :: q in done ==> q < |rows| && GroupOf(e.text, rows, q) < n
  }

  lemma MemberFits(e: Setting, tx: Store, rows: seq<Row>, n: nat, members: seq<nat>, start: set<nat>, done: map<nat,
                   Resolution>,
                   m: nat, pid: nat, c: Category)
    requires SlugsPlain(rows) && IsGroup(e.text, rows, n, members) && m < |members| && Positions(rows, members)
    requires DoneSoFar(done, start, members, m) && GroupOwns(e, rows, members, done, pid)
    requires forall q :: q in start ==> q < |rows| && GroupOf(e.text, rows, q) < n
    requires rows[members[0]].categorySlug in e.categories && e.categories[rows[members[0]].categorySlug] == c
    requires pid in tx.products && tx.products[pid].category == c.id
    requires tx.products[pid].name == rows[members[0]].productName
    ensures Fits(e, tx, rows, done, members[m], pid, c)
  {
    var p := members[m];
    assert members[0] in members && members[m] in members;
    GroupOfMeaning(e.text, rows, members[0], p);
    GroupKeyMeaning(e.text, rows[members[0]], rows[p]);
    forall q | q in done && q < |rows| && GroupKey(e.text, rows[q]) == GroupKey(e.text, rows[p])
      ensures done[q].product == pid
    {
      GroupOfMeaning(e.text, rows, q, p);
    }
  }

  lemma NextMember(e: Setting, rows: seq<Row>, members: seq<nat>, start: set<nat>, done: map<nat, Resolution>, m: nat,
                   pid: nat, vid: nat)
    requires m < |members| && DoneSoFar(done, start, members, m) && GroupOwns(e, rows, members, done, pid)
    ensures DoneSoFar(done[members[m] := Resolution(pid, vid)], start, members, m + 1)
    ensures GroupOwns(e, rows, members, done[members[m] := Resolution(pid, vid)], pid)
  {
  }

  /** The product the group's rows go to; its home, whether it was there before or not. */
  ghost predicate HasHome(e: Setting, before: Store, tx: Store, first: Row, pid: nat, c: Category) {
    && IsHome(e, before, tx, first, pid)
    && pid in tx.products && tx.products[pid].category == c.id && tx.products[pid].name == first.productName
  }

  method OpenGroup(e: Setting, ghost before: Store, tx: Store, rows: seq<Row>, ghost n: nat, ghost f: nat, c: Category,
                   first: Row,
                   ghost done: map<nat, Resolution>)
    returns (error: Option<CommitError>, next: Store, pid: nat)
    requires SlugsPlain(rows) && CategoriesDistinct(e) && FindsMatch(e)
    requires f < |rows| && rows[f] == first && GroupOf(e.text, rows, f) == n && IsFirst(e.text, rows, f)
    requires first.categorySlug in e.categories && e.categories[first.categorySlug] == c
    requires Progress(e, before, tx, rows, done) && Placed(e, before, tx, rows, done, n)
    ensures error.None? ==>
      && Progress(e, before, next, rows, done) && Placed(e, before, next, rows, done, n + 1)
      && HasHome(e, before, next, first, pid, c)
    ensures error.Some? ==> ErrorExplained(e, before, rows, error.value)
  {
    error, next, pid := ProductFor(e, tx, c, first);
    MatchesStay(e, before, tx, rows, n, f);
    if MatchesIn(tx, c.id, first.productName) != {} {
      OldProductPlaced(e, before, tx, rows, done, n);
    } else if error.Some? {
      SlugErrorExplained(e, before, tx, rows, n, f);
    } else {
      NewProductPlaced(e, before, tx, rows, done, n, f);
      ProductAdded(e, before, tx, next, rows, done);
    }
  }

  /** One pass of the inner loop: row p becomes a variant of its group's product. */
  method CommitMember(e: Setting, ghost before: Store, tx: Store, rows: seq<Row>, ghost n: nat, p: nat, ghost f: nat,
                      pid: nat, c: Category, ghost done: map<nat, Resolution>)
    returns (error: Option<CommitError>, next: Store, vid: nat)
    requires StoreOk(before) && Progress(e, before, tx, rows, done) && Placed(e, before, tx, rows, done, n)
    requires Fits(e, tx, rows, done, p, pid, c) && FirstFor(e.text, rows, f, p)
    requires IsHome(e, before, tx, rows[f], pid) && forall g: nat :: FirstFor(e.text, rows, g, p) ==> g == f
    ensures error.None? ==>
      && next.products == tx.products
      && Progress(e, before, next, rows, done[p := Resolution(pid, vid)])
      && Placed(e, before, next, rows, done[p := Resolution(pid, vid)], n)
    ensures error.Some? ==> ErrorExplained(e, before, rows, error.value)
  {
    var row := rows[p];
    error, next, vid := WriteRow(e, tx, pid, c.rules, row);
    if error.Some? {
      RowErrorExplained(e, before, tx, rows, done, p, f, pid, c, error.value);
    } else {
      VariantWritten(e, before, tx, rows, done, p, pid, c);
      RowPlaced(e, before, tx, rows, done, n, p, f, VariantFor(e.text, pid, c.rules, row), PriceInCents(e.text, row));
    }
  }

  method CommitGroup(e: Setting, ghost before: Store, tx: Store, rows: seq<Row>, ghost n: nat, members: seq<nat>,
                     done: map<nat, Resolution>)
    returns (error: Option<CommitError>, next: Store, after: map<nat, Resolution>)
    requires SlugsPlain(rows) && IsGroup(e.text, rows, n, members) && members != [] && Positions(rows, members)
    requires CategoriesDistinct(e) && FindsMatch(e) && StoreOk(before)
    requires Progress(e, before, tx, rows, done) && StartsBefore(e, rows, n, done)
    requires Placed(e, before, tx, rows, done, n)
    ensures error.None? ==>
      && Progress(e, before, next, rows, after) && DoneSoFar(after, done.Keys, members, |members|)
      && Placed(e, before, next, rows, after, n + 1)
    ensures error.Some? ==> ErrorExplained(e, before, rows, error.value)
  {
    next, after := tx, done;
    assert members[0] in members;
    var firstData := rows[members[0]];
    if firstData.categorySlug !in e.categories {
      NoGroupWithoutCategory(e, before, tx, rows, n, members, done);
      return Some(CategoryMissing), next, after;
    }
    var category := e.categories[firstData.categorySlug];
    FirstOfGroup(e.text, rows, n, members, 0);
    var pid;
    error, next, pid := OpenGroup(e, before, tx, rows, n, members[0], category, firstData, done);
    if error.Some? {
      return;
    }
    StartOwns(e, rows, n, members, done, pid);
    for m := 0 to |members|
      invariant Progress(e, before, next, rows, after) && Placed(e, before, next, rows, after, n + 1)
      invariant DoneSoFar(after, done.Keys, members, m) && GroupOwns(e, rows, members, after, pid)
      invariant HasHome(e, before, next, firstData, pid, category)
    {
      var p := members[m];
      MemberFits(e, next, rows, n, members, done.Keys, after, m, pid, category);
      FirstOfGroup(e.text, rows, n, members, m);
      var vid;
      error, next, vid := CommitMember(e, before, next, rows, n + 1, p, members[0], pid, category, after);
      if error.Some? {
        return;
      }
      NextMember(e, rows, members, done.Keys, after, m, pid, vid);
      after := after[p := Resolution(pid, vid)];
    }
    error := None;
  }

  lemma StartOwns(e: Setting, rows: seq<Row>, n: nat, members: seq<nat>, done: map<nat, Resolution>, pid: nat)
    requires IsGroup(e.text, rows, n, members) && StartsBefore(e, rows, n, done)
    ensures DoneSoFar(done, done.Keys, members, 0) && GroupOwns(e, rows, members, done, pid)
  {
  }

  lemma NoGroupWithoutCategory(e: Setting, before: Store, tx: Store, rows: seq<Row>, n: nat, members: seq<nat>,
                               done: map<nat, Resolution>)
    requires IsGroup(e.text, rows, n, members) && members != [] && Positions(rows, members)
    requires Progress(e, before, tx, rows, done) && StartsBefore(e, rows, n, done)
    requires rows[members[0]].categorySlug !in e.categories
    ensures ErrorExplained(e, before, rows, CategoryMissing)
  {
    assert members[0] in members;
    assert members[0] !in done;
    if Staged(e, before, rows) {
      StagedSkuIsFree(e, before, tx, rows, done, members[0]);
    }
  }

  lemma RowErrorExplained(e: Setting, before: Store, tx: Store, rows: seq<Row>, done: map<nat, Resolution>, p: nat,
                          f: nat,
                          pid: nat, c: Category, error: CommitError)
    requires Progress(e, before, tx, rows, done) && StoreOk(before) && Fits(e, tx, rows, done, p, pid, c)
    requires FirstFor(e.text, rows, f, p) && IsHome(e, before, tx, rows[f], pid)
    requires match error
             case SkuTaken => !SkuFree(tx, rows[p].sku)
             case CombinationTaken => !KeyFree(tx, pid, KeyOf(c.rules, rows[p]))
             case NumberNotStorable => !Storable(e.text, rows[p])
             case _ => false
    ensures ErrorExplained(e, before, rows, error)
  {
    if Staged(e, before, rows) {
      StagedSkuIsFree(e, before, tx, rows, done, p);
      if error == CombinationTaken {
        ClashExplained(e, before, tx, rows, done, p, f, pid, c);
      }
    }
  }

  lemma GroupFinished(e: Setting, rows: seq<Row>, n: nat, members: seq<nat>, start: map<nat, Resolution>,
                      done: map<nat, Resolution>)
    requires IsGroup(e.text, rows, n, members) && DoneSoFar(done, start.Keys, members, |members|)
    requires GroupsDone(e.text, rows, start, n)
    ensures GroupsDone(e.text, rows, done, n + 1)
  {
    forall q
      ensures q in done <==> 0 <= q < |rows| && GroupOf(e.text, rows, q) < n + 1
    {
      if 0 <= q < |rows| && GroupOf(e.text, rows, q) == n {
        assert q in members;
        var k :| 0 <= k < |members| && members[k] == q;
      }
      if q in done && q !in start {
        var k :| 0 <= k < |members| && members[k] == q;
        assert members[k] in members;
      }
    }
  }

  /** The rows written are those of the groups before group n. */
  ghost predicate GroupsDone(text: Text, rows: seq<Row>, done: map<nat, Resolution>, n: nat) {
    forall q :: q in done <==> 0 <= q < |rows| && GroupOf(text, rows, q) < n
  }

  method NextGroup(e: Setting, ghost before: Store, tx: Store, rows: seq<Row>, groups: Groups, n: nat, done: map<nat,
                   Resolution>)
    returns (error: Option<CommitError>, next: Store, after: map<nat, Resolution>)
    requires SlugsPlain(rows) && StoreOk(before) && CategoriesDistinct(e) && FindsMatch(e)
    requires AreGroupsOf(groups, e.text, rows) && n < |groups.keys|
    requires Progress(e, before, tx, rows, done) && Placed(e, before, tx, rows, done, n)
    requires GroupsDone(e.text, rows, done, n)
    ensures error.None? ==>
      && Progress(e, before, next, rows, after) && Placed(e, before, next, rows, after, n + 1)
      && GroupsDone(e.text, rows, after, n + 1)
    ensures error.Some? ==> ErrorExplained(e, before, rows, error.value)
  {
    GroupsAreGroups(e.text, rows, n);
    var members := groups.members[groups.keys[n]];
    GroupPositions(e.text, rows, n, members);
    error, next, after := CommitGroup(e, before, tx, rows, n, members, done);
    if error.None? {
      GroupFinished(e, rows, n, members, done, after);
    }
  }

  lemma {:induction false} AllGroupsDone(text: Text, rows: seq<Row>, done: map<nat, Resolution>)
    requires GroupsDone(text, rows, done, |Keys(text, rows)|)
    ensures forall q :: q in done <==> 0 <= q < |rows|
  {
    forall p | 0 <= p < |rows|
      ensures p in done
    {
      GroupOfMeaning(text, rows, p, p);
    }
  }

  /** All groups of the valid rows; an error means nothing of it may be kept. */
  method CommitRows(e: Setting, tx: Store, rows: seq<Row>) returns (error: Option<CommitError>, next: Store,
                    done: map<nat, Resolution>)
    requires SlugsPlain(rows) && StoreOk(tx) && CategoriesDistinct(e) && FindsMatch(e)
    ensures error.None? ==>
      && CanCommit(e, tx, rows) && Progress(e, tx, next, rows, done)
      && Placed(e, tx, next, rows, done, |Keys(e.text, rows)|) && forall q :: q in done <==> 0 <= q < |rows|
    ensures error.Some? ==> ErrorExplained(e, tx, rows, error.value)
  {
    var groups := GroupRows(e.text, rows);
    next, done := tx, map[];
    for n := 0 to |groups.keys|
      invariant Progress(e, tx, next, rows, done) && Placed(e, tx, next, rows, done, n)
      invariant GroupsDone(e.text, rows, done, n)
    {
      error, next, done := NextGroup(e, tx, next, rows, groups, n, done);
      if error.Some? {
        return;
      }
    }
    AllGroupsDone(e.text, rows, done);
    CommittedWasPossible(e, tx, next, rows, done, |groups.keys|);
    error := None;
  }

  /** Row i of a closed batch: committed with its resolution, or skipped. */
  ghost predicate ClosedAs(rows: seq<ImportRow>, closed: seq<ImportRow>, done: map<nat, Resolution>, i: nat)
    requires i < |rows| && i < |closed|
  {
    if rows[i].status == VALID then
      var p := |ValidPositions(rows[..i])|;
      p in done && closed[i] == rows[i].(status := COMMITTED, resolved := Some(done[p]))
    else closed[i] == rows[i].(status := SKIPPED)
  }

  method CollectValid(rows: seq<ImportRow>) returns (validRows: seq<Row>)
    ensures validRows == ValidRows(rows)
  {
    validRows := [];
    for i := 0 to |rows|
      invariant validRows == ValidRows(rows[..i])
    {
      var longer := rows[..i + 1];
      assert longer[..i] == rows[..i];
      ValidPositionsMeaning(rows[..i]);
      ValidPositionsMeaning(longer);
      if rows[i].status == VALID {
        validRows := validRows + [rows[i].row];
      }
      assert validRows == ValidRows(longer);
    }
    assert rows[..|rows|] == rows;
  }

  method StageRows(results: seq<Checked>) returns (rows: seq<ImportRow>)
    ensures |rows| == |results|
    ensures forall i :: 0 <= i < |rows| ==>
      rows[i] == ImportRow(results[i].row, if results[i].problems == [] then VALID else ERROR, None)
  {
    rows := [];
    for i := 0 to |results|
      invariant |rows| == i
      invariant forall j :: 0 <= j < i ==>
        rows[j] == ImportRow(results[j].row, if results[j].problems == [] then VALID else ERROR, None)
    {
      rows := rows + [ImportRow(results[i].row, if |results[i].problems| > 0 then ERROR else VALID, None)];
    }
  }

  /** The final loop: valid rows get their resolution, the others are skipped. */
  method CloseRows(rows: seq<ImportRow>, done: map<nat, Resolution>) returns (closed: seq<ImportRow>)
    requires forall q :: q in done <==> 0 <= q < |ValidPositions(rows)|
    ensures |closed| == |rows| && forall i :: 0 <= i < |rows| ==> ClosedAs(rows, closed, done, i)
  {
    closed := [];
    var k := 0;
    for i := 0 to |rows|
      invariant |closed| == i && k == |ValidPositions(rows[..i])|
      invariant forall j :: 0 <= j < i ==> ClosedAs(rows, closed, done, j)
    {
      assert rows[..i + 1][..i] == rows[..i];
      ghost var before := closed;
      if rows[i].status == VALID {
        ValidPositionAt(rows, i);
        closed := closed + [rows[i].(status := COMMITTED, resolved := Some(done[k]))];
        k := k + 1;
      } else {
        closed := closed + [rows[i].(status := SKIPPED)];
      }
      forall j | 0 <= j < i + 1
        ensures ClosedAs(rows, closed, done, j)
      {
        if j < i {
          assert ClosedAs(rows, before, done, j);
        }
      }
    }
  }

  lemma {:induction false} EveryRowClosed(e: Setting, before: Store, after: Store, staged: seq<ImportRow>,
                                          closed: seq<ImportRow>,
                       done: map<nat, Resolution>, i: nat)
    requires Progress(e, before, after, ValidRows(staged), done)
    requires |closed| == |staged| && i < |staged| && forall q :: q in done <==> 0 <= q < |ValidPositions(staged)|
    requires ClosedAs(staged, closed, done, i)
    ensures RowClosed(e, before, after, staged[i], closed[i])
    ensures staged[i].status == VALID ==> closed[i].resolved.value.variant in VariantsOf(done)
  {
    if staged[i].status == VALID {
      var p := |ValidPositions(staged[..i])|;
      ValidPositionAt(staged, i);
      assert ValidRows(staged)[p] == staged[i].row;
      assert Written(e, before, after, ValidRows(staged)[p], done[p]);
    }
  }

  lemma {:induction false} TwoRowsClosed(e: Setting, before: Store, after: Store, staged: seq<ImportRow>,
                                         done: map<nat, Resolution>, i: nat, j: nat)
    requires Progress(e, before, after, ValidRows(staged), done) && SlugsPlain(ValidRows(staged))
    requires CategoriesDistinct(e)
    requires i < j < |staged| && staged[i].status == VALID && staged[j].status == VALID
    requires forall q :: q in done <==> 0 <= q < |ValidPositions(staged)|
    ensures var (p, q) := (|ValidPositions(staged[..i])|, |ValidPositions(staged[..j])|);
            && p in done && q in done && done[p].variant != done[q].variant
            && (done[p].product == done[q].product <==> SameProduct(e.text, staged[i].row, staged[j].row))
  {
    var (p, q) := (|ValidPositions(staged[..i])|, |ValidPositions(staged[..j])|);
    ValidPositionAt(staged, i);
    ValidPositionAt(staged, j);
    assert p != q;
    assert ValidRows(staged)[p] == staged[i].row && ValidRows(staged)[q] == staged[j].row;
    ProductsMatchRows(e, before, after, ValidRows(staged), done, p, q);
  }

  lemma {:induction false} AllRowsApart(e: Setting, before: Store, after: Store, staged: seq<ImportRow>,
                                        closed: seq<ImportRow>, done: map<nat, Resolution>)
    requires Progress(e, before, after, ValidRows(staged), done) && SlugsPlain(ValidRows(staged))
    requires CategoriesDistinct(e)
    requires |closed| == |staged| && forall q :: q in done <==> 0 <= q < |ValidPositions(staged)|
    requires forall i :: 0 <= i < |staged| && staged[i].status == VALID ==>
      |ValidPositions(staged[..i])| in done && closed[i].resolved == Some(done[|ValidPositions(staged[..i])|])
    ensures RowsApart(e, staged, closed)
  {
    forall i, j | 0 <= i < j < |staged| && staged[i].status == VALID && staged[j].status == VALID
      ensures closed[i].resolved.value.variant != closed[j].resolved.value.variant
      ensures closed[i].resolved.value.product == closed[j].resolved.value.product <==>
              SameProduct(e.text, staged[i].row, staged[j].row)
    {
      TwoRowsClosed(e, before, after, staged, done, i, j);
    }
  }

  ghost function NewVariants(staged: seq<ImportRow>, closed: seq<ImportRow>): set<nat>
    requires |closed| == |staged|
    requires forall i :: 0 <= i < |staged| && staged[i].status == VALID ==> closed[i].resolved.Some?
  {
    set i | 0 <= i < |staged| && staged[i].status == VALID :: closed[i].resolved.value.variant
  }

  ghost function ProductsUsed(staged: seq<ImportRow>, closed: seq<ImportRow>): set<nat>
    requires |closed| == |staged|
    requires forall i :: 0 <= i < |staged| && staged[i].status == VALID ==> closed[i].resolved.Some?
  {
    set i | 0 <= i < |staged| && staged[i].status == VALID :: closed[i].resolved.value.product
  }

  lemma {:induction false} ProductsAreUsed(e: Setting, before: Store, after: Store, staged: seq<ImportRow>,
                                           closed: seq<ImportRow>, done: map<nat, Resolution>, n: nat)
    requires Progress(e, before, after, ValidRows(staged), done) && Placed(e, before, after, ValidRows(staged), done, n)
    requires |closed| == |staged| && forall q :: q in done <==> 0 <= q < |ValidPositions(staged)|
    requires forall i :: 0 <= i < |staged| && staged[i].status == VALID ==>
      |ValidPositions(staged[..i])| in done && closed[i].resolved == Some(done[|ValidPositions(staged[..i])|])
    ensures after.products.Keys == before.products.Keys + ProductsUsed(staged, closed)
  {
    ValidPositionsMeaning(staged);
    forall k | k in after.products && k !in before.products
      ensures k in ProductsUsed(staged, closed)
    {
      var q := NewProductsAreUsed(e, before, after, ValidRows(staged), done, n, k);
      var i := ValidPositions(staged)[q];
      assert i in ValidPositions(staged);
      ValidPositionAt(staged, i);
      assert ValidPositions(staged)[|ValidPositions(staged[..i])|] == ValidPositions(staged)[q];
      assert closed[i].resolved.value.product == k;
    }
    forall k | k in ProductsUsed(staged, closed)
      ensures k in after.products
    {
      var i :| 0 <= i < |staged| && staged[i].status == VALID && closed[i].resolved.value.product == k;
      var p := |ValidPositions(staged[..i])|;
      assert Written(e, before, after, ValidRows(staged)[p], done[p]);
    }
  }

  lemma {:induction false} RowAtHome(e: Setting, before: Store, after: Store, staged: seq<ImportRow>,
                                     done: map<nat, Resolution>, n: nat, i: nat, f: nat)
    requires Placed(e, before, after, ValidRows(staged), done, n)
    requires forall q :: q in done <==> 0 <= q < |ValidPositions(staged)|
    requires i < |staged| && f < |staged| && staged[i].status == VALID && Opens(e, staged, f, i)
    ensures var p := |ValidPositions(staged[..i])|;
            p in done && IsHome(e, before, after, staged[f].row, done[p].product)
  {
    var (p, first, rows) := (|ValidPositions(staged[..i])|, |ValidPositions(staged[..f])|, ValidRows(staged));
    ValidPositionAt(staged, i);
    ValidPositionAt(staged, f);
    ValidPositionsMeaning(staged);
    forall q | 0 <= q < first
      ensures !SameProduct(e.text, rows[q], rows[first])
    {
      assert ValidPositions(staged)[q] in ValidPositions(staged);
    }
    assert FirstFor(e.text, rows, first, p);
    assert PlacedAt(e, before, after, rows, p, done[p].product);
  }

  lemma {:induction false} RowsAtHome(e: Setting, before: Store, after: Store, staged: seq<ImportRow>,
                                      closed: seq<ImportRow>, done: map<nat, Resolution>, n: nat)
    requires Placed(e, before, after, ValidRows(staged), done, n)
    requires |closed| == |staged| && forall q :: q in done <==> 0 <= q < |ValidPositions(staged)|
    requires forall i :: 0 <= i < |staged| && staged[i].status == VALID ==>
      |ValidPositions(staged[..i])| in done && closed[i].resolved == Some(done[|ValidPositions(staged[..i])|])
    ensures AllAtHome(e, before, after, staged, closed)
  {
    forall i, f | 0 <= i < |staged| && 0 <= f < |staged| && staged[i].status == VALID && Opens(e, staged, f, i)
      ensures IsHome(e, before, after, staged[f].row, closed[i].resolved.value.product)
    {
      RowAtHome(e, before, after, staged, done, n, i, f);
    }
  }

  lemma {:induction false} NewVariantsAreResolved(staged: seq<ImportRow>, closed: seq<ImportRow>, done: map<nat,
                                                  Resolution>)
    requires |closed| == |staged| && forall q :: q in done <==> 0 <= q < |ValidPositions(staged)|
    requires forall i :: 0 <= i < |staged| && staged[i].status == VALID ==>
      |ValidPositions(staged[..i])| in done && closed[i].resolved == Some(done[|ValidPositions(staged[..i])|])
    ensures NewVariants(staged, closed) == VariantsOf(done)
  {
    ValidPositionsMeaning(staged);
    forall v | v in VariantsOf(done)
      ensures v in NewVariants(staged, closed)
    {
      var q :| q in done && done[q].variant == v;
      var i := ValidPositions(staged)[q];
      assert i in ValidPositions(staged);
      ValidPositionAt(staged, i);
      var p := |ValidPositions(staged[..i])|;
      assert ValidPositions(staged)[p] == ValidPositions(staged)[q];
      assert p == q;
      assert closed[i].resolved.value.variant == v;
    }
  }

  // ---------- The service ----------

  /** Valid rows of an upload stay valid among themselves: the staged batch is fit to commit. */
  lemma {:induction false} UploadStages(e: Setting, store: Store, rows: seq<ImportRow>)
    requires SlugsPlain(RowsOf(rows)) && CategoriesDistinct(e)
    requires forall i :: 0 <= i < |rows| ==>
      (rows[i].status == VALID <==> IsValid(e.text, KnownBy(e, store), RowsOf(rows), i))
    ensures Staged(e, store, ValidRows(rows))
  {
    var ps := ValidPositions(rows);
    ValidPositionsMeaning(rows);
    ValidRowsPlain(rows);
    forall p | 0 <= p < |ps|
      ensures IsValid(e.text, KnownBy(e, store), ValidRows(rows), p)
    {
      ValidRowsStayValid(e.text, KnownBy(e, store), RowsOf(rows), ps, p);
    }
  }

  lemma {:induction false} ValidRowsPlain(rows: seq<ImportRow>)
    requires SlugsPlain(RowsOf(rows))
    ensures SlugsPlain(ValidRows(rows))
  {
    ValidPositionsMeaning(rows);
  }

  lemma {:induction false} ClosedBatchIsDone(e: Setting, before: Store, after: Store, staged: seq<ImportRow>,
                                             closed: seq<ImportRow>,
                                             done: map<nat, Resolution>, n: nat)
    requires Progress(e, before, after, ValidRows(staged), done) && SlugsPlain(RowsOf(staged)) && CategoriesDistinct(e)
    requires Placed(e, before, after, ValidRows(staged), done, n)
    requires |closed| == |staged| && forall q :: q in done <==> 0 <= q < |ValidPositions(staged)|
    requires forall i :: 0 <= i < |staged| ==> ClosedAs(staged, closed, done, i)
    ensures CommitDone(e, before, after, staged, closed)
  {
    ValidRowsPlain(staged);
    forall i | 0 <= i < |staged|
      ensures RowClosed(e, before, after, staged[i], closed[i])
    {
      assert ClosedAs(staged, closed, done, i);
      EveryRowClosed(e, before, after, staged, closed, done, i);
    }
    forall i | 0 <= i < |staged| && staged[i].status == VALID
      ensures |ValidPositions(staged[..i])| in done && closed[i].resolved == Some(done[|ValidPositions(staged[..i])|])
    {
      assert ClosedAs(staged, closed, done, i);
    }
    AllRowsApart(e, before, after, staged, closed, done);
    RowsAtHome(e, before, after, staged, closed, done, n);
    ProductsAreUsed(e, before, after, staged, closed, done, n);
    NewVariantsAreResolved(staged, closed, done);
  }

  /** The commit of one previewed batch, on the state its transaction works on. */
  method CommitBatch(e: Setting, tx: Store, rows: seq<ImportRow>)
    returns (error: Option<CommitError>, next: Store, closed: seq<ImportRow>)
    requires SlugsPlain(RowsOf(rows)) && StoreOk(tx) && CategoriesDistinct(e) && FindsMatch(e)
    ensures error == Some(NoValidRows) <==> ValidRows(rows) == []
    ensures error.Some? && error.value != NoValidRows ==> ErrorExplained(e, tx, ValidRows(rows), error.value)
    ensures error.None? ==> CanCommit(e, tx, ValidRows(rows))
    ensures Staged(e, tx, ValidRows(rows)) && ValidRows(rows) != [] ==>
      (error.None? <==> CanCommit(e, tx, ValidRows(rows)))
    ensures error.None? ==> StoreOk(next) && RowsOf(closed) == RowsOf(rows) && CommitDone(e, tx, next, rows, closed)
  {
    next, closed := tx, rows;
    var validRows := CollectValid(rows);
    if |validRows| == 0 {
      return Some(NoValidRows), next, closed;
    }
    ValidRowsPlain(rows);
    var done;
    error, next, done := CommitRows(e, tx, validRows);
    if error.Some? {
      return;
    }
    closed := CloseRows(rows, done);
    ClosedBatchIsDone(e, tx, next, rows, closed, done, |Keys(e.text, validRows)|);
    assert RowsOf(closed) == RowsOf(rows) by {
      assert forall i :: 0 <= i < |rows| ==> ClosedAs(rows, closed, done, i);
    }
  }

  class ImportsService {
    var setting: Setting
    var store: Store
    var batches: map<nat, Batch>

    ghost predicate Valid()
      reads this
    {
      && StoreOk(store) && CategoriesDistinct(setting) && FindsMatch(setting)
      && !setting.text.letter('-') && !setting.text.letter(':')
      && forall id :: id in batches ==> SlugsPlain(RowsOf(batches[id].rows))
    }

    constructor (e: Setting)
      requires !e.text.letter('-') && !e.text.letter(':') && CategoriesDistinct(e) && FindsMatch(e)
      ensures Valid() && setting == e && batches == map[]
    {
      setting, store, batches := e, Store(map[], map[], map[], 0), map[];
    }

    method NormalizeAll(records: seq<Record>) returns (rows: seq<Row>)
      requires Valid()
      ensures |rows| == |records| && SlugsPlain(rows)
      ensures forall i :: 0 <= i < |records| ==> Normalized(setting.text, records[i], rows[i])
    {
      rows := [];
      for i := 0 to |records|
        invariant |rows| == i && SlugsPlain(rows)
        invariant forall j :: 0 <= j < i ==> Normalized(setting.text, records[j], rows[j])
      {
        var row := NormalizeRow(setting.text, records[i]);
        rows := rows + [row];
      }
    }

    /** Stages a file under the fresh id. Rows are VALID exactly when nothing is wrong with them; those that are
        VALID would all be found VALID again without the others. */
    method Upload(id: nat, records: seq<Record>) returns (r: Result<Batch>)
      requires Valid() && id !in batches
      modifies this`batches
      ensures Valid()
      ensures records == [] <==> r.Err?
      ensures r.Err? ==> batches == old(batches)
      ensures r.Ok? ==>
        var rows := r.value.rows;
        && batches == old(batches)[id := r.value] && r.value.status == PREVIEWED && |rows| == |records|
        && (forall i :: 0 <= i < |rows| ==>
              && Normalized(setting.text, records[i], rows[i].row)
              && (rows[i].status == VALID <==> IsValid(setting.text, KnownBy(setting, store), RowsOf(rows), i))
              && rows[i].status in {VALID, ERROR})
        && Staged(setting, store, ValidRows(rows))
    {
      if records == [] {
        return Err(BadRequest);
      }
      var data := NormalizeAll(records);
      var results := ValidateRows(setting.text, KnownBy(setting, store), data);
      var rows := StageRows(results);
      assert RowsOf(rows) == data;
      r := Ok(Batch(PREVIEWED, rows));
      batches := batches[id := r.value];
      UploadStages(setting, store, rows);
    }

    /** Writes the valid rows of a previewed batch, or changes nothing at all. A batch staged against the catalogue as
        it is commits exactly when no slug and no old combination is in the way and every number can be stored. */
    method Commit(id: nat) returns (error: Option<CommitError>)
      requires Valid()
      modifies this`store, this`batches
      ensures Valid()
      ensures error == Some(BatchNotFound) <==> id !in old(batches)
      ensures error == Some(NotPreviewed) <==> id in old(batches) && old(batches[id].status) != PREVIEWED
      ensures error == Some(NoValidRows) <==>
              id in old(batches) && old(batches[id].status) == PREVIEWED && ValidRows(old(batches[id].rows)) == []
      ensures error.Some? ==> store == old(store) && batches == old(batches)
      ensures error.Some? && error.value !in {BatchNotFound, NotPreviewed, NoValidRows} ==>
                id in old(batches) && ErrorExplained(setting, store, ValidRows(old(batches[id].rows)), error.value)
      ensures error.None? ==> id in old(batches) && CanCommit(setting, old(store), ValidRows(old(batches[id].rows)))
      ensures id in old(batches) && old(batches[id].status) == PREVIEWED && ValidRows(old(batches[id].rows)) != []
              && Staged(setting, old(store), ValidRows(old(batches[id].rows))) ==>
                (error.None? <==> CanCommit(setting, old(store), ValidRows(old(batches[id].rows))))
      ensures error.None? ==>
                && id in old(batches) && id in batches && batches == old(batches)[id := batches[id]]
                && batches[id].status == CLOSED
                && CommitDone(setting, old(store), store, old(batches[id].rows), batches[id].rows)
    {
      if id !in batches {
        return Some(BatchNotFound);
      }
      var batch := batches[id];
      if batch.status != PREVIEWED {
        return Some(NotPreviewed);
      }
      var next, closed;
      error, next, closed := CommitBatch(setting, store, batch.rows);
      if error.Some? {
        return;
      }
      store := next;
      batches := batches[id := Batch(CLOSED, closed)];
    }
  }
}
