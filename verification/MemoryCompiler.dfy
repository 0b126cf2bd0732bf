/** compileMemory (src/agent-bootstrap.js): how candidate rows become the bounded, authority-ordered memory of a
    package. The ref store answers by ref id; the size of a window is an arbitrary function. */
module MemoryCompiler {
  import opened Ordering
  import StableJson

  type Text = StableJson.Text

  datatype Class = ChainHead | PathHead | Historical
  datatype Row = Row(hash: Text, refId: Text, path: Option<Text>, seed: bool)
  datatype Ranked = Ranked(row: Row, authority: Class)
  datatype Fetched = NoMetadata | NoRaw | Window(content: Text)
  datatype Item = Item(authority: Class, hash: Text, path: Option<Text>, refId: Text, content: Text)
  datatype Outcome =
    | Compiled(items: seq<Item>)
    | Unavailable(refId: Text)
    | LimitExceeded

  /** What one compilation reads and is bounded by. */
  datatype Setting = Setting(store: Text -> Fetched, size: Text -> nat, maxHits: nat, maxBytes: nat, current: bool)

  type Key = (Text, Text)
  function KeyOf(r: Row): Key { (r.hash, r.refId) }

  /*** Merging: the seeds and the search rows, each key once ***/

  function Dedupe(rows: seq<Row>, seen: set<Key>): seq<Row> {
    if rows == [] then []
    else if KeyOf(rows[0]) in seen then Dedupe(rows[1..], seen)
    else [rows[0]] + Dedupe(rows[1..], seen + {KeyOf(rows[0])})
  }

  method MergeRows(rows: seq<Row>) returns (merged: seq<Row>)
    ensures merged == Dedupe(rows, {})
  {
    merged := [];
    var seen: set<Key> := {};
    for i := 0 to |rows|
      invariant merged + Dedupe(rows[i..], seen) == Dedupe(rows, {})
    {
      assert rows[i..][1..] == rows[i + 1..];
      var key := KeyOf(rows[i]);
      if key in seen { continue; }
      Assoc(merged, [rows[i]], Dedupe(rows[i + 1..], seen + {key}));
      seen := seen + {key};
      merged := merged + [rows[i]];
    }
    assert rows[|rows|..] == [];
  }

  ghost predicate DistinctRows(rows: seq<Row>) {
    forall i, j :: 0 <= i < j < |rows| ==> KeyOf(rows[i]) != KeyOf(rows[j])
  }

  /** Merging keeps exactly one row of each key, the first. */
  lemma {:induction false} DedupeMeaning(rows: seq<Row>, seen: set<Key>)
    ensures var merged := Dedupe(rows, seen);
      && DistinctRows(merged)
      && (forall i :: 0 <= i < |merged| ==> merged[i] in rows && KeyOf(merged[i]) !in seen)
      && (forall i ::
            (0 <= i < |rows| && KeyOf(rows[i]) !in seen && forall j :: 0 <= j < i ==> KeyOf(rows[j]) != KeyOf(rows[i]))
            ==> rows[i] in merged)
    decreases |rows|
  {
    if rows != [] {
      var key := KeyOf(rows[0]);
      var rest := if key in seen then seen else seen + {key};
      DedupeMeaning(rows[1..], rest);
      var merged := Dedupe(rows, seen);
      forall i | 0 <= i < |rows| && KeyOf(rows[i]) !in seen
        && (forall j :: 0 <= j < i ==> KeyOf(rows[j]) != KeyOf(rows[i]))
        ensures rows[i] in merged
      {
        if i == 0 {
          assert merged[0] == rows[0];
        } else {
          assert KeyOf(rows[0]) != KeyOf(rows[i]);
          assert forall j :: 0 <= j < i - 1 ==> rows[1..][j] == rows[j + 1];
          assert rows[1..][i - 1] == rows[i];
        }
      }
    }
  }

  /*** Ranking ***/

  function Classify(r: Row, chainHead: Text, pathHeads: set<(Text, Text)>): Class {
    if r.hash == chainHead then ChainHead
    else if r.path.Some? && (r.path.value, r.hash) in pathHeads then PathHead
    else Historical
  }

  function Rank(c: Class): nat { match c case ChainHead => 0 case PathHead => 1 case Historical => 2 }

  /** Authority first, then seeds before search rows; the sort is stable, so then retrieval order. */
  predicate RankLeq(a: Ranked, b: Ranked) {
    Rank(a.authority) < Rank(b.authority) || (a.authority == b.authority && (a.row.seed || !b.row.seed))
  }

  predicate Authoritative(x: Ranked) { !x.authority.Historical? && x.row.path.Some? && x.row.path.value != [] }

  function AuthoritativePaths(rows: seq<Ranked>): set<Text> {
    set x | x in rows && Authoritative(x) :: x.row.path.value
  }

  predicate Survives(x: Ranked, paths: set<Text>) {
    !(x.authority.Historical? && x.row.path.Some? && x.row.path.value in paths)
  }

  function RankRows(merged: seq<Row>, chainHead: Text, pathHeads: set<(Text, Text)>, current: bool): seq<Ranked> {
    var sorted := Sort(Map(merged, (r: Row) => Ranked(r, Classify(r, chainHead, pathHeads))), RankLeq);
    var paths := AuthoritativePaths(sorted);
    if current then Filter(sorted, (x: Ranked) => Survives(x, paths)) else sorted
  }

  /*** The item loop ***/

  function ItemOf(x: Ranked, content: Text): Item { Item(x.authority, x.row.hash, x.row.path, x.row.refId, content) }

  function Fill(e: Setting, rows: seq<Ranked>, items: seq<Item>, used: nat, seen: set<Key>): Outcome
    decreases |rows|
  {
    if rows == [] || |items| >= e.maxHits then Compiled(items)
    else
      var x := rows[0];
      if KeyOf(x.row) in seen then Fill(e, rows[1..], items, used, seen)
      else
        var seen' := seen + {KeyOf(x.row)};
        match e.store(x.row.refId)
        case Window(content) =>
          if used + e.size(content) > e.maxBytes && items != [] then
            if e.current && x.row.seed then LimitExceeded else Compiled(items)
          else Fill(e, rows[1..], items + [ItemOf(x, content)], used + e.size(content), seen')
        case _ =>
          if e.current && x.row.seed then Unavailable(x.row.refId) else Fill(e, rows[1..], items, used, seen')
  }

  method CompileItems(e: Setting, rows: seq<Ranked>) returns (r: Outcome, truncated: bool)
    ensures r == Fill(e, rows, [], 0, {})
    ensures truncated <==> r.Compiled? && |rows| > |r.items|
  {
    var items: seq<Item>, used: nat, seen := [], 0, {};
    truncated := false;
    var i := 0;
    while i < |rows|
      invariant 0 <= i <= |rows|
      invariant Fill(e, rows[i..], items, used, seen) == Fill(e, rows, [], 0, {})
    {
      if |items| >= e.maxHits { break; }
      assert rows[i..][1..] == rows[i + 1..];
      var x := rows[i];
      i := i + 1;
      if KeyOf(x.row) in seen { continue; }
      seen := seen + {KeyOf(x.row)};
      var fetched := e.store(x.row.refId);
      if !fetched.Window? {
        if e.current && x.row.seed { return Unavailable(x.row.refId), false; }
        continue;
      }
      var bytes := e.size(fetched.content);
      if used + bytes > e.maxBytes && |items| > 0 {
        if e.current && x.row.seed { return LimitExceeded, false; }
        return Compiled(items), |rows| > |items|;
      }
      used := used + bytes;
      items := items + [ItemOf(x, fetched.content)];
    }
    r := Compiled(items);
    truncated := |rows| > |items|;
  }

  /*** What the loop keeps ***/

  predicate CanRead(e: Setting, x: Ranked) { e.store(x.row.refId).Window? }

  /** The items the rows would give with no limits. */
  function Readable(e: Setting, rows: seq<Ranked>): seq<Item> {
    if rows == [] then []
    else
      (if CanRead(e, rows[0]) then [ItemOf(rows[0], e.store(rows[0].row.refId).content)] else [])
      + Readable(e, rows[1..])
  }

  function Bytes(e: Setting, items: seq<Item>): nat {
    if items == [] then 0 else Bytes(e, items[..|items| - 1]) + e.size(items[|items| - 1].content)
  }

  /** Within both limits; a first item alone is never too large. */
  predicate Fits(e: Setting, items: seq<Item>) {
    |items| <= e.maxHits && (|items| <= 1 || Bytes(e, items) <= e.maxBytes)
  }

  ghost predicate FreshKeys(rows: seq<Ranked>, seen: set<Key>) {
    && (forall i :: 0 <= i < |rows| ==> KeyOf(rows[i].row) !in seen)
    && (forall i, j :: 0 <= i < j < |rows| ==> KeyOf(rows[i].row) != KeyOf(rows[j].row))
  }

  /** `kept` is the longest prefix of `all` that fits. */
  ghost predicate LongestFit(e: Setting, kept: seq<Item>, all: seq<Item>) {
    && kept <= all && Fits(e, kept)
    && forall n :: |kept| < n <= |all| ==> !Fits(e, all[..n])
  }

  lemma {:induction false} BytesGrow(e: Setting, all: seq<Item>, m: nat, n: nat)
    requires m <= n <= |all|
    ensures Bytes(e, all[..m]) <= Bytes(e, all[..n])
    decreases n
  {
    if m < n {
      BytesGrow(e, all, m, n - 1);
      assert all[..n][..n - 1] == all[..n - 1];
    }
  }

  lemma BytesMore(e: Setting, items: seq<Item>, item: Item)
    ensures Bytes(e, items + [item]) == Bytes(e, items) + e.size(item.content)
  {
    assert (items + [item])[..|items|] == items;
  }

  lemma StopsHere(e: Setting, items: seq<Item>, more: seq<Item>)
    requires Fits(e, items) && (more == [] || !Fits(e, items + [more[0]]))
    ensures LongestFit(e, items, items + more)
  {
    var all := items + more;
    assert all[..|items|] == items;
    forall n | |items| < n <= |all| ensures !Fits(e, all[..n]) {
      assert all[..|items| + 1] == items + [more[0]];
      BytesGrow(e, all, |items| + 1, n);
    }
  }

  lemma {:induction false} FillKeeps(e: Setting, rows: seq<Ranked>, items: seq<Item>, used: nat, seen: set<Key>)
    requires FreshKeys(rows, seen) && Fits(e, items) && used == Bytes(e, items)
    requires Fill(e, rows, items, used, seen).Compiled?
    ensures LongestFit(e, Fill(e, rows, items, used, seen).items, items + Readable(e, rows))
    decreases |rows|
  {
    if rows == [] || |items| >= e.maxHits {
      StopsHere(e, items, Readable(e, rows));
    } else {
      var x := rows[0];
      var seen' := seen + {KeyOf(x.row)};
      match e.store(x.row.refId)
      case Window(content) =>
        var next := items + [ItemOf(x, content)];
        BytesMore(e, items, ItemOf(x, content));
        Assoc(items, [ItemOf(x, content)], Readable(e, rows[1..]));
        if used + e.size(content) > e.maxBytes && items != [] {
          StopsHere(e, items, Readable(e, rows));
        } else {
          FillKeeps(e, rows[1..], next, used + e.size(content), seen');
        }
      case _ =>
        assert Readable(e, rows) == Readable(e, rows[1..]);
        FillKeeps(e, rows[1..], items, used, seen');
    }
  }

  /** The compiled items are the longest prefix, in authority order, of the readable rows that fits the limits. */
  lemma ItemsMeaning(e: Setting, rows: seq<Ranked>)
    requires FreshKeys(rows, {}) && Fill(e, rows, [], 0, {}).Compiled?
    ensures LongestFit(e, Fill(e, rows, [], 0, {}).items, Readable(e, rows))
  {
    FillKeeps(e, rows, [], 0, {});
    assert [] + Readable(e, rows) == Readable(e, rows);
  }

  /** Row i is a required seed that is reached but cannot be read or does not fit. */
  ghost predicate Blocks(e: Setting, rows: seq<Ranked>, i: nat, items: seq<Item>) {
    && i < |rows| && rows[i].row.seed
    && var before := items + Readable(e, rows[..i]);
       && Fits(e, before) && |before| < e.maxHits
       && (CanRead(e, rows[i]) ==> !Fits(e, before + [ItemOf(rows[i], e.store(rows[i].row.refId).content)]))
  }

  lemma HeadReadable(e: Setting, rows: seq<Ranked>)
    requires rows != []
    ensures Readable(e, rows[..1])
            == if CanRead(e, rows[0]) then [ItemOf(rows[0], e.store(rows[0].row.refId).content)] else []
  {
    assert rows[..1] == [rows[0]] && [rows[0]][1..] == [];
  }

  lemma BlocksShift(e: Setting, rows: seq<Ranked>, i: nat, items: seq<Item>)
    requires i + 1 < |rows|
    ensures var next := items + Readable(e, rows[..1]);
      Blocks(e, rows, i + 1, items) <==> Blocks(e, rows[1..], i, next)
  {
    assert rows[..i + 1][1..] == rows[1..][..i] && rows[..1][1..] == [];
    Assoc(items, Readable(e, rows[..1]), Readable(e, rows[1..][..i]));
    assert Readable(e, rows[..i + 1]) == Readable(e, rows[..1]) + Readable(e, rows[1..][..i]);
  }

  lemma NoLaterFit(e: Setting, items: seq<Item>, more: seq<Item>)
    requires items != [] && Bytes(e, items) > e.maxBytes && |items| >= 2
    ensures !Fits(e, items + more)
  {
    var all := items + more;
    assert all[..|items|] == items && all[..|all|] == all;
    BytesGrow(e, all, |items|, |all|);
  }

  ghost predicate SomeBlocks(e: Setting, rows: seq<Ranked>, items: seq<Item>) {
    exists i: nat :: Blocks(e, rows, i, items)
  }

  /** The same, row by row. */
  predicate Blocked(e: Setting, rows: seq<Ranked>, items: seq<Item>)
    decreases |rows|
  {
    rows != [] && |items| < e.maxHits &&
    match e.store(rows[0].row.refId)
    case Window(content) =>
      var next := items + [ItemOf(rows[0], content)];
      if Fits(e, next) then Blocked(e, rows[1..], next) else rows[0].row.seed
    case _ => rows[0].row.seed || Blocked(e, rows[1..], items)
  }

  lemma Shifted(e: Setting, rows: seq<Ranked>, items: seq<Item>)
    requires rows != []
    ensures SomeBlocks(e, rows, items)
            <==> Blocks(e, rows, 0, items) || SomeBlocks(e, rows[1..], items + Readable(e, rows[..1]))
  {
    var next := items + Readable(e, rows[..1]);
    if i: nat :| Blocks(e, rows, i, items) {
      if i > 0 { BlocksShift(e, rows, i - 1, items); }
    }
    if i: nat :| Blocks(e, rows[1..], i, next) { BlocksShift(e, rows, i, items); }
  }

  lemma NoneBlock(e: Setting, rows: seq<Ranked>, items: seq<Item>)
    requires |items| >= e.maxHits || (|items| >= 2 && Bytes(e, items) > e.maxBytes)
    ensures !SomeBlocks(e, rows, items)
  {
    forall i: nat | i < |rows| ensures !Blocks(e, rows, i, items) {
      if |items| < e.maxHits { NoLaterFit(e, items, Readable(e, rows[..i])); }
    }
  }

  /** One iteration at a row that cannot be read. */
  lemma FillSkips(e: Setting, rows: seq<Ranked>, items: seq<Item>, used: nat, seen: set<Key>)
    requires rows != [] && |items| < e.maxHits && KeyOf(rows[0].row) !in seen && !CanRead(e, rows[0])
    ensures Fill(e, rows, items, used, seen)
            == if e.current && rows[0].row.seed then Unavailable(rows[0].row.refId)
               else Fill(e, rows[1..], items, used, seen + {KeyOf(rows[0].row)})
  {
  }

  /** One iteration at a row whose window is read. */
  lemma FillReads(e: Setting, rows: seq<Ranked>, items: seq<Item>, used: nat, seen: set<Key>, next: seq<Item>)
    requires rows != [] && |items| < e.maxHits && KeyOf(rows[0].row) !in seen && CanRead(e, rows[0])
    requires next == items + [ItemOf(rows[0], e.store(rows[0].row.refId).content)] && used == Bytes(e, items)
    ensures Fits(e, next) ==>
              Fill(e, rows, items, used, seen) == Fill(e, rows[1..], next, Bytes(e, next), seen + {KeyOf(rows[0].row)})
    ensures !Fits(e, next) ==> (Fill(e, rows, items, used, seen).Compiled? <==> !(e.current && rows[0].row.seed))
  {
    var content := e.store(rows[0].row.refId).content;
    BytesMore(e, items, ItemOf(rows[0], content));
    assert Fits(e, next) <==> !(used + e.size(content) > e.maxBytes && items != []);
  }

  lemma BlocksHead(e: Setting, rows: seq<Ranked>, items: seq<Item>)
    requires Fits(e, items) && rows != [] && |items| < e.maxHits
    ensures Blocks(e, rows, 0, items)
            <==> rows[0].row.seed && !(CanRead(e, rows[0]) && Fits(e, items + Readable(e, rows[..1])))
  {
    HeadReadable(e, rows);
    assert rows[..0] == [] && items + [] == items;
  }

  lemma OverfullHead(e: Setting, rows: seq<Ranked>, items: seq<Item>)
    requires Fits(e, items) && rows != [] && |items| < e.maxHits && CanRead(e, rows[0])
    requires !Fits(e, items + Readable(e, rows[..1]))
    ensures !SomeBlocks(e, rows[1..], items + Readable(e, rows[..1]))
  {
    HeadReadable(e, rows);
    NoneBlock(e, rows[1..], items + Readable(e, rows[..1]));
  }

  /** The row-by-row reading is right. */
  lemma {:induction false} BlockedMeaning(e: Setting, rows: seq<Ranked>, items: seq<Item>)
    requires Fits(e, items)
    ensures Blocked(e, rows, items) <==> SomeBlocks(e, rows, items)
    decreases |rows|
  {
    if |items| >= e.maxHits {
      NoneBlock(e, rows, items);
    } else if rows != [] {
      var next := items + Readable(e, rows[..1]);
      HeadReadable(e, rows);
      BlocksHead(e, rows, items);
      Shifted(e, rows, items);
      if CanRead(e, rows[0]) && !Fits(e, next) {
        OverfullHead(e, rows, items);
      } else {
        assert CanRead(e, rows[0]) || next == items;
        BlockedMeaning(e, rows[1..], next);
      }
    }
  }

  lemma {:induction false} FillFails(e: Setting, rows: seq<Ranked>, items: seq<Item>, used: nat, seen: set<Key>)
    requires FreshKeys(rows, seen) && Fits(e, items) && used == Bytes(e, items)
    ensures Fill(e, rows, items, used, seen).Compiled? <==> !(e.current && Blocked(e, rows, items))
    decreases |rows|
  {
    if rows != [] && |items| < e.maxHits {
      var seen' := seen + {KeyOf(rows[0].row)};
      if CanRead(e, rows[0]) {
        var next := items + [ItemOf(rows[0], e.store(rows[0].row.refId).content)];
        FillReads(e, rows, items, used, seen, next);
        if Fits(e, next) { FillFails(e, rows[1..], next, Bytes(e, next), seen'); }
      } else {
        FillSkips(e, rows, items, used, seen);
        FillFails(e, rows[1..], items, used, seen');
      }
    }
  }

  /** A current-state compilation fails exactly when some required seed is reached and cannot be included; no
      other compilation fails. */
  lemma FailsClosed(e: Setting, rows: seq<Ranked>)
    requires FreshKeys(rows, {})
    ensures Fill(e, rows, [], 0, {}).Compiled? <==> !(e.current && exists i: nat :: Blocks(e, rows, i, []))
  {
    FillFails(e, rows, [], 0, {});
    BlockedMeaning(e, rows, []);
    assert SomeBlocks(e, rows, []) <==> exists i: nat :: Blocks(e, rows, i, []);
  }

  /*** The whole compilation ***/

  datatype Request = Request(seeds: seq<Row>, found: seq<Row>, chainHead: Text, pathHeads: set<(Text, Text)>)

  function RowsOf(q: Request, current: bool): seq<Ranked> {
    RankRows(Dedupe(q.seeds + q.found, {}), q.chainHead, q.pathHeads, current)
  }

  method CompileMemory(e: Setting, q: Request) returns (r: Outcome, truncated: bool)
    ensures r == Fill(e, RowsOf(q, e.current), [], 0, {})
    ensures truncated <==> r.Compiled? && |RowsOf(q, e.current)| > |r.items|
  {
    var merged := MergeRows(q.seeds + q.found);
    r, truncated := CompileItems(e, RankRows(merged, q.chainHead, q.pathHeads, e.current));
  }

  lemma RankOrder()
    ensures Preorder(RankLeq)
  {
  }

  /** The candidates: each key once, by authority and then seeds first, and, for a current-state task, without the
      historical rows of a path that an authoritative row covers. */
  lemma RowsMeaning(q: Request, current: bool)
    ensures var rows := RowsOf(q, current);
      && FreshKeys(rows, {}) && Sorted(rows, RankLeq)
      && (forall x :: x in rows ==>
          x.row in q.seeds + q.found && x.authority == Classify(x.row, q.chainHead, q.pathHeads))
      && (current ==> forall x, y :: x in rows && y in rows && Authoritative(y) && x.authority.Historical? ==>
          x.row.path != y.row.path)
  {
    var merged := Dedupe(q.seeds + q.found, {});
    var rank := (r: Row) => Ranked(r, Classify(r, q.chainHead, q.pathHeads));
    var key := (x: Ranked) => KeyOf(x.row);
    var classified := Map(merged, rank);
    var sorted := Sort(classified, RankLeq);
    var paths := AuthoritativePaths(sorted);
    DedupeMeaning(q.seeds + q.found, {});
    RankOrder();
    SortSorted(classified, RankLeq);
    SortMultiset(classified, RankLeq);
    KeysStayDistinct(classified, sorted, key);
    FilterDistinct(sorted, (x: Ranked) => Survives(x, paths), key);
    FilterSorted(sorted, (x: Ranked) => Survives(x, paths), RankLeq);
    var rows := RowsOf(q, current);
    assert DistinctBy(rows, key);
    forall x | x in rows
      ensures x.row in q.seeds + q.found && x.authority == Classify(x.row, q.chainHead, q.pathHeads)
    {
      assert x in classified;
    }
    forall x, y | current && x in rows && y in rows && Authoritative(y) && x.authority.Historical?
      ensures x.row.path != y.row.path
    {
      assert y.row.path.value in paths;
    }
  }

  ghost predicate FromRow(e: Setting, rows: seq<Ranked>, item: Item) {
    exists k :: 0 <= k < |rows| && CanRead(e, rows[k]) && item == ItemOf(rows[k], e.store(rows[k].row.refId).content)
  }

  lemma FromLaterRow(e: Setting, rows: seq<Ranked>, item: Item)
    requires rows != [] && FromRow(e, rows[1..], item) && Sorted(rows, RankLeq)
    ensures FromRow(e, rows, item) && Rank(rows[0].authority) <= Rank(item.authority)
  {
    var k :| 0 <= k < |rows[1..]| && CanRead(e, rows[1..][k])
          && item == ItemOf(rows[1..][k], e.store(rows[1..][k].row.refId).content);
    assert rows[k + 1] == rows[1..][k] && RankLeq(rows[0], rows[k + 1]);
  }

  ghost predicate AllFromRows(e: Setting, rows: seq<Ranked>, items: seq<Item>) {
    forall i :: 0 <= i < |items| ==> FromRow(e, rows, items[i])
  }

  ghost predicate AuthorityFirst(items: seq<Item>) {
    forall i, j :: 0 <= i < j < |items| ==> Rank(items[i].authority) <= Rank(items[j].authority)
  }

  lemma {:induction false} ReadableRows(e: Setting, rows: seq<Ranked>)
    requires Sorted(rows, RankLeq)
    ensures AllFromRows(e, rows, Readable(e, rows)) && AuthorityFirst(Readable(e, rows))
  {
    if rows != [] {
      ReadableRows(e, rows[1..]);
      var rest := Readable(e, rows[1..]);
      forall i | 0 <= i < |rest|
        ensures FromRow(e, rows, rest[i]) && Rank(rows[0].authority) <= Rank(rest[i].authority)
      {
        FromLaterRow(e, rows, rest[i]);
      }
      if CanRead(e, rows[0]) {
        assert FromRow(e, rows, ItemOf(rows[0], e.store(rows[0].row.refId).content));
      } else {
        assert Readable(e, rows) == rest;
      }
    }
  }

  lemma FromPrefix(e: Setting, rows: seq<Ranked>, items: seq<Item>, all: seq<Item>)
    requires items <= all && AllFromRows(e, rows, all)
    ensures AllFromRows(e, rows, items)
  {
    forall i | 0 <= i < |items| ensures FromRow(e, rows, items[i]) { assert all[i] == items[i]; }
  }

  lemma FirstOfFirst(items: seq<Item>, all: seq<Item>)
    requires items <= all && AuthorityFirst(all)
    ensures AuthorityFirst(items)
  {
    assert forall i :: 0 <= i < |items| ==> items[i] == all[i];
  }

  /** No item of a historical row shares its path with an authoritative candidate, when no such row does. */
  lemma ItemIsRow(e: Setting, rows: seq<Ranked>, items: seq<Item>, i: nat, y: Ranked)
    requires AllFromRows(e, rows, items) && i < |items| && items[i].authority.Historical?
    requires forall x :: x in rows && x.authority.Historical? ==> x.row.path != y.row.path
    ensures items[i].path != y.row.path
  {
    assert FromRow(e, rows, items[i]);
    var k :| 0 <= k < |rows| && CanRead(e, rows[k])
          && items[i] == ItemOf(rows[k], e.store(rows[k].row.refId).content);
    assert rows[k] in rows;
  }

  /** What a compiled memory is: the longest readable prefix within the limits, most authoritative first, and, for a
      current-state task, no historical item of a path an authoritative candidate covers. */
  lemma CompiledMeaning(e: Setting, q: Request)
    requires Fill(e, RowsOf(q, e.current), [], 0, {}).Compiled?
    ensures var rows := RowsOf(q, e.current);
      var items := Fill(e, rows, [], 0, {}).items;
      && LongestFit(e, items, Readable(e, rows))
      && |items| <= e.maxHits && (|items| <= 1 || Bytes(e, items) <= e.maxBytes)
      && AuthorityFirst(items)
      && (e.current ==>
            forall i, y :: 0 <= i < |items| && items[i].authority.Historical? && y in rows && Authoritative(y) ==>
              items[i].path != y.row.path)
  {
    var rows := RowsOf(q, e.current);
    RowsMeaning(q, e.current);
    ItemsMeaning(e, rows);
    ReadableRows(e, rows);
    var items := Fill(e, rows, [], 0, {}).items;
    FromPrefix(e, rows, items, Readable(e, rows));
    FirstOfFirst(items, Readable(e, rows));
    forall i, y | e.current && 0 <= i < |items| && items[i].authority.Historical? && y in rows && Authoritative(y)
      ensures items[i].path != y.row.path
    {
      ItemIsRow(e, rows, items, i, y);
    }
  }

  lemma FirstSeedKept(q: Request, k: nat)
    requires k < |q.seeds| && forall j :: 0 <= j < k ==> KeyOf(q.seeds[j]) != KeyOf(q.seeds[k])
    ensures q.seeds[k] in Dedupe(q.seeds + q.found, {})
  {
    var all := q.seeds + q.found;
    DedupeMeaning(all, {});
    assert all[k] == q.seeds[k] && forall j :: 0 <= j < k ==> all[j] == q.seeds[j];
  }

  /** Every merged row that is not historical is among the ranked ones, with its class. */
  lemma RankedKept(merged: seq<Row>, chainHead: Text, pathHeads: set<(Text, Text)>, current: bool, r: Row)
    requires r in merged && !Classify(r, chainHead, pathHeads).Historical?
    ensures Ranked(r, Classify(r, chainHead, pathHeads)) in RankRows(merged, chainHead, pathHeads, current)
  {
    var classified := Map(merged, (x: Row) => Ranked(x, Classify(x, chainHead, pathHeads)));
    var m :| 0 <= m < |merged| && merged[m] == r;
    assert classified[m] == Ranked(r, Classify(r, chainHead, pathHeads));
    SortMultiset(classified, RankLeq);
  }

  lemma TopFirst(rows: seq<Ranked>, x: Ranked)
    requires Sorted(rows, RankLeq) && x in rows && x.authority.ChainHead? && x.row.seed
    ensures rows[0].authority.ChainHead? && rows[0].row.seed
  {
    var i :| 0 <= i < |rows| && rows[i] == x;
    assert i > 0 ==> RankLeq(rows[0], rows[i]);
  }

  lemma HeadSeedFirst(q: Request, current: bool, k: nat)
    requires k < |q.seeds| && q.seeds[k].seed && q.seeds[k].hash == q.chainHead
    requires forall j :: 0 <= j < k ==> KeyOf(q.seeds[j]) != KeyOf(q.seeds[k])
    ensures var rows := RowsOf(q, current);
      rows != [] && rows[0].authority.ChainHead? && rows[0].row.seed
  {
    FirstSeedKept(q, k);
    RankedKept(Dedupe(q.seeds + q.found, {}), q.chainHead, q.pathHeads, current, q.seeds[k]);
    RowsMeaning(q, current);
    TopFirst(RowsOf(q, current), Ranked(q.seeds[k], ChainHead));
  }

  /** A current-state task whose chain head was seeded never compiles without it: the head comes first, or the
      compilation fails. */
  lemma ChainHeadGuaranteed(e: Setting, q: Request, k: nat)
    requires e.current && e.maxHits > 0
    requires k < |q.seeds| && q.seeds[k].seed && q.seeds[k].hash == q.chainHead
    requires forall j :: 0 <= j < k ==> KeyOf(q.seeds[j]) != KeyOf(q.seeds[k])
    ensures var r := Fill(e, RowsOf(q, e.current), [], 0, {});
      r.Compiled? ==> r.items != [] && r.items[0].authority.ChainHead? && r.items[0].hash == q.chainHead
  {
    var rows := RowsOf(q, e.current);
    HeadSeedFirst(q, e.current, k);
    RowsMeaning(q, e.current);
    if Fill(e, rows, [], 0, {}).Compiled? {
      FailsClosed(e, rows);
      assert !Blocks(e, rows, 0, []);
      assert rows[..0] == [];
      var all := Readable(e, rows);
      ItemsMeaning(e, rows);
      assert !(1 <= |all| && Fits(e, all[..1])) || Fill(e, rows, [], 0, {}).items != [];
      assert rows[0] in rows;
    }
  }

  /*** Limits ***/

  /** clampNumber; None stands for a value that is not a finite number. */
  function ClampNumber(value: Option<real>, fallback: int, lo: int, hi: int): (n: int)
    requires lo <= fallback <= hi
    ensures lo <= n <= hi
    ensures value.Some? && lo as real <= value.value <= hi as real ==> n as real <= value.value < n as real + 1.0
  {
    if value.None? then fallback
    else
      var floor := value.value.Floor;
      var capped := if floor < hi then floor else hi;
      if capped > lo then capped else lo
  }

  const HARD_MAX_HITS := 15

  /** resolveLimits: the hit limit of the item loop. */
  function ResolveHits(value: Option<real>): nat { ClampNumber(value, 6, 0, HARD_MAX_HITS) }

  /** What is no number is the default, and what is out of bounds the nearer bound; memory hits are six by default and
      fifteen at most. */
  lemma LimitMeaning(value: Option<real>, fallback: int, lo: int, hi: int)
    requires lo <= fallback <= hi
    ensures var n := ClampNumber(value, fallback, lo, hi);
      && (value.None? ==> n == fallback)
      && (value.Some? && value.value < lo as real ==> n == lo)
      && (value.Some? && value.value > hi as real ==> n == hi)
    ensures ResolveHits(None) == 6 && ResolveHits(Some(1000.0)) == 15 && ResolveHits(Some(-1.0)) == 0
  {
  }
}
