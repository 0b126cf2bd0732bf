/** Which rows compileMemory considers, and in which order (src/agent-bootstrap.js). */
module MemoryRows {
  import opened Ordering
  import opened MemoryCompiler

  /** The row at i is the first with its key. */
  ghost predicate First(all: seq<Row>, i: nat) {
    i < |all| && forall j :: 0 <= j < i ==> KeyOf(all[j]) != KeyOf(all[i])
  }

  /** The row speaks for its path: it is the chain head or an accepted path head. */
  predicate Accepted(q: Request, r: Row) {
    r.hash == q.chainHead || (r.path.Some? && (r.path.value, r.hash) in q.pathHeads)
  }

  /** Some candidate speaks for the path. */
  ghost predicate Covered(q: Request, path: Option<Text>) {
    && path.Some? && path.value != []
    && exists j: nat {:trigger First(q.seeds + q.found, j)} ::
         First(q.seeds + q.found, j) && (q.seeds + q.found)[j].path == path && Accepted(q, (q.seeds + q.found)[j])
  }

  function ClassOf(q: Request, r: Row): Class {
    if r.hash == q.chainHead then ChainHead else if Accepted(q, r) then PathHead else Historical
  }

  lemma MergedIsFirst(all: seq<Row>, r: Row)
    requires r in Dedupe(all, {})
    ensures exists i: nat :: First(all, i) && all[i] == r
  {
    DedupeMeaning(all, {});
    var merged := Dedupe(all, {});
    var m :| 0 <= m < |merged| && merged[m] == r;
    var k :| 0 <= k < |all| && all[k] == r;
    var i := FirstOfKey(all, k);
    assert all[i] in merged;
    var n :| 0 <= n < |merged| && merged[n] == all[i];
    assert n == m;
  }

  lemma FirstOfKey(all: seq<Row>, k: nat) returns (i: nat)
    requires k < |all|
    ensures i <= k && First(all, i) && KeyOf(all[i]) == KeyOf(all[k])
  {
    i := 0;
    while KeyOf(all[i]) != KeyOf(all[k])
      invariant i <= k && forall j :: 0 <= j < i ==> KeyOf(all[j]) != KeyOf(all[k])
      decreases k - i
    {
      i := i + 1;
    }
  }

  lemma FirstIsMerged(all: seq<Row>, i: nat)
    requires First(all, i)
    ensures all[i] in Dedupe(all, {})
  {
    DedupeMeaning(all, {});
  }

  function Classified(q: Request): seq<Ranked> {
    Map(Dedupe(q.seeds + q.found, {}), (r: Row) => Ranked(r, Classify(r, q.chainHead, q.pathHeads)))
  }

  lemma ClassifiedHas(q: Request, x: Ranked)
    ensures x in Sort(Classified(q), RankLeq)
            <==> x.row in Dedupe(q.seeds + q.found, {}) && x.authority == ClassOf(q, x.row)
  {
    var merged, listed := Dedupe(q.seeds + q.found, {}), Classified(q);
    SortMultiset(listed, RankLeq);
    assert x in Sort(listed, RankLeq) <==> x in multiset(listed);
    if x.row in merged && x.authority == ClassOf(q, x.row) {
      var i :| 0 <= i < |merged| && merged[i] == x.row;
      assert listed[i] == x;
    }
    if x in listed {
      var i :| 0 <= i < |listed| && listed[i] == x;
      assert merged[i] == x.row;
    }
  }

  lemma CoveredMeaning(q: Request, path: Option<Text>)
    requires path.Some?
    ensures Covered(q, path) <==> path.value in AuthoritativePaths(Sort(Classified(q), RankLeq))
  {
    var all, sorted := q.seeds + q.found, Sort(Classified(q), RankLeq);
    if Covered(q, path) {
      var j: nat :| First(all, j) && all[j].path == path && Accepted(q, all[j]);
      FirstIsMerged(all, j);
      var x := Ranked(all[j], ClassOf(q, all[j]));
      ClassifiedHas(q, x);
      assert x in sorted && Authoritative(x);
    }
    if path.value in AuthoritativePaths(sorted) {
      var x :| x in sorted && Authoritative(x) && x.row.path.value == path.value;
      ClassifiedHas(q, x);
      MergedIsFirst(all, x.row);
      var j: nat :| First(all, j) && all[j] == x.row;
    }
  }

  /** The candidates are exactly the first rows of each key among the seeds and then the search rows, each with its
      class; for a current-state task, those that are neither chain head nor path head stay out exactly when some
      candidate speaks for their path. */
  lemma CandidatesExact(q: Request, current: bool, x: Ranked)
    ensures x in RowsOf(q, current) <==>
              && (exists i: nat :: First(q.seeds + q.found, i) && (q.seeds + q.found)[i] == x.row)
              && x.authority == ClassOf(q, x.row)
              && (current && !Accepted(q, x.row) ==> !Covered(q, x.row.path))
  {
    var all, sorted := q.seeds + q.found, Sort(Classified(q), RankLeq);
    ClassifiedHas(q, x);
    if x.row in Dedupe(all, {}) { MergedIsFirst(all, x.row); }
    if i: nat :| First(all, i) && all[i] == x.row { FirstIsMerged(all, i); }
    if x.row.path.Some? { CoveredMeaning(q, x.row.path); }
  }

  /*** Their order ***/

  /** Where the first row with the key stands. */
  function Place(all: seq<Row>, key: Key): (n: nat)
    ensures n <= |all|
  {
    if all == [] || KeyOf(all[0]) == key then 0 else 1 + Place(all[1..], key)
  }

  /** Chain head, then path heads, then the rest; within a class seeds first; and then as retrieved. */
  predicate Ahead(all: seq<Row>, a: Ranked, b: Ranked) {
    if a.authority != b.authority then
      a.authority.ChainHead? || (a.authority.PathHead? && b.authority.Historical?)
    else if a.row.seed != b.row.seed then a.row.seed
    else Place(all, KeyOf(a.row)) < Place(all, KeyOf(b.row))
  }

  function AheadIn(all: seq<Row>): (Ranked, Ranked) -> bool { (a: Ranked, b: Ranked) => Ahead(all, a, b) }

  /** Putting a row that was retrieved before all others where the sort puts it keeps the order. */
  lemma {:induction false} InsertAhead(all: seq<Row>, x: Ranked, xs: seq<Ranked>)
    requires Sorted(xs, AheadIn(all))
    requires forall i :: 0 <= i < |xs| ==> Place(all, KeyOf(x.row)) < Place(all, KeyOf(xs[i].row))
    ensures Sorted(Insert(x, xs, RankLeq), AheadIn(all))
  {
    if xs == [] {
    } else if RankLeq(x, xs[0]) {
      forall i | 0 <= i < |xs| ensures Ahead(all, x, xs[i]) { assert i > 0 ==> Ahead(all, xs[0], xs[i]); }
    } else {
      InsertAhead(all, x, xs[1..]);
      var rest := Insert(x, xs[1..], RankLeq);
      InsertMultiset(x, xs[1..], RankLeq);
      forall i | 0 <= i < |rest| ensures Ahead(all, xs[0], rest[i]) {
        assert rest[i] in multiset(rest);
        assert rest[i] == x || rest[i] in xs[1..];
        if rest[i] != x {
          var k :| 0 <= k < |xs[1..]| && xs[1..][k] == rest[i];
          assert xs[k + 1] == rest[i];
        }
      }
    }
  }

  /** Retrieved in this order, as yet unranked. */
  ghost predicate Retrieved(all: seq<Row>, xs: seq<Ranked>) {
    forall i, j :: 0 <= i < j < |xs| ==> Place(all, KeyOf(xs[i].row)) < Place(all, KeyOf(xs[j].row))
  }

  lemma {:induction false} SortAhead(all: seq<Row>, xs: seq<Ranked>)
    requires Retrieved(all, xs)
    ensures Sorted(Sort(xs, RankLeq), AheadIn(all))
  {
    if xs != [] {
      SortAhead(all, xs[1..]);
      var rest := Sort(xs[1..], RankLeq);
      SortMultiset(xs[1..], RankLeq);
      forall i | 0 <= i < |rest| ensures Place(all, KeyOf(xs[0].row)) < Place(all, KeyOf(rest[i].row)) {
        assert rest[i] in xs[1..];
        var k :| 0 <= k < |xs[1..]| && xs[1..][k] == rest[i];
        assert xs[k + 1] == rest[i];
      }
      InsertAhead(all, xs[0], rest);
    }
  }

  lemma {:induction false} PlaceOfFirst(all: seq<Row>, i: nat)
    requires First(all, i)
    ensures Place(all, KeyOf(all[i])) == i
  {
    if i > 0 {
      assert forall j :: 0 <= j < i - 1 ==> all[1..][j] == all[j + 1];
      assert KeyOf(all[0]) != KeyOf(all[i]) && all[1..][i - 1] == all[i];
      PlaceOfFirst(all[1..], i - 1);
    }
  }

  /** Rows retrieved in this order, none of them ahead of place i. */
  ghost predicate InPlace(all: seq<Row>, rows: seq<Row>, i: nat) {
    && (forall m :: 0 <= m < |rows| ==> i <= Place(all, KeyOf(rows[m])))
    && forall m, n :: 0 <= m < n < |rows| ==> Place(all, KeyOf(rows[m])) < Place(all, KeyOf(rows[n]))
  }

  /** The keys of the rows ahead of i. */
  ghost predicate SeenBy(all: seq<Row>, i: nat, seen: set<Key>)
    requires i <= |all|
  {
    forall key :: key in seen <==> exists j :: 0 <= j < i && KeyOf(all[j]) == key
  }

  lemma SeenMore(all: seq<Row>, i: nat, seen: set<Key>)
    requires i < |all| && SeenBy(all, i, seen)
    ensures SeenBy(all, i + 1, seen + {KeyOf(all[i])})
    ensures KeyOf(all[i]) in seen ==> SeenBy(all, i + 1, seen)
    ensures KeyOf(all[i]) !in seen ==> First(all, i)
  {
    forall key ensures key in seen + {KeyOf(all[i])} <==> exists j :: 0 <= j < i + 1 && KeyOf(all[j]) == key {
      if key in seen {
        var j :| 0 <= j < i && KeyOf(all[j]) == key;
      } else if key == KeyOf(all[i]) {
        assert KeyOf(all[i]) == key;
      }
    }
    if KeyOf(all[i]) in seen { assert seen + {KeyOf(all[i])} == seen; }
  }

  lemma OneInPlace(all: seq<Row>, i: nat, rest: seq<Row>)
    requires First(all, i) && InPlace(all, rest, i + 1)
    ensures InPlace(all, [all[i]] + rest, i)
  {
    PlaceOfFirst(all, i);
  }

  /** Merging the rows from i on, after the keys of those ahead, keeps them in the order they were retrieved in. */
  lemma {:induction false} MergedInOrder(all: seq<Row>, i: nat, seen: set<Key>)
    requires i <= |all| && SeenBy(all, i, seen)
    ensures InPlace(all, Dedupe(all[i..], seen), i)
    decreases |all| - i
  {
    if i < |all| {
      var key := KeyOf(all[i]);
      assert all[i..][0] == all[i] && all[i..][1..] == all[i + 1..];
      SeenMore(all, i, seen);
      if key in seen {
        MergedInOrder(all, i + 1, seen);
      } else {
        MergedInOrder(all, i + 1, seen + {key});
        OneInPlace(all, i, Dedupe(all[i + 1..], seen + {key}));
      }
    }
  }

  /** The candidates stand in one order: by class, seeds first, and then as they were retrieved. */
  lemma CandidatesOrdered(q: Request, current: bool)
    ensures Sorted(RowsOf(q, current), AheadIn(q.seeds + q.found))
  {
    var all, listed := q.seeds + q.found, Classified(q);
    MergedInOrder(all, 0, {});
    assert all[0..] == all;
    var merged := Dedupe(all, {});
    assert forall i :: 0 <= i < |listed| ==> listed[i].row == merged[i];
    SortAhead(all, listed);
    var sorted := Sort(listed, RankLeq);
    var paths := AuthoritativePaths(sorted);
    FilterSorted(sorted, (x: Ranked) => Survives(x, paths), AheadIn(all));
  }

  /** The item shows the candidate's hash, path, ref id and class, and the window its ref reads. */
  ghost predicate Shows(e: Setting, x: Ranked, item: Item) {
    && item.hash == x.row.hash && item.path == x.row.path && item.refId == x.row.refId && item.authority == x.authority
    && e.store(x.row.refId) == Window(item.content)
  }

  /** Every item of a compiled memory shows one of the candidates. */
  lemma ItemsShowRows(e: Setting, q: Request, i: nat)
    requires Fill(e, RowsOf(q, e.current), [], 0, {}).Compiled?
    requires i < |Fill(e, RowsOf(q, e.current), [], 0, {}).items|
    ensures exists x :: x in RowsOf(q, e.current) && Shows(e, x, Fill(e, RowsOf(q, e.current), [], 0, {}).items[i])
  {
    var rows := RowsOf(q, e.current);
    var items := Fill(e, rows, [], 0, {}).items;
    RowsMeaning(q, e.current);
    ItemsMeaning(e, rows);
    ReadableRows(e, rows);
    FromPrefix(e, rows, items, Readable(e, rows));
    assert FromRow(e, rows, items[i]);
    var k :| 0 <= k < |rows| && CanRead(e, rows[k]) && items[i] == ItemOf(rows[k], e.store(rows[k].row.refId).content);
    assert rows[k] in rows && Shows(e, rows[k], items[i]);
  }
}
