/** The agent tree (src/event-plane.js): a depth-capped search for the descendants of a run, and the projection of
    runs into a forest. Parent links are arbitrary: they may dangle or form cycles. */
module AgentTree {
  import opened Ordering

  type Id = string
  datatype Run = Run(id: Id, parent: Option<Id>)
  datatype Tree = Node(id: Id, depth: nat, children: seq<Tree>)
  datatype Forest = Forest(roots: seq<Tree>, orphaned: nat)

  ghost predicate DistinctIds(runs: seq<Run>) { forall i, j :: 0 <= i < j < |runs| ==> runs[i].id != runs[j].id }

  predicate IsChild(p: Id, r: Run) { r.parent == Some(p) }
  function ChildrenOf(runs: seq<Run>, p: Id): seq<Run> { Filter(runs, (r: Run) => IsChild(p, r)) }
  function Ids(runs: seq<Run>): set<Id> { set r | r in runs :: r.id }

  /*** Distance: the number of parent links, through listed runs, until the root is first met ***/

  predicate Link(runs: seq<Run>, x: Id, r: Run) { r in runs && r.id == x && r.parent.Some? }

  ghost predicate At(runs: seq<Run>, root: Id, x: Id, d: nat)
    decreases d
  {
    if d == 0 then x == root
    else x != root && exists r {:trigger Link(runs, x, r)} :: Link(runs, x, r) && At(runs, root, r.parent.value, d - 1)
  }

  lemma SameRun(runs: seq<Run>, r: Run, q: Run)
    requires DistinctIds(runs) && r in runs && q in runs && r.id == q.id
    ensures r == q
  {
    var i :| 0 <= i < |runs| && runs[i] == r;
    var j :| 0 <= j < |runs| && runs[j] == q;
    assert i == j;
  }

  /** A listed run other than the root is one link further than its parent. */
  lemma AtStep(runs: seq<Run>, root: Id, r: Run, d: nat)
    requires DistinctIds(runs) && r in runs && d > 0 && r.id != root
    ensures At(runs, root, r.id, d) <==> r.parent.Some? && At(runs, root, r.parent.value, d - 1)
  {
    if At(runs, root, r.id, d) {
      var q :| Link(runs, r.id, q) && At(runs, root, q.parent.value, d - 1);
      SameRun(runs, r, q);
    } else if r.parent.Some? && At(runs, root, r.parent.value, d - 1) {
      assert Link(runs, r.id, r);
    }
  }

  lemma {:induction false} AtUnique(runs: seq<Run>, root: Id, x: Id, d: nat, e: nat)
    requires DistinctIds(runs) && At(runs, root, x, d) && At(runs, root, x, e)
    ensures d == e
    decreases d
  {
    if d > 0 && e > 0 {
      var r :| Link(runs, x, r) && At(runs, root, r.parent.value, d - 1);
      AtStep(runs, root, r, e);
      AtUnique(runs, root, r.parent.value, d - 1, e - 1);
    }
  }

  /*** The search, level by level ***/

  datatype Search = Search(out: seq<Run>, seen: set<Id>, next: seq<Id>)

  function AddChild(s: Search, child: Run): Search {
    if child.id in s.seen then s else Search(s.out + [child], s.seen + {child.id}, s.next + [child.id])
  }

  function AddChildren(s: Search, children: seq<Run>): Search {
    if children == [] then s else AddChild(AddChildren(s, children[..|children| - 1]), children[|children| - 1])
  }

  function AddLayer(runs: seq<Run>, s: Search, frontier: seq<Id>): Search {
    if frontier == [] then s
    else AddChildren(AddLayer(runs, s, frontier[..|frontier| - 1]), ChildrenOf(runs, frontier[|frontier| - 1]))
  }

  /** The state after n levels: what was found, and the frontier as next. */
  function Levels(runs: seq<Run>, root: Id, n: nat): Search {
    if n == 0 then Search([], {root}, [root])
    else
      var s := Levels(runs, root, n - 1);
      AddLayer(runs, s.(next := []), s.next)
  }

  /** byParent.get(p) || [] */
  function Bucket(byParent: map<Id, seq<Run>>, p: Id): seq<Run> { if p in byParent then byParent[p] else [] }

  /** Each bucket holds the children of its key, in listing order. */
  ghost predicate Grouped(byParent: map<Id, seq<Run>>, runs: seq<Run>) {
    forall p {:trigger Bucket(byParent, p)} :: Bucket(byParent, p) == ChildrenOf(runs, p)
  }

  method GroupByParent(runs: seq<Run>) returns (byParent: map<Id, seq<Run>>)
    ensures Grouped(byParent, runs)
  {
    byParent := map[];
    for i := 0 to |runs|
      invariant Grouped(byParent, runs[..i])
    {
      var run := runs[i];
      ghost var before := byParent;
      if run.parent.Some? {
        byParent := byParent[run.parent.value := Bucket(byParent, run.parent.value) + [run]];
      }
      GroupedMore(before, byParent, runs[..i], run);
      assert runs[..i + 1] == runs[..i] + [run];
    }
    assert runs[..|runs|] == runs;
  }

  lemma GroupedMore(before: map<Id, seq<Run>>, after: map<Id, seq<Run>>, runs: seq<Run>, run: Run)
    requires Grouped(before, runs)
    requires after == if run.parent.Some? then before[run.parent.value := Bucket(before, run.parent.value) + [run]]
                      else before
    ensures Grouped(after, runs + [run])
  {
    forall p ensures Bucket(after, p) == ChildrenOf(runs + [run], p) {
      assert Bucket(before, p) == ChildrenOf(runs, p);
      GroupStep(runs, run, p);
    }
  }

  lemma GroupStep(runs: seq<Run>, run: Run, p: Id)
    ensures ChildrenOf(runs + [run], p) == if IsChild(p, run) then ChildrenOf(runs, p) + [run] else ChildrenOf(runs, p)
  {
    FilterOneMore(runs, run, (r: Run) => IsChild(p, r));
  }

  lemma {:induction false} NoFrontier(runs: seq<Run>, root: Id, n: nat, m: nat)
    requires n <= m && Levels(runs, root, n).next == []
    ensures Levels(runs, root, m) == Levels(runs, root, n)
    decreases m
  {
    if n < m { NoFrontier(runs, root, n, m - 1); }
  }

  method VisitChildren(children: seq<Run>, start: Search) returns (s: Search)
    ensures s == AddChildren(start, children)
  {
    var out, seen, next := start.out, start.seen, start.next;
    for j := 0 to |children|
      invariant Search(out, seen, next) == AddChildren(start, children[..j])
    {
      assert children[..j + 1][..j] == children[..j];
      var child := children[j];
      if child.id in seen { continue; }
      seen := seen + {child.id};
      out := out + [child];
      next := next + [child.id];
    }
    assert children[..|children|] == children;
    s := Search(out, seen, next);
  }

  method VisitFrontier(runs: seq<Run>, byParent: map<Id, seq<Run>>, frontier: seq<Id>, start: Search)
    returns (s: Search)
    requires Grouped(byParent, runs)
    ensures s == AddLayer(runs, start, frontier)
  {
    s := start;
    for i := 0 to |frontier|
      invariant s == AddLayer(runs, start, frontier[..i])
    {
      assert frontier[..i + 1][..i] == frontier[..i];
      s := VisitChildren(Bucket(byParent, frontier[i]), s);
    }
    assert frontier[..|frontier|] == frontier;
  }

  method SelectDescendants(runs: seq<Run>, root: Id, maxDepth: nat) returns (out: seq<Run>)
    ensures out == Levels(runs, root, maxDepth).out
  {
    var byParent := GroupByParent(runs);
    var s := Search([], {root}, [root]);
    for depth := 0 to maxDepth
      invariant s == Levels(runs, root, depth)
    {
      if |s.next| == 0 {
        NoFrontier(runs, root, depth, maxDepth);
        break;
      }
      s := VisitFrontier(runs, byParent, s.next, s.(next := []));
    }
    out := s.out;
  }

  /*** What the search finds ***/

  /** x is within n links of the root, below it. */
  ghost predicate Below(runs: seq<Run>, root: Id, x: Id, n: nat) {
    exists d: nat {:trigger At(runs, root, x, d)} :: 1 <= d <= n && At(runs, root, x, d)
  }

  /** The output holds the listed runs within n links and no others. */
  ghost predicate Exactly(runs: seq<Run>, root: Id, out: seq<Run>, n: nat) {
    forall r {:trigger r in out} {:trigger Below(runs, root, r.id, n)} :: r in out
      <==> r in runs && Below(runs, root, r.id, n)
  }

  /** The frontier holds the ids exactly n links away. */
  ghost predicate Layer(runs: seq<Run>, root: Id, frontier: seq<Id>, n: nat) {
    forall x {:trigger x in frontier} {:trigger At(runs, root, x, n)} :: x in frontier <==> At(runs, root, x, n)
  }

  /** Every run of the output is listed and was there before the level, or is in the next layer. */
  ghost predicate Known(runs: seq<Run>, found: seq<Run>, s: Search) {
    forall r {:trigger r in s.out} :: r in s.out ==> r in runs && (r in found || r.id in s.next)
  }

  ghost predicate NextOk(runs: seq<Run>, root: Id, s: Search, n: nat) {
    forall x {:trigger x in s.next} :: x in s.next ==> At(runs, root, x, n + 1) && x in Ids(s.out)
  }

  /** What one level of the search keeps: found is the output of the levels before. */
  ghost predicate Round(runs: seq<Run>, root: Id, found: seq<Run>, s: Search, n: nat) {
    && s.seen == {root} + Ids(s.out) && DistinctIds(s.out) && found <= s.out
    && Known(runs, found, s) && NextOk(runs, root, s, n)
  }

  lemma SeenChild(runs: seq<Run>, root: Id, found: seq<Run>, s: Search, n: nat, child: Run)
    requires DistinctIds(runs) && Exactly(runs, root, found, n) && Round(runs, root, found, s, n)
    requires child in runs && child.parent.Some? && At(runs, root, child.parent.value, n)
    requires child.id in s.seen && child.id != root
    ensures child.id in s.next
  {
    AtStep(runs, root, child, n + 1);
    var q :| q in s.out && q.id == child.id;
    SameRun(runs, child, q);
    if child in found {
      var d: nat :| 1 <= d <= n && At(runs, root, child.id, d);
      AtUnique(runs, root, child.id, d, n + 1);
    }
  }

  lemma NewChild(runs: seq<Run>, root: Id, found: seq<Run>, s: Search, n: nat, child: Run)
    requires DistinctIds(runs) && Round(runs, root, found, s, n)
    requires child in runs && child.parent.Some? && At(runs, root, child.parent.value, n) && child.id !in s.seen
    ensures Round(runs, root, found, AddChild(s, child), n)
  {
    AtStep(runs, root, child, n + 1);
    OneMoreRun(s.out, child);
    forall x | x in s.next + [child.id] ensures At(runs, root, x, n + 1) && x in Ids(s.out + [child]) {
      assert x in s.next || x == child.id;
    }
  }

  lemma OneMoreRun(out: seq<Run>, child: Run)
    ensures Ids(out + [child]) == Ids(out) + {child.id}
    ensures DistinctIds(out) && child.id !in Ids(out) ==> DistinctIds(out + [child])
  {
    assert child in out + [child];
    forall r | r in out ensures r in out + [child] && r.id in Ids(out) {
      var k :| 0 <= k < |out| && out[k] == r;
      assert (out + [child])[k] == r;
    }
    forall i | 0 <= i < |out| ensures child.id !in Ids(out) ==> out[i].id != child.id { assert out[i] in out; }
  }

  ghost predicate Covers(root: Id, children: seq<Run>, next: seq<Id>) {
    forall c {:trigger c in children} :: c in children && c.id != root ==> c.id in next
  }

  lemma {:induction false} ChildrenRound(runs: seq<Run>, root: Id, found: seq<Run>, s: Search, n: nat,
                                         children: seq<Run>)
    requires DistinctIds(runs) && Exactly(runs, root, found, n) && Round(runs, root, found, s, n)
    requires forall c :: c in children ==> c in runs && c.parent.Some? && At(runs, root, c.parent.value, n)
    ensures var t := AddChildren(s, children);
      Round(runs, root, found, t, n) && s.next <= t.next && Covers(root, children, t.next)
  {
    if children != [] {
      var before, c := children[..|children| - 1], children[|children| - 1];
      assert children == before + [c];
      ChildrenRound(runs, root, found, s, n, before);
      var u := AddChildren(s, before);
      if c.id in u.seen {
        if c.id != root { SeenChild(runs, root, found, u, n, c); }
      } else {
        NewChild(runs, root, found, u, n, c);
      }
    }
  }

  ghost predicate CoversAll(runs: seq<Run>, root: Id, parents: seq<Id>, next: seq<Id>) {
    forall p {:trigger ChildrenOf(runs, p)} :: p in parents ==> Covers(root, ChildrenOf(runs, p), next)
  }

  lemma CoversMore(runs: seq<Run>, root: Id, parents: seq<Id>, next: seq<Id>, p: Id, later: seq<Id>)
    requires CoversAll(runs, root, parents, next) && next <= later && Covers(root, ChildrenOf(runs, p), later)
    ensures CoversAll(runs, root, parents + [p], later)
  {
    forall q | q in parents + [p] ensures Covers(root, ChildrenOf(runs, q), later) {
      if q in parents {
        assert Covers(root, ChildrenOf(runs, q), next);
        forall x | x in next ensures x in later {
          var k :| 0 <= k < |next| && next[k] == x;
          assert later[k] == x;
        }
      }
    }
  }

  lemma {:induction false} LayerRound(runs: seq<Run>, root: Id, found: seq<Run>, s: Search, n: nat, frontier: seq<Id>)
    requires DistinctIds(runs) && Exactly(runs, root, found, n) && Round(runs, root, found, s, n)
    requires forall p :: p in frontier ==> At(runs, root, p, n)
    ensures var t := AddLayer(runs, s, frontier);
      Round(runs, root, found, t, n) && CoversAll(runs, root, frontier, t.next)
  {
    if frontier != [] {
      var before, p := frontier[..|frontier| - 1], frontier[|frontier| - 1];
      assert frontier == before + [p];
      LayerRound(runs, root, found, s, n, before);
      var u := AddLayer(runs, s, before);
      ChildrenRound(runs, root, found, u, n, ChildrenOf(runs, p));
      CoversMore(runs, root, before, u.next, p, AddLayer(runs, s, frontier).next);
    }
  }

  lemma RoundStarts(runs: seq<Run>, root: Id, s: Search, n: nat)
    requires s.seen == {root} + Ids(s.out) && DistinctIds(s.out) && Exactly(runs, root, s.out, n)
    ensures Round(runs, root, s.out, s.(next := []), n)
  {
  }

  lemma NextLayer(runs: seq<Run>, root: Id, found: seq<Run>, s: Search, frontier: seq<Id>, n: nat)
    requires DistinctIds(runs) && Layer(runs, root, frontier, n)
    requires Round(runs, root, found, s, n) && CoversAll(runs, root, frontier, s.next)
    ensures Layer(runs, root, s.next, n + 1)
  {
    forall x | At(runs, root, x, n + 1) ensures x in s.next {
      var r :| Link(runs, x, r) && At(runs, root, r.parent.value, n);
      assert r.parent.value in frontier;
      assert r in ChildrenOf(runs, r.parent.value);
    }
  }

  lemma NextOutput(runs: seq<Run>, root: Id, found: seq<Run>, s: Search, n: nat)
    requires DistinctIds(runs) && Exactly(runs, root, found, n)
    requires Round(runs, root, found, s, n) && Layer(runs, root, s.next, n + 1)
    ensures Exactly(runs, root, s.out, n + 1)
  {
    forall r | r in s.out ensures r in runs && Below(runs, root, r.id, n + 1) {
      if r in found {
        var d: nat :| 1 <= d <= n && At(runs, root, r.id, d);
      }
    }
    forall r | r in runs && Below(runs, root, r.id, n + 1) ensures r in s.out {
      var d: nat :| 1 <= d <= n + 1 && At(runs, root, r.id, d);
      if d <= n {
        assert Below(runs, root, r.id, n);
        assert r in found;
      } else {
        assert r.id in s.next;
        var q :| q in s.out && q.id == r.id;
        SameRun(runs, r, q);
      }
    }
  }

  ghost predicate Searched(runs: seq<Run>, root: Id, s: Search, n: nat) {
    && DistinctIds(s.out) && s.seen == {root} + Ids(s.out)
    && Exactly(runs, root, s.out, n) && Layer(runs, root, s.next, n)
  }

  lemma SearchStart(runs: seq<Run>, root: Id)
    ensures Searched(runs, root, Search([], {root}, [root]), 0)
  {
  }

  lemma LevelSearched(runs: seq<Run>, root: Id, s: Search, t: Search, n: nat)
    requires DistinctIds(runs) && Searched(runs, root, s, n) && t == AddLayer(runs, s.(next := []), s.next)
    ensures Searched(runs, root, t, n + 1)
  {
    RoundStarts(runs, root, s, n);
    LayerRound(runs, root, s.out, s.(next := []), n, s.next);
    NextLayer(runs, root, s.out, t, s.next, n);
    NextOutput(runs, root, s.out, t, n);
  }

  lemma LevelStep(runs: seq<Run>, root: Id, n: nat)
    requires DistinctIds(runs) && n > 0 && Searched(runs, root, Levels(runs, root, n - 1), n - 1)
    ensures Searched(runs, root, Levels(runs, root, n), n)
  {
    LevelSearched(runs, root, Levels(runs, root, n - 1), Levels(runs, root, n), n - 1);
  }

  /** After n levels the search has found exactly the listed runs whose parent chain first meets the root within n
      links, each once; the frontier is what lies exactly n links away. Cycles and missing parents do no harm. */
  lemma {:induction false} SearchExact(runs: seq<Run>, root: Id, n: nat)
    requires DistinctIds(runs)
    ensures Searched(runs, root, Levels(runs, root, n), n)
  {
    if n == 0 {
      SearchStart(runs, root);
    } else {
      SearchExact(runs, root, n - 1);
      LevelStep(runs, root, n);
    }
  }
}
