/** projectAgentTree and agentTreeFromBody (src/event-plane.js): runs become a depth-capped forest, and the tree of one
    chosen root is exactly what its descendants are. */
module AgentForest {
  import opened Ordering
  import opened AgentTree

  function KidsMap(runs: seq<Run>): map<Id, seq<Run>> { map p | p in Ids(runs) :: ChildrenOf(runs, p) }
  function KidsOf(kids: map<Id, seq<Run>>, p: Id): seq<Run> { if p in kids then kids[p] else [] }

  /** visit: the cap is the only thing that stops a cycle. */
  function Visit(kids: map<Id, seq<Run>>, r: Run, depth: nat, cap: nat): Tree
    requires depth <= cap
    decreases cap - depth, 0
  {
    Node(r.id, depth, if depth < cap then VisitAll(kids, KidsOf(kids, r.id), depth + 1, cap) else [])
  }

  function VisitAll(kids: map<Id, seq<Run>>, rs: seq<Run>, depth: nat, cap: nat): seq<Tree>
    requires depth <= cap
    decreases cap - depth, |rs|
  {
    if rs == [] then [] else [Visit(kids, rs[0], depth, cap)] + VisitAll(kids, rs[1..], depth, cap)
  }

  predicate IsRoot(r: Run) { r.parent.None? }
  predicate IsOrphan(ids: set<Id>, r: Run) { r.parent.Some? && r.parent.value !in ids }

  function RootsOf(runs: seq<Run>): seq<Run> { Filter(runs, (r: Run) => IsRoot(r)) }
  function OrphansOf(ids: set<Id>, runs: seq<Run>): seq<Run> { Filter(runs, (r: Run) => IsOrphan(ids, r)) }

  function Project(runs: seq<Run>, cap: nat): Forest {
    Forest(VisitAll(KidsMap(runs), RootsOf(runs), 0, cap), |OrphansOf(Ids(runs), runs)|)
  }

  lemma RootsStep(runs: seq<Run>, node: Run)
    ensures RootsOf(runs + [node]) == if IsRoot(node) then RootsOf(runs) + [node] else RootsOf(runs)
  {
    FilterOneMore(runs, node, (r: Run) => IsRoot(r));
  }

  lemma OrphansStep(ids: set<Id>, runs: seq<Run>, node: Run)
    ensures OrphansOf(ids, runs + [node])
            == if IsOrphan(ids, node) then OrphansOf(ids, runs) + [node] else OrphansOf(ids, runs)
  {
    FilterOneMore(runs, node, (r: Run) => IsOrphan(ids, r));
  }

  ghost predicate KidsSoFar(kids: map<Id, seq<Run>>, ids: set<Id>, runs: seq<Run>) {
    kids.Keys == ids && forall p {:trigger ChildrenOf(runs, p)} :: p in ids ==> kids[p] == ChildrenOf(runs, p)
  }

  lemma KidsStep(kids: map<Id, seq<Run>>, ids: set<Id>, runs: seq<Run>, node: Run, after: map<Id, seq<Run>>)
    requires KidsSoFar(kids, ids, runs)
    requires after == if node.parent.Some? && node.parent.value in kids then
                        kids[node.parent.value := kids[node.parent.value] + [node]] else kids
    ensures KidsSoFar(after, ids, runs + [node])
  {
    forall p | p in ids ensures after[p] == ChildrenOf(runs + [node], p) { GroupStep(runs, node, p); }
  }

  /** What the second loop has built from the runs so far. */
  ghost predicate Linked(kids: map<Id, seq<Run>>, roots: seq<Run>, orphaned: nat, ids: set<Id>, runs: seq<Run>) {
    KidsSoFar(kids, ids, runs) && roots == RootsOf(runs) && orphaned == |OrphansOf(ids, runs)|
  }

  lemma LinkRoot(kids: map<Id, seq<Run>>, roots: seq<Run>, orphaned: nat, ids: set<Id>, runs: seq<Run>, node: Run)
    requires Linked(kids, roots, orphaned, ids, runs) && IsRoot(node)
    ensures Linked(kids, roots + [node], orphaned, ids, runs + [node])
  {
    RootsStep(runs, node);
    OrphansStep(ids, runs, node);
    KidsStep(kids, ids, runs, node, kids);
  }

  lemma LinkOrphan(kids: map<Id, seq<Run>>, roots: seq<Run>, orphaned: nat, ids: set<Id>, runs: seq<Run>, node: Run)
    requires Linked(kids, roots, orphaned, ids, runs) && node.parent.Some? && node.parent.value !in kids
    ensures Linked(kids, roots, orphaned + 1, ids, runs + [node])
  {
    RootsStep(runs, node);
    OrphansStep(ids, runs, node);
    KidsStep(kids, ids, runs, node, kids);
  }

  lemma LinkChild(kids: map<Id, seq<Run>>, roots: seq<Run>, orphaned: nat, ids: set<Id>, runs: seq<Run>, node: Run)
    requires Linked(kids, roots, orphaned, ids, runs) && node.parent.Some? && node.parent.value in kids
    ensures Linked(kids[node.parent.value := kids[node.parent.value] + [node]], roots, orphaned, ids, runs + [node])
  {
    RootsStep(runs, node);
    OrphansStep(ids, runs, node);
    KidsStep(kids, ids, runs, node, kids[node.parent.value := kids[node.parent.value] + [node]]);
  }

  method LinkNodes(runs: seq<Run>) returns (kids: map<Id, seq<Run>>, roots: seq<Run>, orphaned: nat)
    ensures kids == KidsMap(runs) && roots == RootsOf(runs) && orphaned == |OrphansOf(Ids(runs), runs)|
  {
    var ids := Ids(runs);
    kids := map p | p in ids :: [];
    roots, orphaned := [], 0;
    for i := 0 to |runs|
      invariant Linked(kids, roots, orphaned, ids, runs[..i])
    {
      var node := runs[i];
      assert runs[..i + 1] == runs[..i] + [node];
      if node.parent.None? {
        LinkRoot(kids, roots, orphaned, ids, runs[..i], node);
        roots := roots + [node];
      } else if node.parent.value !in kids {
        LinkOrphan(kids, roots, orphaned, ids, runs[..i], node);
        orphaned := orphaned + 1;
      } else {
        LinkChild(kids, roots, orphaned, ids, runs[..i], node);
        kids := kids[node.parent.value := kids[node.parent.value] + [node]];
      }
    }
    assert runs[..|runs|] == runs;
    KidsDone(kids, runs);
  }

  lemma KidsDone(kids: map<Id, seq<Run>>, runs: seq<Run>)
    requires KidsSoFar(kids, Ids(runs), runs)
    ensures kids == KidsMap(runs)
  {
    forall p | p in Ids(runs) ensures kids[p] == KidsMap(runs)[p] { assert kids[p] == ChildrenOf(runs, p); }
  }

  method ProjectAgentTree(runs: seq<Run>, cap: nat) returns (f: Forest)
    requires DistinctIds(runs)
    ensures f == Project(runs, cap)
  {
    var kids, roots, orphaned := LinkNodes(runs);
    var trees: seq<Tree> := [];
    for i := 0 to |roots|
      invariant trees + VisitAll(kids, roots[i..], 0, cap) == VisitAll(kids, roots, 0, cap)
    {
      assert roots[i..][1..] == roots[i + 1..];
      Assoc(trees, [Visit(kids, roots[i], 0, cap)], VisitAll(kids, roots[i + 1..], 0, cap));
      trees := trees + [Visit(kids, roots[i], 0, cap)];
    }
    assert roots[|roots|..] == [];
    f := Forest(trees, orphaned);
  }

  method AgentTreeOf(listed: seq<Run>, root: Run, cap: nat) returns (f: Forest)
    requires DistinctIds(listed)
    ensures f == Project([root.(parent := None)] + Levels(listed, root.id, cap).out, cap)
  {
    var descendants := SelectDescendants(listed, root.id, cap);
    SearchExact(listed, root.id, cap);
    NodesDistinct(listed, root, cap);
    f := ProjectAgentTree([root.(parent := None)] + descendants, cap);
  }

  lemma NodesDistinct(listed: seq<Run>, root: Run, cap: nat)
    requires DistinctIds(listed)
    ensures DistinctIds([root.(parent := None)] + Levels(listed, root.id, cap).out)
  {
    SearchExact(listed, root.id, cap);
    var out := Levels(listed, root.id, cap).out;
    forall i | 0 <= i < |out| ensures out[i].id != root.id { assert out[i] in out; }
  }

  /*** Where a run appears in a tree ***/

  /** Every node of a tree with its depth. */
  function Flatten(t: Tree): seq<(Id, nat)>
    decreases t, 0
  {
    [(t.id, t.depth)] + FlattenAll(t.children)
  }

  function FlattenAll(ts: seq<Tree>): seq<(Id, nat)>
    decreases ts, 0
  {
    if ts == [] then [] else Flatten(ts[0]) + FlattenAll(ts[1..])
  }

  function ParentOf(runs: seq<Run>, x: Id): Option<Id> {
    if runs == [] then None else if runs[0].id == x then runs[0].parent else ParentOf(runs[1..], x)
  }

  lemma {:induction false} ParentOfListed(runs: seq<Run>, r: Run)
    requires DistinctIds(runs) && r in runs
    ensures ParentOf(runs, r.id) == r.parent
  {
    if runs[0] != r {
      var k :| 0 <= k < |runs| && runs[k] == r;
      assert runs[0].id != runs[k].id;
      assert runs[1..][k - 1] == r;
      ParentOfListed(runs[1..], r);
    }
  }

  lemma {:induction false} ParentIsListed(runs: seq<Run>, x: Id)
    requires ParentOf(runs, x).Some?
    ensures exists r :: r in runs && r.id == x && r.parent == ParentOf(runs, x)
  {
    if runs[0].id == x {
      assert runs[0] in runs;
    } else {
      ParentIsListed(runs[1..], x);
      var r :| r in runs[1..] && r.id == x && r.parent == ParentOf(runs, x);
      assert r in runs;
    }
  }

  /** The k-th ancestor. */
  function Climb(runs: seq<Run>, x: Id, k: nat): Option<Id>
    decreases k
  {
    if k == 0 then Some(x)
    else match ParentOf(runs, x) case None => None case Some(p) => Climb(runs, p, k - 1)
  }

  lemma {:induction false} ClimbLast(runs: seq<Run>, x: Id, k: nat)
    ensures Climb(runs, x, k + 1) == match Climb(runs, x, k) case None => None case Some(y) => ParentOf(runs, y)
    decreases k
  {
    if k > 0 && ParentOf(runs, x).Some? { ClimbLast(runs, ParentOf(runs, x).value, k - 1); }
    assert k == 0 ==> forall p :: Climb(runs, p, 0) == Some(p);
  }

  ghost predicate LandsIn(runs: seq<Run>, x: Id, k: nat, rs: seq<Run>) {
    Climb(runs, x, k).Some? && exists i :: 0 <= i < |rs| && rs[i].id == Climb(runs, x, k).value
  }

  lemma LandsAmongChildren(runs: seq<Run>, x: Id, k: nat, p: Id)
    requires DistinctIds(runs)
    ensures LandsIn(runs, x, k, ChildrenOf(runs, p)) <==> Climb(runs, x, k + 1) == Some(p)
  {
    ClimbLast(runs, x, k);
    var rs := ChildrenOf(runs, p);
    if i :| Climb(runs, x, k).Some? && 0 <= i < |rs| && rs[i].id == Climb(runs, x, k).value {
      assert rs[i] in rs;
      ParentOfListed(runs, rs[i]);
    }
    if Climb(runs, x, k + 1) == Some(p) {
      var y := Climb(runs, x, k).value;
      ParentIsListed(runs, y);
      var r :| r in runs && r.id == y && r.parent == Some(p);
      assert r in rs;
      var i :| 0 <= i < |rs| && rs[i] == r;
    }
  }

  lemma ChildrenDistinct(runs: seq<Run>, p: Id)
    requires DistinctIds(runs)
    ensures DistinctIds(ChildrenOf(runs, p))
  {
    var key := (r: Run) => r.id;
    FilterDistinct(runs, (r: Run) => IsChild(p, r), key);
    var rs := ChildrenOf(runs, p);
    forall i, j | 0 <= i < j < |rs| ensures rs[i].id != rs[j].id { assert key(rs[i]) != key(rs[j]); }
  }

  lemma LandsSplit(runs: seq<Run>, x: Id, k: nat, rs: seq<Run>)
    requires rs != [] && DistinctIds(rs)
    ensures LandsIn(runs, x, k, rs) <==> Climb(runs, x, k) == Some(rs[0].id) || LandsIn(runs, x, k, rs[1..])
    ensures Climb(runs, x, k) == Some(rs[0].id) ==> !LandsIn(runs, x, k, rs[1..])
  {
    if i :| Climb(runs, x, k).Some? && 0 <= i < |rs| && rs[i].id == Climb(runs, x, k).value && i > 0 {
      assert rs[1..][i - 1].id == Climb(runs, x, k).value;
    }
    if i :| Climb(runs, x, k).Some? && 0 <= i < |rs[1..]| && rs[1..][i].id == Climb(runs, x, k).value {
      assert rs[i + 1].id == Climb(runs, x, k).value && rs[i + 1].id != rs[0].id;
    }
  }

  /** How often a node with this id and depth occurs. */
  function Occurs(t: Tree, x: Id, e: nat): nat
    decreases t, 0
  {
    (if t.id == x && t.depth == e then 1 else 0) + OccursAll(t.children, x, e)
  }

  function OccursAll(ts: seq<Tree>, x: Id, e: nat): nat
    decreases ts, 0
  {
    if ts == [] then 0 else Occurs(ts[0], x, e) + OccursAll(ts[1..], x, e)
  }

  lemma {:induction false} OccursMeaning(t: Tree, x: Id, e: nat)
    ensures Occurs(t, x, e) == multiset(Flatten(t))[(x, e)]
    decreases t, 0
  {
    OccursAllMeaning(t.children, x, e);
    assert multiset(Flatten(t)) == multiset{(t.id, t.depth)} + multiset(FlattenAll(t.children));
  }

  lemma {:induction false} OccursAllMeaning(ts: seq<Tree>, x: Id, e: nat)
    ensures OccursAll(ts, x, e) == multiset(FlattenAll(ts))[(x, e)]
    decreases ts, 0
  {
    if ts != [] {
      OccursMeaning(ts[0], x, e);
      OccursAllMeaning(ts[1..], x, e);
    }
  }

  /** One for each run the climb from depth e ends in at the given depth. */
  ghost function DueIn(runs: seq<Run>, rs: seq<Run>, depth: nat, cap: nat, x: Id, e: nat): nat {
    if depth <= e <= cap && LandsIn(runs, x, e - depth, rs) then 1 else 0
  }

  function Due(runs: seq<Run>, p: Id, depth: nat, cap: nat, x: Id, e: nat): nat {
    if depth <= e <= cap && Climb(runs, x, e - depth) == Some(p) then 1 else 0
  }

  lemma DueSplit(runs: seq<Run>, rs: seq<Run>, depth: nat, cap: nat, x: Id, e: nat)
    requires rs != [] && DistinctIds(rs)
    ensures DueIn(runs, rs, depth, cap, x, e) == Due(runs, rs[0].id, depth, cap, x, e)
            + DueIn(runs, rs[1..], depth, cap, x, e)
  {
    if depth <= e <= cap { LandsSplit(runs, x, e - depth, rs); }
  }

  lemma DueDescends(runs: seq<Run>, p: Id, depth: nat, cap: nat, x: Id, e: nat)
    requires DistinctIds(runs) && depth < cap
    ensures Due(runs, p, depth, cap, x, e)
            == (if p == x && depth == e then 1 else 0) + DueIn(runs, ChildrenOf(runs, p), depth + 1, cap, x, e)
  {
    if depth + 1 <= e <= cap { LandsAmongChildren(runs, x, e - depth - 1, p); }
  }

  /** In the tree of r a run appears at depth e exactly once if r is its ancestor of the right degree, and never
      otherwise. */
  lemma {:induction false} VisitCount(runs: seq<Run>, r: Run, depth: nat, cap: nat, x: Id, e: nat)
    requires DistinctIds(runs) && r in runs && depth <= cap
    ensures Occurs(Visit(KidsMap(runs), r, depth, cap), x, e) == Due(runs, r.id, depth, cap, x, e)
    decreases cap - depth, 0
  {
    if depth < cap {
      var rs := ChildrenOf(runs, r.id);
      ChildrenDistinct(runs, r.id);
      VisitAllCount(runs, rs, depth + 1, cap, x, e);
      DueDescends(runs, r.id, depth, cap, x, e);
    }
  }

  lemma {:induction false} VisitAllCount(runs: seq<Run>, rs: seq<Run>, depth: nat, cap: nat, x: Id, e: nat)
    requires DistinctIds(runs) && DistinctIds(rs) && (forall r :: r in rs ==> r in runs) && depth <= cap
    ensures OccursAll(VisitAll(KidsMap(runs), rs, depth, cap), x, e) == DueIn(runs, rs, depth, cap, x, e)
    decreases cap - depth, |rs|
  {
    if rs != [] {
      VisitCount(runs, rs[0], depth, cap, x, e);
      VisitAllCount(runs, rs[1..], depth, cap, x, e);
      Cons(Visit(KidsMap(runs), rs[0], depth, cap), VisitAll(KidsMap(runs), rs[1..], depth, cap));
      DueSplit(runs, rs, depth, cap, x, e);
    }
  }

  /*** The tree of one root ***/

  function NodesOf(listed: seq<Run>, root: Run, cap: nat): seq<Run> {
    [root.(parent := None)] + Levels(listed, root.id, cap).out
  }

  lemma NodeParents(listed: seq<Run>, root: Run, cap: nat, x: Id)
    requires DistinctIds(listed)
    ensures x == root.id ==> ParentOf(NodesOf(listed, root, cap), x) == None
    ensures forall r :: Link(listed, x, r) && Below(listed, root.id, x, cap) ==>
            ParentOf(NodesOf(listed, root, cap), x) == r.parent
    ensures ParentOf(NodesOf(listed, root, cap), x).Some? ==>
              x != root.id && exists r :: Link(listed, x, r) && r.parent == ParentOf(NodesOf(listed, root, cap), x)
  {
    var nodes := NodesOf(listed, root, cap);
    SearchExact(listed, root.id, cap);
    NodesDistinct(listed, root, cap);
    forall r | Link(listed, x, r) && Below(listed, root.id, x, cap) ensures ParentOf(nodes, x) == r.parent {
      assert r in Levels(listed, root.id, cap).out;
      ParentOfListed(nodes, r);
    }
    if ParentOf(nodes, x).Some? {
      ParentIsListed(nodes, x);
      var r :| r in nodes && r.id == x && r.parent == ParentOf(nodes, x);
      assert Link(listed, x, r);
    }
  }

  /** Among the nodes of the tree, climbing to the root is being that many links from it among the listed runs. */
  lemma {:induction false} ClimbIsDistance(listed: seq<Run>, root: Run, cap: nat, x: Id, d: nat)
    requires DistinctIds(listed) && d <= cap
    ensures Climb(NodesOf(listed, root, cap), x, d) == Some(root.id) <==> At(listed, root.id, x, d)
    decreases d
  {
    if d > 0 {
      var nodes := NodesOf(listed, root, cap);
      NodeParents(listed, root, cap, x);
      if At(listed, root.id, x, d) {
        var r :| Link(listed, x, r) && At(listed, root.id, r.parent.value, d - 1);
        assert Below(listed, root.id, x, cap);
        ClimbIsDistance(listed, root, cap, r.parent.value, d - 1);
      } else if ParentOf(nodes, x).Some? {
        var r :| Link(listed, x, r) && r.parent == ParentOf(nodes, x);
        ClimbIsDistance(listed, root, cap, r.parent.value, d - 1);
      }
    }
  }

  lemma OnlyRoot(listed: seq<Run>, root: Run, cap: nat)
    requires DistinctIds(listed)
    ensures var nodes := NodesOf(listed, root, cap);
      && RootsOf(nodes) == [root.(parent := None)]
      && (forall r :: r in nodes ==> !IsOrphan(Ids(nodes), r))
  {
    var out := Levels(listed, root.id, cap).out;
    var nodes := NodesOf(listed, root, cap);
    SearchExact(listed, root.id, cap);
    forall r | r in out ensures r.parent.Some? && r.parent.value in Ids(nodes) {
      var d: nat :| 1 <= d <= cap && At(listed, root.id, r.id, d);
      AtStep(listed, root.id, r, d);
      var p := r.parent.value;
      if d == 1 {
        assert nodes[0].id == p && nodes[0] in nodes;
      } else {
        var q :| Link(listed, p, q) && At(listed, root.id, q.parent.value, d - 2);
        assert Below(listed, root.id, q.id, cap);
        assert q in out && q in nodes;
      }
    }
    assert nodes[1..] == out;
    FilterNone(out, (r: Run) => IsRoot(r));
    assert RootsOf(nodes) == [nodes[0]] + Filter(out, (r: Run) => IsRoot(r));
  }

  lemma OneTree(kids: map<Id, seq<Run>>, top: Run, cap: nat)
    ensures VisitAll(kids, [top], 0, cap) == [Visit(kids, top, 0, cap)]
  {
    assert [top][1..] == [];
  }

  /** The tree built for a chosen root, over any listing with distinct ids, cycles and missing parents allowed: one
      root, no orphan, and a run at depth d exactly once if d <= cap links lead from it to the root, never otherwise. */
  lemma AgentTreeExact(listed: seq<Run>, root: Run, cap: nat)
    requires DistinctIds(listed)
    ensures var f := Project(NodesOf(listed, root, cap), cap);
      && |f.roots| == 1 && f.orphaned == 0
      && forall x, d: nat ::
           multiset(Flatten(f.roots[0]))[(x, d)] == if d <= cap && At(listed, root.id, x, d) then 1 else 0
  {
    var nodes := NodesOf(listed, root, cap);
    var f := Project(nodes, cap);
    var top := nodes[0];
    NodesDistinct(listed, root, cap);
    OnlyRoot(listed, root, cap);
    var ids := Ids(nodes);
    FilterNone(nodes, (r: Run) => IsOrphan(ids, r));
    OneTree(KidsMap(nodes), top, cap);
    forall x: Id, d: nat
      ensures multiset(Flatten(f.roots[0]))[(x, d)] == if d <= cap && At(listed, root.id, x, d) then 1 else 0
    {
      VisitCount(nodes, top, 0, cap, x, d);
      OccursMeaning(f.roots[0], x, d);
      if d <= cap { ClimbIsDistance(listed, root, cap, x, d); }
    }
  }
}
