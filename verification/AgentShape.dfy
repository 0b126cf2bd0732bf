/** The shape of an agent tree (src/event-plane.js): under every run hang exactly its children, in listing order. */
module AgentShape {
  import opened Ordering
  import opened AgentTree
  import opened AgentForest

  function RunIds(runs: seq<Run>): (ids: seq<Id>)
    ensures |ids| == |runs| && forall i :: 0 <= i < |ids| ==> ids[i] == runs[i].id
  {
    Map(runs, (r: Run) => r.id)
  }

  function TreeIds(ts: seq<Tree>): (ids: seq<Id>)
    ensures |ids| == |ts| && forall i :: 0 <= i < |ids| ==> ids[i] == ts[i].id
  {
    Map(ts, (t: Tree) => t.id)
  }

  /** The tree stands at this depth, and below the cap its children are, in order, what kids gives for its id, one
      deeper; at the cap it has none. */
  ghost predicate Shaped(t: Tree, depth: nat, cap: nat, kids: Id -> seq<Id>)
    decreases t
  {
    && t.depth == depth
    && TreeIds(t.children) == (if depth < cap then kids(t.id) else [])
    && forall i :: 0 <= i < |t.children| ==> Shaped(t.children[i], depth + 1, cap, kids)
  }

  ghost predicate AllShaped(ts: seq<Tree>, depth: nat, cap: nat, kids: Id -> seq<Id>) {
    forall i :: 0 <= i < |ts| ==> Shaped(ts[i], depth, cap, kids)
  }

  lemma OneMoreTree(t: Tree, ts: seq<Tree>, depth: nat, cap: nat, kids: Id -> seq<Id>)
    requires Shaped(t, depth, cap, kids) && AllShaped(ts, depth, cap, kids)
    ensures AllShaped([t] + ts, depth, cap, kids) && TreeIds([t] + ts) == [t.id] + TreeIds(ts)
  {
  }

  lemma RunIdsCons(rs: seq<Run>)
    requires rs != []
    ensures RunIds(rs) == [rs[0].id] + RunIds(rs[1..])
  {
  }

  /** The children among these runs, in their order. */
  function Kids(runs: seq<Run>): Id -> seq<Id> { (p: Id) => RunIds(ChildrenOf(runs, p)) }

  lemma {:induction false} VisitShaped(runs: seq<Run>, r: Run, depth: nat, cap: nat)
    requires r in runs && depth <= cap
    ensures Shaped(Visit(KidsMap(runs), r, depth, cap), depth, cap, Kids(runs))
    decreases cap - depth, 0
  {
    if depth < cap {
      assert KidsOf(KidsMap(runs), r.id) == ChildrenOf(runs, r.id);
      VisitAllShaped(runs, ChildrenOf(runs, r.id), depth + 1, cap);
    }
  }

  lemma {:induction false} VisitAllShaped(runs: seq<Run>, rs: seq<Run>, depth: nat, cap: nat)
    requires (forall r :: r in rs ==> r in runs) && depth <= cap
    ensures var ts := VisitAll(KidsMap(runs), rs, depth, cap);
      TreeIds(ts) == RunIds(rs) && AllShaped(ts, depth, cap, Kids(runs))
    decreases cap - depth, |rs|
  {
    if rs != [] {
      VisitShaped(runs, rs[0], depth, cap);
      VisitAllShaped(runs, rs[1..], depth, cap);
      OneMoreTree(Visit(KidsMap(runs), rs[0], depth, cap), VisitAll(KidsMap(runs), rs[1..], depth, cap), depth, cap,
                  Kids(runs));
      RunIdsCons(rs);
    }
  }

  /** The projected forest: the runs without a parent stand at its roots, in order, and under every run its children, in
      order, down to the cap. */
  lemma ForestShape(runs: seq<Run>, cap: nat)
    ensures var f := Project(runs, cap);
      && TreeIds(f.roots) == RunIds(RootsOf(runs))
      && AllShaped(f.roots, 0, cap, Kids(runs))
  {
    VisitAllShaped(runs, RootsOf(runs), 0, cap);
  }

  /*** The order in which the search finds the children of a run ***/

  predicate NotRoot(root: Id, r: Run) { r.id != root }

  /** The listed children of a run, the root of the tree apart. */
  function ListedKids(listed: seq<Run>, root: Id, p: Id): seq<Run> {
    Filter(ChildrenOf(listed, p), (r: Run) => NotRoot(root, r))
  }

  /** Of the runs found, the children of the ids done are all there are, in listing order, and the others have none. */
  ghost predicate Expanded(listed: seq<Run>, root: Id, out: seq<Run>, done: set<Id>) {
    forall p {:trigger ChildrenOf(out, p)} ::
      ChildrenOf(out, p) == if p in done then ListedKids(listed, root, p) else []
  }

  ghost predicate Distinct(xs: seq<Id>) { forall i, j :: 0 <= i < j < |xs| ==> xs[i] != xs[j] }

  /** What the search has added since a state: these runs, in order. */
  ghost predicate Added(s: Search, t: Search, more: seq<Run>) {
    && t.out == s.out + more && t.next == s.next + RunIds(more)
    && forall x :: x in t.seen <==> x in s.seen || x in RunIds(more)
  }

  lemma AddedMore(s: Search, t: Search, more: seq<Run>, c: Run)
    requires Added(s, t, more) && c.id !in t.seen
    ensures Added(s, AddChild(t, c), more + [c])
  {
    Assoc(s.out, more, [c]);
    Assoc(s.next, RunIds(more), [c.id]);
    assert RunIds(more + [c]) == RunIds(more) + [c.id];
  }

  lemma NewIds(before: seq<Run>, c: Run, root: Id)
    requires DistinctIds(before + [c])
    ensures c.id !in RunIds(Filter(before, (r: Run) => NotRoot(root, r)))
  {
    var kept := Filter(before, (r: Run) => NotRoot(root, r));
    forall i | 0 <= i < |kept| ensures kept[i].id != c.id {
      assert kept[i] in before;
      var k :| 0 <= k < |before| && before[k] == kept[i];
      assert (before + [c])[k].id != (before + [c])[|before|].id;
    }
  }

  /** The search adds a run's children in one stretch. */
  lemma {:induction false} AddChildrenOut(s: Search, children: seq<Run>, root: Id)
    requires DistinctIds(children) && forall c :: c in children ==> (c.id in s.seen <==> c.id == root)
    ensures Added(s, AddChildren(s, children), Filter(children, (r: Run) => NotRoot(root, r)))
  {
    if children == [] {
      assert RunIds([]) == [];
    } else {
      var before, c := children[..|children| - 1], children[|children| - 1];
      assert children == before + [c];
      AddChildrenOut(s, before, root);
      FilterOneMore(before, c, (r: Run) => NotRoot(root, r));
      NewIds(before, c, root);
      var t, kept := AddChildren(s, before), Filter(before, (r: Run) => NotRoot(root, r));
      assert c.id in t.seen <==> c.id == root;
      if c.id != root { AddedMore(s, t, kept, c); }
    }
  }

  lemma ExpandAt(out: seq<Run>, more: seq<Run>, p: Id, q: Id)
    requires forall r :: r in more ==> IsChild(p, r)
    ensures ChildrenOf(out + more, q) == ChildrenOf(out, q) + if q == p then more else []
  {
    FilterAppend(out, more, (r: Run) => IsChild(q, r));
    if q == p { FilterAll(more, (r: Run) => IsChild(q, r)); } else { FilterNone(more, (r: Run) => IsChild(q, r)); }
  }

  lemma ExpandOne(listed: seq<Run>, root: Id, out: seq<Run>, done: set<Id>, p: Id)
    requires Expanded(listed, root, out, done) && p !in done
    ensures Expanded(listed, root, out + ListedKids(listed, root, p), done + {p})
  {
    var more := ListedKids(listed, root, p);
    forall r | r in more ensures IsChild(p, r) { assert r in ChildrenOf(listed, p); }
    forall q ensures ChildrenOf(out + more, q) == if q in done + {p} then ListedKids(listed, root, q) else [] {
      ExpandAt(out, more, p, q);
      assert ChildrenOf(out, q) == if q in done then ListedKids(listed, root, q) else [];
    }
  }

  /** What the search keeps inside a level: the ids done, and everything it has seen. */
  ghost predicate Growing(listed: seq<Run>, root: Id, s: Search, done: set<Id>) {
    && Expanded(listed, root, s.out, done) && s.seen == {root} + Ids(s.out)
    && (forall r :: r in s.out ==> r in listed)
    && Distinct(s.next) && (forall x :: x in s.next ==> x in s.seen)
  }

  lemma OtherRun(runs: seq<Run>, r: Run, q: Run)
    requires DistinctIds(runs) && r in runs && q in runs && r != q
    ensures r.id != q.id
  {
    if r.id == q.id { SameRun(runs, r, q); }
  }

  lemma Unseen(listed: seq<Run>, root: Id, s: Search, done: set<Id>, p: Id, c: Run)
    requires DistinctIds(listed) && Growing(listed, root, s, done) && p !in done && c in ChildrenOf(listed, p)
    ensures c.id in s.seen <==> c.id == root
  {
    assert ChildrenOf(s.out, p) == [];
    forall r | r in s.out ensures r.id != c.id {
      assert r !in ChildrenOf(s.out, p);
      OtherRun(listed, r, c);
    }
  }

  lemma GrowOne(listed: seq<Run>, root: Id, s: Search, done: set<Id>, p: Id)
    requires DistinctIds(listed) && Growing(listed, root, s, done) && p !in done
    ensures Growing(listed, root, AddChildren(s, ChildrenOf(listed, p)), done + {p})
  {
    var children := ChildrenOf(listed, p);
    ChildrenDistinct(listed, p);
    forall c | c in children ensures c.id in s.seen <==> c.id == root { Unseen(listed, root, s, done, p, c); }
    AddChildrenOut(s, children, root);
    ExpandOne(listed, root, s.out, done, p);
    forall r | r in ListedKids(listed, root, p) ensures r in listed && r.id !in s.seen { assert r in children; }
    KidsDistinct(listed, root, p);
    GrowSeen(listed, root, s, AddChildren(s, children), ListedKids(listed, root, p));
  }

  lemma KidsDistinct(listed: seq<Run>, root: Id, p: Id)
    requires DistinctIds(listed)
    ensures Distinct(RunIds(ListedKids(listed, root, p)))
  {
    var children, kept, key := ChildrenOf(listed, p), ListedKids(listed, root, p), (r: Run) => r.id;
    ChildrenDistinct(listed, p);
    FilterDistinct(children, (r: Run) => NotRoot(root, r), key);
    forall i, j | 0 <= i < j < |kept| ensures kept[i].id != kept[j].id { assert key(kept[i]) != key(kept[j]); }
  }

  lemma GrowSeen(listed: seq<Run>, root: Id, s: Search, t: Search, more: seq<Run>)
    requires Added(s, t, more) && s.seen == {root} + Ids(s.out) && Distinct(RunIds(more))
    requires (forall r :: r in s.out ==> r in listed) && (forall r :: r in more ==> r in listed && r.id !in s.seen)
    requires Distinct(s.next) && (forall x :: x in s.next ==> x in s.seen)
    ensures t.seen == {root} + Ids(t.out) && (forall r :: r in t.out ==> r in listed)
    ensures Distinct(t.next) && (forall x :: x in t.next ==> x in t.seen)
  {
    forall x ensures x in t.seen <==> x in {root} + Ids(t.out) {
      if x in RunIds(more) {
        var i :| 0 <= i < |more| && more[i].id == x;
        assert more[i] in t.out;
      }
    }
    forall i, j | 0 <= i < j < |t.next| ensures t.next[i] != t.next[j] {
      if i < |s.next| <= j {
        assert t.next[i] == s.next[i] && t.next[j] == more[j - |s.next|].id && more[j - |s.next|] in more;
      }
    }
  }

  function Members(xs: seq<Id>): set<Id> { set p | p in xs }

  lemma {:induction false} GrowLayer(listed: seq<Run>, root: Id, s: Search, done: set<Id>, frontier: seq<Id>)
    requires DistinctIds(listed) && Growing(listed, root, s, done)
    requires Distinct(frontier) && forall p :: p in frontier ==> p !in done
    ensures Growing(listed, root, AddLayer(listed, s, frontier), done + Members(frontier))
  {
    if frontier == [] {
      assert done + Members(frontier) == done;
    } else {
      var before, p := frontier[..|frontier| - 1], frontier[|frontier| - 1];
      assert frontier == before + [p];
      GrowLayer(listed, root, s, done, before);
      GrowOne(listed, root, AddLayer(listed, s, before), done + Members(before), p);
      assert done + Members(before) + {p} == done + Members(frontier);
    }
  }

  /** The ids whose children the first n levels have added. */
  function Done(listed: seq<Run>, root: Id, n: nat): set<Id> {
    if n == 0 then {} else Done(listed, root, n - 1) + Members(Levels(listed, root, n - 1).next)
  }

  ghost predicate Above(listed: seq<Run>, root: Id, p: Id, n: nat) {
    exists d: nat {:trigger At(listed, root, p, d)} :: d < n && At(listed, root, p, d)
  }

  lemma AboveStep(listed: seq<Run>, root: Id, p: Id, n: nat)
    ensures Above(listed, root, p, n + 1) <==> Above(listed, root, p, n) || At(listed, root, p, n)
  {
    if d: nat :| d < n + 1 && At(listed, root, p, d) && d != n { assert Above(listed, root, p, n); }
    if Above(listed, root, p, n) {
      var d: nat :| d < n && At(listed, root, p, d);
      assert Above(listed, root, p, n + 1);
    }
  }

  lemma FrontierIs(listed: seq<Run>, root: Id, n: nat, p: Id)
    requires DistinctIds(listed)
    ensures p in Levels(listed, root, n).next <==> At(listed, root, p, n)
  {
    SearchExact(listed, root, n);
  }

  lemma AboveNext(listed: seq<Run>, root: Id, n: nat, p: Id)
    requires DistinctIds(listed)
    ensures Above(listed, root, p, n + 1) <==> Above(listed, root, p, n) || p in Levels(listed, root, n).next
  {
    FrontierIs(listed, root, n, p);
    AboveStep(listed, root, p, n);
  }

  lemma NextLevel(listed: seq<Run>, root: Id, n: nat)
    ensures var s := Levels(listed, root, n);
      && Levels(listed, root, n + 1) == AddLayer(listed, s.(next := []), s.next)
      && Done(listed, root, n + 1) == Done(listed, root, n) + Members(s.next)
  {
  }

  lemma DoneStep(listed: seq<Run>, root: Id, n: nat, p: Id)
    requires DistinctIds(listed) && (p in Done(listed, root, n) <==> Above(listed, root, p, n))
    ensures p in Done(listed, root, n + 1) <==> Above(listed, root, p, n + 1)
  {
    NextLevel(listed, root, n);
    AboveNext(listed, root, n, p);
  }

  lemma {:induction false} DoneIsAbove(listed: seq<Run>, root: Id, n: nat, p: Id)
    requires DistinctIds(listed)
    ensures p in Done(listed, root, n) <==> Above(listed, root, p, n)
  {
    if n > 0 {
      DoneIsAbove(listed, root, n - 1, p);
      DoneStep(listed, root, n - 1, p);
    }
  }

  lemma NotDone(listed: seq<Run>, root: Id, n: nat, p: Id)
    requires DistinctIds(listed) && p in Levels(listed, root, n).next
    ensures p !in Done(listed, root, n)
  {
    FrontierIs(listed, root, n, p);
    DoneIsAbove(listed, root, n, p);
    if Above(listed, root, p, n) {
      var d: nat :| d < n && At(listed, root, p, d);
      AtUnique(listed, root, p, d, n);
    }
  }

  /** The state after n levels, with the ids done by then. */
  ghost predicate Grown(listed: seq<Run>, root: Id, n: nat) {
    Growing(listed, root, Levels(listed, root, n), Done(listed, root, n))
  }

  lemma GrowStart(listed: seq<Run>, root: Id)
    ensures Grown(listed, root, 0)
  {
    forall p ensures ChildrenOf([], p) == [] {}
  }

  lemma GrowLevel(listed: seq<Run>, root: Id, s: Search, done: set<Id>)
    requires DistinctIds(listed) && Growing(listed, root, s, done) && forall p :: p in s.next ==> p !in done
    ensures Growing(listed, root, AddLayer(listed, s.(next := []), s.next), done + Members(s.next))
  {
    assert Growing(listed, root, s.(next := []), done);
    GrowLayer(listed, root, s.(next := []), done, s.next);
  }

  lemma LevelGrows(listed: seq<Run>, root: Id, n: nat)
    requires DistinctIds(listed) && Grown(listed, root, n)
    ensures Grown(listed, root, n + 1)
  {
    var s, done := Levels(listed, root, n), Done(listed, root, n);
    forall p | p in s.next ensures p !in done { NotDone(listed, root, n, p); }
    GrowLevel(listed, root, s, done);
    NextLevel(listed, root, n);
  }

  lemma {:induction false} LevelsGrow(listed: seq<Run>, root: Id, n: nat)
    requires DistinctIds(listed)
    ensures Grown(listed, root, n)
  {
    if n == 0 {
      GrowStart(listed, root);
    } else {
      LevelsGrow(listed, root, n - 1);
      LevelGrows(listed, root, n - 1);
    }
  }

  /*** The tree of one root ***/

  /** The listed children of a run, but for the root of the tree. */
  function TreeKids(listed: seq<Run>, root: Id): Id -> seq<Id> { (p: Id) => RunIds(ListedKids(listed, root, p)) }

  /** Among the nodes of the tree, the children of a run above the cap are the listed ones. */
  lemma NodesKids(listed: seq<Run>, root: Run, cap: nat, p: Id)
    requires DistinctIds(listed) && Above(listed, root.id, p, cap)
    ensures ChildrenOf(NodesOf(listed, root, cap), p) == ListedKids(listed, root.id, p)
  {
    var out := Levels(listed, root.id, cap).out;
    LevelsGrow(listed, root.id, cap);
    DoneIsAbove(listed, root.id, cap, p);
    var top := root.(parent := None);
    assert ([top] + out)[1..] == out;
    assert ChildrenOf(out, p) == ListedKids(listed, root.id, p);
    assert ChildrenOf([top] + out, p) == [] + ChildrenOf(out, p);
  }

  lemma KidsFurther(listed: seq<Run>, root: Id, p: Id, d: nat, i: nat)
    requires DistinctIds(listed) && At(listed, root, p, d) && i < |ListedKids(listed, root, p)|
    ensures At(listed, root, ListedKids(listed, root, p)[i].id, d + 1)
  {
    var r := ListedKids(listed, root, p)[i];
    assert r in ListedKids(listed, root, p) && r in ChildrenOf(listed, p);
    AtStep(listed, root, r, d + 1);
  }

  lemma SameKids(listed: seq<Run>, root: Run, cap: nat, p: Id, d: nat)
    requires DistinctIds(listed) && At(listed, root.id, p, d) && d < cap
    ensures Kids(NodesOf(listed, root, cap))(p) == TreeKids(listed, root.id)(p)
  {
    assert Above(listed, root.id, p, cap);
    NodesKids(listed, root, cap, p);
  }

  /** Where the nodes of a tree stand, two ways of giving children agree, and the children stand there too. */
  ghost predicate Agree(kids: Id -> seq<Id>, others: Id -> seq<Id>, stands: (Id, nat) -> bool, cap: nat) {
    forall p, d: nat {:trigger stands(p, d)} :: stands(p, d) && d < cap ==>
      kids(p) == others(p) && forall i :: 0 <= i < |kids(p)| ==> stands(kids(p)[i], d + 1)
  }

  lemma {:induction false} ShapedAlike(t: Tree, d: nat, cap: nat, kids: Id -> seq<Id>, others: Id -> seq<Id>,
                                       stands: (Id, nat) -> bool)
    requires Shaped(t, d, cap, kids) && Agree(kids, others, stands, cap) && stands(t.id, d)
    ensures Shaped(t, d, cap, others)
    decreases t
  {
    forall i | 0 <= i < |t.children| ensures Shaped(t.children[i], d + 1, cap, others) {
      assert t.children[i].id == TreeIds(t.children)[i];
      ShapedAlike(t.children[i], d + 1, cap, kids, others, stands);
    }
  }

  lemma AgreeAt(listed: seq<Run>, root: Run, cap: nat, p: Id, d: nat)
    requires DistinctIds(listed) && At(listed, root.id, p, d) && d < cap
    ensures var kids := Kids(NodesOf(listed, root, cap))(p);
      && kids == TreeKids(listed, root.id)(p)
      && forall i :: 0 <= i < |kids| ==> At(listed, root.id, kids[i], d + 1)
  {
    SameKids(listed, root, cap, p, d);
    var kids := ListedKids(listed, root.id, p);
    forall i | 0 <= i < |kids| ensures At(listed, root.id, kids[i].id, d + 1) {
      KidsFurther(listed, root.id, p, d, i);
    }
  }

  lemma NodesAgree(listed: seq<Run>, root: Run, cap: nat, stands: (Id, nat) -> bool)
    requires DistinctIds(listed)
    requires forall p, d: nat {:trigger stands(p, d)} :: stands(p, d) <==> At(listed, root.id, p, d)
    ensures Agree(Kids(NodesOf(listed, root, cap)), TreeKids(listed, root.id), stands, cap)
  {
    var kids, others := Kids(NodesOf(listed, root, cap)), TreeKids(listed, root.id);
    forall p, d: nat | stands(p, d) && d < cap
      ensures kids(p) == others(p) && forall i :: 0 <= i < |kids(p)| ==> stands(kids(p)[i], d + 1)
    {
      AgreeAt(listed, root, cap, p, d);
    }
  }

  /** The tree built for a chosen root, over any listing with distinct ids: the root stands at the top, and down to the
      cap under every run hang exactly the listed runs it is the parent of, in listing order and one deeper, but for
      the root itself. No other tree is like that. */
  lemma AgentTreeShape(listed: seq<Run>, root: Run, cap: nat)
    requires DistinctIds(listed)
    ensures var f := Project(NodesOf(listed, root, cap), cap);
      |f.roots| == 1 && f.roots[0].id == root.id && Shaped(f.roots[0], 0, cap, TreeKids(listed, root.id))
  {
    var nodes := NodesOf(listed, root, cap);
    var f := Project(nodes, cap);
    OnlyRoot(listed, root, cap);
    ForestShape(nodes, cap);
    assert TreeIds(f.roots) == RunIds([root.(parent := None)]);
    assert f.roots[0].id == TreeIds(f.roots)[0] == root.id;
    ghost var stands := (p: Id, d: nat) => At(listed, root.id, p, d);
    NodesAgree(listed, root, cap, stands);
    ShapedAlike(f.roots[0], 0, cap, Kids(nodes), TreeKids(listed, root.id), stands);
  }

  /** Two trees of one shape are the same tree. */
  lemma {:induction false} ShapeDecides(t: Tree, u: Tree, depth: nat, cap: nat, kids: Id -> seq<Id>)
    requires t.id == u.id && Shaped(t, depth, cap, kids) && Shaped(u, depth, cap, kids)
    ensures t == u
    decreases t
  {
    assert |t.children| == |TreeIds(t.children)| == |TreeIds(u.children)| == |u.children|;
    forall i | 0 <= i < |t.children| ensures t.children[i] == u.children[i] {
      assert t.children[i].id == TreeIds(t.children)[i] == TreeIds(u.children)[i] == u.children[i].id;
      ShapeDecides(t.children[i], u.children[i], depth + 1, cap, kids);
    }
  }
}
