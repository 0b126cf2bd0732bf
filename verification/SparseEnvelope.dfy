/** selectSparsePathHeads (src/agent-bootstrap.js): which accepted path heads a package carries. The token-overlap
    score of a path is an arbitrary function. */
module SparseEnvelope {
  import opened Ordering
  import opened StableJson
  import AuthorityManifest
  import opened MemoryCompiler

  type Text = StableJson.Text

  datatype Head = Head(path: Text, hash: Text, origin: nat)
  datatype Scored = Scored(path: Text, score: nat)

  const CAP := 24

  function InstructionsPath(): Text { AuthorityManifest.Ascii("docs/AI_OPERATING_GUIDE.md") }
  function RuntimeBriefPath(): Text { AuthorityManifest.Ascii("docs/AI_RUNTIME_BRIEF.json") }

  predicate HeadLeq(a: Head, b: Head) { TextLeq(a.path, b.path) }
  predicate ScoredLeq(a: Scored, b: Scored) { a.score > b.score || (a.score == b.score && TextLeq(a.path, b.path)) }

  function Paths(full: seq<Head>): set<Text> { set h | h in full :: h.path }

  /** One candidate, if it is there at all. */
  function IfWanted(wanted: bool, path: Text): seq<Text> { if wanted then [path] else [] }

  /** The paths that must be there if accepted: the chain orientation, and the two canonical documents on request. */
  function FixedPaths(canonical: Option<Text>, instructions: bool, brief: bool): (r: seq<Text>)
    ensures |r| <= 3
  {
    (if canonical.Some? then [canonical.value] else [])
    + IfWanted(instructions, InstructionsPath())
    + IfWanted(brief, RuntimeBriefPath())
  }

  predicate IsEvidence(x: Item) { !x.authority.Historical? && x.path.Some? }

  /** The paths of the authoritative memory items, in order. */
  function EvidencePaths(items: seq<Item>): (r: seq<Text>)
    ensures |r| <= |items|
    ensures forall i :: 0 <= i < |items| && IsEvidence(items[i]) ==> items[i].path.value in r
  {
    if items == [] then []
    else
      var rest := EvidencePaths(items[..|items| - 1]);
      var x := items[|items| - 1];
      if IsEvidence(x) then rest + [x.path.value] else rest
  }

  /** The fallback: paths that share a token with the task, best first. */
  function RankedPaths(full: seq<Head>, score: Text -> nat): seq<Text> {
    var scored := Map(full, (h: Head) => Scored(h.path, score(h.path)));
    Map(Sort(Filter(scored, (s: Scored) => s.score > 0), ScoredLeq), (s: Scored) => s.path)
  }

  /** addPath */
  function Add(selected: set<Text>, known: set<Text>, path: Text): set<Text> {
    if path !in known || |selected| >= CAP then selected else selected + {path}
  }

  /** addPath over a list. */
  function Pick(candidates: seq<Text>, known: set<Text>): set<Text> {
    if candidates == [] then {}
    else Add(Pick(candidates[..|candidates| - 1], known), known, candidates[|candidates| - 1])
  }

  function Candidates(full: seq<Head>, fixed: seq<Text>, items: seq<Item>, score: Text -> nat): seq<Text> {
    fixed + EvidencePaths(items) + RankedPaths(full, score)
  }

  function Represent(full: seq<Head>, selected: set<Text>): seq<Head> {
    Sort(Filter(full, (h: Head) => h.path in selected), HeadLeq)
  }

  lemma PickMore(before: seq<Text>, path: Text, known: set<Text>)
    ensures Pick(before + [path], known) == Add(Pick(before, known), known, path)
  {
    assert (before + [path])[..|before|] == before;
  }

  lemma PickWanted(before: seq<Text>, wanted: bool, path: Text, known: set<Text>)
    ensures Pick(before + IfWanted(wanted, path), known)
            == if wanted then Add(Pick(before, known), known, path) else Pick(before, known)
  {
    if wanted { PickMore(before, path, known); } else { assert before + [] == before; }
  }

  method AddFixedPaths(known: set<Text>, canonical: Option<Text>, instructions: bool, brief: bool)
    returns (selected: set<Text>)
    ensures selected == Pick(FixedPaths(canonical, instructions, brief), known)
  {
    ghost var first := if canonical.Some? then [canonical.value] else [];
    ghost var second := first + IfWanted(instructions, InstructionsPath());
    FirstPick(canonical, known);
    PickWanted(first, instructions, InstructionsPath(), known);
    PickWanted(second, brief, RuntimeBriefPath(), known);
    selected := {};
    if canonical.Some? { selected := Add(selected, known, canonical.value); }
    if instructions { selected := Add(selected, known, InstructionsPath()); }
    if brief { selected := Add(selected, known, RuntimeBriefPath()); }
  }

  lemma FirstPick(canonical: Option<Text>, known: set<Text>)
    ensures Pick(if canonical.Some? then [canonical.value] else [], known)
            == if canonical.Some? then Add({}, known, canonical.value) else {}
  {
    if canonical.Some? {
      PickMore([], canonical.value, known);
      assert [] + [canonical.value] == [canonical.value];
    }
  }

  method AddEvidence(known: set<Text>, items: seq<Item>, start: set<Text>, ghost before: seq<Text>)
    returns (selected: set<Text>)
    requires start == Pick(before, known)
    ensures selected == Pick(before + EvidencePaths(items), known)
  {
    selected := start;
    EvidenceStarts(before, items);
    for i := 0 to |items|
      invariant selected == EvidencePick(before, items, i, known)
    {
      EvidenceStep(before, items, i, known);
      if IsEvidence(items[i]) { selected := Add(selected, known, items[i].path.value); }
    }
    assert items[..|items|] == items;
  }

  /** The selection after the first n memory items. */
  ghost function EvidencePick(before: seq<Text>, items: seq<Item>, n: nat, known: set<Text>): set<Text>
    requires n <= |items|
  {
    Pick(before + EvidencePaths(items[..n]), known)
  }

  lemma EvidenceStarts(before: seq<Text>, items: seq<Item>)
    ensures before + EvidencePaths(items[..0]) == before
  {
  }

  lemma EvidenceStep(before: seq<Text>, items: seq<Item>, i: nat, known: set<Text>)
    requires i < |items|
    ensures EvidencePick(before, items, i + 1, known)
            == if IsEvidence(items[i]) then Add(EvidencePick(before, items, i, known), known, items[i].path.value)
               else EvidencePick(before, items, i, known)
  {
    assert items[..i + 1][..i] == items[..i];
    if IsEvidence(items[i]) {
      var path := items[i].path.value;
      PickMore(before + EvidencePaths(items[..i]), path, known);
      Assoc(before, EvidencePaths(items[..i]), [path]);
    }
  }

  method AddRanked(known: set<Text>, ranked: seq<Text>, start: set<Text>, ghost before: seq<Text>)
    returns (selected: set<Text>)
    requires start == Pick(before, known)
    ensures selected == Pick(before + ranked, known)
  {
    selected := start;
    assert before + ranked[..0] == before;
    for i := 0 to |ranked|
      invariant selected == RankedPick(before, ranked, i, known)
    {
      RankedStep(before, ranked, i, known);
      selected := Add(selected, known, ranked[i]);
    }
    assert ranked[..|ranked|] == ranked;
  }

  /** The selection after the first n ranked paths. */
  ghost function RankedPick(before: seq<Text>, ranked: seq<Text>, n: nat, known: set<Text>): set<Text>
    requires n <= |ranked|
  {
    Pick(before + ranked[..n], known)
  }

  lemma RankedStep(before: seq<Text>, ranked: seq<Text>, i: nat, known: set<Text>)
    requires i < |ranked|
    ensures RankedPick(before, ranked, i + 1, known) == Add(RankedPick(before, ranked, i, known), known, ranked[i])
  {
    PickMore(before + ranked[..i], ranked[i], known);
    assert before + ranked[..i + 1] == before + ranked[..i] + [ranked[i]];
  }

  method SelectSparsePathHeads(full: seq<Head>, canonical: Option<Text>, instructions: bool, brief: bool,
                               items: seq<Item>, score: Text -> nat)
    returns (represented: seq<Head>, omitted: nat)
    ensures represented == Represent(full,
                                     Pick(Candidates(full, FixedPaths(canonical, instructions, brief), items, score),
                                          Paths(full)))
    ensures |represented| + omitted == |full|
  {
    var known := Paths(full);
    ghost var fixed := FixedPaths(canonical, instructions, brief);
    var selected := AddFixedPaths(known, canonical, instructions, brief);
    selected := AddEvidence(known, items, selected, fixed);
    selected := AddRanked(known, RankedPaths(full, score), selected, fixed + EvidencePaths(items));
    represented := Represent(full, selected);
    SortMultiset(Filter(full, (h: Head) => h.path in selected), HeadLeq);
    omitted := if |full| > |represented| then |full| - |represented| else 0;
  }

  /*** Which paths are selected ***/

  function Seen(candidates: seq<Text>, known: set<Text>): set<Text> { set p | p in candidates && p in known }

  lemma SeenMore(before: seq<Text>, path: Text, known: set<Text>)
    ensures Seen(before + [path], known) == if path in known then Seen(before, known) + {path} else Seen(before, known)
  {
  }

  lemma {:induction false} SeenSmall(candidates: seq<Text>, known: set<Text>)
    ensures |Seen(candidates, known)| <= |candidates|
  {
    if candidates != [] {
      var before := candidates[..|candidates| - 1];
      SeenSmall(before, known);
      SeenMore(before, candidates[|candidates| - 1], known);
      assert candidates == before + [candidates[|candidates| - 1]];
    }
  }

  /** The selection is what the first m candidates name, and a longer stretch would name more than the cap. */
  ghost predicate Cut(candidates: seq<Text>, known: set<Text>, selected: set<Text>, m: nat) {
    && m <= |candidates| && selected == Seen(candidates[..m], known) && |selected| <= CAP
    && (m < |candidates| ==> |selected| == CAP && candidates[m] in known && candidates[m] !in selected)
  }

  lemma {:induction false} PickCut(candidates: seq<Text>, known: set<Text>) returns (m: nat)
    ensures Cut(candidates, known, Pick(candidates, known), m)
  {
    if candidates == [] {
      m := 0;
    } else {
      var n := |candidates| - 1;
      var before := candidates[..n];
      var k := PickCut(before, known);
      assert candidates[..k] == before[..k];
      SeenMore(before, candidates[n], known);
      assert candidates[..n + 1] == before + [candidates[n]] && before[..n] == before;
      if k < n {
        m := k;
      } else if candidates[n] in known && |Pick(before, known)| >= CAP && candidates[n] !in Pick(before, known) {
        m := n;
      } else {
        m := n + 1;
        assert candidates[..m] == before + [candidates[n]];
      }
    }
  }

  /** The selected paths are exactly the accepted ones the longest stretch of candidates within the cap names. */
  lemma PickMeaning(candidates: seq<Text>, known: set<Text>)
    ensures var selected := Pick(candidates, known);
      && selected <= known && |selected| <= 24
      && exists m :: Cut(candidates, known, selected, m)
  {
    var m := PickCut(candidates, known);
  }

  lemma CutIsLate(candidates: seq<Text>, known: set<Text>, selected: set<Text>, m: nat)
    requires Cut(candidates, known, selected, m)
    ensures m == |candidates| || m >= CAP
  {
    SeenSmall(candidates[..m], known);
  }

  /** Everything accepted that an early enough stretch names is selected. */
  lemma EarlySelected(early: seq<Text>, later: seq<Text>, known: set<Text>)
    requires |early| <= CAP
    ensures Seen(early, known) <= Pick(early + later, known)
  {
    var all := early + later;
    var m := PickCut(all, known);
    CutIsLate(all, known, Pick(all, known), m);
    forall p | p in Seen(early, known) ensures p in Pick(all, known) {
      var k :| 0 <= k < |early| && early[k] == p;
      assert all[..m][k] == p;
    }
  }

  /** Every accepted path behind an authoritative memory item is selected, as long as the memory is within the cap
      less the three fixed paths. */
  lemma EvidenceSelected(full: seq<Head>, fixed: seq<Text>, items: seq<Item>, score: Text -> nat, i: nat)
    requires |fixed| <= 3 && |items| + 3 <= CAP && i < |items| && IsEvidence(items[i])
    requires items[i].path.value in Paths(full)
    ensures items[i].path.value in Pick(Candidates(full, fixed, items, score), Paths(full))
  {
    EarlySelected(fixed + EvidencePaths(items), RankedPaths(full, score), Paths(full));
    assert items[i].path.value in fixed + EvidencePaths(items);
  }

  /*** The envelope ***/

  ghost predicate OneHeadToAPath(full: seq<Head>) {
    forall i, j :: 0 <= i < j < |full| ==> full[i].path != full[j].path
  }

  lemma PathsTail(full: seq<Head>)
    requires full != []
    ensures Paths(full) == Paths(full[1..]) + {full[0].path}
    ensures OneHeadToAPath(full) ==> full[0].path !in Paths(full[1..])
  {
    assert full == [full[0]] + full[1..];
    if full[0].path in Paths(full[1..]) {
      var h :| h in full[1..] && h.path == full[0].path;
      var k :| 0 <= k < |full[1..]| && full[1..][k] == h;
      assert full[k + 1] == h;
    }
  }

  lemma OneMore(s: set<Text>, rest: set<Text>, p: Text)
    requires p !in rest
    ensures |s * (rest + {p})| == |s * rest| + if p in s then 1 else 0
  {
    assert s * (rest + {p}) == if p in s then s * rest + {p} else s * rest;
  }

  lemma {:induction false} DistinctPathsCount(full: seq<Head>, selected: set<Text>, chosen: Head -> bool)
    requires OneHeadToAPath(full) && forall h :: chosen(h) <==> h.path in selected
    ensures |Filter(full, chosen)| == |selected * Paths(full)|
  {
    if full == [] {
      assert selected * Paths(full) == {};
    } else {
      PathsTail(full);
      DistinctPathsCount(full[1..], selected, chosen);
      OneMore(selected, Paths(full[1..]), full[0].path);
    }
  }

  /** The envelope is the part of the accepted heads with a selected path, with every multiplicity kept. */
  lemma EnvelopeMeaning(full: seq<Head>, selected: set<Text>, h: Head)
    ensures multiset(Represent(full, selected))[h] == if h.path in selected then multiset(full)[h] else 0
  {
    var chosen := (h: Head) => h.path in selected;
    SortMultiset(Filter(full, chosen), HeadLeq);
    FilterCount(full, chosen, h);
  }

  lemma RepresentCount(full: seq<Head>, selected: set<Text>)
    requires OneHeadToAPath(full) && selected <= Paths(full)
    ensures |Represent(full, selected)| == |selected|
  {
    var chosen := (h: Head) => h.path in selected;
    SortMultiset(Filter(full, chosen), HeadLeq);
    assert |Represent(full, selected)| == |multiset(Filter(full, chosen))|;
    DistinctPathsCount(full, selected, chosen);
    assert selected * Paths(full) == selected;
  }

  /** With one head to a path the envelope is as many heads as selected paths, so at most the cap. */
  lemma EnvelopeCapped(full: seq<Head>, candidates: seq<Text>)
    requires OneHeadToAPath(full)
    ensures |Represent(full, Pick(candidates, Paths(full)))| == |Pick(candidates, Paths(full))| <= 24
  {
    PickMeaning(candidates, Paths(full));
    RepresentCount(full, Pick(candidates, Paths(full)));
  }

  /** The envelope of a compiled memory: with the hit limit clamped as the package clamps it, every accepted head of a
      path behind an authoritative memory item is represented. */
  lemma MemoryIsRepresented(e: Setting, q: Request, requested: Option<real>, full: seq<Head>, fixed: seq<Text>,
                            score: Text -> nat, i: nat, h: Head)
    requires e.maxHits == ResolveHits(requested) && Fill(e, RowsOf(q, e.current), [], 0, {}).Compiled? && |fixed| <= 3
    requires var items := Fill(e, RowsOf(q, e.current), [], 0, {}).items;
      i < |items| && IsEvidence(items[i]) && h in full && h.path == items[i].path.value
    ensures var items := Fill(e, RowsOf(q, e.current), [], 0, {}).items;
      h in Represent(full, Pick(Candidates(full, fixed, items, score), Paths(full)))
  {
    var items := Fill(e, RowsOf(q, e.current), [], 0, {}).items;
    CompiledMeaning(e, q);
    EvidenceSelected(full, fixed, items, score, i);
    var selected := Pick(Candidates(full, fixed, items, score), Paths(full));
    EnvelopeMeaning(full, selected, h);
    assert h in multiset(full);
    assert h in multiset(Represent(full, selected));
  }

  /*** The candidates, exactly ***/

  /** The fixed candidates are the chain orientation's path and, on request, the two canonical documents. */
  lemma FixedMeaning(canonical: Option<Text>, instructions: bool, brief: bool, path: Text)
    ensures path in FixedPaths(canonical, instructions, brief) <==>
              || canonical == Some(path)
              || (instructions && path == AuthorityManifest.Ascii("docs/AI_OPERATING_GUIDE.md"))
              || (brief && path == AuthorityManifest.Ascii("docs/AI_RUNTIME_BRIEF.json"))
  {
  }

  function PathOf(x: Item): Text { if x.path.Some? then x.path.value else [] }

  predicate IsAccepted(x: Item) { (x.authority.ChainHead? || x.authority.PathHead?) && x.path.Some? }

  function AcceptedPaths(items: seq<Item>): seq<Text> { Map(Filter(items, (x: Item) => IsAccepted(x)), PathOf) }

  lemma AcceptedMore(before: seq<Item>, x: Item)
    ensures AcceptedPaths(before + [x]) == AcceptedPaths(before) + if IsAccepted(x) then [PathOf(x)] else []
  {
    var kept := Filter(before, (y: Item) => IsAccepted(y));
    FilterOneMore(before, x, (y: Item) => IsAccepted(y));
    if IsAccepted(x) { MapOneMore(kept, x); }
  }

  lemma MapOneMore(kept: seq<Item>, x: Item)
    ensures Map(kept + [x], PathOf) == Map(kept, PathOf) + [PathOf(x)]
  {
  }

  /** The evidence candidates are the paths of the chain head and path head items, in memory order. */
  lemma {:induction false} EvidenceExact(items: seq<Item>)
    ensures EvidencePaths(items) == AcceptedPaths(items)
  {
    if items != [] {
      var before, x := items[..|items| - 1], items[|items| - 1];
      assert items == before + [x];
      EvidenceExact(before);
      AcceptedMore(before, x);
    }
  }

  /** The better score first, and of equal scores the smaller path. */
  function Better(score: Text -> nat): (Text, Text) -> bool {
    (a: Text, b: Text) => score(a) > score(b) || (score(a) == score(b) && TextLeq(a, b))
  }

  lemma ScoredOrder()
    ensures Preorder(ScoredLeq)
  {
    forall a: Scored, b: Scored ensures ScoredLeq(a, b) || ScoredLeq(b, a) { TextTotal(a.path, b.path); }
    forall a: Scored, b: Scored, c: Scored | ScoredLeq(a, b) && ScoredLeq(b, c) ensures ScoredLeq(a, c) {
      if a.score == b.score == c.score { TextTransitive(a.path, b.path, c.path); }
    }
  }

  lemma {:induction false} FilterMapped<A(!new), B(!new)>(xs: seq<A>, f: A -> B, p: B -> bool, q: A -> bool)
    requires forall x :: q(x) <==> p(f(x))
    ensures Filter(Map(xs, f), p) == Map(Filter(xs, q), f)
  {
    if xs != [] {
      FilterMapped(xs[1..], f, p, q);
      MapCons(f, xs);
      FilterCons(f(xs[0]), Map(xs[1..], f), p);
      if q(xs[0]) { MapCons(f, [xs[0]] + Filter(xs[1..], q)); }
    }
  }

  lemma MapCons<A, B>(f: A -> B, xs: seq<A>)
    requires xs != []
    ensures Map(xs, f) == [f(xs[0])] + Map(xs[1..], f)
  {
  }

  lemma {:induction false} InsertMapped<A, B>(x: A, xs: seq<A>, leq: (A, A) -> bool, f: A -> B)
    ensures multiset(Map(Insert(x, xs, leq), f)) == multiset{f(x)} + multiset(Map(xs, f))
  {
    if xs == [] || leq(x, xs[0]) {
      MapCons(f, [x] + xs);
      Cons(x, xs);
    } else {
      var rest := Insert(x, xs[1..], leq);
      InsertMapped(x, xs[1..], leq, f);
      Cons(xs[0], rest);
      MapCons(f, [xs[0]] + rest);
      MapCons(f, xs);
    }
  }

  lemma {:induction false} SortMapped<A, B>(xs: seq<A>, leq: (A, A) -> bool, f: A -> B)
    ensures multiset(Map(Sort(xs, leq), f)) == multiset(Map(xs, f))
  {
    if xs != [] {
      SortMapped(xs[1..], leq, f);
      InsertMapped(xs[0], Sort(xs[1..], leq), leq, f);
      MapCons(f, xs);
    }
  }

  /** The accepted heads that share a token with the task. */
  function Matching(full: seq<Head>, score: Text -> nat): seq<Head> { Filter(full, (h: Head) => score(h.path) >= 1) }

  function ScoredHeads(full: seq<Head>, score: Text -> nat): seq<Scored> {
    Filter(Map(full, (h: Head) => Scored(h.path, score(h.path))), (s: Scored) => s.score > 0)
  }

  lemma ScoredPaths(full: seq<Head>, score: Text -> nat)
    ensures Map(ScoredHeads(full, score), (s: Scored) => s.path)
            == Map(Matching(full, score), (h: Head) => h.path)
    ensures forall s :: s in ScoredHeads(full, score) ==> s.score == score(s.path)
  {
    var scored := (h: Head) => Scored(h.path, score(h.path));
    FilterMapped(full, scored, (s: Scored) => s.score > 0, (h: Head) => score(h.path) >= 1);
    assert ScoredHeads(full, score) == Map(Matching(full, score), scored);
  }

  lemma RankedSorted(full: seq<Head>, score: Text -> nat)
    ensures Sorted(RankedPaths(full, score), Better(score))
  {
    var listed := ScoredHeads(full, score);
    ScoredPaths(full, score);
    SortMultiset(listed, ScoredLeq);
    ScoredOrder();
    SortSorted(listed, ScoredLeq);
    RankedInOrder(Sort(listed, ScoredLeq), score);
  }

  /** The fallback candidates are the paths of the accepted heads that share a token with the task, the better score
      first and equal scores by path. */
  lemma RankedExact(full: seq<Head>, score: Text -> nat)
    ensures Sorted(RankedPaths(full, score), Better(score))
    ensures multiset(RankedPaths(full, score)) == multiset(Map(Matching(full, score), (h: Head) => h.path))
  {
    ScoredPaths(full, score);
    SortMapped(ScoredHeads(full, score), ScoredLeq, (s: Scored) => s.path);
    RankedSorted(full, score);
  }

  lemma RankedInOrder(sorted: seq<Scored>, score: Text -> nat)
    requires Sorted(sorted, ScoredLeq) && forall s :: s in sorted ==> s.score == score(s.path)
    ensures Sorted(Map(sorted, (s: Scored) => s.path), Better(score))
  {
    forall i, j | 0 <= i < j < |sorted| ensures Better(score)(sorted[i].path, sorted[j].path) {
      assert ScoredLeq(sorted[i], sorted[j]) && sorted[i] in sorted && sorted[j] in sorted;
    }
  }

  /** The envelope stands in path order. */
  lemma EnvelopeSorted(full: seq<Head>, selected: set<Text>)
    ensures Sorted(Represent(full, selected), (a: Head, b: Head) => TextLeq(a.path, b.path))
  {
    forall a: Head, b: Head ensures HeadLeq(a, b) || HeadLeq(b, a) { TextTotal(a.path, b.path); }
    forall a: Head, b: Head, c: Head | HeadLeq(a, b) && HeadLeq(b, c) ensures HeadLeq(a, c) {
      TextTransitive(a.path, b.path, c.path);
    }
    SortSorted(Filter(full, (h: Head) => h.path in selected), HeadLeq);
  }
}
