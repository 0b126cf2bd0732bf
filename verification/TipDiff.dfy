/** diffTipVectors (src/code-session.js): which paths changed between two workspace tip vectors. */
module TipDiff {
  import opened Ordering
  import opened StableJson

  /** Revision and hash are absent as null or as the empty string. */
  datatype Tip = Tip(path: Text, revision: Option<Text>, hash: Option<Text>)
  datatype Kind = Added | Modified | Removed
  datatype Change = Change(path: Text, revision: Option<Text>, hash: Option<Text>, kind: Kind)

  const MAX_CHANGED_PATHS := 500

  function OrEmpty(field: Option<Text>): Text { if field.Some? then field.value else [] }
  function OrNull(field: Option<Text>): Option<Text> { if field == Some([]) then None else field }

  /** tipEntryKey: the three fields joined by NUL. */
  function Key(t: Tip): Text { t.path + [0] + OrEmpty(t.revision) + [0] + OrEmpty(t.hash) }

  /** new Map(tips.map(tip => [tip.path, tip])): the last tip of a path wins. */
  function ByPath(tips: seq<Tip>): (m: map<Text, Tip>)
    ensures forall p :: p in m ==> m[p].path == p
  {
    if tips == [] then map[] else ByPath(tips[..|tips| - 1])[tips[|tips| - 1].path := tips[|tips| - 1]]
  }

  /** The map has the paths of the tips, each with the last tip of that path. */
  lemma {:induction false} ByPathMeaning(tips: seq<Tip>, p: Text)
    ensures p in ByPath(tips) <==> exists i :: 0 <= i < |tips| && tips[i].path == p
    ensures p in ByPath(tips) ==>
              exists i :: 0 <= i < |tips| && tips[i] == ByPath(tips)[p] && forall j :: i < j < |tips| ==>
                tips[j].path != p
  {
    if tips != [] {
      var before, last := tips[..|tips| - 1], |tips| - 1;
      ByPathMeaning(before, p);
      if tips[last].path == p {
        assert tips[last] == ByPath(tips)[p];
      } else if p in ByPath(before) {
        var i :| 0 <= i < |before| && before[i] == ByPath(before)[p] && forall j :: i < j < |before| ==>
          before[j].path != p;
        assert tips[i] == ByPath(tips)[p] && forall j :: i < j < |tips| ==> tips[j].path != p;
      }
    }
  }

  /** A change shows an absent or empty field as null. */
  lemma NullMeaning(field: Option<Text>)
    ensures OrNull(field).None? <==> field.None? || field.value == []
    ensures OrNull(field).Some? ==> OrNull(field) == field
    ensures OrEmpty(field) == if OrNull(field).Some? then OrNull(field).value else []
  {
  }

  /** localeCompare of the paths, as "compares as at most". */
  type Collation = (Text, Text) -> bool

  function PathOrder(collate: Collation): (Change, Change) -> bool {
    (a: Change, b: Change) => collate(a.path, b.path)
  }

  function ChangeOf(prev: map<Text, Tip>, curr: map<Text, Tip>, p: Text): Option<Change> {
    if p in curr then
      if p !in prev then Some(Change(p, OrNull(curr[p].revision), OrNull(curr[p].hash), Added))
      else if Key(prev[p]) != Key(curr[p]) then
        Some(Change(p, OrNull(curr[p].revision), OrNull(curr[p].hash), Modified))
      else None
    else if p in prev then Some(Change(p, OrNull(prev[p].revision), OrNull(prev[p].hash), Removed))
    else None
  }

  /** The paths that changed. */
  ghost function Changed(prev: map<Text, Tip>, curr: map<Text, Tip>): set<Text> {
    set p | p in prev.Keys + curr.Keys && ChangeOf(prev, curr, p).Some?
  }

  /** A list holding exactly the changes of the paths in some set, each once. */
  ghost predicate Lists(changes: seq<Change>, prev: map<Text, Tip>, curr: map<Text, Tip>, paths: set<Text>) {
    && (forall i :: 0 <= i < |changes| ==>
        changes[i].path in paths && ChangeOf(prev, curr, changes[i].path) == Some(changes[i]))
    && (forall i, j :: 0 <= i < j < |changes| ==> changes[i].path != changes[j].path)
    && (forall p :: p in paths && ChangeOf(prev, curr, p).Some? ==> ChangeOf(prev, curr, p).value in changes)
  }

  /** The diff: every changed path once with its change, in path order, cut at 500. */
  method DiffTipVectors(previousTips: seq<Tip>, currentTips: seq<Tip>, collate: Collation) returns (diff: seq<Change>)
    requires Preorder(collate)
    ensures exists all :: Lists(all, ByPath(previousTips), ByPath(currentTips),
                                ByPath(previousTips).Keys + ByPath(currentTips).Keys)
              && Sorted(all, PathOrder(collate)) && diff
                 == if |all| <= 500 then all else all[..500]
    ensures View(ByPath(previousTips)) == View(ByPath(currentTips))
            <==> diff == [] && Unambiguous(ByPath(previousTips), ByPath(currentTips))
    ensures Apply(View(ByPath(previousTips)), diff) == View(ByPath(currentTips))
            <==> && |Changed(ByPath(previousTips), ByPath(currentTips))| <= 500
                 && Unambiguous(ByPath(previousTips), ByPath(currentTips))
  {
    var prev, curr := ByPath(previousTips), ByPath(currentTips);
    var changed: seq<Change> := [];
    var todo, done := curr.Keys, {};
    while todo != {}
      invariant done + todo == curr.Keys && done !! todo
      invariant Lists(changed, prev, curr, done)
      decreases todo
    {
      var p :| p in todo;
      var tip := curr[p];
      CurrentStep(changed, prev, curr, done, p);
      if p !in prev || Key(prev[p]) != Key(tip) {
        changed := changed + [Change(p, OrNull(tip.revision), OrNull(tip.hash), if p in prev then Modified else Added)];
      }
      todo, done := todo - {p}, done + {p};
    }
    todo := prev.Keys;
    ghost var rest := {};
    assert curr.Keys + rest == done;
    while todo != {}
      invariant rest + todo == prev.Keys && rest !! todo
      invariant Lists(changed, prev, curr, curr.Keys + rest)
      decreases todo
    {
      var p :| p in todo;
      PreviousStep(changed, prev, curr, rest, p);
      if p !in curr {
        changed := changed + [Change(p, OrNull(prev[p].revision), OrNull(prev[p].hash), Removed)];
      }
      todo, rest := todo - {p}, rest + {p};
    }
    var all := Sort(changed, PathOrder(collate));
    assert curr.Keys + rest == prev.Keys + curr.Keys;
    SortedLists(changed, prev, curr, prev.Keys + curr.Keys, collate);
    diff := if |all| <= MAX_CHANGED_PATHS then all else all[..MAX_CHANGED_PATHS];
    DiffRoundTrip(previousTips, currentTips, all, diff);
  }

  /** One pass of the first loop. */
  lemma CurrentStep(changed: seq<Change>, prev: map<Text, Tip>, curr: map<Text, Tip>, done: set<Text>, p: Text)
    requires Lists(changed, prev, curr, done) && p in curr && p !in done
    ensures var kind := if p in prev then Modified else Added;
      var change := Change(p, OrNull(curr[p].revision), OrNull(curr[p].hash), kind);
      Lists(if p !in prev || Key(prev[p]) != Key(curr[p]) then changed + [change] else changed, prev, curr, done + {p})
  {
    if ChangeOf(prev, curr, p).None? { assert changed + [] == changed; }
    ListsMore(changed, changed + OneChange(prev, curr, p), prev, curr, done, p);
  }

  /** One pass of the second loop. */
  lemma PreviousStep(changed: seq<Change>, prev: map<Text, Tip>, curr: map<Text, Tip>, rest: set<Text>, p: Text)
    requires Lists(changed, prev, curr, curr.Keys + rest) && p in prev && p !in rest
    ensures var change := Change(p, OrNull(prev[p].revision), OrNull(prev[p].hash), Removed);
      Lists(if p !in curr then changed + [change] else changed, prev, curr, curr.Keys + (rest + {p}))
  {
    if p in curr {
      assert curr.Keys + (rest + {p}) == curr.Keys + rest;
    } else {
      assert curr.Keys + (rest + {p}) == curr.Keys + rest + {p};
      ListsMore(changed, changed + OneChange(prev, curr, p), prev, curr, curr.Keys + rest, p);
    }
  }

  function OneChange(prev: map<Text, Tip>, curr: map<Text, Tip>, p: Text): seq<Change> {
    if ChangeOf(prev, curr, p).Some? then [ChangeOf(prev, curr, p).value] else []
  }

  lemma ListsMore(before: seq<Change>, after: seq<Change>, prev: map<Text, Tip>, curr: map<Text, Tip>, paths: set<Text>,
                  p: Text)
    requires Lists(before, prev, curr, paths) && p !in paths
    requires after == before + OneChange(prev, curr, p)
    ensures Lists(after, prev, curr, paths + {p})
  {
    forall q | q in paths + {p} && ChangeOf(prev, curr, q).Some? ensures ChangeOf(prev, curr, q).value in after {
      if q == p { assert after[|before|] == ChangeOf(prev, curr, p).value; }
    }
  }

  lemma SortedLists(changed: seq<Change>, prev: map<Text, Tip>, curr: map<Text, Tip>, paths: set<Text>,
                    collate: Collation)
    requires Preorder(collate) && Lists(changed, prev, curr, paths)
    ensures var all := Sort(changed, PathOrder(collate));
      Lists(all, prev, curr, paths) && Sorted(all, PathOrder(collate))
  {
    var leq := PathOrder(collate);
    var all := Sort(changed, leq);
    forall x: Change, y: Change ensures leq(x, y) || leq(y, x) {
      assert collate(x.path, y.path) || collate(y.path, x.path);
    }
    forall x: Change, y: Change, z: Change | leq(x, y) && leq(y, z) ensures leq(x, z) {
      assert collate(x.path, y.path) && collate(y.path, z.path);
    }
    SortSorted(changed, leq);
    SortMultiset(changed, leq);
    forall i | 0 <= i < |all|
      ensures all[i].path in paths && ChangeOf(prev, curr, all[i].path) == Some(all[i])
    {
      assert all[i] in changed;
    }
    KeysStayDistinct(changed, all, (c: Change) => c.path);
  }

  /*** Applying a diff ***/

  /** What a reader of tips can see: null and empty are the same. */
  datatype Fields = Fields(revision: Text, hash: Text)
  function View(tips: map<Text, Tip>): map<Text, Fields> {
    map p | p in tips :: Fields(OrEmpty(tips[p].revision), OrEmpty(tips[p].hash))
  }

  function Apply(view: map<Text, Fields>, diff: seq<Change>): map<Text, Fields> {
    if diff == [] then view
    else
      var c := diff[|diff| - 1];
      var before := Apply(view, diff[..|diff| - 1]);
      if c.kind.Removed? then before - {c.path} else before[c.path := Fields(OrEmpty(c.revision), OrEmpty(c.hash))]
  }

  /** The second revision goes on after the first and a NUL, and the first hash makes up for it. */
  predicate Shifted(r: Text, h: Text, s: Text, k: Text) {
    r + [0] <= s && h == s[|r| + 1..] + [0] + k
  }

  lemma JoinedAt(r: Text, h: Text)
    ensures (r + [0] + h)[..|r|] == r && (r + [0] + h)[..|r| + 1] == r + [0] && (r + [0] + h)[|r| + 1..] == h
  {
  }

  lemma ShiftedJoin(r: Text, h: Text, s: Text, k: Text)
    requires |r| < |s|
    ensures r + [0] + h == s + [0] + k <==> Shifted(r, h, s, k)
  {
    JoinedAt(r, h);
    JoinedAt(s, k);
    var x, n := s + [0] + k, |r| + 1;
    assert x[..n] == s[..n] && x[n..] == s[n..] + [0] + k;
    assert x == x[..n] + x[n..];
  }

  /** When two joined pairs are the same text. */
  lemma JoinExact(r: Text, h: Text, s: Text, k: Text)
    ensures r + [0] + h == s + [0] + k <==> (r == s && h == k) || Shifted(r, h, s, k) || Shifted(s, k, r, h)
  {
    JoinedAt(r, h);
    JoinedAt(s, k);
    if |r| < |s| {
      ShiftedJoin(r, h, s, k);
    } else if |s| < |r| {
      ShiftedJoin(s, k, r, h);
    }
  }

  /** Two revisions are told apart, whatever the hashes, exactly when neither goes on after the other and a NUL. */
  lemma RevisionsToldApart(r: Text, s: Text)
    ensures (forall h: Text, k: Text :: r + [0] + h == s + [0] + k ==> r == s && h == k)
            <==> r == s || !(r + [0] <= s || s + [0] <= r)
  {
    forall h: Text, k: Text ensures r + [0] + h == s + [0] + k <==>
      (r == s && h == k) || Shifted(r, h, s, k) || Shifted(s, k, r, h) { JoinExact(r, h, s, k); }
    if r + [0] <= s {
      var h := s[|r| + 1..] + [0] + [];
      assert Shifted(r, h, s, []);
      assert r + [0] + h == s + [0] + [];
    }
    if s + [0] <= r {
      var k := r[|s| + 1..] + [0] + [];
      assert Shifted(s, k, r, []);
      assert r + [0] + [] == s + [0] + k;
    }
  }

  /** One tip's fields are the other's with the boundary moved to another NUL. */
  predicate Confused(t: Tip, u: Tip) {
    || Shifted(OrEmpty(t.revision), OrEmpty(t.hash), OrEmpty(u.revision), OrEmpty(u.hash))
    || Shifted(OrEmpty(u.revision), OrEmpty(u.hash), OrEmpty(t.revision), OrEmpty(t.hash))
  }

  /** No path moved the boundary between its fields. */
  ghost predicate Unambiguous(prev: map<Text, Tip>, curr: map<Text, Tip>) {
    forall p :: p in prev && p in curr ==> !Confused(prev[p], curr[p])
  }

  predicate SameFields(t: Tip, u: Tip) {
    OrEmpty(t.revision) == OrEmpty(u.revision) && OrEmpty(t.hash) == OrEmpty(u.hash)
  }

  /** The key of a path tells different fields apart exactly when they are not confused. */
  lemma KeyExact(t: Tip, u: Tip)
    requires t.path == u.path
    ensures Key(t) == Key(u) <==> SameFields(t, u) || Confused(t, u)
    ensures Confused(t, u) ==> !SameFields(t, u)
  {
    var n := |t.path| + 1;
    var x, y := OrEmpty(t.revision) + [0] + OrEmpty(t.hash), OrEmpty(u.revision) + [0] + OrEmpty(u.hash);
    assert Key(t) == t.path + [0] + x && Key(u) == u.path + [0] + y;
    assert Key(t)[n..] == x && Key(u)[n..] == y;
    JoinExact(OrEmpty(t.revision), OrEmpty(t.hash), OrEmpty(u.revision), OrEmpty(u.hash));
  }

  /** Without a NUL in a revision nothing is confused, whatever the hashes hold. */
  lemma NulFreeUnambiguous(prev: map<Text, Tip>, curr: map<Text, Tip>)
    requires forall p :: p in prev ==> 0 !in OrEmpty(prev[p].revision)
    requires forall p :: p in curr ==> 0 !in OrEmpty(curr[p].revision)
    ensures Unambiguous(prev, curr)
  {
    forall p | p in prev && p in curr ensures !Confused(prev[p], curr[p]) {
      NulInside(OrEmpty(prev[p].revision), OrEmpty(curr[p].revision));
      NulInside(OrEmpty(curr[p].revision), OrEmpty(prev[p].revision));
    }
  }

  lemma NulInside(r: Text, s: Text)
    ensures r + [0] <= s ==> 0 in s
  {
    if r + [0] <= s { assert s[|r|] == (r + [0])[|r|]; }
  }

  /** Some change of the list is about the path. */
  predicate Touches(diff: seq<Change>, p: Text) { exists i :: 0 <= i < |diff| && diff[i].path == p }

  lemma {:induction false} ApplyElsewhere(view: map<Text, Fields>, diff: seq<Change>, p: Text)
    requires !Touches(diff, p)
    ensures p in Apply(view, diff) <==> p in view
    ensures p in view ==> Apply(view, diff)[p] == view[p]
  {
    if diff != [] {
      var init := diff[..|diff| - 1];
      assert diff[|diff| - 1].path != p;
      forall i | 0 <= i < |init| ensures init[i].path != p { assert diff[i].path != p; }
      ApplyElsewhere(view, init, p);
    }
  }

  lemma {:induction false} ApplyAt(view: map<Text, Fields>, diff: seq<Change>, i: nat)
    requires forall i, j :: 0 <= i < j < |diff| ==> diff[i].path != diff[j].path
    requires i < |diff|
    ensures var p, after := diff[i].path, Apply(view, diff);
      if diff[i].kind.Removed? then p !in after
      else p in after && after[p] == Fields(OrEmpty(diff[i].revision), OrEmpty(diff[i].hash))
  {
    if i < |diff| - 1 {
      var init := diff[..|diff| - 1];
      assert init[i] == diff[i] && diff[|diff| - 1].path != diff[i].path;
      ApplyAt(view, init, i);
    }
  }

  /** The two maps agree at one path. */
  ghost predicate AgreeAt(a: map<Text, Fields>, b: map<Text, Fields>, p: Text) {
    (p in a <==> p in b) && (p in a && p in b ==> a[p] == b[p])
  }

  lemma ChangeApplied(prev: map<Text, Tip>, curr: map<Text, Tip>, all: seq<Change>, i: nat)
    requires i < |all| && ChangeOf(prev, curr, all[i].path) == Some(all[i])
    requires forall i, j :: 0 <= i < j < |all| ==> all[i].path != all[j].path
    ensures AgreeAt(Apply(View(prev), all), View(curr), all[i].path)
  {
    ApplyAt(View(prev), all, i);
  }

  lemma NothingApplied(prev: map<Text, Tip>, curr: map<Text, Tip>, all: seq<Change>, p: Text)
    requires ChangeOf(prev, curr, p).None? && !Touches(all, p)
    requires (p in prev ==> prev[p].path == p) && (p in curr ==> curr[p].path == p)
    ensures AgreeAt(Apply(View(prev), all), View(curr), p) <==> !(p in prev && p in curr && Confused(prev[p], curr[p]))
  {
    ApplyElsewhere(View(prev), all, p);
    if p in prev && p in curr { KeyExact(prev[p], curr[p]); }
  }

  /** Applying the full list of changes to the old tips gives the new ones exactly when nothing is confused. */
  lemma ApplyAll(prev: map<Text, Tip>, curr: map<Text, Tip>, all: seq<Change>)
    requires Lists(all, prev, curr, prev.Keys + curr.Keys)
    requires forall p :: p in prev ==> prev[p].path == p
    requires forall p :: p in curr ==> curr[p].path == p
    ensures Apply(View(prev), all) == View(curr) <==> Unambiguous(prev, curr)
  {
    forall p
      ensures AgreeAt(Apply(View(prev), all), View(curr), p)
              <==> !(p in prev && p in curr && Confused(prev[p], curr[p]))
    {
      if ChangeOf(prev, curr, p).Some? {
        var i :| 0 <= i < |all| && all[i] == ChangeOf(prev, curr, p).value;
        ChangeApplied(prev, curr, all, i);
        if p in prev && p in curr { KeyExact(prev[p], curr[p]); }
      } else {
        NothingApplied(prev, curr, all, p);
      }
    }
    if Unambiguous(prev, curr) { MapsAgree(Apply(View(prev), all), View(curr)); }
  }

  lemma MapsAgree(a: map<Text, Fields>, b: map<Text, Fields>)
    requires forall p :: AgreeAt(a, b, p)
    ensures a == b
  {
    forall p ensures p in a <==> p in b { assert AgreeAt(a, b, p); }
    forall p | p in a ensures a[p] == b[p] { assert AgreeAt(a, b, p); }
  }

  /** The diff is empty and nothing is confused exactly when the two vectors agree, and applying it to the old tips
      gives the new ones exactly when no more than 500 paths changed and nothing is confused. */
  lemma DiffRoundTrip(previousTips: seq<Tip>, currentTips: seq<Tip>, all: seq<Change>, diff: seq<Change>)
    requires Lists(all, ByPath(previousTips), ByPath(currentTips), ByPath(previousTips).Keys + ByPath(currentTips).Keys)
    requires diff == if |all| <= 500 then all else all[..500]
    ensures View(ByPath(previousTips)) == View(ByPath(currentTips))
            <==> diff == [] && Unambiguous(ByPath(previousTips), ByPath(currentTips))
    ensures Apply(View(ByPath(previousTips)), diff) == View(ByPath(currentTips))
            <==> && |Changed(ByPath(previousTips), ByPath(currentTips))| <= 500
                 && Unambiguous(ByPath(previousTips), ByPath(currentTips))
  {
    var prev, curr := ByPath(previousTips), ByPath(currentTips);
    ApplyAll(prev, curr, all);
    CountChanges(prev, curr, all);
    if diff == [] {
      assert all == [];
    } else {
      Differs(prev, curr, all, 0);
    }
    if |all| > MAX_CHANGED_PATHS {
      Differs(prev, curr, all, MAX_CHANGED_PATHS);
      CutShort(View(prev), all, MAX_CHANGED_PATHS);
    }
  }

  /** A cut list leaves the path of the first change it drops as it was. */
  lemma CutShort(view: map<Text, Fields>, all: seq<Change>, n: nat)
    requires n < |all| && forall i, j :: 0 <= i < j < |all| ==> all[i].path != all[j].path
    ensures AgreeAt(Apply(view, all[..n]), view, all[n].path)
  {
    ApplyElsewhere(view, all[..n], all[n].path);
  }

  /** A listed change is a real difference at its path. */
  lemma Differs(prev: map<Text, Tip>, curr: map<Text, Tip>, all: seq<Change>, i: nat)
    requires Lists(all, prev, curr, prev.Keys + curr.Keys) && i < |all|
    requires forall p :: p in prev ==> prev[p].path == p
    requires forall p :: p in curr ==> curr[p].path == p
    ensures !AgreeAt(View(prev), View(curr), all[i].path)
  {
    var p := all[i].path;
    if p in prev && p in curr { KeyExact(prev[p], curr[p]); }
  }

  lemma CountChanges(prev: map<Text, Tip>, curr: map<Text, Tip>, all: seq<Change>)
    requires Lists(all, prev, curr, prev.Keys + curr.Keys)
    ensures |all| == |Changed(prev, curr)|
  {
    var paths := set i | 0 <= i < |all| :: all[i].path;
    assert paths == Changed(prev, curr) by {
      forall p | p in Changed(prev, curr) ensures p in paths {
        var i :| 0 <= i < |all| && all[i] == ChangeOf(prev, curr, p).value;
        assert all[i].path == p;
      }
    }
    PathCount(all);
  }

  lemma {:induction false} PathCount(all: seq<Change>)
    requires forall i, j :: 0 <= i < j < |all| ==> all[i].path != all[j].path
    ensures |set i | 0 <= i < |all| :: all[i].path| == |all|
  {
    if all != [] {
      var n := |all| - 1;
      PathCount(all[..n]);
      assert (set i | 0 <= i < |all| :: all[i].path) == (set i | 0 <= i < n :: all[..n][i].path) + {all[n].path};
    }
  }

  /** With a NUL inside a revision two different tips can share a key, and the diff misses the change. */
  lemma NulWitness()
    ensures var t, u := Tip([1], Some([2, 0, 3]), Some([4])), Tip([1], Some([2]), Some([3, 0, 4]));
      Key(t) == Key(u) && View(map[t.path := t]) != View(map[u.path := u])
        && ChangeOf(map[t.path := t], map[u.path := u], [1]) == None
  {
    var t, u := Tip([1], Some([2, 0, 3]), Some([4])), Tip([1], Some([2]), Some([3, 0, 4]));
    assert Key(t) == [1, 0, 2, 0, 3, 0, 4] == Key(u);
    assert View(map[t.path := t])[[1]] != View(map[u.path := u])[[1]];
  }
}
