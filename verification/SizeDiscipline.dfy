/** enforceSizeDiscipline (src/agent-bootstrap.js): trimming a package in place until it fits its byte budget. The
    measure of a package is an arbitrary function; a memory item is its own identity. */
module SizeDiscipline {
  import opened Ordering
  import opened MemoryCompiler

  datatype Entry = Entry(identity: nat, item: Item)
  datatype Skill = Skill(id: string, body: string)
  datatype Body = Body(items: seq<Entry>, memoryTruncated: bool, skills: Option<seq<Skill>>, skillsTruncated: bool)

  const BOOT_SKILL := "core.orient"

  function FirstOf(items: seq<Entry>, c: Class): Option<Entry> {
    if items == [] then None else if items[0].item.authority == c then Some(items[0]) else FirstOf(items[1..], c)
  }

  predicate Protected(items: seq<Entry>, x: Entry) {
    FirstOf(items, ChainHead) == Some(x) || FirstOf(items, PathHead) == Some(x)
  }

  /*** The reductions a package can go through ***/

  function Loose<T>(xs: seq<T>, keep: T -> bool): (n: nat)
    ensures n <= |xs|
  {
    if xs == [] then 0 else (if keep(xs[0]) then 0 else 1) + Loose(xs[1..], keep)
  }

  /** Everything kept for sure, and the first k of the rest, in order. */
  function Trim<T>(xs: seq<T>, keep: T -> bool, k: nat): seq<T> {
    if xs == [] then []
    else if keep(xs[0]) then [xs[0]] + Trim(xs[1..], keep, k)
    else if k > 0 then [xs[0]] + Trim(xs[1..], keep, k - 1)
    else Trim(xs[1..], keep, 0)
  }

  function Keeps(items: seq<Entry>): Entry -> bool { (x: Entry) => Protected(items, x) }
  function KeepsSkill(): Skill -> bool { (s: Skill) => s.id == BOOT_SKILL }

  function ItemSteps(b: Body): nat { Loose(b.items, Keeps(b.items)) }
  function SkillSteps(b: Body): nat { if b.skills.Some? then Loose(b.skills.value, KeepsSkill()) else 0 }
  function Steps(b: Body): nat { ItemSteps(b) + SkillSteps(b) }

  /** The package after i reductions: first memory items, lowest priority first, then optional skills. */
  function Rung(b: Body, i: nat): Body
    requires i <= Steps(b)
  {
    var n := ItemSteps(b);
    Body(Trim(b.items, Keeps(b.items), if i < n then n - i else 0), b.memoryTruncated || (i > 0 && n > 0),
         if b.skills.None? then None else Some(SkillRung(b.skills.value, if i > n then i - n else 0)),
         b.skillsTruncated || i > n)
  }

  function SkillRung(skills: seq<Skill>, gone: nat): seq<Skill>
    requires gone <= Loose(skills, KeepsSkill())
  {
    Trim(skills, KeepsSkill(), Loose(skills, KeepsSkill()) - gone)
  }

  /** Over budget at rung j. */
  predicate Over(b: Body, measure: Body -> nat, budget: int, j: nat) { j <= Steps(b) && measure(Rung(b, j)) > budget }

  ghost predicate OverUntil(b: Body, measure: Body -> nat, budget: int, i: nat) {
    forall j: nat {:trigger Over(b, measure, budget, j)} :: j < i ==> Over(b, measure, budget, j)
  }

  lemma {:induction false} TrimAll<T>(xs: seq<T>, keep: T -> bool)
    ensures Trim(xs, keep, Loose(xs, keep)) == xs
  {
    if xs != [] { TrimAll(xs[1..], keep); }
  }

  lemma {:induction false} TrimLoose<T>(xs: seq<T>, keep: T -> bool, k: nat)
    requires k <= Loose(xs, keep)
    ensures Loose(Trim(xs, keep, k), keep) == k
  {
    if xs != [] {
      if keep(xs[0]) {
        TrimLoose(xs[1..], keep, k);
        Cons(xs[0], Trim(xs[1..], keep, k));
      } else if k > 0 {
        TrimLoose(xs[1..], keep, k - 1);
        Cons(xs[0], Trim(xs[1..], keep, k - 1));
      } else {
        TrimLoose(xs[1..], keep, 0);
      }
    }
  }

  lemma {:induction false} TrimTwice<T>(xs: seq<T>, keep: T -> bool, k: nat, m: nat)
    requires m <= k
    ensures Trim(Trim(xs, keep, k), keep, m) == Trim(xs, keep, m)
  {
    if xs != [] {
      if keep(xs[0]) {
        TrimTwice(xs[1..], keep, k, m);
        Cons(xs[0], Trim(xs[1..], keep, k));
      } else if k > 0 {
        TrimTwice(xs[1..], keep, k - 1, if m > 0 then m - 1 else 0);
        Cons(xs[0], Trim(xs[1..], keep, k - 1));
      } else {
        TrimTwice(xs[1..], keep, 0, 0);
      }
    }
  }

  /** The last element that is not kept is at r. */
  ghost predicate LastAt<T>(xs: seq<T>, keep: T -> bool, r: int) {
    0 <= r < |xs| && !keep(xs[r]) && forall j :: r < j < |xs| ==> keep(xs[j])
  }

  function Splice<T>(xs: seq<T>, r: nat): seq<T>
    requires r < |xs|
  {
    xs[..r] + xs[r + 1..]
  }

  lemma LastOfTail<T>(xs: seq<T>, keep: T -> bool, r: nat)
    requires LastAt(xs, keep, r) && r > 0
    ensures LastAt(xs[1..], keep, r - 1) && Splice(xs, r) == [xs[0]] + Splice(xs[1..], r - 1)
  {
  }

  lemma LastIsHead<T>(xs: seq<T>, keep: T -> bool)
    requires LastAt(xs, keep, 0)
    ensures Loose(xs[1..], keep) == 0 && Splice(xs, 0) == xs[1..]
  {
    NoneLoose(xs[1..], keep);
  }

  /** Removing the last element that is not kept. */
  lemma {:induction false} SpliceLast<T>(xs: seq<T>, keep: T -> bool, r: nat)
    requires LastAt(xs, keep, r)
    ensures Loose(xs, keep) > 0 && Splice(xs, r) == Trim(xs, keep, Loose(xs, keep) - 1)
  {
    if r == 0 {
      LastIsHead(xs, keep);
      TrimAll(xs[1..], keep);
    } else {
      LastOfTail(xs, keep, r);
      SpliceLast(xs[1..], keep, r - 1);
    }
  }

  lemma {:induction false} NoneLoose<T>(xs: seq<T>, keep: T -> bool)
    ensures Loose(xs, keep) == 0 <==> forall j :: 0 <= j < |xs| ==> keep(xs[j])
  {
    if xs != [] {
      NoneLoose(xs[1..], keep);
      assert forall j :: 0 < j < |xs| ==> xs[j] == xs[1..][j - 1];
      assert forall j :: 0 <= j < |xs[1..]| ==> xs[1..][j] == xs[j + 1];
    }
  }

  /** One more splice of a list that was trimmed k deep. */
  lemma SpliceTrimmed<T>(xs: seq<T>, keep: T -> bool, k: nat, r: nat)
    requires k <= Loose(xs, keep) && LastAt(Trim(xs, keep, k), keep, r)
    ensures k > 0 && Splice(Trim(xs, keep, k), r) == Trim(xs, keep, k - 1)
  {
    TrimLoose(xs, keep, k);
    SpliceLast(Trim(xs, keep, k), keep, r);
    TrimTwice(xs, keep, k, k - 1);
  }

  lemma FirstRung(b: Body)
    ensures Rung(b, 0) == b
  {
    TrimAll(b.items, Keeps(b.items));
    if b.skills.Some? { TrimAll(b.skills.value, KeepsSkill()); }
  }

  /** Splicing the last loose item of a rung gives the next rung. */
  lemma NextItemRung(b: Body, i: nat, r: int)
    requires i <= ItemSteps(b) && LastAt(Rung(b, i).items, Keeps(b.items), r)
    ensures i < ItemSteps(b)
            && Rung(b, i + 1) == Rung(b, i).(items := Splice(Rung(b, i).items, r), memoryTruncated := true)
  {
    SpliceTrimmed(b.items, Keeps(b.items), ItemSteps(b) - i, r);
  }

  lemma NextSkillRung(b: Body, i: nat, r: int)
    requires ItemSteps(b) <= i <= Steps(b) && b.skills.Some? && LastAt(Rung(b, i).skills.value, KeepsSkill(), r)
    ensures i < Steps(b)
    ensures Rung(b, i + 1) == Rung(b, i).(skills := Some(Splice(Rung(b, i).skills.value, r)), skillsTruncated := true)
  {
    SpliceTrimmed(b.skills.value, KeepsSkill(), Steps(b) - i, r);
  }

  lemma LastRungs(b: Body, i: nat)
    requires i <= Steps(b)
    ensures i <= ItemSteps(b) && Loose(Rung(b, i).items, Keeps(b.items)) == 0 ==> i == ItemSteps(b)
    ensures i >= ItemSteps(b) && b.skills.Some? && Loose(Rung(b, i).skills.value, KeepsSkill()) == 0 ==> i == Steps(b)
  {
    TrimLoose(b.items, Keeps(b.items), if i < ItemSteps(b) then ItemSteps(b) - i else 0);
    if b.skills.Some? && i >= ItemSteps(b) { TrimLoose(b.skills.value, KeepsSkill(), Steps(b) - i); }
  }

  lemma OverOnce(b: Body, measure: Body -> nat, budget: int, i: nat)
    requires OverUntil(b, measure, budget, i) && Over(b, measure, budget, i)
    ensures OverUntil(b, measure, budget, i + 1)
  {
  }

  /** A package at rung i from which no item can be spliced is past the memory reductions. */
  lemma NoItemLeft(b: Body, i: nat, v: Body)
    requires i <= ItemSteps(b) && v == Rung(b, i) && Loose(v.items, Keeps(b.items)) == 0
    ensures i == ItemSteps(b)
  {
    LastRungs(b, i);
  }

  lemma NoSkillLeft(b: Body, i: nat, v: Body)
    requires ItemSteps(b) <= i <= Steps(b) && v == Rung(b, i) && v.skills.Some?
    requires Loose(v.skills.value, KeepsSkill()) == 0
    ensures i == Steps(b)
  {
    LastRungs(b, i);
  }

  /** One pass of the first loop, over budget at rung i. */
  lemma ItemStep(b: Body, measure: Body -> nat, budget: int, i: nat, v: Body, r: int)
    requires i <= ItemSteps(b) && v == Rung(b, i) && LastAt(v.items, Keeps(b.items), r)
    requires OverUntil(b, measure, budget, i) && measure(v) > budget
    ensures i < ItemSteps(b) && v.(items := Splice(v.items, r), memoryTruncated := true) == Rung(b, i + 1)
    ensures OverUntil(b, measure, budget, i + 1)
  {
    NextItemRung(b, i, r);
    OverOnce(b, measure, budget, i);
  }

  /** One pass of the second loop. */
  lemma SkillStep(b: Body, measure: Body -> nat, budget: int, i: nat, v: Body, r: int)
    requires ItemSteps(b) <= i <= Steps(b) && v == Rung(b, i) && v.skills.Some?
    requires LastAt(v.skills.value, KeepsSkill(), r)
    requires OverUntil(b, measure, budget, i) && measure(v) > budget
    ensures i < Steps(b)
    ensures v.(skills := Some(Splice(v.skills.value, r)), skillsTruncated := true) == Rung(b, i + 1)
    ensures OverUntil(b, measure, budget, i + 1)
  {
    NextSkillRung(b, i, r);
    OverOnce(b, measure, budget, i);
  }

  /** The backwards scan. */
  method LastLoose<T>(xs: seq<T>, keep: T -> bool) returns (r: int)
    ensures r == -1 <==> Loose(xs, keep) == 0
    ensures r != -1 ==> LastAt(xs, keep, r)
  {
    r := -1;
    NoneLoose(xs, keep);
    var i := |xs| - 1;
    while i >= 0
      invariant -1 <= i < |xs|
      invariant forall j :: i < j < |xs| ==> keep(xs[j])
    {
      if !keep(xs[i]) { return i; }
      i := i - 1;
    }
  }

  class Package {
    var items: seq<Entry>
    var memoryTruncated: bool
    var skills: Option<seq<Skill>>
    var skillsTruncated: bool

    function View(): Body
      reads this
    {
      Body(items, memoryTruncated, skills, skillsTruncated)
    }

    constructor (b: Body)
      ensures View() == b
    {
      items, memoryTruncated, skills, skillsTruncated := b.items, b.memoryTruncated, b.skills, b.skillsTruncated;
    }

    /** Both loops together stop at the first reduction that fits, or after the last one there is. */
    method EnforceSizeDiscipline(measure: Body -> nat, requested: Option<real>)
      returns (exceeded: bool, truncated: bool, bytes: nat, ghost i: nat)
      modifies this
      ensures i <= Steps(old(View())) && View() == Rung(old(View()), i) && bytes == measure(View())
      ensures var budget := ClampNumber(requested, 64000, 1000, 180000);
        && OverUntil(old(View()), measure, budget, i)
        && (bytes <= budget || i == Steps(old(View())))
        && (exceeded <==> bytes > budget)
      ensures truncated <==> i > 0
    {
      var budget := ClampNumber(requested, 64000, 1000, 180000);
      ghost var b := View();
      FirstRung(b);
      bytes, truncated, i := TrimItems(measure, budget);
      if skills.Some? && bytes > budget {
        bytes, truncated, i := TrimSkills(measure, budget, b, truncated);
      }
      exceeded := bytes > budget;
    }

    method SpliceItem(r: nat)
      requires r < |items|
      modifies this`items, this`memoryTruncated
      ensures View() == old(View()).(items := Splice(old(items), r), memoryTruncated := true)
    {
      items := Splice(items, r);
      memoryTruncated := true;
    }

    method SpliceSkill(r: nat)
      requires skills.Some? && r < |skills.value|
      modifies this`skills, this`skillsTruncated
      ensures View() == old(View()).(skills := Some(Splice(old(skills).value, r)), skillsTruncated := true)
    {
      skills := Some(Splice(skills.value, r));
      skillsTruncated := true;
    }

    /** The first loop. */
    method TrimItems(measure: Body -> nat, budget: int) returns (bytes: nat, truncated: bool, ghost i: nat)
      modifies this`items, this`memoryTruncated
      ensures i <= ItemSteps(old(View())) && View() == Rung(old(View()), i) && bytes == measure(View())
      ensures OverUntil(old(View()), measure, budget, i)
      ensures bytes <= budget || i == ItemSteps(old(View()))
      ensures truncated <==> i > 0
    {
      ghost var b := View();
      ghost var n := ItemSteps(b);
      var keep := Keeps(items);
      FirstRung(b);
      bytes, truncated, i := measure(View()), false, 0;
      while bytes > budget
        invariant i <= n && View() == Rung(b, i) && bytes == measure(View())
        invariant OverUntil(b, measure, budget, i)
        invariant truncated <==> i > 0
        decreases n - i, bytes > budget
      {
        ghost var v := View();
        var removeAt := LastLoose(items, keep);
        if removeAt == -1 {
          NoItemLeft(b, i, v);
          break;
        }
        ItemStep(b, measure, budget, i, v, removeAt);
        SpliceItem(removeAt);
        truncated, i := true, i + 1;
        bytes := measure(View());
      }
    }

    /** The second loop, entered over budget with no memory item left to trim. */
    method TrimSkills(measure: Body -> nat, budget: int, ghost b: Body, before: bool)
      returns (bytes: nat, truncated: bool, ghost i: nat)
      requires b.skills.Some? && View() == Rung(b, ItemSteps(b)) && (before <==> ItemSteps(b) > 0)
      requires OverUntil(b, measure, budget, ItemSteps(b))
      modifies this`skills, this`skillsTruncated
      ensures i <= Steps(b) && View() == Rung(b, i) && bytes == measure(View())
      ensures OverUntil(b, measure, budget, i)
      ensures bytes <= budget || i == Steps(b)
      ensures truncated <==> i > 0
    {
      var keep := KeepsSkill();
      ghost var n, total := ItemSteps(b), Steps(b);
      bytes, truncated, i := measure(View()), before, n;
      while bytes > budget
        invariant n <= i <= total && View() == Rung(b, i) && skills.Some? && bytes == measure(View())
        invariant OverUntil(b, measure, budget, i)
        invariant truncated <==> i > 0
        decreases total - i
      {
        ghost var v := View();
        var removeAt := LastLoose(skills.value, keep);
        if removeAt == -1 {
          NoSkillLeft(b, i, v);
          break;
        }
        SkillStep(b, measure, budget, i, v, removeAt);
        SpliceSkill(removeAt);
        truncated, i := true, i + 1;
        bytes := measure(View());
      }
    }
  }

  /*** What no reduction removes ***/

  lemma {:induction false} TrimKeeps<T(!new)>(xs: seq<T>, keep: T -> bool, k: nat)
    ensures Filter(Trim(xs, keep, k), keep) == Filter(xs, keep)
  {
    if xs != [] {
      var d := if keep(xs[0]) || k == 0 then k else k - 1;
      TrimKeeps(xs[1..], keep, d);
      Cons(xs[0], Trim(xs[1..], keep, d));
    }
  }

  lemma {:induction false} TrimPrefix<T(!new)>(xs: seq<T>, keep: T -> bool, lose: T -> bool, k: nat)
    requires forall x :: lose(x) <==> !keep(x)
    ensures Filter(Trim(xs, keep, k), lose) <= Filter(xs, lose)
    ensures k == 0 ==> Filter(Trim(xs, keep, k), lose) == []
  {
    if xs != [] {
      var d := if keep(xs[0]) || k == 0 then k else k - 1;
      TrimPrefix(xs[1..], keep, lose, d);
      Cons(xs[0], Trim(xs[1..], keep, d));
    }
  }

  lemma {:induction false} FirstIsProtected(items: seq<Entry>, c: Class)
    ensures FirstOf(items, c).Some? <==> exists k :: 0 <= k < |items| && items[k].item.authority == c
    ensures FirstOf(items, c).Some? ==> FirstOf(items, c).value in items && FirstOf(items, c).value.item.authority == c
  {
    if items != [] {
      FirstIsProtected(items[1..], c);
      assert forall k :: 0 < k < |items| ==> items[k] == items[1..][k - 1];
      if k :| 0 <= k < |items[1..]| && items[1..][k].item.authority == c { assert items[k + 1].item.authority == c; }
    }
  }

  lemma Kept<T(!new)>(xs: seq<T>, keep: T -> bool, k: nat, x: T)
    requires x in xs && keep(x)
    ensures x in Trim(xs, keep, k)
  {
    TrimKeeps(xs, keep, k);
    assert x in Filter(xs, keep);
  }

  function Loses(items: seq<Entry>): Entry -> bool { (x: Entry) => !Protected(items, x) }
  function LosesSkill(): Skill -> bool { (s: Skill) => s.id != BOOT_SKILL }

  /** The protected floor, at every rung: the first chain head and the first path head items stay. */
  lemma FloorStays(b: Body, i: nat, c: Class)
    requires i <= Steps(b) && !c.Historical? && FirstOf(b.items, c).Some?
    ensures FirstOf(b.items, c).value in Rung(b, i).items
  {
    FirstIsProtected(b.items, c);
    Kept(b.items, Keeps(b.items), if i < ItemSteps(b) then ItemSteps(b) - i else 0, FirstOf(b.items, c).value);
  }

  lemma Complement(items: seq<Entry>, x: Entry)
    ensures Loses(items)(x) <==> !Keeps(items)(x)
  {
  }

  /** The memory at every rung: all protected items, and a prefix of the others, in order. */
  lemma ItemsOfRung(b: Body, i: nat)
    requires i <= Steps(b)
    ensures Filter(Rung(b, i).items, Keeps(b.items)) == Filter(b.items, Keeps(b.items))
    ensures Filter(Rung(b, i).items, Loses(b.items)) <= Filter(b.items, Loses(b.items))
  {
    var k := if i < ItemSteps(b) then ItemSteps(b) - i else 0;
    var keep, lose := Keeps(b.items), Loses(b.items);
    forall x ensures lose(x) <==> !keep(x) { Complement(b.items, x); }
    ItemFilters(b.items, keep, lose, k, Rung(b, i).items);
  }

  lemma ItemFilters(xs: seq<Entry>, keep: Entry -> bool, lose: Entry -> bool, k: nat, ys: seq<Entry>)
    requires ys == Trim(xs, keep, k) && forall x :: lose(x) <==> !keep(x)
    ensures Filter(ys, keep) == Filter(xs, keep) && Filter(ys, lose) <= Filter(xs, lose)
  {
    TrimKeeps(xs, keep, k);
    TrimPrefix(xs, keep, lose, k);
  }

  /** The skills at every rung: the boot skill stays and the others that stay are a prefix; and while an unprotected
      memory item is left no skill has gone. */
  lemma SkillsOfRung(b: Body, i: nat)
    requires i <= Steps(b) && b.skills.Some?
    ensures var r := Rung(b, i);
      && r.skills.Some?
      && Filter(r.skills.value, KeepsSkill()) == Filter(b.skills.value, KeepsSkill())
      && Filter(r.skills.value, LosesSkill()) <= Filter(b.skills.value, LosesSkill())
      && (r.skills == b.skills || Filter(r.items, Loses(b.items)) == [])
  {
    var gone := if i > ItemSteps(b) then i - ItemSteps(b) else 0;
    forall s ensures LosesSkill()(s) <==> !KeepsSkill()(s) {}
    SkillFilters(b.skills.value, KeepsSkill(), LosesSkill(), SkillSteps(b) - gone, Rung(b, i).skills.value);
    SkillsLast(b, i);
  }

  lemma SkillFilters(xs: seq<Skill>, keep: Skill -> bool, lose: Skill -> bool, k: nat, ys: seq<Skill>)
    requires ys == Trim(xs, keep, k) && forall x :: lose(x) <==> !keep(x)
    ensures Filter(ys, keep) == Filter(xs, keep) && Filter(ys, lose) <= Filter(xs, lose)
  {
    TrimKeeps(xs, keep, k);
    TrimPrefix(xs, keep, lose, k);
  }

  lemma NoLooseItems(xs: seq<Entry>, keep: Entry -> bool, lose: Entry -> bool)
    requires forall x :: lose(x) <==> !keep(x)
    ensures Filter(Trim(xs, keep, 0), lose) == []
  {
    TrimPrefix(xs, keep, lose, 0);
  }

  /** No skill goes while an unprotected memory item is left. */
  lemma SkillsLast(b: Body, i: nat)
    requires i <= Steps(b) && b.skills.Some?
    ensures Rung(b, i).skills == b.skills || Filter(Rung(b, i).items, Loses(b.items)) == []
  {
    if i <= ItemSteps(b) {
      TrimAll(b.skills.value, KeepsSkill());
    } else {
      forall x ensures Loses(b.items)(x) <==> !Keeps(b.items)(x) { Complement(b.items, x); }
      NoLooseItems(b.items, Keeps(b.items), Loses(b.items));
    }
  }

  /** Only when every removable item and skill is gone can a package still be over budget. */
  lemma ExceededMeansBare(b: Body)
    ensures var r := Rung(b, Steps(b));
      && (forall x :: x in r.items ==> Protected(b.items, x))
      && (r.skills.Some? ==> forall s :: s in r.skills.value ==> s.id == BOOT_SKILL)
  {
    var r := Rung(b, Steps(b));
    var keep := Keeps(b.items);
    TrimLoose(b.items, keep, 0);
    TrimAll(b.items, keep);
    NoneLoose(r.items, keep);
    if r.skills.Some? {
      TrimLoose(b.skills.value, KeepsSkill(), 0);
      TrimAll(b.skills.value, KeepsSkill());
      NoneLoose(r.skills.value, KeepsSkill());
    }
    forall x | x in r.items ensures Protected(b.items, x) {
      var j :| 0 <= j < |r.items| && r.items[j] == x;
      assert keep(r.items[j]);
    }
    forall s | r.skills.Some? && s in r.skills.value ensures s.id == BOOT_SKILL {
      var j :| 0 <= j < |r.skills.value| && r.skills.value[j] == s;
      assert KeepsSkill()(r.skills.value[j]);
    }
  }

  /*** Each reduction takes one ***/

  /** What is left of a list when some of its elements are taken out. */
  ghost predicate Thinned<T>(ys: seq<T>, xs: seq<T>) {
    ys == [] || (xs != [] && ((ys[0] == xs[0] && Thinned(ys[1..], xs[1..])) || Thinned(ys, xs[1..])))
  }

  lemma {:induction false} TrimThins<T>(xs: seq<T>, keep: T -> bool, k: nat)
    requires k <= Loose(xs, keep)
    ensures Thinned(Trim(xs, keep, k), xs) && |Trim(xs, keep, k)| == |xs| - Loose(xs, keep) + k
  {
    if xs != [] {
      var d := if keep(xs[0]) || k == 0 then k else k - 1;
      TrimThins(xs[1..], keep, d);
      Cons(xs[0], Trim(xs[1..], keep, d));
    }
  }

  lemma {:induction false} LooseCount<T(!new)>(xs: seq<T>, keep: T -> bool, lose: T -> bool)
    requires forall x :: lose(x) <==> !keep(x)
    ensures Loose(xs, keep) == |Filter(xs, lose)|
  {
    if xs != [] { LooseCount(xs[1..], keep, lose); }
  }

  /** There is one reduction for each unprotected item and then one for each skill but the boot skill. */
  lemma StepsMeaning(b: Body)
    ensures ItemSteps(b) == |Filter(b.items, Loses(b.items))|
    ensures Steps(b) == ItemSteps(b) + if b.skills.Some? then |Filter(b.skills.value, LosesSkill())| else 0
  {
    forall x ensures Loses(b.items)(x) <==> !Keeps(b.items)(x) { Complement(b.items, x); }
    LooseCount(b.items, Keeps(b.items), Loses(b.items));
    forall s ensures LosesSkill()(s) <==> !KeepsSkill()(s) {}
    if b.skills.Some? { LooseCount(b.skills.value, KeepsSkill(), LosesSkill()); }
  }

  /** After i reductions i entries are gone, memory items first; those left stand as they stood; and each list says that
      it was cut exactly when it was before or has lost an entry. */
  lemma RungMeaning(b: Body, i: nat)
    requires i <= Steps(b)
    ensures var r, n := Rung(b, i), ItemSteps(b);
      && Thinned(r.items, b.items) && |r.items| == |b.items| - (if i < n then i else n)
      && (r.memoryTruncated <==> b.memoryTruncated || |r.items| < |b.items|)
      && (b.skills.None? <==> r.skills.None?)
      && (b.skills.Some? ==>
            && Thinned(r.skills.value, b.skills.value)
            && |r.skills.value| == |b.skills.value| - (if i < n then 0 else i - n)
            && (r.skillsTruncated <==> b.skillsTruncated || |r.skills.value| < |b.skills.value|))
      && (b.skills.None? ==> r.skillsTruncated == b.skillsTruncated)
  {
    var n := ItemSteps(b);
    TrimThins(b.items, Keeps(b.items), if i < n then n - i else 0);
    if b.skills.Some? {
      TrimThins(b.skills.value, KeepsSkill(), SkillSteps(b) - if i > n then i - n else 0);
    }
  }
}
