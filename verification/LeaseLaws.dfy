/** What the lease calls of src/code-session.js mean and keep: overlap, exclusivity over whole runs, what one call
    changes, and how the listing caps break exclusivity. */
module LeaseLaws {
  import opened Ordering
  import opened SessionLeases

  /*** What overlapping means ***/

  datatype Resource = TaskWork(id: Id) | PathWork(path: string)

  ghost predicate Covers(s: Scope, r: Resource) {
    || Wide(s)
    || (r.TaskWork? && s.task == Some(r.id))
    || (r.PathWork? && exists i :: 0 <= i < |s.paths| && s.paths[i] != "" && s.paths[i] <= r.path)
  }

  /** Normalized path prefixes are never empty. */
  ghost predicate Proper(s: Scope) { forall i :: 0 <= i < |s.paths| ==> s.paths[i] != "" }

  lemma CoversSomething(s: Scope)
    requires Proper(s)
    ensures exists r :: Covers(s, r)
  {
    if s.task.Some? { assert Covers(s, TaskWork(s.task.value)); }
    else if s.paths != [] { assert Covers(s, PathWork(s.paths[0])); }
    else { assert Covers(s, TaskWork(0)); }
  }

  lemma CoveredByBoth(a: Scope, b: Scope, r: Resource)
    requires Covers(a, r) && Covers(b, r)
    ensures Overlap(a, b)
  {
    if !Wide(a) && !Wide(b) && r.PathWork? {
      var i :| 0 <= i < |a.paths| && a.paths[i] != "" && a.paths[i] <= r.path;
      var j :| 0 <= j < |b.paths| && b.paths[j] != "" && b.paths[j] <= r.path;
      PrefixesNest(a.paths[i], b.paths[j], r.path);
      assert PathsOverlap(a.paths[i], b.paths[j]);
    }
  }

  /** Two scopes overlap exactly when some task or path is covered by both. */
  lemma OverlapMeaning(a: Scope, b: Scope)
    requires Proper(a) && Proper(b)
    ensures Overlap(a, b) <==> exists r :: Covers(a, r) && Covers(b, r)
  {
    if Wide(a) || Wide(b) {
      CoversSomething(a);
      CoversSomething(b);
    } else if a.task.Some? && a.task == b.task {
      assert Covers(a, TaskWork(a.task.value)) && Covers(b, TaskWork(a.task.value));
    } else if i, j :| 0 <= i < |a.paths| && 0 <= j < |b.paths| && PathsOverlap(a.paths[i], b.paths[j]) {
      var longer := if a.paths[i] <= b.paths[j] then b.paths[j] else a.paths[i];
      assert Covers(a, PathWork(longer)) && Covers(b, PathWork(longer));
    }
    forall r | Covers(a, r) && Covers(b, r) ensures Overlap(a, b) { CoveredByBoth(a, b, r); }
  }

  lemma PrefixesNest(a: string, b: string, p: string)
    requires a <= p && b <= p
    ensures a <= b || b <= a
  {
    if |a| <= |b| { assert a == p[..|a|] && b[..|a|] == p[..|a|]; }
    else { assert b == p[..|b|] && a[..|b|] == p[..|b|]; }
  }

  /*** Exclusivity ***/

  ghost predicate Compatible(a: Lease, b: Lease, now: int) {
    Live(a, now) && Live(b, now) && a.actor != b.actor ==> !Overlap(a.scope, b.scope)
  }

  /** No two live leases of different actors overlap. */
  ghost predicate Exclusive(rows: seq<Lease>, now: int) {
    forall i, j :: 0 <= i < |rows| && 0 <= j < |rows| ==> Compatible(rows[i], rows[j], now)
  }

  lemma OverlapSymmetric(a: Scope, b: Scope)
    ensures Overlap(a, b) <==> Overlap(b, a)
  {
    if i, j :| 0 <= i < |a.paths| && 0 <= j < |b.paths| && PathsOverlap(a.paths[i], b.paths[j]) {
      assert PathsOverlap(b.paths[j], a.paths[i]);
    }
    if i, j :| 0 <= i < |b.paths| && 0 <= j < |a.paths| && PathsOverlap(b.paths[i], a.paths[j]) {
      assert PathsOverlap(a.paths[j], b.paths[i]);
    }
  }

  /** Sweeping, and time passing, only take live leases away. */
  lemma SweepExclusive(rows: seq<Lease>, before: int, now: int)
    requires Exclusive(rows, before) && before <= now
    ensures Exclusive(ExpireStale(rows, now), now)
    ensures forall i :: 0 <= i < |rows| ==> (Live(ExpireStale(rows, now)[i], now) <==> Live(rows[i], now))
  {
    var swept := ExpireStale(rows, now);
    forall i, j | 0 <= i < |swept| && 0 <= j < |swept| ensures Compatible(swept[i], swept[j], now) {
      assert Compatible(rows[i], rows[j], before);
    }
  }

  /** Nothing live of another actor overlaps the scope, whether or not a listing shows it. */
  ghost predicate Clear(rows: seq<Lease>, actor: Id, scope: Scope, now: int) {
    forall i :: 0 <= i < |rows| && Live(rows[i], now) && rows[i].actor != actor ==> !Overlap(scope, rows[i].scope)
  }

  lemma PlaceExclusive(rows: seq<Lease>, k: nat, l: Lease, now: int)
    requires Exclusive(rows, now) && k <= |rows| && Live(l, now)
    requires k < |rows| ==> rows[k].actor == l.actor
    ensures Exclusive(if k < |rows| then rows[k := l] else rows + [l], now) <==> Clear(rows, l.actor, l.scope, now)
  {
    var after := if k < |rows| then rows[k := l] else rows + [l];
    assert after[k] == l && forall i :: 0 <= i < |rows| && i != k ==> after[i] == rows[i];
    if Clear(rows, l.actor, l.scope, now) {
      forall i, j | 0 <= i < |after| && 0 <= j < |after| ensures Compatible(after[i], after[j], now) {
        if i != k && j != k { assert Compatible(rows[i], rows[j], now); }
        OverlapSymmetric(after[i].scope, after[j].scope);
      }
    }
    if Exclusive(after, now) {
      forall i | 0 <= i < |rows| && Live(rows[i], now) && rows[i].actor != l.actor
        ensures !Overlap(l.scope, rows[i].scope)
      {
        assert Compatible(after[k], after[i], now);
      }
    }
  }

  /** The session is within the listing caps. */
  ghost predicate WithinCaps(rows: seq<Lease>, now: int) {
    && |Filter(rows, (l: Lease) => l.expiresAt > now)| <= MAX_LEASE_ROWS
    && |Filter(rows, (l: Lease) => Live(l, now))| <= MAX_LEASE_LIST
  }

  lemma {:induction false} InsertCount(x: Lease, xs: seq<Lease>, p: Lease -> bool)
    ensures |Filter(Insert(x, xs, Later), p)| == |Filter(xs, p)| + if p(x) then 1 else 0
  {
    if xs != [] && !Later(x, xs[0]) {
      InsertCount(x, xs[1..], p);
      Cons(xs[0], Insert(x, xs[1..], Later));
    } else {
      Cons(x, xs);
    }
  }

  lemma {:induction false} SortCount(xs: seq<Lease>, p: Lease -> bool)
    ensures |Filter(Sort(xs, Later), p)| == |Filter(xs, p)|
  {
    if xs != [] {
      SortCount(xs[1..], p);
      InsertCount(xs[0], Sort(xs[1..], Later), p);
    }
  }

  lemma PrefixCount(xs: seq<Lease>, n: nat, p: Lease -> bool)
    requires n <= |xs|
    ensures |Filter(xs[..n], p)| <= |Filter(xs, p)|
    ensures (forall i :: 0 <= i < n ==> p(xs[i])) ==> |Filter(xs[..n], p)| == n
  {
    assert xs == xs[..n] + xs[n..];
    FilterAppend(xs[..n], xs[n..], p);
    if forall i :: 0 <= i < n ==> p(xs[i]) { FilterAll(xs[..n], p); }
  }

  lemma LaterPreorder()
    ensures Preorder(Later)
  {
  }

  /** In a sorted listing every row ahead of an unexpired one is unexpired. */
  lemma UnexpiredAhead(sorted: seq<Lease>, now: int, i: nat, unexpired: Lease -> bool)
    requires Sorted(sorted, Later) && i < |sorted| && unexpired(sorted[i])
    requires forall x :: unexpired(x) <==> x.expiresAt > now
    ensures i < |Filter(sorted, unexpired)|
  {
    forall j | 0 <= j < i + 1 ensures unexpired(sorted[j]) {
      if j < i { assert Later(sorted[j], sorted[i]); }
    }
    PrefixCount(sorted, i + 1, unexpired);
  }

  /** An unexpired row comes before the row cap: everything sorted before it is unexpired too. */
  lemma UnexpiredFirst(rows: seq<Lease>, now: int, i: nat)
    requires WithinCaps(rows, now) && i < |Sort(rows, Later)| && Sort(rows, Later)[i].expiresAt > now
    ensures i < MAX_LEASE_ROWS
  {
    var unexpired := (x: Lease) => x.expiresAt > now;
    LaterPreorder();
    SortSorted(rows, Later);
    SortCount(rows, unexpired);
    UnexpiredAhead(Sort(rows, Later), now, i, unexpired);
  }

  /** Within the caps a listing shows every live lease. */
  lemma ListingComplete(rows: seq<Lease>, now: int, l: Lease)
    requires WithinCaps(rows, now) && l in rows && Live(l, now)
    ensures l in ListLive(rows, now, MAX_LEASE_LIST)
  {
    var live := (x: Lease) => Live(x, now);
    var sorted := Sort(rows, Later);
    SortMultiset(rows, Later);
    assert l in sorted;
    var i :| 0 <= i < |sorted| && sorted[i] == l;
    UnexpiredFirst(rows, now, i);
    SortCount(rows, live);
    var taken := Take(sorted, MAX_LEASE_ROWS);
    assert taken == sorted[..|taken|] && taken[i] == l;
    PrefixCount(sorted, |taken|, live);
    assert l in Filter(taken, live);
  }

  /** The answer decides: nothing granted keeps exclusivity, and a grant keeps it exactly on a clear scope. */
  lemma GrantExclusive(rows: seq<Lease>, before: int, s: Session, q: Request, now: int)
    requires Exclusive(rows, before) && before <= now
    ensures var (rows', r) := AcquireSpec(rows, s, q, now);
      Exclusive(rows', now) <==>
        !(r.RenewedExisting? || r.Acquired?) || Clear(ExpireStale(rows, now), q.actor, q.scope, now)
  {
    var swept := ExpireStale(rows, now);
    SweepExclusive(rows, before, now);
    var (rows', r) := AcquireSpec(rows, s, q, now);
    if r.RenewedExisting? {
      var k := IndexOf(swept, Sort(Own(ListLive(swept, now, MAX_LEASE_LIST), q), LaterExpiry)[0].id);
      PlaceExclusive(swept, k, rows'[k], now);
    } else if r.Acquired? {
      PlaceExclusive(swept, |swept|, rows'[|swept|], now);
    }
  }

  /** Within the caps it always is, and a refusal always names a live foreign lease that overlaps. */
  lemma AcquireExclusive(rows: seq<Lease>, before: int, s: Session, q: Request, now: int)
    requires Exclusive(rows, before) && before <= now && !q.allowOverlap
    requires WithinCaps(ExpireStale(rows, now), now)
    ensures Exclusive(AcquireSpec(rows, s, q, now).0, now)
    ensures AcquireSpec(rows, s, q, now).1.LeaseConflict? <==> !Clear(ExpireStale(rows, now), q.actor, q.scope, now)
  {
    GrantExclusive(rows, before, s, q, now);
    var swept := ExpireStale(rows, now);
    var live := ListLive(swept, now, MAX_LEASE_LIST);
    if Foreign(live, q) == [] {
      forall i | 0 <= i < |swept| && Live(swept[i], now) && swept[i].actor != q.actor
        ensures !Overlap(q.scope, swept[i].scope)
      {
        ListingComplete(swept, now, swept[i]);
        assert swept[i] !in Foreign(live, q);
      }
    } else {
      var l := Foreign(live, q)[0];
      assert l in Foreign(live, q) && l in live;
      ListedIsLive(swept, now, l);
    }
  }

  lemma ListedIsLive(rows: seq<Lease>, now: int, l: Lease)
    requires l in ListLive(rows, now, MAX_LEASE_LIST)
    ensures l in rows && Live(l, now)
  {
    SortMultiset(rows, Later);
    var taken := Take(Sort(rows, Later), MAX_LEASE_ROWS);
    var live := Filter(taken, (x: Lease) => Live(x, now));
    assert l in live && l in taken;
    assert l in Sort(rows, Later);
  }

  lemma RenewExclusive(rows: seq<Lease>, before: int, s: Session, actor: Id, id: Id, ttl: Option<int>, now: int)
    requires Exclusive(rows, before) && before <= now
    ensures Exclusive(RenewSpec(rows, s, actor, id, ttl, now).0, now)
  {
    var swept := ExpireStale(rows, now);
    SweepExclusive(rows, before, now);
    var (rows', r) := RenewSpec(rows, s, actor, id, ttl, now);
    if r.Renewed? {
      var k := IndexOf(swept, id);
      forall i | 0 <= i < |swept| && Live(swept[i], now) && swept[i].actor != actor
        ensures !Overlap(swept[k].scope, swept[i].scope)
      {
        assert Compatible(swept[k], swept[i], now);
      }
      PlaceExclusive(swept, k, rows'[k], now);
    }
  }

  lemma ReleaseExclusive(rows: seq<Lease>, before: int, actor: Id, id: Id, now: int)
    requires Exclusive(rows, before) && before <= now
    ensures Exclusive(ReleaseSpec(rows, actor, id, now).0, now)
  {
    var swept := ExpireStale(rows, now);
    SweepExclusive(rows, before, now);
    var rows' := ReleaseSpec(rows, actor, id, now).0;
    forall i, j | 0 <= i < |rows'| && 0 <= j < |rows'| ensures Compatible(rows'[i], rows'[j], now) {
      assert Compatible(swept[i], swept[j], now);
    }
  }

  /*** What a call does to the table ***/

  ghost predicate DistinctIds(rows: seq<Lease>) { forall i, j :: 0 <= i < j < |rows| ==> rows[i].id != rows[j].id }

  /** The two tables differ at most at row k, which may be new. */
  ghost predicate OnlyAt(rows: seq<Lease>, rows': seq<Lease>, k: nat) {
    && k <= |rows| && |rows'| == (if k < |rows| then |rows| else |rows| + 1)
    && forall i :: 0 <= i < |rows| && i != k ==> rows'[i] == rows[i]
  }

  lemma FoundById(rows: seq<Lease>, l: Lease)
    requires DistinctIds(rows) && l in rows
    ensures IndexOf(rows, l.id) < |rows| && rows[IndexOf(rows, l.id)] == l
  {
    var i :| 0 <= i < |rows| && rows[i] == l;
    assert IndexOf(rows, l.id) == i;
  }

  /** The lease an acquisition extends in place: of the caller's own listed leases that overlap, the last to expire. */
  lemma Extended(live: seq<Lease>, q: Request)
    requires Own(live, q) != []
    ensures var own, l := Own(live, q), Sort(Own(live, q), LaterExpiry)[0];
      && l in live && l.actor == q.actor && Overlap(q.scope, l.scope)
      && forall o :: o in own ==> o.expiresAt <= l.expiresAt
  {
    var own := Own(live, q);
    var sorted := Sort(own, LaterExpiry);
    SortMultiset(own, LaterExpiry);
    SortSorted(own, LaterExpiry);
    assert sorted[0] in own;
    forall o | o in own ensures o.expiresAt <= sorted[0].expiresAt {
      var i :| 0 <= i < |sorted| && sorted[i] == o;
      assert i > 0 ==> LaterExpiry(sorted[0], sorted[i]);
    }
  }

  /** A grant leaves exactly one row of the swept table changed: a new one, or the caller's own overlapping lease kept
      under its id; it is live for the whole time to live, with the caller, the scope and the revision asked for.
      Anything else leaves the swept table alone, and the search for the own lease never comes back empty. */
  lemma AcquireMeaning(rows: seq<Lease>, s: Session, q: Request, now: int)
    requires DistinctIds(rows)
    ensures var swept := ExpireStale(rows, now);
      var (rows', r) := AcquireSpec(rows, s, q, now);
      if r.Acquired? || r.RenewedExisting? then
        exists k :: 0 <= k < |rows'| && OnlyAt(swept, rows', k) && r.lease == rows'[k]
          && Live(rows'[k], now) && rows'[k].expiresAt == now + ClampTtl(q.ttl) * 1000
          && rows'[k].actor == q.actor && rows'[k].scope == q.scope && rows'[k].revision == s.revision
          && (r.RenewedExisting? ==>
                k < |swept| && Live(swept[k], now) && rows'[k].id == swept[k].id
                && rows'[k].acquiredAt == swept[k].acquiredAt
                && swept[k].actor == q.actor && Overlap(q.scope, swept[k].scope))
          && (r.Acquired? ==> k == |swept| && rows'[k].id == q.newId)
      else rows' == swept && (r.LeaseConflict? || r.CreateFailed?)
  {
    var swept := ExpireStale(rows, now);
    var (rows', r) := AcquireSpec(rows, s, q, now);
    var live := ListLive(swept, now, MAX_LEASE_LIST);
    if Own(live, q) != [] {
      Extended(live, q);
      var l := Sort(Own(live, q), LaterExpiry)[0];
      ListedIsLive(swept, now, l);
      FoundById(swept, l);
      assert r.RenewedExisting? ==> OnlyAt(swept, rows', IndexOf(swept, l.id));
    } else if r.Acquired? {
      assert OnlyAt(swept, rows', |swept|);
    }
  }

  /** What the call can see before it writes: the swept table and its listing refuse it. */
  predicate Refuses(swept: seq<Lease>, q: Request, now: int) {
    var live := ListLive(swept, now, MAX_LEASE_LIST);
    (Foreign(live, q) != [] && !q.allowOverlap) || (Own(live, q) == [] && IndexOf(swept, q.newId) < |swept|)
  }

  /** When a call grants something: exactly when the table it reads does not refuse it. */
  lemma GrantExact(rows: seq<Lease>, s: Session, q: Request, now: int)
    requires DistinctIds(rows)
    ensures var r := AcquireSpec(rows, s, q, now).1;
      r.Acquired? || r.RenewedExisting? <==> !Refuses(ExpireStale(rows, now), q, now)
  {
    AcquireMeaning(rows, s, q, now);
  }

  /** Whatever the listing shows, and whether or not the caller allows overlap, an acquisition leaves an exclusive table
      exclusive exactly when the table it reads refuses it or no live lease of another actor, listed or not,
      overlaps the scope. */
  lemma AcquireExact(rows: seq<Lease>, before: int, s: Session, q: Request, now: int)
    requires DistinctIds(rows) && Exclusive(rows, before) && before <= now
    ensures var swept := ExpireStale(rows, now);
      Exclusive(AcquireSpec(rows, s, q, now).0, now) <==> Refuses(swept, q, now) || Clear(swept, q.actor, q.scope, now)
  {
    GrantExclusive(rows, before, s, q, now);
    GrantExact(rows, s, q, now);
  }

  /** A renewal succeeds exactly on the caller's own live lease, and then moves only its expiry, renewal time and
      revision. */
  lemma RenewMeaning(rows: seq<Lease>, s: Session, actor: Id, id: Id, ttl: Option<int>, now: int)
    requires DistinctIds(rows)
    ensures var swept := ExpireStale(rows, now);
      var (rows', r) := RenewSpec(rows, s, actor, id, ttl, now);
      && (r.Renewed? <==> exists l :: l in swept && l.id == id && l.actor == actor && Live(l, now))
      && (!r.Renewed? ==> rows' == swept)
      && (r.Renewed? ==>
            exists k :: 0 <= k < |swept| && OnlyAt(swept, rows', k) && swept[k].id == id && Live(rows'[k], now)
              && rows'[k] == swept[k].(renewedAt := now, expiresAt := now + ClampTtl(ttl) * 1000,
                                       revision := s.revision, updatedAt := now))
  {
    var swept := ExpireStale(rows, now);
    var (rows', r) := RenewSpec(rows, s, actor, id, ttl, now);
    if l :| l in swept && l.id == id && l.actor == actor && Live(l, now) { FoundById(swept, l); }
    if r.Renewed? {
      assert OnlyAt(swept, rows', IndexOf(swept, id));
      assert swept[IndexOf(swept, id)] in swept;
    }
  }

  /** A release succeeds exactly on the caller's own live lease, which is then released; no call of it makes any lease
      live. */
  lemma ReleaseMeaning(rows: seq<Lease>, actor: Id, id: Id, now: int)
    requires DistinctIds(rows)
    ensures var swept := ExpireStale(rows, now);
      var (rows', r) := ReleaseSpec(rows, actor, id, now);
      && (r.ReleasedNow? <==> exists l :: l in swept && l.id == id && l.actor == actor && Live(l, now))
      && |rows'| == |swept|
      && (forall i :: 0 <= i < |swept| ==>
            (Live(rows'[i], now) <==> Live(swept[i], now) && !(r.ReleasedNow? && swept[i].id == id)))
      && (r.ReleasedNow? ==>
            exists k :: 0 <= k < |swept| && OnlyAt(swept, rows', k) && swept[k].id == id && rows'[k].status.Released?)
  {
    var swept := ExpireStale(rows, now);
    var (rows', r) := ReleaseSpec(rows, actor, id, now);
    if l :| l in swept && l.id == id && l.actor == actor && Live(l, now) { FoundById(swept, l); }
    if r.ReleasedNow? {
      assert OnlyAt(swept, rows', IndexOf(swept, id));
      assert swept[IndexOf(swept, id)] in swept;
    }
  }

  /*** Whole runs ***/

  datatype Call =
    | CallAcquire(s: Session, q: Request, now: int)
    | CallRenew(s: Session, actor: Id, id: Id, ttl: Option<int>, now: int)
    | CallRelease(actor: Id, id: Id, now: int)
    | CallList(now: int)

  function Step(rows: seq<Lease>, c: Call): seq<Lease> {
    match c
    case CallAcquire(s, q, now) => AcquireSpec(rows, s, q, now).0
    case CallRenew(s, actor, id, ttl, now) => RenewSpec(rows, s, actor, id, ttl, now).0
    case CallRelease(actor, id, now) => ReleaseSpec(rows, actor, id, now).0
    case CallList(now) => ExpireStale(rows, now)
  }

  function Run(rows: seq<Lease>, calls: seq<Call>): seq<Lease>
    decreases |calls|
  {
    if calls == [] then rows else Run(Step(rows, calls[0]), calls[1..])
  }

  /** The clock never goes back, allow_overlap is never used, and every acquisition finds the session within the
      caps. */
  ghost predicate Orderly(rows: seq<Lease>, clock: int, calls: seq<Call>)
    decreases |calls|
  {
    calls == [] || (
      && clock <= calls[0].now
      && (calls[0].CallAcquire? ==>
          !calls[0].q.allowOverlap && WithinCaps(ExpireStale(rows, calls[0].now), calls[0].now))
      && Orderly(Step(rows, calls[0]), calls[0].now, calls[1..]))
  }

  function Clock(clock: int, calls: seq<Call>): int {
    if calls == [] then clock else calls[|calls| - 1].now
  }

  lemma LaterExclusive(rows: seq<Lease>, clock: int, later: int)
    requires Exclusive(rows, clock) && clock <= later
    ensures Exclusive(rows, later)
  {
    forall i, j | 0 <= i < |rows| && 0 <= j < |rows| ensures Compatible(rows[i], rows[j], later) {
      assert Compatible(rows[i], rows[j], clock);
    }
  }

  lemma StepExclusive(rows: seq<Lease>, clock: int, c: Call)
    requires Exclusive(rows, clock) && clock <= c.now
    requires c.CallAcquire? ==> !c.q.allowOverlap && WithinCaps(ExpireStale(rows, c.now), c.now)
    ensures Exclusive(Step(rows, c), c.now)
  {
    match c {
      case CallAcquire(s, q, now) => AcquireExclusive(rows, clock, s, q, now);
      case CallRenew(s, actor, id, ttl, now) => RenewExclusive(rows, clock, s, actor, id, ttl, now);
      case CallRelease(actor, id, now) => ReleaseExclusive(rows, clock, actor, id, now);
      case CallList(now) => SweepExclusive(rows, clock, now);
    }
  }

  /** Lease exclusivity over a whole run: from any exclusive table, after any orderly run, and at every later
      instant until the next call, no task or path is held live by two actors. */
  lemma {:induction false} LeaseExclusivity(rows: seq<Lease>, clock: int, calls: seq<Call>, later: int)
    requires Exclusive(rows, clock) && Orderly(rows, clock, calls) && Clock(clock, calls) <= later
    ensures Exclusive(Run(rows, calls), later)
    decreases |calls|
  {
    if calls == [] {
      LaterExclusive(rows, clock, later);
    } else {
      StepExclusive(rows, clock, calls[0]);
      LeaseExclusivity(Step(rows, calls[0]), calls[0].now, calls[1..], later);
    }
  }

  ghost predicate CalledBy(c: Call, actor: Id) {
    match c
    case CallAcquire(_, q, _) => q.actor == actor
    case CallRenew(_, a, _, _, _) => a == actor
    case CallRelease(a, _, _) => a == actor
    case CallList(_) => false
  }

  lemma AcquireKeepsOthers(rows: seq<Lease>, s: Session, q: Request, now: int, i: nat)
    requires i < |rows| && Live(rows[i], now) && q.actor != rows[i].actor
    ensures i < |AcquireSpec(rows, s, q, now).0| && AcquireSpec(rows, s, q, now).0[i] == rows[i]
  {
    assert ExpireStale(rows, now)[i] == rows[i];
  }

  lemma ChangeKeepsOthers(rows: seq<Lease>, s: Session, actor: Id, id: Id, ttl: Option<int>, now: int, i: nat)
    requires i < |rows| && Live(rows[i], now) && actor != rows[i].actor
    ensures i < |RenewSpec(rows, s, actor, id, ttl, now).0| && RenewSpec(rows, s, actor, id, ttl, now).0[i] == rows[i]
    ensures i < |ReleaseSpec(rows, actor, id, now).0| && ReleaseSpec(rows, actor, id, now).0[i] == rows[i]
  {
    assert ExpireStale(rows, now)[i] == rows[i];
  }

  /** No call of another actor changes a live lease in any column. */
  lemma OnlyTheHolder(rows: seq<Lease>, c: Call, i: nat)
    requires i < |rows| && Live(rows[i], c.now) && !CalledBy(c, rows[i].actor)
    ensures i < |Step(rows, c)| && Step(rows, c)[i] == rows[i]
  {
    match c {
      case CallAcquire(s, q, now) => AcquireKeepsOthers(rows, s, q, now, i);
      case CallRenew(s, actor, id, ttl, now) => ChangeKeepsOthers(rows, s, actor, id, ttl, now, i);
      case CallRelease(actor, id, now) => ChangeKeepsOthers(rows, Session(0, None), actor, id, None, now, i);
      case CallList(now) =>
    }
  }

  /** Row i is there and not live. */
  ghost predicate Lapsed(rows: seq<Lease>, i: nat, now: int) { i < |rows| && !Live(rows[i], now) }

  /** An acquisition writes a swept row only where it is active, and otherwise adds one. */
  lemma AcquireNoRevival(rows: seq<Lease>, s: Session, q: Request, now: int, i: nat)
    requires i < |rows| && !ExpireStale(rows, now)[i].status.Active?
    ensures Lapsed(AcquireSpec(rows, s, q, now).0, i, now)
  {
  }

  lemma RenewNoRevival(rows: seq<Lease>, s: Session, actor: Id, id: Id, ttl: Option<int>, now: int, i: nat)
    requires i < |rows| && !ExpireStale(rows, now)[i].status.Active?
    ensures Lapsed(RenewSpec(rows, s, actor, id, ttl, now).0, i, now)
  {
  }

  lemma ReleaseNoRevival(rows: seq<Lease>, actor: Id, id: Id, now: int, i: nat)
    requires i < |rows| && !ExpireStale(rows, now)[i].status.Active?
    ensures Lapsed(ReleaseSpec(rows, actor, id, now).0, i, now)
  {
  }

  lemma StepNoRevival(rows: seq<Lease>, clock: int, c: Call, i: nat)
    requires Lapsed(rows, i, clock) && clock <= c.now
    ensures Lapsed(Step(rows, c), i, c.now)
  {
    assert !ExpireStale(rows, c.now)[i].status.Active?;
    match c {
      case CallAcquire(s, q, now) => AcquireNoRevival(rows, s, q, now, i);
      case CallRenew(s, actor, id, ttl, now) => RenewNoRevival(rows, s, actor, id, ttl, now, i);
      case CallRelease(actor, id, now) => ReleaseNoRevival(rows, actor, id, now, i);
      case CallList(now) =>
    }
  }

  /** The clock never goes back. */
  predicate Timely(clock: int, calls: seq<Call>)
    decreases |calls|
  {
    calls == [] || (clock <= calls[0].now && Timely(calls[0].now, calls[1..]))
  }

  lemma ClockTail(clock: int, calls: seq<Call>)
    requires calls != []
    ensures Clock(clock, calls) == Clock(calls[0].now, calls[1..])
  {
  }

  /** A lease that is not live never comes back: not by renewal, not by re-acquisition in place. */
  lemma {:induction false} NoRevival(rows: seq<Lease>, clock: int, calls: seq<Call>, i: nat)
    requires Lapsed(rows, i, clock) && Timely(clock, calls)
    ensures Lapsed(Run(rows, calls), i, Clock(clock, calls))
    decreases |calls|
  {
    if calls != [] {
      var next := Step(rows, calls[0]);
      StepNoRevival(rows, clock, calls[0], i);
      NoRevival(next, calls[0].now, calls[1..], i);
      ClockTail(clock, calls);
    }
  }

  /*** Past the caps ***/

  ghost predicate OverlapsLive(rows: seq<Lease>, scope: Scope, now: int) {
    exists l :: l in rows && Live(l, now) && Overlap(scope, l.scope)
  }

  ghost predicate OverlapsListed(rows: seq<Lease>, scope: Scope, now: int) {
    exists l :: l in ListLive(rows, now, MAX_LEASE_LIST) && Overlap(scope, l.scope)
  }

  /** The listing hides part of the table: some scope overlaps a live lease and nothing listed. */
  ghost predicate Hides(rows: seq<Lease>, now: int) {
    exists scope {:trigger OverlapsLive(rows, scope, now)} ::
      Proper(scope) && OverlapsLive(rows, scope, now) && !OverlapsListed(rows, scope, now)
  }

  /** The request, made without allow_overlap, ends exclusivity. */
  ghost predicate Breaks(rows: seq<Lease>, s: Session, q: Request, now: int) {
    Proper(q.scope) && !q.allowOverlap && !Exclusive(AcquireSpec(rows, s, q, now).0, now)
  }

  /** The table does not refuse the request although a live lease of another actor overlaps it. */
  ghost predicate Slips(rows: seq<Lease>, q: Request, now: int) {
    && Proper(q.scope) && !q.allowOverlap
    && !Refuses(ExpireStale(rows, now), q, now) && !Clear(ExpireStale(rows, now), q.actor, q.scope, now)
  }

  /** An id no row has. */
  function FreshId(rows: seq<Lease>): (id: Id)
    ensures forall i :: 0 <= i < |rows| ==> rows[i].id < id
  {
    if rows == [] then 0
    else
      var rest := FreshId(rows[1..]);
      if rest > rows[0].id then rest else rows[0].id + 1
  }

  lemma HiddenIsGranted(rows: seq<Lease>, scope: Scope, now: int) returns (q: Request)
    requires var swept := ExpireStale(rows, now);
      Proper(scope) && OverlapsLive(swept, scope, now) && !OverlapsListed(swept, scope, now)
    ensures Slips(rows, q, now)
  {
    var swept := ExpireStale(rows, now);
    var l :| l in swept && Live(l, now) && Overlap(scope, l.scope);
    q := Request(l.actor + 1, scope, None, false, None, FreshId(swept));
    var live := ListLive(swept, now, MAX_LEASE_LIST);
    forall i | 0 <= i < |live| ensures !Overlap(q.scope, live[i].scope) { assert live[i] in live; }
    FilterNone(live, (x: Lease) => x.actor != q.actor && Overlap(q.scope, x.scope));
    FilterNone(live, (x: Lease) => x.actor == q.actor && Overlap(q.scope, x.scope));
  }

  /** One task, or one path prefix, as a scope. */
  function Part(r: Resource): Scope {
    match r
    case TaskWork(id) => Scope(Some(id), [])
    case PathWork(path) => Scope(None, [path])
  }

  lemma SharedResource(a: Scope, b: Scope) returns (r: Resource)
    requires Proper(a) && Proper(b) && Overlap(a, b)
    ensures Covers(a, r) && Covers(b, r) && (r.PathWork? ==> r.path != "")
  {
    OverlapMeaning(a, b);
    r :| Covers(a, r) && Covers(b, r);
    if Wide(a) && Wide(b) { r := TaskWork(0); }
  }

  /** Whatever overlaps the one resource overlaps every scope that covers it. */
  lemma PartTouches(a: Scope, r: Resource, c: Scope)
    requires Covers(a, r) && (r.PathWork? ==> r.path != "") && Overlap(Part(r), c)
    ensures Overlap(a, c)
  {
    if r.PathWork? && !Wide(a) && !Wide(c) {
      var i :| 0 <= i < |a.paths| && a.paths[i] != "" && a.paths[i] <= r.path;
      var k, j :| 0 <= k < 1 && 0 <= j < |c.paths| && PathsOverlap(Part(r).paths[k], c.paths[j]);
      if c.paths[j] <= r.path { PrefixesNest(a.paths[i], c.paths[j], r.path); }
      assert PathsOverlap(a.paths[i], c.paths[j]);
    }
  }

  lemma PartOverlaps(a: Scope, r: Resource)
    requires Covers(a, r) && (r.PathWork? ==> r.path != "")
    ensures Overlap(Part(r), a)
  {
    if r.PathWork? && !Wide(a) {
      var i :| 0 <= i < |a.paths| && a.paths[i] != "" && a.paths[i] <= r.path;
      assert PathsOverlap(Part(r).paths[0], a.paths[i]);
    }
  }

  lemma ListedOverlapIsOwn(live: seq<Lease>, q: Request, m: Lease)
    requires Foreign(live, q) == [] && m in live && Overlap(q.scope, m.scope)
    ensures m.actor == q.actor
  {
    assert m !in Foreign(live, q);
  }

  lemma ExclusivePair(rows: seq<Lease>, a: Lease, b: Lease, now: int)
    requires Exclusive(rows, now) && a in rows && b in rows && Live(a, now) && Live(b, now) && a.actor != b.actor
    ensures !Overlap(a.scope, b.scope)
  {
    var i, j :| 0 <= i < |rows| && rows[i] == a && 0 <= j < |rows| && rows[j] == b;
    assert Compatible(rows[i], rows[j], now);
  }

  /** What the caller shares with a live lease of another actor overlaps nothing that is listed. */
  lemma SharedIsHidden(rows: seq<Lease>, q: Request, l: Lease, r: Resource, now: int)
    requires Exclusive(rows, now) && l in rows && Live(l, now) && l.actor != q.actor
    requires Covers(q.scope, r) && Covers(l.scope, r) && (r.PathWork? ==> r.path != "")
    requires Foreign(ListLive(rows, now, MAX_LEASE_LIST), q) == []
    ensures !OverlapsListed(rows, Part(r), now)
  {
    var live := ListLive(rows, now, MAX_LEASE_LIST);
    forall m | m in live ensures !Overlap(Part(r), m.scope) {
      if Overlap(Part(r), m.scope) {
        PartTouches(q.scope, r, m.scope);
        PartTouches(l.scope, r, m.scope);
        ListedOverlapIsOwn(live, q, m);
        ListedIsLive(rows, now, m);
        ExclusivePair(rows, l, m, now);
        assert false;
      }
    }
  }

  lemma NotClear(rows: seq<Lease>, q: Request, now: int) returns (l: Lease)
    requires !Clear(rows, q.actor, q.scope, now)
    ensures l in rows && Live(l, now) && l.actor != q.actor && Overlap(q.scope, l.scope)
  {
    var i :| 0 <= i < |rows| && Live(rows[i], now) && rows[i].actor != q.actor && Overlap(q.scope, rows[i].scope);
    l := rows[i];
  }

  lemma SweptProper(rows: seq<Lease>, now: int, l: Lease)
    requires (forall i :: 0 <= i < |rows| ==> Proper(rows[i].scope)) && l in ExpireStale(rows, now)
    ensures Proper(l.scope)
  {
  }

  /** A granted request that ends exclusivity shares a resource with a lease the listing hides. */
  lemma BrokenIsHidden(rows: seq<Lease>, before: int, q: Request, now: int)
    requires Exclusive(rows, before) && before <= now && Slips(rows, q, now)
    requires forall i :: 0 <= i < |rows| ==> Proper(rows[i].scope)
    ensures Hides(ExpireStale(rows, now), now)
  {
    var swept := ExpireStale(rows, now);
    SweepExclusive(rows, before, now);
    var l := NotClear(swept, q, now);
    SweptProper(rows, now, l);
    var r := SharedResource(q.scope, l.scope);
    PartOverlaps(l.scope, r);
    SharedIsHidden(swept, q, l, r, now);
    assert OverlapsLive(swept, Part(r), now);
  }

  lemma BreaksMeaning(rows: seq<Lease>, before: int, s: Session, q: Request, now: int)
    requires DistinctIds(rows) && Exclusive(rows, before) && before <= now
    ensures Breaks(rows, s, q, now) <==> Slips(rows, q, now)
  {
    AcquireExact(rows, before, s, q, now);
  }

  /** Which exclusive tables can lose exclusivity without allow_overlap: some request for an acquisition ends it exactly
      when the listing hides some task or path that a live lease holds. */
  lemma CapsExact(rows: seq<Lease>, before: int, s: Session, now: int)
    requires DistinctIds(rows) && Exclusive(rows, before) && before <= now
    requires forall i :: 0 <= i < |rows| ==> Proper(rows[i].scope)
    ensures (exists q {:trigger Breaks(rows, s, q, now)} :: Breaks(rows, s, q, now))
            <==> Hides(ExpireStale(rows, now), now)
  {
    var swept := ExpireStale(rows, now);
    if q {:trigger Breaks(rows, s, q, now)} :| Breaks(rows, s, q, now) {
      BreaksMeaning(rows, before, s, q, now);
      BrokenIsHidden(rows, before, q, now);
    }
    if Hides(swept, now) {
      var scope {:trigger OverlapsLive(swept, scope, now)} :|
        Proper(scope) && OverlapsLive(swept, scope, now) && !OverlapsListed(swept, scope, now);
      var q := HiddenIsGranted(rows, scope, now);
      BreaksMeaning(rows, before, s, q, now);
    }
  }

  function CrowdLease(s: Session, i: nat): Lease {
    Lease(i, 0, Scope(Some(i), []), 0, 0, 600_000, s.latestCheckpoint, s.revision, Active, 0)
  }

  /** n live leases of actor 0, one task each, all acquired at 0 for the default time to live. */
  function Crowd(s: Session, n: nat): (r: seq<Lease>)
    ensures |r| == n && forall i :: 0 <= i < n ==> r[i] == CrowdLease(s, i)
  {
    seq(n, i requires 0 <= i < n => CrowdLease(s, i))
  }

  function Arrival(s: Session, i: nat): Call {
    CallAcquire(s, Request(0, Scope(Some(i), []), None, false, None, i), 0)
  }

  /** n acquisitions by actor 0, one task each, without allow_overlap. */
  function Arrivals(s: Session, n: nat): (calls: seq<Call>)
    ensures |calls| == n && forall i :: 0 <= i < n ==> calls[i] == Arrival(s, i)
  {
    seq(n, i requires 0 <= i < n => Arrival(s, i))
  }

  /** Another actor asks for the task of the last of them. */
  function Latecomer(n: nat): Request
    requires n > 0
  {
    Request(1, Scope(Some(n - 1), []), None, false, None, n)
  }

  lemma {:induction false} RunAppend(rows: seq<Lease>, calls: seq<Call>, c: Call)
    ensures Run(rows, calls + [c]) == Step(Run(rows, calls), c)
    decreases |calls|
  {
    if calls == [] {
      assert calls + [c] == [c];
    } else {
      assert (calls + [c])[1..] == calls[1..] + [c];
      RunAppend(Step(rows, calls[0]), calls[1..], c);
    }
  }

  lemma CrowdSwept(s: Session, n: nat)
    ensures ExpireStale(Crowd(s, n), 0) == Crowd(s, n)
  {
  }

  /** All of a crowd expire together, so a listing shows the first hundred. */
  lemma CrowdListing(s: Session, n: nat)
    ensures ListLive(Crowd(s, n), 0, MAX_LEASE_LIST) == Take(Crowd(s, n), MAX_LEASE_LIST)
  {
    SortOfSorted(Crowd(s, n), Later);
    FilterAll(Take(Crowd(s, n), MAX_LEASE_ROWS), (l: Lease) => Live(l, 0));
  }

  /** A request that overlaps none of the listed crowd, under a new id, is not refused. */
  lemma CrowdAdmits(s: Session, n: nat, q: Request)
    requires q.scope.task.Some? && q.scope.paths == [] && q.newId >= n
    requires forall i :: 0 <= i < |Take(Crowd(s, n), MAX_LEASE_LIST)| ==> q.scope.task != Some(i)
    ensures !Refuses(ExpireStale(Crowd(s, n), 0), q, 0)
    ensures Own(ListLive(ExpireStale(Crowd(s, n), 0), 0, MAX_LEASE_LIST), q) == []
  {
    CrowdSwept(s, n);
    CrowdListing(s, n);
    var live := Take(Crowd(s, n), MAX_LEASE_LIST);
    FilterNone(live, (l: Lease) => l.actor != q.actor && Overlap(q.scope, l.scope));
    FilterNone(live, (l: Lease) => l.actor == q.actor && Overlap(q.scope, l.scope));
  }

  /** An acquisition that is not refused, and overlaps no listed lease of its own actor, adds one row. */
  lemma AcquireAdds(rows: seq<Lease>, s: Session, q: Request, now: int)
    requires !Refuses(ExpireStale(rows, now), q, now) && q.checkpoint.None?
    requires Own(ListLive(ExpireStale(rows, now), now, MAX_LEASE_LIST), q) == []
    ensures AcquireSpec(rows, s, q, now).1.Acquired?
    ensures AcquireSpec(rows, s, q, now).0
            == ExpireStale(rows, now) + [Lease(q.newId, q.actor, q.scope, now, now, now + ClampTtl(q.ttl) * 1000,
                                               s.latestCheckpoint, s.revision, Active, now)]
  {
  }

  lemma ArrivalAdds(rows: seq<Lease>, s: Session, n: nat, q: Request)
    requires q == Arrival(s, n).q && ExpireStale(rows, 0) == rows && !Refuses(ExpireStale(rows, 0), q, 0)
    requires Own(ListLive(ExpireStale(rows, 0), 0, MAX_LEASE_LIST), q) == []
    ensures Step(rows, Arrival(s, n)) == rows + [CrowdLease(s, n)]
  {
    AcquireAdds(rows, s, q, 0);
  }

  lemma CrowdNext(s: Session, n: nat)
    ensures Crowd(s, n) + [CrowdLease(s, n)] == Crowd(s, n + 1)
  {
  }

  lemma CrowdGrows(s: Session, n: nat)
    ensures Step(Crowd(s, n), Arrival(s, n)) == Crowd(s, n + 1)
  {
    CrowdSwept(s, n);
    CrowdAdmits(s, n, Arrival(s, n).q);
    ArrivalAdds(Crowd(s, n), s, n, Arrival(s, n).q);
    CrowdNext(s, n);
  }

  lemma {:induction false} ArrivalsMakeCrowd(s: Session, n: nat)
    ensures Run([], Arrivals(s, n)) == Crowd(s, n)
  {
    if n > 0 {
      ArrivalsMakeCrowd(s, n - 1);
      assert Arrivals(s, n) == Arrivals(s, n - 1) + [Arrival(s, n - 1)];
      RunAppend([], Arrivals(s, n - 1), Arrival(s, n - 1));
      CrowdGrows(s, n - 1);
    }
  }

  lemma CrowdExclusive(s: Session, n: nat)
    ensures DistinctIds(Crowd(s, n)) && Exclusive(Crowd(s, n), 0)
  {
  }

  lemma LatecomerOverlaps(s: Session, n: nat)
    requires n > 0
    ensures !Clear(ExpireStale(Crowd(s, n), 0), 1, Latecomer(n).scope, 0)
  {
    CrowdSwept(s, n);
    var l := Crowd(s, n)[n - 1];
    assert Live(l, 0) && l.actor != 1 && Overlap(Latecomer(n).scope, l.scope);
  }

  /** The caps do break it: once one actor has acquired more than a hundred leases, none with allow_overlap, another
      actor's request for the last of their tasks is granted and the task is held twice. */
  lemma CapWitness(s: Session, n: nat)
    requires n > MAX_LEASE_LIST
    ensures Exclusive(Run([], Arrivals(s, n)), 0)
    ensures AcquireSpec(Run([], Arrivals(s, n)), s, Latecomer(n), 0).1.Acquired?
    ensures !Exclusive(AcquireSpec(Run([], Arrivals(s, n)), s, Latecomer(n), 0).0, 0)
  {
    ArrivalsMakeCrowd(s, n);
    CrowdExclusive(s, n);
    CrowdAdmits(s, n, Latecomer(n));
    LatecomerOverlaps(s, n);
    AcquireAdds(Crowd(s, n), s, Latecomer(n), 0);
    AcquireExact(Crowd(s, n), 0, s, Latecomer(n), 0);
  }
}
