/** What each lease call answers and writes, case by case, and what a listing shows (src/code-session.js). */
module LeaseOutcomes {
  import opened Ordering
  import opened SessionLeases
  import opened LeaseLaws

  /*** Listings ***/

  /** The order of a listing: the last to expire first, of those the last acquired, of those the first inserted. */
  predicate Ahead(rows: seq<Lease>, a: Lease, b: Lease) {
    || a.expiresAt > b.expiresAt
    || (a.expiresAt == b.expiresAt && a.acquiredAt > b.acquiredAt)
    || (a.expiresAt == b.expiresAt && a.acquiredAt == b.acquiredAt && IndexOf(rows, a.id) < IndexOf(rows, b.id))
  }

  function AheadIn(rows: seq<Lease>): (Lease, Lease) -> bool { (a: Lease, b: Lease) => Ahead(rows, a, b) }

  /** Inserted in this order. */
  ghost predicate InPlace(rows: seq<Lease>, xs: seq<Lease>) {
    forall i, j :: 0 <= i < j < |xs| ==> IndexOf(rows, xs[i].id) < IndexOf(rows, xs[j].id)
  }

  lemma InsertedAhead(rows: seq<Lease>, x: Lease, xs: seq<Lease>, i: nat)
    requires Sorted(xs, AheadIn(rows)) && xs != [] && !Later(x, xs[0]) && i < |Insert(x, xs[1..], Later)|
    ensures Ahead(rows, xs[0], Insert(x, xs[1..], Later)[i])
  {
    var rest := Insert(x, xs[1..], Later);
    InsertMultiset(x, xs[1..], Later);
    assert rest[i] in multiset(rest);
    if rest[i] != x {
      assert rest[i] in xs[1..];
      var k :| 0 <= k < |xs[1..]| && xs[1..][k] == rest[i];
      assert Ahead(rows, xs[0], xs[k + 1]);
    }
  }

  lemma {:induction false} InsertAhead(rows: seq<Lease>, x: Lease, xs: seq<Lease>)
    requires Sorted(xs, AheadIn(rows))
    requires forall i :: 0 <= i < |xs| ==> IndexOf(rows, x.id) < IndexOf(rows, xs[i].id)
    ensures Sorted(Insert(x, xs, Later), AheadIn(rows))
  {
    if xs == [] {
    } else if Later(x, xs[0]) {
      forall i | 0 <= i < |xs| ensures Ahead(rows, x, xs[i]) { assert i > 0 ==> Ahead(rows, xs[0], xs[i]); }
    } else {
      InsertAhead(rows, x, xs[1..]);
      forall i | 0 <= i < |Insert(x, xs[1..], Later)| ensures Ahead(rows, xs[0], Insert(x, xs[1..], Later)[i]) {
        InsertedAhead(rows, x, xs, i);
      }
    }
  }

  lemma {:induction false} SortAhead(rows: seq<Lease>, xs: seq<Lease>)
    requires InPlace(rows, xs)
    ensures Sorted(Sort(xs, Later), AheadIn(rows))
  {
    if xs != [] {
      SortAhead(rows, xs[1..]);
      var rest := Sort(xs[1..], Later);
      SortMultiset(xs[1..], Later);
      forall i | 0 <= i < |rest| ensures IndexOf(rows, xs[0].id) < IndexOf(rows, rest[i].id) {
        assert rest[i] in xs[1..];
        var k :| 0 <= k < |xs[1..]| && xs[1..][k] == rest[i];
        assert xs[k + 1] == rest[i];
      }
      InsertAhead(rows, xs[0], rest);
    }
  }

  lemma RowsInPlace(rows: seq<Lease>)
    requires DistinctIds(rows)
    ensures InPlace(rows, rows)
  {
    forall i | 0 <= i < |rows| ensures IndexOf(rows, rows[i].id) == i {
      FoundById(rows, rows[i]);
      assert rows[IndexOf(rows, rows[i].id)].id == rows[i].id;
    }
  }

  /** The rows of a list ahead of one in a table's listing order. */
  ghost function AheadOf(rows: seq<Lease>, xs: seq<Lease>, l: Lease): set<Lease> {
    set r | r in xs && Ahead(rows, r, l)
  }

  /** In a list in that order, how many stand ahead of an element is its place. */
  lemma PlaceCount(rows: seq<Lease>, xs: seq<Lease>, i: nat)
    requires Sorted(xs, AheadIn(rows)) && i < |xs|
    ensures |AheadOf(rows, xs, xs[i])| == i
  {
    forall k | i <= k < |xs| ensures !Ahead(rows, xs[k], xs[i]) { assert k > i ==> Ahead(rows, xs[i], xs[k]); }
    assert AheadOf(rows, xs, xs[i]) == Elements(xs[..i]) by {
      forall r ensures r in AheadOf(rows, xs, xs[i]) <==> r in Elements(xs[..i]) {
        if r in AheadOf(rows, xs, xs[i]) {
          var k :| 0 <= k < |xs| && xs[k] == r;
          assert xs[..i][k] == r;
        }
        if r in xs[..i] {
          var k :| 0 <= k < |xs[..i]| && xs[..i][k] == r;
          assert Ahead(rows, xs[k], xs[i]);
        }
      }
    }
    CountElements(rows, xs[..i]);
  }

  ghost function Elements(xs: seq<Lease>): set<Lease> { set r | r in xs }

  lemma {:induction false} CountElements(rows: seq<Lease>, xs: seq<Lease>)
    requires Sorted(xs, AheadIn(rows))
    ensures |Elements(xs)| == |xs|
  {
    if xs != [] {
      CountElements(rows, xs[1..]);
      forall r | r in xs[1..] ensures r != xs[0] {
        var k :| 0 <= k < |xs[1..]| && xs[1..][k] == r;
        assert Ahead(rows, xs[0], xs[k + 1]);
      }
      assert Elements(xs) == {xs[0]} + Elements(xs[1..]);
    }
  }

  /** Of a list in that order the first n are those with fewer than n ahead of them. */
  lemma TakenCount(rows: seq<Lease>, xs: seq<Lease>, n: nat, l: Lease)
    requires Sorted(xs, AheadIn(rows))
    ensures l in Take(xs, n) <==> l in xs && |AheadOf(rows, xs, l)| < n
  {
    if l in xs {
      var i :| 0 <= i < |xs| && xs[i] == l;
      PlaceCount(rows, xs, i);
      if i < n { assert Take(xs, n)[i] == l; }
      if l in Take(xs, n) {
        var k :| 0 <= k < |Take(xs, n)| && Take(xs, n)[k] == l;
        PlaceCount(rows, xs, k);
      }
    }
  }

  ghost function LiveOf(rows: seq<Lease>, now: int): seq<Lease> { Filter(rows, (l: Lease) => Live(l, now)) }

  /** The rows a listing fetches, in its order. */
  ghost function Fetched(rows: seq<Lease>, n: nat): seq<Lease> { Take(Sort(rows, Later), n) }

  lemma FetchedMeaning(rows: seq<Lease>, n: nat, l: Lease)
    requires DistinctIds(rows)
    ensures Sorted(Fetched(rows, n), AheadIn(rows))
    ensures l in Fetched(rows, n) <==> l in rows && |AheadOf(rows, rows, l)| < n
  {
    RowsInPlace(rows);
    SortAhead(rows, rows);
    SortMultiset(rows, Later);
    TakenCount(rows, Sort(rows, Later), n, l);
    assert AheadOf(rows, Sort(rows, Later), l) == AheadOf(rows, rows, l);
  }

  lemma AheadShrinks(rows: seq<Lease>, a: Lease, b: Lease)
    requires Ahead(rows, a, b)
    ensures |AheadOf(rows, rows, a)| <= |AheadOf(rows, rows, b)|
  {
    assert AheadOf(rows, rows, a) <= AheadOf(rows, rows, b);
    Smaller(AheadOf(rows, rows, a), AheadOf(rows, rows, b));
  }

  lemma {:induction false} Smaller(a: set<Lease>, b: set<Lease>)
    requires a <= b
    ensures |a| <= |b|
  {
    if a != {} {
      var x :| x in a;
      Smaller(a - {x}, b - {x});
    }
  }

  lemma LiveAhead(rows: seq<Lease>, n: nat, l: Lease, now: int)
    requires DistinctIds(rows) && l in Fetched(rows, n)
    ensures AheadOf(rows, LiveOf(Fetched(rows, n), now), l) == AheadOf(rows, LiveOf(rows, now), l)
  {
    FetchedMeaning(rows, n, l);
    var some, all := AheadOf(rows, LiveOf(Fetched(rows, n), now), l), AheadOf(rows, LiveOf(rows, now), l);
    forall r ensures r in some <==> r in all {
      FetchedMeaning(rows, n, r);
      if Ahead(rows, r, l) { AheadShrinks(rows, r, l); }
    }
  }

  /** A listing, exactly: a lease is in it if and only if it is live, fewer than four times the limit and fewer than 200
      rows of the table stand ahead of it, live or not, and fewer live ones than the limit; and what it shows stands in
      that order. */
  lemma ListingExact(rows: seq<Lease>, now: int, limit: nat, l: Lease)
    requires DistinctIds(rows)
    ensures l in ListLive(rows, now, limit) <==>
              && l in rows && Live(l, now)
              && |AheadOf(rows, rows, l)| < limit * 4 && |AheadOf(rows, rows, l)| < 200
              && |AheadOf(rows, LiveOf(rows, now), l)| < limit
    ensures Sorted(ListLive(rows, now, limit), AheadIn(rows))
  {
    var n := Min(limit * 4, MAX_LEASE_ROWS);
    var live := LiveOf(Fetched(rows, n), now);
    FetchedMeaning(rows, n, l);
    FilterSorted(Fetched(rows, n), (x: Lease) => Live(x, now), AheadIn(rows));
    TakenCount(rows, live, limit, l);
    if l in Fetched(rows, n) { LiveAhead(rows, n, l, now); }
    assert ListLive(rows, now, limit) == Take(live, limit);
  }

  /*** Calls ***/

  /** The sweep: an active row whose time has come is expired and dated, every other row stays as it was. */
  lemma SweepMeaning(rows: seq<Lease>, now: int)
    ensures var swept := ExpireStale(rows, now);
      && |swept| == |rows|
      && forall i :: 0 <= i < |rows| ==>
           swept[i] == if rows[i].status == Active && rows[i].expiresAt <= now
                       then rows[i].(status := Expired, updatedAt := now) else rows[i]
  {
  }

  /** A time to live is ten minutes unless given, and kept between half a minute and an hour. */
  lemma TtlMeaning(seconds: Option<int>)
    ensures var ttl := ClampTtl(seconds);
      && (seconds.None? ==> ttl == 600)
      && (seconds.Some? && 30 <= seconds.value <= 3600 ==> ttl == seconds.value)
      && (seconds.Some? && seconds.value < 30 ==> ttl == 30)
      && (seconds.Some? && seconds.value > 3600 ==> ttl == 3600)
  {
  }

  /** The listed lease is live, another actor's, and in the way. */
  predicate InTheWay(q: Request, l: Lease) { l.actor != q.actor && Overlap(q.scope, l.scope) }

  /** The listed lease is live, the caller's, and overlaps. */
  predicate Extends(q: Request, l: Lease) { l.actor == q.actor && Overlap(q.scope, l.scope) }

  /** The lease kept: the caller's own listed overlapping lease that is the last to expire. */
  ghost predicate Kept(listed: seq<Lease>, q: Request, l: Lease) {
    && l in listed && Extends(q, l)
    && forall o :: o in listed && Extends(q, o) ==> o.expiresAt <= l.expiresAt
  }

  /** What an acquisition writes over the lease it keeps. */
  function Rewritten(l: Lease, s: Session, q: Request, now: int): Lease {
    l.(scope := q.scope, renewedAt := now, expiresAt := now + ClampTtl(q.ttl) * 1000, updatedAt := now,
       checkpoint := if q.checkpoint.Some? then q.checkpoint else s.latestCheckpoint, revision := s.revision)
  }

  function Created(s: Session, q: Request, now: int): Lease {
    Lease(q.newId, q.actor, q.scope, now, now, now + ClampTtl(q.ttl) * 1000,
          if q.checkpoint.Some? then q.checkpoint else s.latestCheckpoint, s.revision, Active, now)
  }

  ghost predicate Blocked(listed: seq<Lease>, q: Request) {
    !q.allowOverlap && exists l :: l in listed && InTheWay(q, l)
  }

  ghost predicate HasOwn(listed: seq<Lease>, q: Request) { exists l :: l in listed && Extends(q, l) }

  ghost predicate Taken(rows: seq<Lease>, id: Id) { exists l :: l in rows && l.id == id }

  lemma ListsMean(listed: seq<Lease>, q: Request)
    ensures Foreign(listed, q) != [] && !q.allowOverlap <==> Blocked(listed, q)
    ensures Own(listed, q) != [] <==> HasOwn(listed, q)
    ensures forall l :: l in Foreign(listed, q) <==> l in listed && InTheWay(q, l)
  {
    if Own(listed, q) != [] {
      assert Own(listed, q)[0] in Own(listed, q);
    } else {
      forall l | l in listed ensures !Extends(q, l) { assert l !in Own(listed, q); }
    }
    if Foreign(listed, q) != [] { assert Foreign(listed, q)[0] in Foreign(listed, q); }
  }

  /** The swept table, and what an acquisition sees of it. */
  function Listed(swept: seq<Lease>, now: int): seq<Lease> { ListLive(swept, now, 100) }

  /** Every answer of an acquisition past its gate. It is refused when a listed lease is in the way and overlap is not
      allowed; otherwise it renews when the caller has an overlapping lease listed; otherwise it creates one, unless
      the new id is taken. */
  lemma AcquireAnswers(rows: seq<Lease>, s: Session, q: Request, now: int)
    requires DistinctIds(rows)
    ensures var swept, r := ExpireStale(rows, now), AcquireSpec(rows, s, q, now).1;
      var listed := Listed(swept, now);
      && (r.LeaseConflict? <==> Blocked(listed, q))
      && (r.RenewedExisting? <==> !Blocked(listed, q) && HasOwn(listed, q))
      && (r.CreateFailed? <==> !Blocked(listed, q) && !HasOwn(listed, q) && Taken(swept, q.newId))
      && (r.Acquired? <==> !Blocked(listed, q) && !HasOwn(listed, q) && !Taken(swept, q.newId))
  {
    var swept := ExpireStale(rows, now);
    AcquireMeaning(rows, s, q, now);
    ListsMean(Listed(swept, now), q);
    IdTaken(swept, q.newId);
  }

  lemma KeptIs(swept: seq<Lease>, q: Request, now: int)
    requires DistinctIds(swept) && Own(Listed(swept, now), q) != []
    ensures var k := IndexOf(swept, Sort(Own(Listed(swept, now), q), LaterExpiry)[0].id);
      k < |swept| && swept[k].status.Active? && Kept(Listed(swept, now), q, swept[k])
  {
    var listed := Listed(swept, now);
    Extended(listed, q);
    var l := Sort(Own(listed, q), LaterExpiry)[0];
    ListedIsLive(swept, now, l);
    FoundById(swept, l);
    forall o | o in listed && Extends(q, o) ensures o.expiresAt <= l.expiresAt { assert o in Own(listed, q); }
  }

  /** Row k of the table is the lease kept, and is rewritten. */
  ghost predicate RewritesAt(swept: seq<Lease>, rows': seq<Lease>, s: Session, q: Request, now: int, k: nat) {
    && k < |swept| && Kept(Listed(swept, now), q, swept[k])
    && rows' == swept[k := Rewritten(swept[k], s, q, now)]
  }

  /** What each answer writes: a conflict nothing, and it names exactly the listed leases in the way; a renewal the
      lease kept; a creation one new row; and the answer shows the row as written. */
  lemma AcquireRows(rows: seq<Lease>, s: Session, q: Request, now: int)
    requires DistinctIds(rows)
    ensures var swept := ExpireStale(rows, now);
      var (rows', r) := AcquireSpec(rows, s, q, now);
      && (r.LeaseConflict? ==>
            rows' == swept && forall l :: l in r.leases <==> l in Listed(swept, now) && InTheWay(q, l))
      && (r.CreateFailed? ==> rows' == swept)
      && (r.Acquired? ==> rows' == swept + [Created(s, q, now)] && r.lease == Created(s, q, now))
      && (r.RenewedExisting? ==>
            exists k: nat :: RewritesAt(swept, rows', s, q, now, k) && r.lease == rows'[k])
  {
    var swept := ExpireStale(rows, now);
    var (rows', r) := AcquireSpec(rows, s, q, now);
    ListsMean(Listed(swept, now), q);
    if r.RenewedExisting? {
      KeptIs(swept, q, now);
      var k := IndexOf(swept, Sort(Own(Listed(swept, now), q), LaterExpiry)[0].id);
      assert RewritesAt(swept, rows', s, q, now, k);
    }
  }

  lemma IdTaken(rows: seq<Lease>, id: Id)
    ensures IndexOf(rows, id) < |rows| <==> Taken(rows, id)
  {
    if IndexOf(rows, id) < |rows| { assert rows[IndexOf(rows, id)] in rows; }
  }

  /** Every answer of a renewal past its gate, by the row with the id. */
  lemma RenewOutcome(rows: seq<Lease>, s: Session, actor: Id, id: Id, ttl: Option<int>, now: int)
    ensures var swept := ExpireStale(rows, now);
      var (rows', r) := RenewSpec(rows, s, actor, id, ttl, now);
      && (r == NotFound <==> forall l :: l in swept ==> l.id != id)
      && (r != NotFound ==>
            var k := IndexOf(swept, id);
            && k < |swept|
            && (r == ActorMismatch <==> swept[k].actor != actor)
            && (r.NotLive? <==> swept[k].actor == actor && !Live(swept[k], now))
            && (r.NotLive? ==> r.status == swept[k].status)
            && (r.Renewed? <==> swept[k].actor == actor && Live(swept[k], now))
            && (r.Renewed? ==>
                  && rows' == swept[k := r.lease]
                  && r.lease == swept[k].(renewedAt := now, expiresAt := now + ClampTtl(ttl) * 1000, updatedAt := now,
                                          revision := s.revision)))
      && (!r.Renewed? ==> rows' == swept && (r == NotFound || r == ActorMismatch || r.NotLive?))
  {
    var swept := ExpireStale(rows, now);
    IdTaken(swept, id);
    var k := IndexOf(swept, id);
    if k < |swept| { assert swept[k] in swept; }
  }

  /** Every answer of a release, by the row with the id: a second release is answered with the lease, and a lapsed lease
      is only dated. */
  lemma ReleaseOutcome(rows: seq<Lease>, actor: Id, id: Id, now: int)
    ensures var swept := ExpireStale(rows, now);
      var (rows', r) := ReleaseSpec(rows, actor, id, now);
      && (r == NotFound <==> forall l :: l in swept ==> l.id != id)
      && (r != NotFound ==>
            var k := IndexOf(swept, id);
            && k < |swept|
            && (r == ActorMismatch <==> swept[k].actor != actor)
            && (r == AlreadyReleased(swept[k]) <==> swept[k].actor == actor && swept[k].status.Released?)
            && (r == NotLive(Expired) <==> swept[k].actor == actor && swept[k].status.Expired?)
            && (r.ReleasedNow? <==> swept[k].actor == actor && swept[k].status.Active?)
            && (r.ReleasedNow? ==>
                  && r.lease == swept[k].(status := Released, updatedAt := now)
                  && rows' == swept[k := r.lease])
            && (r.NotLive? ==> rows' == swept[k := swept[k].(updatedAt := now)])
            && (r == ActorMismatch || r.AlreadyReleased? ==> rows' == swept))
      && (r == NotFound ==> rows' == swept)
  {
    var swept := ExpireStale(rows, now);
    IdTaken(swept, id);
    var k := IndexOf(swept, id);
    if k < |swept| { assert swept[k] in swept; }
  }
}
