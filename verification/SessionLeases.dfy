/** Task and path leases of one Code Session (src/code-session.js): coordination rows with a time to live,
    re-acquired in place by their holder, expired lazily on read and eagerly by an UPDATE. Time is in
    milliseconds; each call runs to completion. */
module SessionLeases {
  import opened Ordering

  type Id = nat

  datatype Scope = Scope(task: Option<Id>, paths: seq<string>)
  datatype Status = Active | Released | Expired
  datatype Lease = Lease(
    id: Id, actor: Id, scope: Scope, acquiredAt: int, renewedAt: int, expiresAt: int,
    checkpoint: Option<Id>, revision: int, status: Status, updatedAt: int)

  /** What the calls read of the session row. */
  datatype Session = Session(revision: int, latestCheckpoint: Option<Id>)

  datatype Result =
    | SessionNotFound | BaseRequired | RevisionConflict
    | LeaseConflict(leases: seq<Lease>)
    | RenewedExisting(lease: Lease) | Acquired(lease: Lease) | CreateFailed
    | NotFound | ActorMismatch | NotLive(status: Status)
    | Renewed(lease: Lease) | ReleasedNow(lease: Lease) | AlreadyReleased(lease: Lease)

  const MAX_LEASE_LIST := 100
  const MAX_LEASE_ROWS := 200

  predicate Wide(s: Scope) { s.task.None? && s.paths == [] }

  predicate PathsOverlap(a: string, b: string) {
    a != "" && b != "" && (a <= b || b <= a)
  }

  /** leaseScopesOverlap */
  predicate Overlap(a: Scope, b: Scope) {
    || Wide(a) || Wide(b)
    || (a.task.Some? && a.task == b.task)
    || exists i, j :: 0 <= i < |a.paths| && 0 <= j < |b.paths| && PathsOverlap(a.paths[i], b.paths[j])
  }

  function ClampTtl(seconds: Option<int>): (ttl: int)
    ensures 30 <= ttl <= 3600
  {
    if seconds.None? then 600 else if seconds.value < 30 then 30 else if seconds.value > 3600 then 3600
      else seconds.value
  }

  predicate Live(l: Lease, now: int) { l.status.Active? && l.expiresAt > now }

  /** rowToLeaseRecord: an active row past its time reads as expired. */
  function Read(l: Lease, now: int): Lease {
    if l.status.Active? && l.expiresAt <= now then l.(status := Expired) else l
  }

  function ExpireOne(l: Lease, now: int): Lease {
    if l.status.Active? && l.expiresAt <= now then l.(status := Expired, updatedAt := now) else l
  }

  function ExpireStale(rows: seq<Lease>, now: int): (r: seq<Lease>)
    ensures |r| == |rows| && forall i :: 0 <= i < |r| ==> r[i] == ExpireOne(rows[i], now)
  {
    Map(rows, (l: Lease) => ExpireOne(l, now))
  }

  /** ORDER BY expires_at DESC, acquired_at DESC */
  predicate Later(a: Lease, b: Lease) {
    a.expiresAt > b.expiresAt || (a.expiresAt == b.expiresAt && a.acquiredAt >= b.acquiredAt)
  }

  function Take<T>(xs: seq<T>, n: nat): seq<T> { if |xs| <= n then xs else xs[..n] }

  function Min(a: nat, b: nat): nat { if a < b then a else b }

  /** The live leases as a listing sees them: a row cap before the live filter, a list cap after it. */
  function ListLive(rows: seq<Lease>, now: int, limit: nat): seq<Lease> {
    Take(Filter(Take(Sort(rows, Later), Min(limit * 4, MAX_LEASE_ROWS)), (l: Lease) => Live(l, now)), limit)
  }

  function IndexOf(rows: seq<Lease>, id: Id): (k: nat)
    ensures k <= |rows|
    ensures k < |rows| ==> rows[k].id == id
    ensures forall i :: 0 <= i < k ==> rows[i].id != id
  {
    if rows == [] || rows[0].id == id then 0 else 1 + IndexOf(rows[1..], id)
  }

  function Gate(session: Option<Session>, base: Option<int>): Option<Result> {
    if session.None? then Some(SessionNotFound)
    else if base.Some? && base.value < 1 then Some(BaseRequired)
    else if base.Some? && base.value != session.value.revision then Some(RevisionConflict)
    else None
  }

  datatype Request = Request(
    actor: Id, scope: Scope, ttl: Option<int>, allowOverlap: bool, checkpoint: Option<Id>, newId: Id)

  predicate LaterExpiry(a: Lease, b: Lease) { a.expiresAt >= b.expiresAt }

  function Foreign(live: seq<Lease>, q: Request): seq<Lease> {
    Filter(live, (l: Lease) => l.actor != q.actor && Overlap(q.scope, l.scope))
  }

  function Own(live: seq<Lease>, q: Request): seq<Lease> {
    Filter(live, (l: Lease) => l.actor == q.actor && Overlap(q.scope, l.scope))
  }

  function AcquireSpec(rows: seq<Lease>, s: Session, q: Request, now: int): (seq<Lease>, Result) {
    var swept := ExpireStale(rows, now);
    var live := ListLive(swept, now, MAX_LEASE_LIST);
    var foreign := Foreign(live, q);
    var own := Own(live, q);
    var checkpoint := if q.checkpoint.Some? then q.checkpoint else s.latestCheckpoint;
    var expires := now + ClampTtl(q.ttl) * 1000;
    if foreign != [] && !q.allowOverlap then (swept, LeaseConflict(foreign))
    else if own != [] then
      var k := IndexOf(swept, Sort(own, LaterExpiry)[0].id);
      if k < |swept| && swept[k].actor == q.actor && swept[k].status.Active? then
        var l := swept[k].(scope := q.scope, renewedAt := now, expiresAt := expires, checkpoint := checkpoint,
                           revision := s.revision, updatedAt := now);
        (swept[k := l], RenewedExisting(Read(l, now)))
      else (swept, NotFound)
    else if IndexOf(swept, q.newId) < |swept| then (swept, CreateFailed)
    else
      var l := Lease(q.newId, q.actor, q.scope, now, now, expires, checkpoint, s.revision, Active, now);
      (swept + [l], Acquired(Read(l, now)))
  }

  function RenewSpec(rows: seq<Lease>, s: Session, actor: Id, id: Id, ttl: Option<int>, now: int)
    : (seq<Lease>, Result)
  {
    var swept := ExpireStale(rows, now);
    var k := IndexOf(swept, id);
    if k == |swept| then (swept, NotFound)
    else if swept[k].actor != actor then (swept, ActorMismatch)
    else if !Live(swept[k], now) then (swept, NotLive(Read(swept[k], now).status))
    else
      var l := swept[k].(renewedAt := now, expiresAt := now + ClampTtl(ttl) * 1000, revision := s.revision,
                         updatedAt := now);
      (swept[k := l], Renewed(Read(l, now)))
  }

  function ReleaseSpec(rows: seq<Lease>, actor: Id, id: Id, now: int): (seq<Lease>, Result) {
    var swept := ExpireStale(rows, now);
    var k := IndexOf(swept, id);
    if k == |swept| then (swept, NotFound)
    else if swept[k].actor != actor then (swept, ActorMismatch)
    else if swept[k].status.Released? then (swept, AlreadyReleased(swept[k]))
    else if !Live(swept[k], now) then (swept[k := swept[k].(status := Expired, updatedAt := now)], NotLive(Expired))
    else
      var l := swept[k].(status := Released, updatedAt := now);
      (swept[k := l], ReleasedNow(l))
  }

  /** The lease table of one session. */
  class LeaseTable {
    var rows: seq<Lease>

    constructor ()
      ensures rows == []
    {
      rows := [];
    }

    method Expire(now: int)
      modifies this
      ensures rows == ExpireStale(old(rows), now)
    {
      var swept := [];
      for i := 0 to |rows|
        invariant rows == old(rows)
        invariant swept == ExpireStale(rows, now)[..i]
      {
        swept := swept + [ExpireOne(rows[i], now)];
      }
      rows := swept;
    }

    method List(now: int, limit: nat) returns (leases: seq<Lease>)
      modifies this
      ensures rows == ExpireStale(old(rows), now)
      ensures leases == ListLive(rows, now, limit)
    {
      Expire(now);
      leases := ListLive(rows, now, limit);
    }

    method Acquire(session: Option<Session>, base: Option<int>, q: Request, now: int) returns (r: Result)
      modifies this
      ensures r.SessionNotFound? <==> session.None?
      ensures session.Some? ==> (r.BaseRequired? <==> base.Some? && base.value < 1)
      ensures session.Some? ==>
                (r.RevisionConflict? <==> base.Some? && base.value >= 1 && base.value != session.value.revision)
      ensures r.SessionNotFound? || r.BaseRequired? || r.RevisionConflict? ==> rows == old(rows)
      ensures session.Some? && (base.Some? ==> 1 <= base.value == session.value.revision) ==>
                (rows, r) == AcquireSpec(old(rows), session.value, q, now)
      ensures r.Acquired? || r.RenewedExisting? ==>
                session.Some? && (base.Some? ==> base.value == session.value.revision)
    {
      if Gate(session, base).Some? { return Gate(session, base).value; }
      NoGateAnswer(rows, session.value, q, now);
      r := AcquirePastGate(session.value, q, now);
    }

    /** The statements past the gate. */
    method AcquirePastGate(session: Session, q: Request, now: int) returns (r: Result)
      modifies this
      ensures (rows, r) == AcquireSpec(old(rows), session, q, now)
    {
      Expire(now);
      var live := List(now, MAX_LEASE_LIST);
      SweepTwice(old(rows), now);
      var foreign, own := Foreign(live, q), Own(live, q);
      if foreign != [] && !q.allowOverlap { return LeaseConflict(foreign); }
      var checkpoint := if q.checkpoint.Some? then q.checkpoint else session.latestCheckpoint;
      var expires := now + ClampTtl(q.ttl) * 1000;
      if own != [] {
        var k := IndexOf(rows, Sort(own, LaterExpiry)[0].id);
        if k < |rows| && rows[k].actor == q.actor && rows[k].status.Active? {
          rows := rows[k := rows[k].(scope := q.scope, renewedAt := now, expiresAt := expires, checkpoint := checkpoint,
                                     revision := session.revision, updatedAt := now)];
          return RenewedExisting(Read(rows[k], now));
        }
        return NotFound;
      }
      if IndexOf(rows, q.newId) < |rows| { return CreateFailed; }
      var l := Lease(q.newId, q.actor, q.scope, now, now, expires, checkpoint, session.revision, Active, now);
      rows := rows + [l];
      r := Acquired(Read(l, now));
    }

    method Renew(session: Option<Session>, base: Option<int>, actor: Id, id: Id, ttl: Option<int>, now: int)
      returns (r: Result)
      modifies this
      ensures r.SessionNotFound? <==> session.None?
      ensures session.Some? ==> (r.BaseRequired? <==> base.Some? && base.value < 1)
      ensures session.Some? ==>
                (r.RevisionConflict? <==> base.Some? && base.value >= 1 && base.value != session.value.revision)
      ensures r.SessionNotFound? || r.BaseRequired? || r.RevisionConflict? ==> rows == old(rows)
      ensures session.Some? && (base.Some? ==> 1 <= base.value == session.value.revision) ==>
                (rows, r) == RenewSpec(old(rows), session.value, actor, id, ttl, now)
      ensures r.Renewed? ==>
                session.Some? && (base.Some? ==> base.value == session.value.revision)
    {
      if Gate(session, base).Some? { return Gate(session, base).value; }
      Expire(now);
      var k := IndexOf(rows, id);
      if k == |rows| { return NotFound; }
      if rows[k].actor != actor { return ActorMismatch; }
      if !Live(rows[k], now) { return NotLive(Read(rows[k], now).status); }
      rows := rows[k := rows[k].(renewedAt := now, expiresAt := now + ClampTtl(ttl) * 1000,
                                 revision := session.value.revision, updatedAt := now)];
      r := Renewed(Read(rows[k], now));
    }

    method Release(session: Option<Session>, actor: Id, id: Id, now: int) returns (r: Result)
      modifies this
      ensures session.None? ==> rows == old(rows) && r == SessionNotFound
      ensures session.Some? ==> (rows, r) == ReleaseSpec(old(rows), actor, id, now)
    {
      if session.None? { return SessionNotFound; }
      Expire(now);
      var k := IndexOf(rows, id);
      if k == |rows| { return NotFound; }
      if rows[k].actor != actor { return ActorMismatch; }
      if rows[k].status.Released? { return AlreadyReleased(rows[k]); }
      if !Live(rows[k], now) {
        rows := rows[k := rows[k].(status := Expired, updatedAt := now)];
        return NotLive(Expired);
      }
      rows := rows[k := rows[k].(status := Released, updatedAt := now)];
      r := ReleasedNow(rows[k]);
    }
  }

  /** Past the gate no answer is one of the gate's. */
  lemma NoGateAnswer(rows: seq<Lease>, s: Session, q: Request, now: int)
    ensures var r := AcquireSpec(rows, s, q, now).1; !r.SessionNotFound? && !r.BaseRequired? && !r.RevisionConflict?
  {
  }

  lemma SweepTwice(rows: seq<Lease>, now: int)
    ensures ExpireStale(ExpireStale(rows, now), now) == ExpireStale(rows, now)
  {
  }
}
