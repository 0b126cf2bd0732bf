/** Any number of callers whose reads, inserts and guarded UPDATEs interleave in any order on one session
    row: no committed operation is lost, and the tracked columns are explained by the commits alone. */
module SessionSerial {
  import opened Ordering
  import opened CodeSession

  type CallerId = nat

  datatype Phase =
    | Waiting(req: Request)
    | Planned(req: Request, seen: Row, insert: Insert, write: Write)
    | Inserted(req: Request, seen: Row, write: Write)
    | Finished(req: Request, result: Result)

  datatype Commit = Commit(caller: CallerId, req: Request)

  /** The tables and the callers; log and history are auxiliary: who committed, and the tracked columns
      at each revision since the start. */
  datatype System = System(
    tables: Tables, callers: map<CallerId, Phase>, log: seq<Commit>, history: seq<Tracked>)

  /** One atomic statement of one caller, or a write outside the guard. Disabled actions change nothing. */
  datatype Action =
    | Call(c: CallerId, req: Request)
    | Read(c: CallerId)
    | Append(c: CallerId)
    | Update(c: CallerId)
    | Unguarded(loose: Loose)

  function Answer(s: System, c: CallerId, req: Request, error: Error): System {
    s.(callers := s.callers[c := Finished(req, Failed(error))])
  }

  function Step(names: Names, s: System, a: Action): System {
    match a
    case Call(c, req) => if c in s.callers then s else s.(callers := s.callers[c := Waiting(req)])
    case Read(c) =>
      if c !in s.callers || !s.callers[c].Waiting? then s
      else
        var req := s.callers[c].req;
        (match Prepare(names, s.tables.row, req)
         case Refuse(error) => Answer(s, c, req, error)
         case Go(insert, write) => s.(callers := s.callers[c := Planned(req, s.tables.row, insert, write)]))
    case Append(c) =>
      if c !in s.callers || !s.callers[c].Planned? then s
      else
        var p := s.callers[c];
        if !CanInsert(names, s.tables, p.insert) then Answer(s, c, p.req, AlreadyExists)
        else
          var s' := s.(tables := AfterInsert(names, s.tables, p.insert));
          (match LateError(p.seen, p.req)
           case Some(error) => Answer(s', c, p.req, error)
           case None => s'.(callers := s.callers[c := Inserted(p.req, p.seen, p.write)]))
    case Update(c) =>
      if c !in s.callers || !s.callers[c].Inserted? then s
      else
        var p := s.callers[c];
        if s.tables.row.revision != p.req.base then Answer(s, c, p.req, Conflict)
        else
          var row := ApplyWrite(s.tables.row, p.write);
          s.(tables := s.tables.(row := row),
             callers := s.callers[c := Finished(p.req, Committed(row.revision))],
             log := s.log + [Commit(c, p.req)],
             history := s.history + [row.tracked])
    case Unguarded(loose) => s.(tables := s.tables.(row := s.tables.row.(loose := loose)))
  }

  function Run(names: Names, s: System, actions: seq<Action>): System
    decreases |actions|
  {
    if actions == [] then s else Step(names, Run(names, s, actions[..|actions| - 1]), actions[|actions| - 1])
  }

  function Start(tables: Tables): System { System(tables, map[], [], [tables.row.tracked]) }

  /** The operation a request denotes on the tracked columns at a given revision. */
  function Effect(names: Names, revision: int, t: Tracked, req: Request): Option<Tracked> {
    var row := Row(revision, t, Loose(None, [], None));
    match Prepare(names, row, req)
    case Refuse(_) => None
    case Go(_, write) => if req.base != revision then None else Some(ApplyWrite(row, write).tracked)
  }

  /** What a caller holds between its read and its UPDATE. */
  ghost predicate PhaseOk(names: Names, base: int, s: System, p: Phase) {
    match p
    case Planned(req, seen, insert, write) =>
      && Prepare(names, seen, req) == Go(insert, write)
      && SeenOk(base, s, seen)
    case Inserted(req, seen, write) =>
      && Prepare(names, seen, req).Go? && Prepare(names, seen, req).write == write
      && seen.revision == req.base
      && SeenOk(base, s, seen)
    case Finished(req, Committed(revision)) => base < revision <= s.tables.row.revision
    case _ => true
  }

  /** A row read earlier agrees with the history at its own revision, however stale it is. */
  ghost predicate SeenOk(base: int, s: System, seen: Row) {
    && base <= seen.revision <= s.tables.row.revision
    && seen.revision - base < |s.history|
    && s.history[seen.revision - base] == seen.tracked
  }

  /** The i-th commit is its operation applied to the columns at its revision. */
  ghost predicate StepExplained(names: Names, base: int, s: System, i: int) {
    && 0 <= i < |s.log| < |s.history|
    && Effect(names, base + i, s.history[i], s.log[i].req) == Some(s.history[i + 1])
  }

  /** The i-th committer has been told so, with its revision. */
  ghost predicate Told(base: int, s: System, i: int) {
    && 0 <= i < |s.log|
    && s.log[i].caller in s.callers
    && s.callers[s.log[i].caller] == Finished(s.log[i].req, Committed(base + i + 1))
  }

  /** A caller told Committed is in the log at that revision. */
  ghost predicate Recorded(base: int, s: System, c: CallerId) {
    c in s.callers && s.callers[c].Finished? && s.callers[c].result.Committed? ==>
      var i := s.callers[c].result.revision - base - 1;
      0 <= i < |s.log| && s.log[i] == Commit(c, s.callers[c].req)
  }

  ghost predicate HistoryOk(names: Names, base: int, s: System) {
    && |s.history| == |s.log| + 1
    && s.tables.row.revision == base + |s.log|
    && s.history[|s.log|] == s.tables.row.tracked
    && forall i {:trigger StepExplained(names, base, s, i)} :: 0 <= i < |s.log| ==> StepExplained(names, base, s, i)
  }

  ghost predicate CommitsOk(base: int, s: System) {
    && (forall i {:trigger Told(base, s, i)} :: 0 <= i < |s.log| ==> Told(base, s, i))
    && (forall c {:trigger Recorded(base, s, c)} :: Recorded(base, s, c))
  }

  ghost predicate Inv(names: Names, base: int, s: System) {
    && HistoryOk(names, base, s)
    && CommitsOk(base, s)
    && PhasesOk(names, base, s)
  }

  ghost predicate PhasesOk(names: Names, base: int, s: System) {
    forall c {:trigger PhaseOk(names, base, s, s.callers[c])} :: c in s.callers ==>
      PhaseOk(names, base, s, s.callers[c])
  }

  /** Neither the plan nor the tracked result of a write depends on the loose columns. */
  lemma LooseIrrelevant(names: Names, a: Row, b: Row, req: Request)
    requires a.revision == b.revision && a.tracked == b.tracked
    ensures Prepare(names, a, req).Go? <==> Prepare(names, b, req).Go?
    ensures Prepare(names, a, req).Go? ==>
      ApplyWrite(a, Prepare(names, a, req).write).tracked == ApplyWrite(b, Prepare(names, b, req).write).tracked
  {
  }

  /** A guarded UPDATE computed from a stale read is the operation applied to the current row. */
  lemma StaleWriteIsCurrent(names: Names, base: int, s: System, c: CallerId)
    requires Inv(names, base, s) && c in s.callers && s.callers[c].Inserted?
    requires s.tables.row.revision == s.callers[c].req.base
    ensures Effect(names, s.tables.row.revision, s.tables.row.tracked, s.callers[c].req)
            == Some(ApplyWrite(s.tables.row, s.callers[c].write).tracked)
  {
    assert PhaseOk(names, base, s, s.callers[c]);
    var p := s.callers[c];
    assert p.seen.tracked == s.tables.row.tracked;
    LooseIrrelevant(names, p.seen, Row(s.tables.row.revision, s.tables.row.tracked, Loose(None, [], None)), p.req);
    assert ApplyWrite(p.seen, p.write).tracked == ApplyWrite(s.tables.row, p.write).tracked;
  }

  /** What a caller holds stays good while the history grows. */
  lemma PhaseKeeps(names: Names, base: int, s: System, s': System, p: Phase)
    requires PhaseOk(names, base, s, p)
    requires s.history <= s'.history && s.tables.row.revision <= s'.tables.row.revision
    ensures PhaseOk(names, base, s', p)
  {
  }

  /** Moving one unfinished caller, without committing, keeps the invariant. */
  lemma Moved(names: Names, base: int, s: System, s': System, c: CallerId, p: Phase)
    requires Inv(names, base, s)
    requires s'.log == s.log && s'.history == s.history && s'.callers == s.callers[c := p]
    requires s'.tables.row.revision == s.tables.row.revision && s'.tables.row.tracked == s.tables.row.tracked
    requires c in s.callers ==> !s.callers[c].Finished?
    requires PhaseOk(names, base, s, p) && (p.Finished? ==> p.result.Failed?)
    ensures Inv(names, base, s')
  {
    forall i | 0 <= i < |s.log| ensures StepExplained(names, base, s', i) && Told(base, s', i) {
      assert StepExplained(names, base, s, i) && Told(base, s, i);
    }
    forall d ensures Recorded(base, s', d) { assert Recorded(base, s, d); }
    forall d | d in s'.callers ensures PhaseOk(names, base, s', s'.callers[d]) {
      assert d != c ==> PhaseOk(names, base, s, s.callers[d]);
      PhaseKeeps(names, base, s, s', s'.callers[d]);
    }
  }

  lemma CommitKeepsHistory(names: Names, base: int, s: System, c: CallerId)
    requires Inv(names, base, s) && c in s.callers && s.callers[c].Inserted?
    requires s.tables.row.revision == s.callers[c].req.base
    ensures HistoryOk(names, base, Step(names, s, Update(c)))
  {
    StaleWriteIsCurrent(names, base, s, c);
    var s' := Step(names, s, Update(c));
    forall i | 0 <= i < |s'.log| ensures StepExplained(names, base, s', i) {
      if i < |s.log| {
        assert StepExplained(names, base, s, i);
        assert s'.log[i] == s.log[i] && s'.history[i] == s.history[i] && s'.history[i + 1] == s.history[i + 1];
      }
    }
  }

  lemma CommitKeepsCommits(names: Names, base: int, s: System, c: CallerId)
    requires HistoryOk(names, base, s) && CommitsOk(base, s) && c in s.callers && s.callers[c].Inserted?
    requires s.tables.row.revision == s.callers[c].req.base
    ensures CommitsOk(base, Step(names, s, Update(c)))
  {
    var s' := Step(names, s, Update(c));
    forall i | 0 <= i < |s'.log| ensures Told(base, s', i) {
      if i < |s.log| {
        assert Told(base, s, i);
        assert s'.log[i] == s.log[i];
      }
    }
    forall d ensures Recorded(base, s', d) {
      if d != c && d in s.callers && s.callers[d].Finished? && s.callers[d].result.Committed? {
        assert Recorded(base, s, d);
        var i := s.callers[d].result.revision - base - 1;
        assert s'.log[i] == s.log[i];
      }
    }
  }

  lemma UpdateKeepsInv(names: Names, base: int, s: System, c: CallerId)
    requires Inv(names, base, s)
    ensures Inv(names, base, Step(names, s, Update(c)))
  {
    var s' := Step(names, s, Update(c));
    if c in s.callers && s.callers[c].Inserted? {
      if s.tables.row.revision == s.callers[c].req.base {
        CommitKeepsHistory(names, base, s, c);
        CommitKeepsCommits(names, base, s, c);
        forall d | d in s'.callers ensures PhaseOk(names, base, s', s'.callers[d]) {
          if d != c {
            assert PhaseOk(names, base, s, s.callers[d]);
            PhaseKeeps(names, base, s, s', s.callers[d]);
          }
        }
      } else {
        Moved(names, base, s, s', c, Finished(s.callers[c].req, Failed(Conflict)));
      }
    }
  }

  lemma ReadKeepsInv(names: Names, base: int, s: System, c: CallerId)
    requires Inv(names, base, s)
    ensures Inv(names, base, Step(names, s, Read(c)))
  {
    var s' := Step(names, s, Read(c));
    if c in s.callers && s.callers[c].Waiting? {
      Moved(names, base, s, s', c, s'.callers[c]);
    }
  }

  lemma AppendKeepsInv(names: Names, base: int, s: System, c: CallerId)
    requires Inv(names, base, s)
    ensures Inv(names, base, Step(names, s, Append(c)))
  {
    var s' := Step(names, s, Append(c));
    if c in s.callers && s.callers[c].Planned? {
      assert PhaseOk(names, base, s, s.callers[c]);
      assert s'.callers == s.callers[c := s'.callers[c]];
      Moved(names, base, s, s', c, s'.callers[c]);
    }
  }

  /** Every statement of every caller keeps the invariant. */
  lemma StepKeepsInv(names: Names, base: int, s: System, a: Action)
    requires Inv(names, base, s)
    ensures Inv(names, base, Step(names, s, a))
  {
    match a
    case Call(c, req) =>
      if c !in s.callers { Moved(names, base, s, Step(names, s, a), c, Waiting(req)); }
    case Read(c) => ReadKeepsInv(names, base, s, c);
    case Append(c) => AppendKeepsInv(names, base, s, c);
    case Update(c) => UpdateKeepsInv(names, base, s, c);
    case Unguarded(_) =>
      var s' := Step(names, s, a);
      forall i | 0 <= i < |s.log| ensures StepExplained(names, base, s', i) && Told(base, s', i) {
        assert StepExplained(names, base, s, i) && Told(base, s, i);
      }
      forall d ensures Recorded(base, s', d) { assert Recorded(base, s, d); }
      forall d | d in s'.callers ensures PhaseOk(names, base, s', s'.callers[d]) {
        assert PhaseOk(names, base, s, s.callers[d]);
        PhaseKeeps(names, base, s, s', s.callers[d]);
      }
  }

  lemma {:induction false} RunKeepsInv(names: Names, tables: Tables, actions: seq<Action>)
    ensures Inv(names, tables.row.revision, Run(names, Start(tables), actions))
    decreases |actions|
  {
    if actions != [] {
      var a := actions[|actions| - 1];
      RunKeepsInv(names, tables, actions[..|actions| - 1]);
      var s := Run(names, Start(tables), actions[..|actions| - 1]);
      StepKeepsInv(names, tables.row.revision, s, a);
    }
  }

  /** The tracked columns at revision r+1 are the r-th committed operation applied to those at revision r. */
  ghost predicate Explained(names: Names, before: Row, s: System) {
    && s.tables.row.revision == before.revision + |s.log|
    && |s.history| == |s.log| + 1
    && s.history[0] == before.tracked && s.history[|s.log|] == s.tables.row.tracked
    && forall i :: 0 <= i < |s.log| ==> StepExplained(names, before.revision, s, i)
  }

  /** Serialization. After any interleaving the revision has grown by exactly the number of commits, each
      commit is one operation on the columns before it, and a caller is told Committed exactly when its
      operation is in the log, there once, at that revision. */
  lemma Serialization(names: Names, tables: Tables, actions: seq<Action>)
    ensures Explained(names, tables.row, Run(names, Start(tables), actions))
    ensures CommitsOk(tables.row.revision, Run(names, Start(tables), actions))
  {
    RunKeepsInv(names, tables, actions);
    FirstHistory(names, tables, actions);
  }

  lemma {:induction false} FirstHistory(names: Names, tables: Tables, actions: seq<Action>)
    ensures var s := Run(names, Start(tables), actions); s.history != [] && s.history[0] == tables.row.tracked
    decreases |actions|
  {
    if actions != [] { FirstHistory(names, tables, actions[..|actions| - 1]); }
  }

  /** A call run with nothing in between is what the four statements do one after another. */
  lemma AtomicCallIsARun(names: Names, s: System, c: CallerId, req: Request)
    requires c !in s.callers
    ensures var s4 := Step(names, Step(names, Step(names, Step(names, s, Call(c, req)), Read(c)), Append(c)),
                           Update(c));
      (s4.tables, s4.callers[c])
        == (Atomically(names, s.tables, req).0, Finished(req, Atomically(names, s.tables, req).1))
  {
    var s1 := Step(names, s, Call(c, req));
    var s2 := Step(names, s1, Read(c));
    assert s2.tables == s.tables && c in s2.callers;
    var s3 := Step(names, s2, Append(c));
    assert c in s3.callers;
    if Prepare(names, s.tables.row, req).Go? {
      assert s2.callers[c].Planned?;
    } else {
      assert s2.callers[c].Finished? && s3 == s2;
    }
  }

  /*** What the six operations mean ***/

  function Lookup(ledger: seq<Task>, task: Id): Option<Task> {
    var k := IndexOf(ledger, task);
    if k < |ledger| then Some(ledger[k]) else None
  }

  ghost predicate HasActor(actors: seq<Actor>, id: Id) {
    exists i :: 0 <= i < |actors| && actors[i].id == id
  }

  lemma ActorPreorder()
    ensures Preorder(ActorLeq)
  {
  }

  function Stamp(e: Actor, actor: Id, revision: int, checkpoint: Option<Id>): Actor {
    if e.id == actor then
      e.(lastRevision := Some(revision), lastCheckpoint := if checkpoint.Some? then checkpoint else e.lastCheckpoint)
    else e
  }

  ghost function Unsorted(actors: seq<Actor>, actor: Id, revision: int, checkpoint: Option<Id>): seq<Actor> {
    Map(actors, (e: Actor) => Stamp(e, actor, revision, checkpoint))
    + if HasActor(actors, actor) then [] else [Actor(actor, "participant", checkpoint, Some(revision))]
  }

  lemma TouchIsSort(actors: seq<Actor>, actor: Id, revision: int, checkpoint: Option<Id>)
    ensures Touch(actors, actor, revision, checkpoint) == Sort(Unsorted(actors, actor, revision, checkpoint), ActorLeq)
  {
    var f := (e: Actor) =>
      if e.id == actor then
        e.(lastRevision := Some(revision), lastCheckpoint := if checkpoint.Some? then checkpoint else e.lastCheckpoint)
      else e;
    assert Map(actors, f) == Map(actors, (e: Actor) => Stamp(e, actor, revision, checkpoint));
  }

  /** The entry a touch leaves for the caller: its old one, stamped, or a new participant. */
  ghost predicate StampOf(actors: seq<Actor>, e: Actor, actor: Id, revision: int, checkpoint: Option<Id>) {
    if HasActor(actors, actor) then
      exists before {:trigger before in actors} :: before in actors && before.id == actor
        && e == before.(lastCheckpoint := if checkpoint.Some? then checkpoint else before.lastCheckpoint,
                        lastRevision := Some(revision))
    else e == Actor(actor, "participant", checkpoint, Some(revision))
  }

  lemma UnsortedMeaning(actors: seq<Actor>, actor: Id, revision: int, checkpoint: Option<Id>)
    ensures var u := Unsorted(actors, actor, revision, checkpoint);
      && (exists e :: e in u && e.id == actor)
      && (forall e :: e in u && e.id == actor ==> StampOf(actors, e, actor, revision, checkpoint))
      && |u| == |actors| + if HasActor(actors, actor) then 0 else 1
  {
    var u := Unsorted(actors, actor, revision, checkpoint);
    if HasActor(actors, actor) {
      var i :| 0 <= i < |actors| && actors[i].id == actor;
      assert u[i].id == actor && u[i] in u;
    } else {
      assert u[|actors|].id == actor && u[|actors|] in u;
    }
    forall i | 0 <= i < |u| && u[i].id == actor ensures StampOf(actors, u[i], actor, revision, checkpoint) {
      if i < |actors| { assert actors[i] in actors && u[i] == Stamp(actors[i], actor, revision, checkpoint); }
    }
  }

  lemma UnsortedCount(actors: seq<Actor>, actor: Id, revision: int, checkpoint: Option<Id>)
    ensures forall e: Actor :: e.id != actor ==>
              multiset(Unsorted(actors, actor, revision, checkpoint))[e] == multiset(actors)[e]
  {
    forall e: Actor | e.id != actor
      ensures multiset(Unsorted(actors, actor, revision, checkpoint))[e] == multiset(actors)[e]
    {
      StampCount(actors, (x: Actor) => Stamp(x, actor, revision, checkpoint), actor, e);
    }
  }

  lemma SameElements(xs: seq<Actor>, ys: seq<Actor>)
    requires multiset(xs) == multiset(ys)
    ensures |xs| == |ys| && forall e :: e in xs <==> e in ys
  {
    assert |xs| == |multiset(xs)| && |ys| == |multiset(ys)|;
    forall e ensures e in xs <==> e in ys { assert e in multiset(xs) <==> e in multiset(ys); }
  }

  /** Touch stamps the caller's entries with the revision and the checkpoint, if there is one, adds it as a participant
      when missing, keeps every other entry as it was, and sorts. */
  lemma TouchMeaning(actors: seq<Actor>, actor: Id, revision: int, checkpoint: Option<Id>)
    ensures var r := Touch(actors, actor, revision, checkpoint);
      && Sorted(r, ActorLeq)
      && (exists e :: e in r && e.id == actor)
      && (forall e :: e in r && e.id == actor ==> StampOf(actors, e, actor, revision, checkpoint))
      && (forall e: Actor :: e.id != actor ==> multiset(r)[e] == multiset(actors)[e])
      && |r| == |actors| + if HasActor(actors, actor) then 0 else 1
  {
    var u := Unsorted(actors, actor, revision, checkpoint);
    TouchIsSort(actors, actor, revision, checkpoint);
    UnsortedMeaning(actors, actor, revision, checkpoint);
    UnsortedCount(actors, actor, revision, checkpoint);
    ActorPreorder();
    SortSorted(u, ActorLeq);
    SortMultiset(u, ActorLeq);
    SameElements(u, Sort(u, ActorLeq));
  }

  lemma MapCons(actors: seq<Actor>, f: Actor -> Actor)
    requires actors != []
    ensures actors == [actors[0]] + actors[1..] && Map(actors, f) == [f(actors[0])] + Map(actors[1..], f)
  {
  }

  lemma SameCount(a: Actor, b: Actor, xs: seq<Actor>, ys: seq<Actor>, e: Actor)
    requires (a == e <==> b == e) && multiset(xs)[e] == multiset(ys)[e]
    ensures multiset([a] + xs)[e] == multiset([b] + ys)[e]
  {
  }

  lemma {:induction false} StampCount(actors: seq<Actor>, f: Actor -> Actor, actor: Id, e: Actor)
    requires e.id != actor
    requires forall x: Actor :: f(x).id == x.id && (x.id != actor ==> f(x) == x)
    ensures multiset(Map(actors, f))[e] == multiset(actors)[e]
  {
    if actors == [] {
      assert Map(actors, f) == [];
    } else {
      StampCount(actors[1..], f, actor, e);
      SameCount(actors[0], f(actors[0]), actors[1..], Map(actors[1..], f), e);
      MapCons(actors, f);
    }
  }

  lemma {:induction false} IndexUnique(ledger: seq<Task>, task: Id, k: nat)
    requires k <= |ledger| && (k < |ledger| ==> ledger[k].id == task)
    requires forall i :: 0 <= i < k ==> ledger[i].id != task
    ensures IndexOf(ledger, task) == k
  {
  }

  /** The ledger with this entry in the place of the task's old one, or at the end. */
  function Placed(ledger: seq<Task>, entry: Task): seq<Task> {
    var k := IndexOf(ledger, entry.id);
    if k < |ledger| then ledger[k := entry] else ledger + [entry]
  }

  lemma TransitionEffect(names: Names, revision: int, t: Tracked, req: Request)
    requires req.Transition? && req.base == revision && revision >= 1
    ensures var before := Lookup(t.ledger, req.task);
      var legal := if before.Some? then req.to in Transitions(before.value.state) else req.title.Some?;
      var actors := Touch(t.actors, req.actor, revision + 1, None);
      Effect(names, revision, t, req)
      == if legal then Some(t.(ledger := Placed(t.ledger, EntryFor(before, req)), actors := actors)) else None
  {
  }

  /** Placing a task changes no other lookup, and keeps the order of the others. */
  lemma PlacedMeaning(ledger: seq<Task>, entry: Task)
    ensures var after := Placed(ledger, entry);
      && Lookup(after, entry.id) == Some(entry)
      && (forall x :: x != entry.id ==> Lookup(after, x) == Lookup(ledger, x))
      && |after| == |ledger| + (if Lookup(ledger, entry.id).Some? then 0 else 1)
      && (forall i :: 0 <= i < |ledger| ==> after[i].id == ledger[i].id)
      && (Lookup(ledger, entry.id).None? ==> after[|ledger|].id == entry.id)
  {
    var after := Placed(ledger, entry);
    IndexUnique(after, entry.id, IndexOf(ledger, entry.id));
    forall x | x != entry.id ensures Lookup(after, x) == Lookup(ledger, x) {
      var j := IndexOf(ledger, x);
      IndexUnique(after, x, if j < |ledger| then j else |after|);
    }
  }

  /** A task transition is accepted exactly when the edge is legal (or the new task has a title); it then moves
      that task to the state asked for, keeps every other task and their order, and touches nothing but the
      ledger and the actors. */
  lemma TransitionMeaning(names: Names, revision: int, t: Tracked, req: Request)
    requires req.Transition? && req.base == revision && revision >= 1
    ensures var before := Lookup(t.ledger, req.task);
      var t' := Effect(names, revision, t, req);
      && (t'.Some? <==> if before.Some? then req.to in Transitions(before.value.state) else req.title.Some?)
      && (t'.Some? ==>
            var after := t'.value;
            && after == t.(ledger := after.ledger, actors := Touch(t.actors, req.actor, revision + 1, None))
            && Lookup(after.ledger, req.task).Some?
            && Lookup(after.ledger, req.task).value.state == req.to
            && Lookup(after.ledger, req.task).value.actor == Some(req.actor)
            && Lookup(after.ledger, req.task).value.title
               == (if req.title.Some? then req.title.value else if before.Some? then before.value.title else "")
            && Lookup(after.ledger, req.task).value.author
               == (if before.Some? && before.value.author.Some? then before.value.author
                   else OrElse(req.author, Some(req.actor)))
            && Lookup(after.ledger, req.task).value.note
               == (if req.note.Some? then req.note else if before.Some? then before.value.note else None)
            && (forall x :: x != req.task ==> Lookup(after.ledger, x) == Lookup(t.ledger, x))
            && |after.ledger| == |t.ledger| + (if before.Some? then 0 else 1)
            && (forall i :: 0 <= i < |t.ledger| ==> after.ledger[i].id == t.ledger[i].id)
            && (before.None? ==> after.ledger[|t.ledger|].id == req.task))
  {
    var entry := EntryFor(Lookup(t.ledger, req.task), req);
    TransitionEffect(names, revision, t, req);
    PlacedMeaning(t.ledger, entry);
  }

  /*** Last writers ***/

  /** What the last commit that sets something set it to, or else the seed. */
  function LastSet<T>(log: seq<Commit>, sets: Request -> Option<T>, seed: T): T
    decreases |log|
  {
    if log == [] then seed
    else
      match sets(log[|log| - 1].req)
      case Some(value) => value
      case None => LastSet(log[..|log| - 1], sets, seed)
  }

  /** A committed request puts what it sets into the column, and any other leaves the column alone. */
  ghost predicate Writes<T>(names: Names, sets: Request -> Option<T>, column: Tracked -> T) {
    forall revision, t, req {:trigger Effect(names, revision, t, req)} ::
      Effect(names, revision, t, req).Some? ==>
        column(Effect(names, revision, t, req).value) == (if sets(req).Some? then sets(req).value else column(t))
  }

  lemma {:induction false} LastWriter<T>(names: Names, base: int, s: System, n: nat, sets: Request -> Option<T>,
                                         column: Tracked -> T)
    requires HistoryOk(names, base, s) && n <= |s.log| && Writes(names, sets, column)
    ensures column(s.history[n]) == LastSet(s.log[..n], sets, column(s.history[0]))
  {
    if n > 0 {
      var m: nat := n - 1;
      LastWriter(names, base, s, m, sets, column);
      assert StepExplained(names, base, s, m);
      assert s.log[..n][..m] == s.log[..m];
    }
  }

  function SetsLifecycle(req: Request): Option<Lifecycle> { if req.SetLifecycle? then Some(req.target) else None }
  function SetsTransport(req: Request): Option<Option<Id>> {
    if req.SetTransport? then Some(Some(req.transport)) else None
  }
  function SetsEnvironment(req: Request): Option<Option<Id>> {
    if req.AttachEnvironment? then Some(Some(req.manifest)) else None
  }
  function SetsTip(req: Request): Option<Option<Id>> { if req.Checkpoint? then Some(req.observedTip) else None }

  /** Pausing starts from active or blocked, resuming from paused or blocked. */
  predicate LegalLifecycle(from: Lifecycle, to: Lifecycle) {
    && (to.Paused? ==> from.Active? || from.Blocked?)
    && (to.Active? ==> from.Paused? || from.Blocked?)
  }

  /** The lifecycle changed legally at commit i, or was left alone. */
  ghost predicate LifecycleStep(s: System, i: nat)
    requires i < |s.log| < |s.history|
  {
    var from, to := s.history[i].lifecycle, s.history[i + 1].lifecycle;
    if s.log[i].req.SetLifecycle? then LegalLifecycle(from, to) else to == from
  }

  function LifecycleOf(t: Tracked): Lifecycle { t.lifecycle }
  function TransportOf(t: Tracked): Option<Id> { t.transport }
  function EnvironmentOf(t: Tracked): Option<Id> { t.environment }
  function TipOf(t: Tracked): Option<Id> { t.checkpointTip }

  lemma SetsAreWrites(names: Names)
    ensures Writes(names, SetsLifecycle, LifecycleOf) && Writes(names, SetsTransport, TransportOf)
    ensures Writes(names, SetsEnvironment, EnvironmentOf) && Writes(names, SetsTip, TipOf)
  {
    forall revision, t, req | Effect(names, revision, t, req).Some?
      ensures ColumnsOf(Effect(names, revision, t, req).value) == AfterRequest(ColumnsOf(t), req)
    {
      EffectColumns(names, revision, t, req);
    }
  }

  datatype Columns = Columns(lifecycle: Lifecycle, transport: Option<Id>, environment: Option<Id>, tip: Option<Id>)

  function ColumnsOf(t: Tracked): Columns { Columns(t.lifecycle, t.transport, t.environment, t.checkpointTip) }

  /** What a request makes of the four columns. */
  function AfterRequest(c: Columns, req: Request): Columns {
    match req
    case Checkpoint(_, observedTip, _, _) => c.(tip := observedTip)
    case SetLifecycle(_, target, _) => c.(lifecycle := target)
    case SetTransport(transport, _) => c.(transport := Some(transport))
    case AttachEnvironment(manifest, _, _) => c.(environment := Some(manifest))
    case _ => c
  }

  lemma EffectColumns(names: Names, revision: int, t: Tracked, req: Request)
    requires Effect(names, revision, t, req).Some?
    ensures ColumnsOf(Effect(names, revision, t, req).value) == AfterRequest(ColumnsOf(t), req)
  {
  }

  lemma EffectLifecycle(names: Names, revision: int, t: Tracked, req: Request)
    requires Effect(names, revision, t, req).Some?
    ensures var to := Effect(names, revision, t, req).value.lifecycle;
      if req.SetLifecycle? then LegalLifecycle(t.lifecycle, to) else to == t.lifecycle
  {
  }

  lemma LifecycleSteps(names: Names, base: int, s: System)
    requires HistoryOk(names, base, s)
    ensures forall i :: 0 <= i < |s.log| ==> LifecycleStep(s, i)
  {
    forall i | 0 <= i < |s.log| ensures LifecycleStep(s, i) {
      assert StepExplained(names, base, s, i);
      EffectLifecycle(names, base + i, s.history[i], s.log[i].req);
    }
  }

  /** Last writers. After any interleaving the lifecycle, the working transport, the environment manifest and the
      checkpoint's tip are those of the last committed request that sets them, or the ones at the start; and every
      committed pause or resume started from a state that allows it. */
  lemma LastWritersWin(names: Names, tables: Tables, actions: seq<Action>)
    ensures var s := Run(names, Start(tables), actions);
      var before, after := tables.row.tracked, s.tables.row.tracked;
      && after.lifecycle == LastSet(s.log, SetsLifecycle, before.lifecycle)
      && after.transport == LastSet(s.log, SetsTransport, before.transport)
      && after.environment == LastSet(s.log, SetsEnvironment, before.environment)
      && after.checkpointTip == LastSet(s.log, SetsTip, before.checkpointTip)
      && |s.log| < |s.history| && forall i :: 0 <= i < |s.log| ==> LifecycleStep(s, i)
  {
    Serialization(names, tables, actions);
    var s, base := Run(names, Start(tables), actions), tables.row.revision;
    assert s.log[..|s.log|] == s.log;
    SetsAreWrites(names);
    LastWriter(names, base, s, |s.log|, SetsLifecycle, LifecycleOf);
    LastWriter(names, base, s, |s.log|, SetsTransport, TransportOf);
    LastWriter(names, base, s, |s.log|, SetsEnvironment, EnvironmentOf);
    LastWriter(names, base, s, |s.log|, SetsTip, TipOf);
    LifecycleSteps(names, base, s);
  }

  /** The actor a request stamps. */
  function ActorOf(req: Request): Option<Id> {
    if req.Checkpoint? || req.Transition? || req.SetLifecycle? then Some(req.actor) else None
  }

  /** The revision of the actor's last commit that stamps it. */
  function LastSeen(log: seq<Commit>, base: int, actor: Id): Option<int>
    decreases |log|
  {
    if log == [] then None
    else if ActorOf(log[|log| - 1].req) == Some(actor) then Some(base + |log|)
    else LastSeen(log[..|log| - 1], base, actor)
  }

  /** The actor is listed, and only with this revision. */
  ghost predicate Stamped(actors: seq<Actor>, actor: Id, revision: int) {
    && (exists e :: e in actors && e.id == actor)
    && (forall e :: e in actors && e.id == actor ==> e.lastRevision == Some(revision))
  }

  lemma StampKept(actors: seq<Actor>, actor: Id, revision: int, checkpoint: Option<Id>, other: Id, seen: int)
    requires other != actor && Stamped(actors, other, seen)
    ensures Stamped(Touch(actors, actor, revision, checkpoint), other, seen)
  {
    var r := Touch(actors, actor, revision, checkpoint);
    TouchMeaning(actors, actor, revision, checkpoint);
    var e :| e in actors && e.id == other;
    assert e in multiset(actors) && e in multiset(r);
    forall x | x in r && x.id == other ensures x.lastRevision == Some(seen) {
      assert x in multiset(r) && x in multiset(actors);
    }
  }

  function CheckpointOf(names: Names, revision: int, t: Tracked, req: Request): Option<Id> {
    if req.Checkpoint? then Some(names.checkpoint(revision, t, req)) else None
  }

  lemma EffectActors(names: Names, revision: int, t: Tracked, req: Request)
    requires Effect(names, revision, t, req).Some?
    ensures Effect(names, revision, t, req).value.actors
            == if ActorOf(req).None? then t.actors
               else Touch(t.actors, ActorOf(req).value, revision + 1, CheckpointOf(names, revision, t, req))
  {
  }

  lemma EffectStamps(names: Names, revision: int, t: Tracked, req: Request, actor: Id)
    requires Effect(names, revision, t, req).Some?
    ensures var actors := Effect(names, revision, t, req).value.actors;
      if ActorOf(req) == Some(actor) then Stamped(actors, actor, revision + 1)
      else forall seen :: Stamped(t.actors, actor, seen) ==> Stamped(actors, actor, seen)
  {
    EffectActors(names, revision, t, req);
    var c := CheckpointOf(names, revision, t, req);
    if ActorOf(req).Some? {
      TouchMeaning(t.actors, ActorOf(req).value, revision + 1, c);
      if ActorOf(req).value != actor {
        forall seen | Stamped(t.actors, actor, seen)
          ensures Stamped(Touch(t.actors, ActorOf(req).value, revision + 1, c), actor, seen)
        {
          StampKept(t.actors, ActorOf(req).value, revision + 1, c, actor, seen);
        }
      }
    }
  }

  lemma StampsStep(names: Names, base: int, s: System, m: nat, actor: Id)
    requires HistoryOk(names, base, s) && m < |s.log|
    ensures if ActorOf(s.log[m].req) == Some(actor) then Stamped(s.history[m + 1].actors, actor, base + m + 1)
            else forall seen ::
                   Stamped(s.history[m].actors, actor, seen) ==> Stamped(s.history[m + 1].actors, actor, seen)
  {
    assert StepExplained(names, base, s, m);
    EffectStamps(names, base + m, s.history[m], s.log[m].req, actor);
  }

  lemma {:induction false} StampsPrefix(names: Names, base: int, s: System, n: nat, actor: Id)
    requires HistoryOk(names, base, s) && n <= |s.log| && LastSeen(s.log[..n], base, actor).Some?
    ensures Stamped(s.history[n].actors, actor, LastSeen(s.log[..n], base, actor).value)
  {
    if n > 0 {
      var m: nat := n - 1;
      assert s.log[..n][..m] == s.log[..m];
      StampsStep(names, base, s, m, actor);
      if ActorOf(s.log[m].req) != Some(actor) { StampsPrefix(names, base, s, m, actor); }
    }
  }

  /** Actor stamps. After any interleaving every actor whose checkpoint, transition or lifecycle call committed is
      listed, and with the revision of its last such commit. */
  lemma ActorStamps(names: Names, tables: Tables, actions: seq<Action>, actor: Id)
    ensures var s := Run(names, Start(tables), actions);
      var seen := LastSeen(s.log, tables.row.revision, actor);
      seen.Some? ==> Stamped(s.tables.row.tracked.actors, actor, seen.value)
  {
    Serialization(names, tables, actions);
    var s, base := Run(names, Start(tables), actions), tables.row.revision;
    assert s.log[..|s.log|] == s.log;
    if LastSeen(s.log, base, actor).Some? { StampsPrefix(names, base, s, |s.log|, actor); }
  }

  /*** Ledger history ***/

  ghost predicate DistinctTasks(ledger: seq<Task>) {
    forall i, j :: 0 <= i < j < |ledger| ==> ledger[i].id != ledger[j].id
  }

  /** The ledger read as a map from task to state. */
  function StateMap(ledger: seq<Task>): map<Id, TaskState> {
    if ledger == [] then map[]
    else StateMap(ledger[..|ledger| - 1])[ledger[|ledger| - 1].id := ledger[|ledger| - 1].state]
  }

  /** The event a committed request inserted, if it was a task transition. */
  function EventOf(names: Names, revision: int, t: Tracked, req: Request): Option<Event> {
    match Prepare(names, Row(revision, t, Loose(None, [], None)), req)
    case Go(InsertEvent(e), _) => Some(e)
    case _ => None
  }

  /** The committed events among the first n commits, in revision order. */
  ghost function CommittedEvents(names: Names, base: int, s: System, n: nat): seq<Event>
    requires n <= |s.log| <= |s.history|
  {
    if n == 0 then []
    else
      var before := CommittedEvents(names, base, s, n - 1);
      match EventOf(names, base + n - 1, s.history[n - 1], s.log[n - 1].req)
      case Some(e) => before + [e]
      case None => before
  }

  function Replay(states: map<Id, TaskState>, events: seq<Event>): map<Id, TaskState> {
    if events == [] then states
    else Replay(states, events[..|events| - 1])[events[|events| - 1].task := events[|events| - 1].to]
  }

  lemma {:induction false} StateMapAt(ledger: seq<Task>, task: Id)
    requires DistinctTasks(ledger)
    ensures task in StateMap(ledger) <==> Lookup(ledger, task).Some?
    ensures task in StateMap(ledger) ==> StateMap(ledger)[task] == Lookup(ledger, task).value.state
  {
    if ledger != [] {
      var n := |ledger| - 1;
      StateMapAt(ledger[..n], task);
      var k := IndexOf(ledger[..n], task);
      if k < n || ledger[n].id != task {
        IndexUnique(ledger, task, if k < n then k else n + 1);
      } else {
        IndexUnique(ledger, task, n);
      }
    }
  }

  /** Ledgers that agree everywhere but at one task have state maps that do. */
  lemma StateMapUpdate(ledger: seq<Task>, ledger': seq<Task>, task: Id, to: TaskState)
    requires DistinctTasks(ledger) && DistinctTasks(ledger')
    requires Lookup(ledger', task).Some? && Lookup(ledger', task).value.state == to
    requires forall x :: x != task ==> Lookup(ledger', x) == Lookup(ledger, x)
    ensures StateMap(ledger') == StateMap(ledger)[task := to]
  {
    forall x
      ensures x in StateMap(ledger') <==> x in StateMap(ledger)[task := to]
      ensures x in StateMap(ledger') ==> StateMap(ledger')[x] == StateMap(ledger)[task := to][x]
    {
      StateMapAt(ledger, x);
      StateMapAt(ledger', x);
    }
  }

  lemma TransitionKeepsDistinct(ledger: seq<Task>, ledger': seq<Task>, task: Id)
    requires DistinctTasks(ledger) && |ledger| <= |ledger'| <= |ledger| + 1
    requires forall i :: 0 <= i < |ledger| ==> ledger'[i].id == ledger[i].id
    requires |ledger'| > |ledger| ==> Lookup(ledger, task).None? && ledger'[|ledger|].id == task
    ensures DistinctTasks(ledger')
  {
  }

  /** One commit moves the state map by exactly its event, along a legal edge; a commit without an event
      leaves the ledger alone. */
  lemma CommitMovesLedger(names: Names, revision: int, t: Tracked, t': Tracked, req: Request)
    requires Effect(names, revision, t, req) == Some(t') && DistinctTasks(t.ledger)
    ensures DistinctTasks(t'.ledger)
    ensures var e := EventOf(names, revision, t, req);
      if e.None? then t'.ledger == t.ledger
      else
        && StateMap(t'.ledger) == StateMap(t.ledger)[e.value.task := e.value.to]
        && e.value.revision == revision + 1
        && (e.value.task in StateMap(t.ledger) ==>
              e.value.from == Some(StateMap(t.ledger)[e.value.task])
                && e.value.to in Transitions(StateMap(t.ledger)[e.value.task]))
        && (e.value.task !in StateMap(t.ledger) ==> e.value.from == None)
  {
    if req.Transition? {
      TransitionMeaning(names, revision, t, req);
      TransitionKeepsDistinct(t.ledger, t'.ledger, req.task);
      StateMapUpdate(t.ledger, t'.ledger, req.task, req.to);
      StateMapAt(t.ledger, req.task);
    } else {
      assert EventOf(names, revision, t, req).None?;
    }
  }

  lemma ReplayOne(states: map<Id, TaskState>, events: seq<Event>, e: Event)
    ensures Replay(states, events + [e]) == Replay(states, events)[e.task := e.to]
  {
    assert (events + [e])[..|events|] == events;
  }

  /** One more commit: the events replayed so far, and its own if it has one. */
  lemma CommittedNext(names: Names, base: int, s: System, n: nat, seed: map<Id, TaskState>)
    requires n < |s.log| <= |s.history|
    ensures var e := EventOf(names, base + n, s.history[n], s.log[n].req);
      var before := Replay(seed, CommittedEvents(names, base, s, n));
      Replay(seed, CommittedEvents(names, base, s, n + 1))
      == if e.Some? then before[e.value.task := e.value.to] else before
  {
    var e := EventOf(names, base + n, s.history[n], s.log[n].req);
    if e.Some? { ReplayOne(seed, CommittedEvents(names, base, s, n), e.value); }
  }

  lemma {:induction false} ReplayPrefix(names: Names, base: int, s: System, n: nat)
    requires HistoryOk(names, base, s) && n <= |s.log| && DistinctTasks(s.history[0].ledger)
    ensures DistinctTasks(s.history[n].ledger)
    ensures StateMap(s.history[n].ledger) == Replay(StateMap(s.history[0].ledger), CommittedEvents(names, base, s, n))
  {
    if n > 0 {
      var m: nat := n - 1;
      ReplayPrefix(names, base, s, m);
      assert StepExplained(names, base, s, m);
      CommitMovesLedger(names, base + m, s.history[m], s.history[n], s.log[m].req);
      CommittedNext(names, base, s, m, StateMap(s.history[0].ledger));
    }
  }

  /** Commit i leaves the ledger alone or moves one task, an existing one along an edge. */
  ghost predicate LegalCommit(names: Names, base: int, s: System, i: nat)
    requires i < |s.log| < |s.history|
  {
    var e := EventOf(names, base + i, s.history[i], s.log[i].req);
    var states := StateMap(s.history[i].ledger);
    && (e.None? ==> s.history[i + 1].ledger == s.history[i].ledger)
    && (e.Some? && e.value.task in states ==>
          e.value.from == Some(states[e.value.task]) && e.value.to in Transitions(states[e.value.task]))
  }

  lemma CommitIsLegal(names: Names, base: int, s: System, i: nat)
    requires HistoryOk(names, base, s) && i < |s.log| && DistinctTasks(s.history[0].ledger)
    ensures LegalCommit(names, base, s, i)
  {
    ReplayPrefix(names, base, s, i);
    assert StepExplained(names, base, s, i);
    CommitMovesLedger(names, base + i, s.history[i], s.history[i + 1], s.log[i].req);
  }

  /** Ledger history. For a seed without repeated task ids, after any interleaving the ledger's task-to-state
      map is the seed's with the committed events replayed in revision order, whatever uncommitted events the
      table also holds; and every committed change of an existing task follows an edge. */
  lemma LedgerHistory(names: Names, tables: Tables, actions: seq<Action>)
    requires DistinctTasks(tables.row.tracked.ledger)
    ensures var s := Run(names, Start(tables), actions);
      && |s.history| == |s.log| + 1
      && StateMap(s.tables.row.tracked.ledger)
         == Replay(StateMap(tables.row.tracked.ledger), CommittedEvents(names, tables.row.revision, s, |s.log|))
      && forall i :: 0 <= i < |s.log| ==> LegalCommit(names, tables.row.revision, s, i)
  {
    Serialization(names, tables, actions);
    var s := Run(names, Start(tables), actions);
    var base := tables.row.revision;
    ReplayPrefix(names, base, s, |s.log|);
    forall i | 0 <= i < |s.log| ensures LegalCommit(names, base, s, i) { CommitIsLegal(names, base, s, i); }
  }
}
