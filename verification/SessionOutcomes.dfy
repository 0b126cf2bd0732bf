/** What each Code Session call answers and writes, case by case, and which rows the append-only tables hold after any
    interleaving (src/code-session.js, src/environment-sandbox.js). */
module SessionOutcomes {
  import opened Ordering
  import opened CodeSession
  import opened SessionSerial

  /** A base is required, and must be the row's revision. */
  ghost predicate BaseHolds(t: Tables, req: Request) { 1 <= req.base == t.row.revision }

  /** What every call keeps: a committed one had the current base and moves the revision on by one; a failed one leaves
      the session row alone; and the append-only tables only grow. */
  lemma CallKeeps(names: Names, t: Tables, req: Request)
    ensures var (t', r) := Atomically(names, t, req);
      && (r.Committed? ==> req.base == t.row.revision && t'.row.revision == r.revision == req.base + 1)
      && (r.Failed? ==> t'.row == t.row && (t' == t || req.Receipt?))
      && t.events <= t'.events && t.checkpoints <= t'.checkpoints && t.receipts <= t'.receipts
  {
  }

  /** A checkpoint: the four refusals in their order write nothing; a commit inserts the checkpoint, points the row at
      it and at the tip observed, and stamps the caller. */
  lemma CheckpointOutcome(names: Names, t: Tables, req: Request)
    requires req.Checkpoint?
    ensures var (t', r) := Atomically(names, t, req);
      var id := names.checkpoint(t.row.revision, t.row.tracked, req);
      var raced := req.observedTip.None? || (req.expectedTip.Some? && req.expectedTip != req.observedTip);
      && (r == Failed(BaseRequired) <==> req.base < 1)
      && (r == Failed(Conflict) <==> 1 <= req.base != t.row.revision)
      && (r == Failed(TipRace) <==> BaseHolds(t, req) && raced)
      && (r == Failed(AlreadyExists) <==> BaseHolds(t, req) && !raced && id in t.checkpoints)
      && (r.Failed? ==> t' == t && r.error in {BaseRequired, Conflict, TipRace, AlreadyExists})
      && (r.Committed? ==>
            && t'.events == t.events && t'.receipts == t.receipts && t'.checkpoints == t.checkpoints + {id}
            && t'.row.loose == t.row.loose.(tip := req.observedTip)
            && t'.row.tracked == t.row.tracked.(
                                   latestCheckpoint := Some(id), checkpointTip := req.observedTip,
                                   actors := Touch(t.row.tracked.actors, req.actor, req.base + 1, Some(id))))
  {
  }

  /** The edges of the task ledger, by where they lead: any task that is not over can be abandoned, only active and
      reviewed work is done, and a task that is over can only be queued again. */
  lemma EdgesInto(from: TaskState, to: TaskState)
    ensures to in Transitions(from) <==>
              match to
              case Queued => from.Claimed? || from.Blocked? || from.Done? || from.Abandoned?
              case Claimed => from.Queued? || from.Active?
              case Active => from.Queued? || from.Claimed? || from.Blocked? || from.Review?
              case Blocked => from.Claimed? || from.Active? || from.Review?
              case Review => from.Active? || from.Blocked?
              case Done => from.Active? || from.Review?
              case Abandoned => !from.Done? && !from.Abandoned?
  {
  }

  /** Whether a task may move so: along an edge, or into the ledger with a title. */
  predicate MayMove(t: Tables, req: Request)
    requires req.Transition?
  {
    var before := Lookup(t.row.tracked.ledger, req.task);
    if before.Some? then req.to in Transitions(before.value.state) else req.title.Some?
  }

  /** The event that tells a move: from the state the task had, with the author and note its entry gets. */
  function MoveOf(t: Tables, req: Request): Event
    requires req.Transition?
  {
    var before := Lookup(t.row.tracked.ledger, req.task);
    var author := if before.Some? && before.value.author.Some? then before.value.author
                  else if req.author.Some? then req.author else Some(req.actor);
    var note := if req.note.Some? then req.note else if before.Some? then before.value.note else None;
    Event(req.task, if before.Some? then Some(before.value.state) else None, req.to, req.actor, author, note,
          req.base + 1, req.now)
  }

  ghost predicate EventTaken(names: Names, t: Tables, e: Event) {
    exists i :: 0 <= i < |t.events| && t.events[i].id == names.event(e)
  }

  /** What a transition prepares, once its base holds. */
  lemma TransitionPlan(names: Names, t: Tables, req: Request)
    requires req.Transition? && BaseHolds(t, req)
    ensures var before := Lookup(t.row.tracked.ledger, req.task);
      Prepare(names, t.row, req)
      == if !MayMove(t, req) then Refuse(if before.Some? then IllegalTransition else TitleRequired)
         else Go(InsertEvent(MoveOf(t, req)),
                 WriteLedger(Placed(t.row.tracked.ledger, EntryFor(before, req)),
                             Touch(t.row.tracked.actors, req.actor, req.base + 1, None)))
  {
  }

  /** A task transition: its refusals write nothing; a commit appends the event that tells the move, under an id that
      was free, and writes the ledger and the actors only (TransitionMeaning says how). */
  lemma TransitionOutcome(names: Names, t: Tables, req: Request)
    requires req.Transition?
    ensures var (t', r) := Atomically(names, t, req);
      var known, e := Lookup(t.row.tracked.ledger, req.task).Some?, MoveOf(t, req);
      && (r == Failed(BaseRequired) <==> req.base < 1)
      && (r == Failed(Conflict) <==> 1 <= req.base != t.row.revision)
      && (r == Failed(IllegalTransition) <==> BaseHolds(t, req) && known && !MayMove(t, req))
      && (r == Failed(TitleRequired) <==> BaseHolds(t, req) && !known && !MayMove(t, req))
      && (r == Failed(AlreadyExists) <==> BaseHolds(t, req) && MayMove(t, req) && EventTaken(names, t, e))
      && (r.Failed? ==> t' == t && r.error in {BaseRequired, Conflict, IllegalTransition, TitleRequired, AlreadyExists})
      && (r.Committed? ==>
            var tracked := t.row.tracked;
            && t' == t.(events := t.events + [EventRow(names.event(e), e)], row := t'.row)
            && t'.row.loose == t.row.loose
            && t'.row.tracked == tracked.(ledger := t'.row.tracked.ledger,
                                          actors := Touch(tracked.actors, req.actor, req.base + 1, None)))
  {
    if BaseHolds(t, req) { TransitionPlan(names, t, req); }
  }

  /** The entry a transition leaves is dated by the call. */
  lemma TransitionDated(names: Names, t: Tables, req: Request)
    requires req.Transition? && Atomically(names, t, req).1.Committed?
    ensures var entry := Lookup(Atomically(names, t, req).0.row.tracked.ledger, req.task);
      entry.Some? && entry.value.updatedAt == req.now
  {
    TransitionPlan(names, t, req);
    PlacedMeaning(t.row.tracked.ledger, EntryFor(Lookup(t.row.tracked.ledger, req.task), req));
  }

  /** A pause, resume or any other lifecycle move: refused exactly from a state that does not allow it, and otherwise
      written with the caller's stamp. */
  lemma LifecycleOutcome(names: Names, t: Tables, req: Request)
    requires req.SetLifecycle?
    ensures var (t', r) := Atomically(names, t, req);
      var from := t.row.tracked.lifecycle;
      && (r == Failed(BaseRequired) <==> req.base < 1)
      && (r == Failed(Conflict) <==> 1 <= req.base != t.row.revision)
      && (r == Failed(PauseInvalid) <==> BaseHolds(t, req) && req.target.Paused? && !LegalLifecycle(from, req.target))
      && (r == Failed(ResumeInvalid) <==>
            BaseHolds(t, req) && req.target == Lifecycle.Active && !LegalLifecycle(from, req.target))
      && (r.Failed? ==> t' == t && r.error in {BaseRequired, Conflict, PauseInvalid, ResumeInvalid})
      && (r.Committed? ==>
            && LegalLifecycle(from, req.target)
            && t' == t.(row := Row(req.base + 1,
                                   t.row.tracked.(lifecycle := req.target,
                                                  actors := Touch(t.row.tracked.actors, req.actor, req.base + 1, None)),
                                   t.row.loose)))
  {
  }

  /** The working transport takes any base, the environment manifest a usable manifest first; each writes its one
      column. */
  lemma ColumnOutcome(names: Names, t: Tables, req: Request)
    requires req.SetTransport? || req.AttachEnvironment?
    ensures var (t', r) := Atomically(names, t, req);
      && (r == Failed(BaseRequired) <==> req.AttachEnvironment? && req.base < 1)
      && (r == Failed(ManifestNotFound) <==> req.AttachEnvironment? && req.base >= 1 && req.lookup.Missing?)
      && (r == Failed(ManifestMismatch) <==> req.AttachEnvironment? && req.base >= 1 && req.lookup.OtherWorkspace?)
      && (r == Failed(Conflict) <==>
            req.base != t.row.revision && (req.AttachEnvironment? ==> req.base >= 1 && req.lookup.Usable?))
      && (r.Failed? ==> t' == t && r.error in {BaseRequired, ManifestNotFound, ManifestMismatch, Conflict})
      && (r.Committed? ==>
            var next := if req.SetTransport? then t.row.tracked.(transport := Some(req.transport))
                        else t.row.tracked.(environment := Some(req.manifest));
            t' == t.(row := Row(req.base + 1, next, t.row.loose)))
  {
  }

  /** A receipt with a base: a new receipt row is kept whatever becomes of the base, and a commit puts the receipt first
      among at most a hundred references. */
  lemma ReceiptOutcome(names: Names, t: Tables, req: Request)
    requires req.Receipt?
    ensures var (t', r) := Atomically(names, t, req);
      var known := req.receipt in t.receipts;
      && (r == Failed(AlreadyExists) <==> known)
      && (r == Failed(BaseRequired) <==> !known && req.base < 1)
      && (r == Failed(Conflict) <==> !known && 1 <= req.base != t.row.revision)
      && (r.Failed? ==> r.error in {AlreadyExists, BaseRequired, Conflict})
      && t'.receipts == t.receipts + {req.receipt} && t'.events == t.events && t'.checkpoints == t.checkpoints
      && (r.Failed? ==> t'.row == t.row)
      && (r.Committed? ==>
            && t'.row == Row(req.base + 1, t.row.tracked, t.row.loose.(receipts := t'.row.loose.receipts))
            && var kept := t'.row.loose.receipts;
               && |kept| == (if |t.row.loose.receipts| < 100 then |t.row.loose.receipts| + 1 else 100)
               && kept[0] == req.receipt && kept[1..] == t.row.loose.receipts[..|kept| - 1])
  {
    if req.receipt in t.receipts { assert t.receipts + {req.receipt} == t.receipts; }
  }

  /*** The rows behind the commits ***/

  /** The insert is in its table. */
  ghost predicate Stored(names: Names, t: Tables, insert: Insert) {
    match insert
    case NoInsert => true
    case InsertEvent(e) => EventRow(names.event(e), e) in t.events
    case InsertCheckpoint(id) => id in t.checkpoints
    case InsertReceipt(id) => id in t.receipts
  }

  /** The append-only tables only grow. */
  ghost predicate Grows(t: Tables, t': Tables) {
    t.events <= t'.events && t.checkpoints <= t'.checkpoints && t.receipts <= t'.receipts
  }

  lemma StoredLater(names: Names, t: Tables, t': Tables, insert: Insert)
    requires Stored(names, t, insert) && Grows(t, t')
    ensures Stored(names, t', insert)
  {
    if insert.InsertEvent? {
      var i :| 0 <= i < |t.events| && t.events[i] == EventRow(names.event(insert.event), insert.event);
      assert t'.events[i] == t.events[i];
    }
  }

  /** What a request inserts when it reads these columns. */
  ghost function InsertOf(names: Names, revision: int, t: Tracked, req: Request): Insert {
    match Prepare(names, Row(revision, t, Loose(None, [], None)), req)
    case Refuse(_) => NoInsert
    case Go(insert, _) => insert
  }

  /** A caller past its insert has the row stored. */
  ghost predicate PhaseStored(names: Names, s: System, p: Phase) {
    match p
    case Planned(req, seen, insert, write) =>
      insert == InsertOf(names, seen.revision, seen.tracked, req)
    case Inserted(req, seen, _) => Stored(names, s.tables, InsertOf(names, seen.revision, seen.tracked, req))
    case _ => true
  }

  ghost predicate CommitStored(names: Names, base: int, s: System, i: nat)
    requires i < |s.log| < |s.history|
  {
    Stored(names, s.tables, InsertOf(names, base + i, s.history[i], s.log[i].req))
  }

  ghost predicate RowsInv(names: Names, base: int, s: System) {
    && |s.history| == |s.log| + 1
    && (forall c {:trigger PhaseStored(names, s, s.callers[c])} :: c in s.callers ==>
        PhaseStored(names, s, s.callers[c]))
    && (forall i {:trigger CommitStored(names, base, s, i)} :: 0 <= i < |s.log| ==> CommitStored(names, base, s, i))
  }

  lemma InsertIgnoresLoose(names: Names, seen: Row, req: Request)
    ensures InsertOf(names, seen.revision, seen.tracked, req)
            == match Prepare(names, seen, req) case Refuse(_) => NoInsert case Go(insert, _) => insert
  {
  }

  lemma StepGrows(names: Names, s: System, a: Action)
    ensures Grows(s.tables, Step(names, s, a).tables)
  {
  }

  lemma PhaseStoredLater(names: Names, s: System, s': System, p: Phase)
    requires PhaseStored(names, s, p) && Grows(s.tables, s'.tables)
    ensures PhaseStored(names, s', p)
  {
    if p.Inserted? { StoredLater(names, s.tables, s'.tables, InsertOf(names, p.seen.revision, p.seen.tracked, p.req)); }
  }

  /** The caller that moved has its row stored when it should. */
  lemma MoverStored(names: Names, base: int, s: System, a: Action, c: CallerId)
    requires RowsInv(names, base, s) && c in Step(names, s, a).callers
    requires c in s.callers ==> Step(names, s, a).callers[c] != s.callers[c]
    ensures PhaseStored(names, Step(names, s, a), Step(names, s, a).callers[c])
  {
    if a.Read? && a.c == c { InsertIgnoresLoose(names, s.tables.row, s.callers[c].req); }
    if a.Append? && a.c == c {
      var p := s.callers[c];
      assert PhaseStored(names, s, p);
      if CanInsert(names, s.tables, p.insert) { InsertStores(names, s.tables, p.insert); }
    }
  }

  lemma InsertStores(names: Names, t: Tables, insert: Insert)
    ensures Stored(names, AfterInsert(names, t, insert), insert)
  {
  }

  lemma StepKeepsRows(names: Names, base: int, s: System, a: Action)
    requires Inv(names, base, s) && RowsInv(names, base, s)
    ensures RowsInv(names, base, Step(names, s, a))
  {
    var s' := Step(names, s, a);
    StepGrows(names, s, a);
    forall c | c in s'.callers ensures PhaseStored(names, s', s'.callers[c]) {
      if c in s.callers && s'.callers[c] == s.callers[c] {
        assert PhaseStored(names, s, s.callers[c]);
        PhaseStoredLater(names, s, s', s.callers[c]);
      } else {
        MoverStored(names, base, s, a, c);
      }
    }
    forall i | 0 <= i < |s'.log| ensures CommitStored(names, base, s', i) {
      if i < |s.log| {
        assert CommitStored(names, base, s, i);
        assert s'.log[i] == s.log[i] && s'.history[i] == s.history[i];
        StoredLater(names, s.tables, s'.tables, InsertOf(names, base + i, s.history[i], s.log[i].req));
      } else {
        NewCommitStored(names, base, s, a.c);
      }
    }
  }

  /** A winning UPDATE's own insert is there: it read the revision it hits. */
  lemma NewCommitStored(names: Names, base: int, s: System, c: CallerId)
    requires Inv(names, base, s) && RowsInv(names, base, s) && c in s.callers && s.callers[c].Inserted?
    requires s.tables.row.revision == s.callers[c].req.base
    ensures CommitStored(names, base, Step(names, s, Update(c)), |s.log|)
  {
    var p := s.callers[c];
    assert PhaseOk(names, base, s, p) && PhaseStored(names, s, p);
    assert p.seen.revision == base + |s.log| && p.seen.tracked == s.history[|s.log|];
  }

  lemma {:induction false} RunKeepsRows(names: Names, tables: Tables, actions: seq<Action>)
    ensures RowsInv(names, tables.row.revision, Run(names, Start(tables), actions))
    ensures Grows(tables, Run(names, Start(tables), actions).tables)
    decreases |actions|
  {
    if actions != [] {
      var before, a := actions[..|actions| - 1], actions[|actions| - 1];
      RunKeepsRows(names, tables, before);
      RunKeepsInv(names, tables, before);
      StepKeepsRows(names, tables.row.revision, Run(names, Start(tables), before), a);
      StepGrows(names, Run(names, Start(tables), before), a);
    }
  }

  /** Committed rows. After any interleaving every row the tables started with is still there, and so is the row every
      committed operation inserted: its event, its checkpoint or its receipt. */
  lemma CommittedRows(names: Names, tables: Tables, actions: seq<Action>)
    ensures var s := Run(names, Start(tables), actions);
      && Grows(tables, s.tables)
      && |s.log| < |s.history| && forall i :: 0 <= i < |s.log| ==> CommitStored(names, tables.row.revision, s, i)
  {
    RunKeepsRows(names, tables, actions);
  }

  /** The last of the first n commits that made a checkpoint. */
  function LastCheckpoint(log: seq<Commit>): Option<nat> {
    if log == [] then None
    else if log[|log| - 1].req.Checkpoint? then Some(|log| - 1)
    else LastCheckpoint(log[..|log| - 1])
  }

  lemma CheckpointEffect(names: Names, revision: int, t: Tracked, req: Request)
    requires Effect(names, revision, t, req).Some?
    ensures Effect(names, revision, t, req).value.latestCheckpoint
            == if req.Checkpoint? then Some(names.checkpoint(revision, t, req)) else t.latestCheckpoint
    ensures req.Checkpoint? ==>
            InsertOf(names, revision, t, req) == InsertCheckpoint(names.checkpoint(revision, t, req))
  {
  }

  /** The latest checkpoint as the commits explain it. */
  ghost predicate LatestIs(names: Names, base: int, s: System, n: nat)
    requires n <= |s.log| < |s.history|
  {
    match LastCheckpoint(s.log[..n])
    case None => s.history[n].latestCheckpoint == s.history[0].latestCheckpoint
    case Some(i) =>
      && i < n && s.log[i].req.Checkpoint?
      && s.history[n].latestCheckpoint == Some(names.checkpoint(base + i, s.history[i], s.log[i].req))
  }

  lemma LatestStep(names: Names, base: int, s: System, m: nat)
    requires HistoryOk(names, base, s) && m < |s.log| && LatestIs(names, base, s, m)
    ensures LatestIs(names, base, s, m + 1)
  {
    assert StepExplained(names, base, s, m) && s.log[..m + 1][..m] == s.log[..m];
    CheckpointEffect(names, base + m, s.history[m], s.log[m].req);
  }

  lemma {:induction false} LatestPrefix(names: Names, base: int, s: System, n: nat)
    requires HistoryOk(names, base, s) && n <= |s.log|
    ensures LatestIs(names, base, s, n)
  {
    if n > 0 {
      var m: nat := n - 1;
      LatestPrefix(names, base, s, m);
      LatestStep(names, base, s, m);
    }
  }

  /** Latest checkpoint. After any interleaving the row points at the checkpoint the last committed checkpoint operation
      named, or at the one it started with, and in the first case that checkpoint is in its table. */
  lemma LatestCheckpoint(names: Names, tables: Tables, actions: seq<Action>)
    ensures var s, base := Run(names, Start(tables), actions), tables.row.revision;
      |s.log| < |s.history| &&
      match LastCheckpoint(s.log)
      case None => s.tables.row.tracked.latestCheckpoint == tables.row.tracked.latestCheckpoint
      case Some(i) =>
        && i < |s.log| && s.log[i].req.Checkpoint?
        && var id := names.checkpoint(base + i, s.history[i], s.log[i].req);
           s.tables.row.tracked.latestCheckpoint == Some(id) && id in s.tables.checkpoints
  {
    Serialization(names, tables, actions);
    CommittedRows(names, tables, actions);
    var s, base := Run(names, Start(tables), actions), tables.row.revision;
    LatestPrefix(names, base, s, |s.log|);
    assert s.log[..|s.log|] == s.log;
    if LastCheckpoint(s.log).Some? {
      var i := LastCheckpoint(s.log).value;
      assert StepExplained(names, base, s, i) && CommitStored(names, base, s, i);
      CheckpointEffect(names, base + i, s.history[i], s.log[i].req);
    }
  }
}
