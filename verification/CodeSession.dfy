/** The durable Code Session row and the six operations that write it under the session_revision
    guard (src/code-session.js, src/environment-sandbox.js). Identifiers are ordered values; a request
    carries its fields already trimmed and cut to length. */
module CodeSession {
  import opened Ordering

  type Id = nat
  type Label = string

  datatype Lifecycle = Active | Paused | Blocked | Proposed | Closed | Superseded
  datatype TaskState = Queued | Claimed | Active | Blocked | Review | Done | Abandoned

  /** The directed edges of the task ledger. */
  function Transitions(from: TaskState): set<TaskState> {
    match from
    case Queued => {Claimed, TaskState.Active, Abandoned}
    case Claimed => {TaskState.Active, Queued, TaskState.Blocked, Abandoned}
    case Active => {TaskState.Blocked, Review, Done, Abandoned, Claimed}
    case Blocked => {TaskState.Active, Queued, Review, Abandoned}
    case Review => {Done, TaskState.Active, TaskState.Blocked, Abandoned}
    case Done => {Queued}
    case Abandoned => {Queued}
  }

  datatype Task = Task(
    id: Id, title: Label, state: TaskState, actor: Option<Id>, author: Option<Id>, note: Option<Label>, updatedAt: int)
  datatype Actor = Actor(id: Id, role: Label, lastCheckpoint: Option<Id>, lastRevision: Option<int>)

  /** The columns written only under the revision guard. */
  datatype Tracked = Tracked(
    ledger: seq<Task>, lifecycle: Lifecycle, actors: seq<Actor>, latestCheckpoint: Option<Id>,
    checkpointTip: Option<Id>, transport: Option<Id>, environment: Option<Id>)

  /** Columns that also have writers outside the guard: tip refresh, receipts, sandbox pointer. */
  datatype Loose = Loose(tip: Option<Id>, receipts: seq<Id>, sandbox: Option<Id>)

  datatype Row = Row(revision: int, tracked: Tracked, loose: Loose)

  datatype Event = Event(
    task: Id, from: Option<TaskState>, to: TaskState, actor: Id, author: Option<Id>, note: Option<Label>,
    revision: int, at: int)

  datatype ManifestLookup = Missing | OtherWorkspace | Usable

  datatype Request =
    | Checkpoint(actor: Id, observedTip: Option<Id>, expectedTip: Option<Id>, base: int)
    | Transition(actor: Id, task: Id, to: TaskState, title: Option<Label>, note: Option<Label>,
                 author: Option<Id>, now: int, base: int)
    | SetLifecycle(actor: Id, target: Lifecycle, base: int)
    | SetTransport(transport: Id, base: int)
    | AttachEnvironment(manifest: Id, lookup: ManifestLookup, base: int)
    | Receipt(receipt: Id, base: int)

  datatype Error =
    | BaseRequired | Conflict | TipRace | IllegalTransition | TitleRequired | PauseInvalid | ResumeInvalid
    | AlreadyExists | ManifestNotFound | ManifestMismatch

  datatype Result = Committed(revision: int) | Failed(error: Error)

  /** The digests naming events and checkpoints; nothing is assumed of them. */
  datatype Names = Names(event: Event -> Id, checkpoint: (int, Tracked, Request) -> Id)

  datatype Insert = NoInsert | InsertEvent(event: Event) | InsertCheckpoint(id: Id) | InsertReceipt(id: Id)

  /** The SET list of the guarded UPDATE. */
  datatype Write =
    | WriteCheckpoint(checkpoint: Id, tip: Id, actors: seq<Actor>)
    | WriteLedger(ledger: seq<Task>, actors: seq<Actor>)
    | WriteLifecycle(lifecycle: Lifecycle, actors: seq<Actor>)
    | WriteTransport(transport: Id)
    | WriteEnvironment(manifest: Id)
    | WriteReceipts(receipts: seq<Id>)

  datatype Plan = Refuse(error: Error) | Go(insert: Insert, write: Write)

  const MAX_RECEIPT_REFS := 100

  predicate ActorLeq(a: Actor, b: Actor) { a.id <= b.id }

  /** The caller's entry is stamped with the new revision (and checkpoint), or added; entries are re-sorted. */
  function Touch(actors: seq<Actor>, actor: Id, revision: int, checkpoint: Option<Id>): seq<Actor> {
    var stamped := Map(actors, (e: Actor) =>
      if e.id == actor then
        e.(lastRevision := Some(revision), lastCheckpoint := if checkpoint.Some? then checkpoint else e.lastCheckpoint)
      else e);
    var added := if exists i :: 0 <= i < |actors| && actors[i].id == actor then []
                 else [Actor(actor, "participant", checkpoint, Some(revision))];
    Sort(stamped + added, ActorLeq)
  }

  /** findIndex over the ledger; the length when absent. */
  function IndexOf(ledger: seq<Task>, task: Id): (k: nat)
    ensures k <= |ledger|
    ensures k < |ledger| ==> ledger[k].id == task
    ensures forall i :: 0 <= i < k ==> ledger[i].id != task
  {
    if ledger == [] || ledger[0].id == task then 0 else 1 + IndexOf(ledger[1..], task)
  }

  function OrElse<T>(first: Option<T>, second: Option<T>): Option<T> {
    if first.Some? then first else second
  }

  /** The ledger entry a transition writes over the existing one, or adds. */
  function EntryFor(existing: Option<Task>, req: Request): Task
    requires req.Transition?
  {
    Task(
      req.task,
      if req.title.Some? then req.title.value else if existing.Some? then existing.value.title else "",
      req.to, Some(req.actor),
      if existing.Some? && existing.value.author.Some? then existing.value.author
      else OrElse(req.author, Some(req.actor)),
      if req.note.Some? then req.note else if existing.Some? then existing.value.note else None,
      req.now)
  }

  function EventFor(existing: Option<Task>, entry: Task, revision: int, req: Request): Event
    requires req.Transition?
  {
    var from := if existing.Some? then Some(existing.value.state) else None;
    Event(req.task, from, req.to, req.actor, entry.author, entry.note, revision, req.now)
  }

  function PlanTransition(seen: Row, req: Request): Plan
    requires req.Transition?
  {
    var ledger := seen.tracked.ledger;
    var k := IndexOf(ledger, req.task);
    var existing := if k < |ledger| then Some(ledger[k]) else None;
    if existing.Some? && req.to !in Transitions(existing.value.state) then Refuse(IllegalTransition)
    else if existing.None? && req.title.None? then Refuse(TitleRequired)
    else
      var entry := EntryFor(existing, req);
      Go(InsertEvent(EventFor(existing, entry, seen.revision + 1, req)),
         WriteLedger(if k < |ledger| then ledger[k := entry] else ledger + [entry],
                     Touch(seen.tracked.actors, req.actor, seen.revision + 1, None)))
  }

  /** What a caller decides from the row it read: refuse, or one insert and one guarded UPDATE. */
  function Prepare(names: Names, seen: Row, req: Request): Plan {
    if !req.SetTransport? && !req.Receipt? && req.base < 1 then Refuse(BaseRequired)
    else if req.AttachEnvironment? && req.lookup.Missing? then Refuse(ManifestNotFound)
    else if req.AttachEnvironment? && req.lookup.OtherWorkspace? then Refuse(ManifestMismatch)
    else if !req.Receipt? && seen.revision != req.base then Refuse(Conflict)
    else
      match req
      case Checkpoint(actor, observedTip, expectedTip, _) =>
        if observedTip.None? || (expectedTip.Some? && expectedTip != observedTip) then Refuse(TipRace)
        else
          var id := names.checkpoint(seen.revision, seen.tracked, req);
          Go(InsertCheckpoint(id),
             WriteCheckpoint(id, observedTip.value, Touch(seen.tracked.actors, actor, seen.revision + 1, Some(id))))
      case Transition(_, _, _, _, _, _, _, _) => PlanTransition(seen, req)
      case SetLifecycle(actor, target, _) =>
        if target.Paused? && !seen.tracked.lifecycle.Active? && !seen.tracked.lifecycle.Blocked? then
          Refuse(PauseInvalid)
        else if target.Active? && !seen.tracked.lifecycle.Paused? && !seen.tracked.lifecycle.Blocked? then
          Refuse(ResumeInvalid)
        else Go(NoInsert, WriteLifecycle(target, Touch(seen.tracked.actors, actor, seen.revision + 1, None)))
      case SetTransport(transport, _) => Go(NoInsert, WriteTransport(transport))
      case AttachEnvironment(manifest, _, _) => Go(NoInsert, WriteEnvironment(manifest))
      case Receipt(receipt, _) =>
        var refs := [receipt] + seen.loose.receipts;
        Go(InsertReceipt(receipt), WriteReceipts(if |refs| <= MAX_RECEIPT_REFS then refs else refs[..MAX_RECEIPT_REFS]))
  }

  /** The columns an UPDATE sets, over whatever the row holds when it runs. */
  function ApplyWrite(row: Row, w: Write): Row {
    var t := row.tracked;
    var next := match w
      case WriteCheckpoint(id, tip, actors) =>
        row.(tracked := t.(latestCheckpoint := Some(id), checkpointTip := Some(tip), actors := actors),
             loose := row.loose.(tip := Some(tip)))
      case WriteLedger(ledger, actors) => row.(tracked := t.(ledger := ledger, actors := actors))
      case WriteLifecycle(lifecycle, actors) => row.(tracked := t.(lifecycle := lifecycle, actors := actors))
      case WriteTransport(transport) => row.(tracked := t.(transport := Some(transport)))
      case WriteEnvironment(manifest) => row.(tracked := t.(environment := Some(manifest)))
      case WriteReceipts(receipts) => row.(loose := row.loose.(receipts := receipts));
    next.(revision := row.revision + 1)
  }

  datatype EventRow = EventRow(id: Id, event: Event)

  datatype Tables = Tables(row: Row, events: seq<EventRow>, checkpoints: set<Id>, receipts: set<Id>)

  /** UNIQUE on the primary keys of the three append-only tables. */
  predicate CanInsert(names: Names, t: Tables, insert: Insert) {
    match insert
    case NoInsert => true
    case InsertEvent(e) => forall i :: 0 <= i < |t.events| ==> t.events[i].id != names.event(e)
    case InsertCheckpoint(id) => id !in t.checkpoints
    case InsertReceipt(id) => id !in t.receipts
  }

  function AfterInsert(names: Names, t: Tables, insert: Insert): Tables {
    match insert
    case NoInsert => t
    case InsertEvent(e) => t.(events := t.events + [EventRow(names.event(e), e)])
    case InsertCheckpoint(id) => t.(checkpoints := t.checkpoints + {id})
    case InsertReceipt(id) => t.(receipts := t.receipts + {id})
  }

  /** The error found between the insert and the UPDATE: only the receipt path checks its base so late. */
  function LateError(seen: Row, req: Request): Option<Error> {
    if req.Receipt? && req.base < 1 then Some(BaseRequired)
    else if seen.revision != req.base then Some(Conflict)
    else None
  }

  /** A whole call with nothing in between: the new tables and the answer. */
  function Atomically(names: Names, t: Tables, req: Request): (Tables, Result) {
    match Prepare(names, t.row, req)
    case Refuse(error) => (t, Failed(error))
    case Go(insert, write) =>
      if !CanInsert(names, t, insert) then (t, Failed(AlreadyExists))
      else
        var t' := AfterInsert(names, t, insert);
        match LateError(t.row, req)
        case Some(error) => (t', Failed(error))
        case None => (t'.(row := ApplyWrite(t.row, write)), Committed(t.row.revision + 1))
  }

  lemma AtomicGo(names: Names, t: Tables, req: Request, insert: Insert, write: Write)
    requires Prepare(names, t.row, req) == Go(insert, write) && LateError(t.row, req).None?
    ensures Atomically(names, t, req)
            == if CanInsert(names, t, insert) then
                 (AfterInsert(names, t, insert).(row := ApplyWrite(t.row, write)), Committed(t.row.revision + 1))
               else (t, Failed(AlreadyExists))
  {
  }

  /** The D1 tables of one session, with the statements the operations are made of. */
  class SessionStore {
    const names: Names
    var row: Row
    var events: seq<EventRow>
    var checkpoints: set<Id>
    var receipts: set<Id>

    function View(): Tables
      reads this
    {
      Tables(row, events, checkpoints, receipts)
    }

    /** The row createCodeSession inserts: active, at revision 1, with whatever else its caller supplied. */
    constructor (names: Names, ledger: seq<Task>, actors: seq<Actor>, latestCheckpoint: Option<Id>,
                 checkpointTip: Option<Id>, transport: Option<Id>, environment: Option<Id>, loose: Loose)
      ensures this.names == names && fresh(this)
      ensures View() == Tables(
                          Row(1, Tracked(ledger, Lifecycle.Active, actors, latestCheckpoint, checkpointTip, transport,
                                         environment), loose),
                          [], {}, {})
    {
      this.names := names;
      row := Row(1, Tracked(ledger, Lifecycle.Active, actors, latestCheckpoint, checkpointTip, transport, environment),
                 loose);
      events, checkpoints, receipts := [], {}, {};
    }

    method InsertRow(insert: Insert) returns (ok: bool)
      modifies this
      ensures ok == CanInsert(names, old(View()), insert)
      ensures View() == if ok then AfterInsert(names, old(View()), insert) else old(View())
    {
      ok := true;
      match insert {
        case NoInsert =>
        case InsertEvent(e) =>
          var id := names.event(e);
          for i := 0 to |events|
            invariant events == old(events) && View() == old(View())
            invariant ok <==> forall j :: 0 <= j < i ==> events[j].id != id
          {
            if events[i].id == id { ok := false; }
          }
          if ok { events := events + [EventRow(id, e)]; }
        case InsertCheckpoint(id) =>
          ok := id !in checkpoints;
          if ok { checkpoints := checkpoints + {id}; }
        case InsertReceipt(id) =>
          ok := id !in receipts;
          if ok { receipts := receipts + {id}; }
      }
    }

    /** UPDATE code_sessions SET ... WHERE session_revision = base; the number of changed rows. */
    method GuardedUpdate(write: Write, base: int) returns (changes: nat)
      modifies `row
      ensures changes == if old(row).revision == base then 1 else 0
      ensures row == if changes == 1 then ApplyWrite(old(row), write) else old(row)
    {
      if row.revision != base { return 0; }
      row := ApplyWrite(row, write);
      changes := 1;
    }

    method Commit(insert: Insert, write: Write, base: int) returns (r: Result)
      modifies this
      ensures !CanInsert(names, old(View()), insert) ==> View() == old(View()) && r == Failed(AlreadyExists)
      ensures CanInsert(names, old(View()), insert) ==>
        var t := AfterInsert(names, old(View()), insert);
        if old(row).revision == base then View() == t.(row := ApplyWrite(old(row), write)) && r == Committed(base + 1)
        else View() == t && r == Failed(Conflict)
    {
      var inserted := InsertRow(insert);
      if !inserted { return Failed(AlreadyExists); }
      var changes := GuardedUpdate(write, base);
      r := if changes == 0 then Failed(Conflict) else Committed(base + 1);
    }

    method CreateCheckpoint(actor: Id, observedTip: Option<Id>, expectedTip: Option<Id>, base: int) returns (r: Result)
      modifies this
      ensures (View(), r) == Atomically(names, old(View()), Checkpoint(actor, observedTip, expectedTip, base))
    {
      if base < 1 { return Failed(BaseRequired); }
      var current := row;
      if current.revision != base { return Failed(Conflict); }
      if observedTip.None? { return Failed(TipRace); }
      if expectedTip.Some? && expectedTip != observedTip { return Failed(TipRace); }
      var id := names.checkpoint(current.revision, current.tracked, Checkpoint(actor, observedTip, expectedTip, base));
      var actors := Touch(current.tracked.actors, actor, current.revision + 1, Some(id));
      r := Commit(InsertCheckpoint(id), WriteCheckpoint(id, observedTip.value, actors), base);
    }

    method TransitionTask(actor: Id, task: Id, to: TaskState, title: Option<Label>, note: Option<Label>,
                          author: Option<Id>, now: int, base: int) returns (r: Result)
      modifies this
      ensures (View(), r) == Atomically(names, old(View()), Transition(actor, task, to, title, note, author, now, base))
    {
      if base < 1 { return Failed(BaseRequired); }
      var current := row;
      ghost var t, req := View(), Transition(actor, task, to, title, note, author, now, base);
      if current.revision != base { return Failed(Conflict); }
      var ledger := current.tracked.ledger;
      var index := IndexOf(ledger, task);
      var from, entry := None, Task(task, "", to, Some(actor), OrElse(author, Some(actor)), note, now);
      if index < |ledger| {
        var existing := ledger[index];
        if to !in Transitions(existing.state) { return Failed(IllegalTransition); }
        from := Some(existing.state);
        entry := entry.(title := existing.title, author := OrElse(existing.author, entry.author),
                        note := OrElse(note, existing.note));
      } else if title.None? {
        return Failed(TitleRequired);
      }
      if title.Some? { entry := entry.(title := title.value); }
      assert entry == EntryFor(if index < |ledger| then Some(ledger[index]) else None, req);
      var next := current.revision + 1;
      if index < |ledger| { ledger := ledger[index := entry]; } else { ledger := ledger + [entry]; }
      var event := Event(task, from, to, actor, entry.author, entry.note, next, now);
      var write := WriteLedger(ledger, Touch(current.tracked.actors, actor, next, None));
      AtomicGo(names, t, req, InsertEvent(event), write);
      r := Commit(InsertEvent(event), write, base);
    }

    method TransitionLifecycle(actor: Id, target: Lifecycle, base: int) returns (r: Result)
      modifies this
      ensures (View(), r) == Atomically(names, old(View()), SetLifecycle(actor, target, base))
    {
      if base < 1 { return Failed(BaseRequired); }
      var current := row;
      if current.revision != base { return Failed(Conflict); }
      var life := current.tracked.lifecycle;
      if target.Paused? {
        if !life.Active? && !life.Blocked? { return Failed(PauseInvalid); }
      } else if target.Active? {
        if !life.Paused? && !life.Blocked? { return Failed(ResumeInvalid); }
      }
      r := Commit(NoInsert, WriteLifecycle(target, Touch(current.tracked.actors, actor, base + 1, None)), base);
    }

    method SetWorkingTransport(transport: Id, base: int) returns (r: Result)
      modifies this
      ensures (View(), r) == Atomically(names, old(View()), SetTransport(transport, base))
    {
      if row.revision != base { return Failed(Conflict); }
      r := Commit(NoInsert, WriteTransport(transport), base);
    }

    method AttachManifest(manifest: Id, lookup: ManifestLookup, base: int) returns (r: Result)
      modifies this
      ensures (View(), r) == Atomically(names, old(View()), AttachEnvironment(manifest, lookup, base))
    {
      if base < 1 { return Failed(BaseRequired); }
      if lookup.Missing? { return Failed(ManifestNotFound); }
      if lookup.OtherWorkspace? { return Failed(ManifestMismatch); }
      if row.revision != base { return Failed(Conflict); }
      r := Commit(NoInsert, WriteEnvironment(manifest), base);
    }

    /** createExecutionReceipt with a base revision: the receipt row is kept even when the base is refused. */
    method CreateReceipt(receipt: Id, base: int) returns (r: Result)
      modifies this
      ensures (View(), r) == Atomically(names, old(View()), Receipt(receipt, base))
    {
      var refs := [receipt] + row.loose.receipts;
      if |refs| > MAX_RECEIPT_REFS { refs := refs[..MAX_RECEIPT_REFS]; }
      if base < 1 {
        var inserted := InsertRow(InsertReceipt(receipt));
        return Failed(if inserted then BaseRequired else AlreadyExists);
      }
      r := Commit(InsertReceipt(receipt), WriteReceipts(refs), base);
    }
  }
}
