/** The brokered multi-turn read loop (src/delegate-loop.js) against an adversary: the bootstrap, the model, the policy
    preview and the executor may answer anything, as functions of everything that happened before. */
module BrokeredLoop {
  import opened Ordering
  import opened StableJson

  type ToolId = StableJson.Text

  const MAX_TOOL_CALLS := 16

  /*** The allowlist ***/

  /** A registry entry; None stands for an id that is not a non-blank string. */
  datatype Entry = Entry(id: Option<ToolId>, read: bool, automatic: bool, available: bool)

  predicate AutomaticRead(e: Entry) { e.read && e.automatic && e.available && e.id.Some? }

  function ListAutomaticReads(registry: seq<Entry>): seq<ToolId> {
    Sort(Map(Filter(registry, (e: Entry) => AutomaticRead(e)), (e: Entry) => if e.id.Some? then e.id.value else []),
         TextLeq)
  }

  /** A profile can only narrow. */
  function ResolveAllowlist(registry: seq<Entry>, profile: Option<set<ToolId>>): seq<ToolId> {
    var automatic := ListAutomaticReads(registry);
    if profile.None? then automatic else Filter(automatic, (id: ToolId) => id in profile.value)
  }

  predicate Offers(e: Entry, id: ToolId) { e.read && e.automatic && e.available && e.id == Some(id) }

  lemma ListedMeaning(registry: seq<Entry>, id: ToolId)
    ensures id in ListAutomaticReads(registry) <==> exists e :: e in registry && Offers(e, id)
  {
    var name := (e: Entry) => if e.id.Some? then e.id.value else [];
    var listed := Filter(registry, (e: Entry) => AutomaticRead(e));
    SortMultiset(Map(listed, name), TextLeq);
    if e :| e in registry && Offers(e, id) {
      assert e in listed;
      var k :| 0 <= k < |listed| && listed[k] == e;
      assert Map(listed, name)[k] == id;
    }
    if id in Map(listed, name) {
      var k :| 0 <= k < |listed| && Map(listed, name)[k] == id;
      assert listed[k] in listed && Offers(listed[k], id);
    }
  }

  lemma AllowlistMeaning(registry: seq<Entry>, profile: Option<set<ToolId>>, id: ToolId)
    ensures id in ResolveAllowlist(registry, profile)
            <==> (profile.Some? ==> id in profile.value) && exists e :: e in registry && Offers(e, id)
  {
    ListedMeaning(registry, id);
  }

  /*** The loop ***/

  /** One call to the executor, and whether it really ran. */
  datatype Call = Call(turn: nat, ordinal: nat, tool: ToolId, ran: bool)

  datatype Verdict = PreviewFailed | Allow | Deny | RequireAuthorization | AnythingElse
  datatype Executed = Failed | Refused | Ran

  /** A model turn fails, or proposes intents; one that does not normalize is None. */
  datatype World = World(
    boot: (nat, seq<Call>) -> bool,
    model: (nat, seq<Call>) -> Option<seq<Option<ToolId>>>,
    preview: Option<(nat, nat, seq<Call>) -> Verdict>,
    execute: (nat, nat, seq<Call>) -> Executed)

  datatype Reason = InvalidIntent | PreviewError | NeedsAuthorization | Denied | NotAllowlisted | BudgetSpent
    | ExecutionFailed | ExecutionRefused
  datatype Stop = FinalAnswer | Budget | MaxTurns | BootstrapFailed | RouteFailed
    | Blocked(ordinal: nat, reason: Reason)

  datatype Ended = Ended(stop: Stop, turn: nat, log: seq<Call>, executed: nat, modelCalls: nat)

  /** The ok field of the result. */
  predicate IsOk(e: Ended) { e.stop.FinalAnswer? || e.stop.Budget? }

  /** Everything checked before the executor is called. */
  function Gate(w: World, allow: seq<ToolId>, turn: nat, k: nat, intent: Option<ToolId>, log: seq<Call>,
                executed: nat): Option<Reason> {
    if intent.None? then Some(InvalidIntent)
    else
      var verdict := if w.preview.Some? then w.preview.value(turn, k, log) else Allow;
      if verdict.PreviewFailed? then Some(PreviewError)
      else if verdict.RequireAuthorization? then Some(NeedsAuthorization)
      else if verdict.Deny? then Some(Denied)
      else if intent.value !in allow then Some(NotAllowlisted)
      else if !verdict.Allow? then Some(Denied)
      else if executed >= MAX_TOOL_CALLS then Some(BudgetSpent)
      else None
  }

  datatype TurnEnd = TurnEnd(log: seq<Call>, executed: nat, blocked: Option<(nat, Reason)>)

  function TryIntents(w: World, allow: seq<ToolId>, turn: nat, intents: seq<Option<ToolId>>, k: nat, log: seq<Call>,
                      executed: nat): TurnEnd
    requires k <= |intents|
    decreases |intents| - k
  {
    if k == |intents| then TurnEnd(log, executed, None)
    else
      match Gate(w, allow, turn, k, intents[k], log, executed)
      case Some(reason) => TurnEnd(log, executed, Some((k, reason)))
      case None =>
        var answer := w.execute(turn, k, log);
        var log' := log + [Call(turn, k, intents[k].value, answer.Ran?)];
        match answer
        case Failed => TurnEnd(log', executed, Some((k, ExecutionFailed)))
        case Refused => TurnEnd(log', executed, Some((k, ExecutionRefused)))
        case Ran => TryIntents(w, allow, turn, intents, k + 1, log', executed + 1)
  }

  function Turns(w: World, allow: seq<ToolId>, maxTurns: nat, turn: nat, log: seq<Call>, executed: nat,
                 modelCalls: nat): Ended
    decreases if turn <= maxTurns then maxTurns + 1 - turn else 0
  {
    if turn > maxTurns then Ended(MaxTurns, turn, log, executed, modelCalls)
    else if !w.boot(turn, log) then Ended(BootstrapFailed, turn, log, executed, modelCalls)
    else
      match w.model(turn, log)
      case None => Ended(RouteFailed, turn, log, executed, modelCalls + 1)
      case Some(intents) =>
        if intents == [] then Ended(FinalAnswer, turn, log, executed, modelCalls + 1)
        else if executed >= MAX_TOOL_CALLS then Ended(Budget, turn, log, executed, modelCalls + 1)
        else
          var end := TryIntents(w, allow, turn, intents, 0, log, executed);
          if end.blocked.Some? then
            Ended(Blocked(end.blocked.value.0, end.blocked.value.1), turn, end.log, end.executed, modelCalls + 1)
          else if turn == maxTurns then Ended(MaxTurns, turn, end.log, end.executed, modelCalls + 1)
          else Turns(w, allow, maxTurns, turn + 1, end.log, end.executed, modelCalls + 1)
  }

  method RunTurn(w: World, allow: seq<ToolId>, turn: nat, intents: seq<Option<ToolId>>, start: seq<Call>, before: nat)
    returns (end: TurnEnd)
    ensures end == TryIntents(w, allow, turn, intents, 0, start, before)
  {
    var log: seq<Call>, executed: nat := start, before;
    for k := 0 to |intents|
      invariant TryIntents(w, allow, turn, intents, k, log, executed)
              == TryIntents(w, allow, turn, intents, 0, start, before)
    {
      if intents[k].None? { return TurnEnd(log, executed, Some((k, InvalidIntent))); }
      var decision := Allow;
      if w.preview.Some? {
        decision := w.preview.value(turn, k, log);
        if decision.PreviewFailed? { return TurnEnd(log, executed, Some((k, PreviewError))); }
      }
      if decision.RequireAuthorization? { return TurnEnd(log, executed, Some((k, NeedsAuthorization))); }
      if decision.Deny? { return TurnEnd(log, executed, Some((k, Denied))); }
      if intents[k].value !in allow { return TurnEnd(log, executed, Some((k, NotAllowlisted))); }
      if w.preview.Some? && decision != Allow { return TurnEnd(log, executed, Some((k, Denied))); }
      if executed >= MAX_TOOL_CALLS { return TurnEnd(log, executed, Some((k, BudgetSpent))); }
      var answer := w.execute(turn, k, log);
      log := log + [Call(turn, k, intents[k].value, answer.Ran?)];
      if answer.Failed? { return TurnEnd(log, executed, Some((k, ExecutionFailed))); }
      if answer.Refused? { return TurnEnd(log, executed, Some((k, ExecutionRefused))); }
      executed := executed + 1;
    }
    end := TurnEnd(log, executed, None);
  }

  /** runBrokeredReadLoop, once its dependencies are there: None when the allowlist is empty. */
  method RunBrokeredReadLoop(w: World, registry: seq<Entry>, profile: Option<set<ToolId>>, maxTurns: nat, initial: nat)
    returns (r: Option<Ended>)
    ensures var allow := ResolveAllowlist(registry, profile);
      r == if allow == [] then None else Some(Turns(w, allow, maxTurns, 1, [], initial, 0))
  {
    var allow := ResolveAllowlist(registry, profile);
    if |allow| == 0 { return None; }
    var log: seq<Call>, executed: nat, modelCalls: nat, turn: nat := [], initial, 0, 1;
    while turn <= maxTurns
      invariant 1 <= turn
      invariant Turns(w, allow, maxTurns, turn, log, executed, modelCalls)
              == Turns(w, allow, maxTurns, 1, [], initial, 0)
    {
      if !w.boot(turn, log) { return Some(Ended(BootstrapFailed, turn, log, executed, modelCalls)); }
      var routed := w.model(turn, log);
      if routed.None? { return Some(Ended(RouteFailed, turn, log, executed, modelCalls + 1)); }
      modelCalls := modelCalls + 1;
      var intents := routed.value;
      if |intents| == 0 { return Some(Ended(FinalAnswer, turn, log, executed, modelCalls)); }
      if executed >= MAX_TOOL_CALLS { return Some(Ended(Budget, turn, log, executed, modelCalls)); }
      var end := RunTurn(w, allow, turn, intents, log, executed);
      log, executed := end.log, end.executed;
      if end.blocked.Some? {
        return Some(Ended(Blocked(end.blocked.value.0, end.blocked.value.1), turn, log, executed, modelCalls));
      }
      if turn == maxTurns { return Some(Ended(MaxTurns, turn, log, executed, modelCalls)); }
      turn := turn + 1;
    }
    r := Some(Ended(MaxTurns, turn, log, executed, modelCalls));
  }

  /*** Every call is justified by what came before ***/

  ghost predicate AllRan(log: seq<Call>) { forall i :: 0 <= i < |log| ==> log[i].ran }

  /** What the model proposed in the turn of c, given the calls before c. */
  function Proposed(w: World, before: seq<Call>, turn: nat, ordinal: nat): Option<seq<Option<ToolId>>>
    requires ordinal <= |before|
  {
    w.model(turn, before[..|before| - ordinal])
  }

  /** c is the next thing a lawful loop may do after the calls before it: nothing was blocked yet; the tool is allowed
      and was proposed at that place of a turn that booted; the preview allows it; every earlier intent of the turn ran,
      and every intent of the turn before; and the budget is not spent. */
  ghost predicate Justified(w: World, allow: seq<ToolId>, initial: nat, before: seq<Call>, c: Call) {
    && AllRan(before) && initial + |before| < MAX_TOOL_CALLS && c.tool in allow && c.ordinal <= |before|
    && (w.preview.Some? ==> w.preview.value(c.turn, c.ordinal, before).Allow?)
    && (c.ran <==> w.execute(c.turn, c.ordinal, before).Ran?)
    && var proposed := Proposed(w, before, c.turn, c.ordinal);
       && w.boot(c.turn, before[..|before| - c.ordinal])
       && proposed.Some? && c.ordinal < |proposed.value| && proposed.value[c.ordinal] == Some(c.tool)
       && (forall j :: 0 <= j < c.ordinal ==>
             var b := before[|before| - c.ordinal + j];
             b.turn == c.turn && b.ordinal == j && proposed.value[j] == Some(b.tool))
       && TurnBefore(w, before[..|before| - c.ordinal], c.turn)
  }

  /** The calls so far end a whole turn, and this is the next one. */
  ghost predicate TurnBefore(w: World, done: seq<Call>, turn: nat) {
    if done == [] then turn == 1
    else
      var last := done[|done| - 1];
      && last.turn + 1 == turn && last.ordinal < |done|
      && var proposed := Proposed(w, done[..|done| - 1], last.turn, last.ordinal);
         proposed.Some? && |proposed.value| == last.ordinal + 1
  }

  ghost predicate JustifiedAt(w: World, allow: seq<ToolId>, initial: nat, log: seq<Call>, i: nat) {
    i < |log| && Justified(w, allow, initial, log[..i], log[i])
  }

  ghost predicate Lawful(w: World, allow: seq<ToolId>, initial: nat, log: seq<Call>) {
    forall i: nat {:trigger JustifiedAt(w, allow, initial, log, i)} :: i < |log| ==>
      JustifiedAt(w, allow, initial, log, i)
  }

  lemma LawfulMore(w: World, allow: seq<ToolId>, initial: nat, log: seq<Call>, c: Call)
    requires Lawful(w, allow, initial, log) && Justified(w, allow, initial, log, c)
    ensures Lawful(w, allow, initial, log + [c])
  {
    var more := log + [c];
    forall i: nat | i < |more| ensures JustifiedAt(w, allow, initial, more, i) {
      if i < |log| {
        assert more[..i] == log[..i];
        assert JustifiedAt(w, allow, initial, log, i);
      } else {
        assert more[..i] == log;
      }
    }
  }

  /** Past `start` the log holds the calls of one turn, ordinal by ordinal. */
  ghost predicate InTurn(turn: nat, start: seq<Call>, log: seq<Call>) {
    && |start| <= |log| && start == log[..|start|]
    && forall j {:trigger log[j]} :: |start| <= j < |log| ==> log[j].turn == turn && log[j].ordinal == j - |start|
  }

  /** They are for the intents proposed, in order. */
  ghost predicate Follows(intents: seq<Option<ToolId>>, start: seq<Call>, log: seq<Call>) {
    && |start| <= |log| <= |start| + |intents|
    && forall j {:trigger log[j]} :: |start| <= j < |log| ==> intents[j - |start|] == Some(log[j].tool)
  }

  ghost predicate TurnSoFar(turn: nat, intents: seq<Option<ToolId>>, start: seq<Call>, log: seq<Call>) {
    AllRan(log) && InTurn(turn, start, log) && Follows(intents, start, log)
  }

  /** How a turn ends: nothing blocked and every intent ran; or the intent at k was blocked, exactly the k before it
      ran, and only a blocked execution is in the log. */
  ghost predicate TurnGood(w: World, allow: seq<ToolId>, initial: nat, turn: nat, intents: seq<Option<ToolId>>,
                           start: seq<Call>, end: TurnEnd) {
    && Lawful(w, allow, initial, end.log) && InTurn(turn, start, end.log)
    && if end.blocked.None? then
         TurnSoFar(turn, intents, start, end.log) && |end.log| == |start| + |intents|
           && end.executed == initial + |end.log|
       else Interrupted(initial, start, end)
  }

  ghost predicate Interrupted(initial: nat, start: seq<Call>, end: TurnEnd)
    requires end.blocked.Some?
  {
    var (k, reason) := end.blocked.value;
    var ran := |start| + k;
    && end.executed == initial + ran && ran <= |end.log| && AllRan(end.log[..ran])
    && if reason.ExecutionFailed? || reason.ExecutionRefused? then |end.log| == ran + 1 && !end.log[ran].ran
       else |end.log| == ran
  }

  lemma NextCall(w: World, allow: seq<ToolId>, initial: nat, turn: nat, intents: seq<Option<ToolId>>, start: seq<Call>,
                 log: seq<Call>, c: Call)
    requires TurnSoFar(turn, intents, start, log) && |log| < |start| + |intents|
    requires w.boot(turn, start) && w.model(turn, start) == Some(intents) && TurnBefore(w, start, turn)
    requires var k := |log| - |start|;
      && Gate(w, allow, turn, k, intents[k], log, initial + |log|).None?
      && c == Call(turn, k, intents[k].value, w.execute(turn, k, log).Ran?)
    ensures Justified(w, allow, initial, log, c)
  {
    assert log[..|log| - c.ordinal] == start;
    forall j | 0 <= j < c.ordinal
      ensures var b := log[|log| - c.ordinal + j]; b.turn == c.turn && b.ordinal == j && intents[j] == Some(b.tool)
    {
      assert log[|start| + j].turn == turn;
    }
  }

  lemma CallMade(w: World, allow: seq<ToolId>, initial: nat, turn: nat, intents: seq<Option<ToolId>>, start: seq<Call>,
                 log: seq<Call>, c: Call)
    requires Lawful(w, allow, initial, log) && TurnSoFar(turn, intents, start, log) && |log| < |start| + |intents|
    requires Justified(w, allow, initial, log, c) && c.turn == turn && c.ordinal == |log| - |start|
            && intents[c.ordinal] == Some(c.tool)
    ensures Lawful(w, allow, initial, log + [c]) && InTurn(turn, start, log + [c])
    ensures c.ran ==> TurnSoFar(turn, intents, start, log + [c])
  {
    LawfulMore(w, allow, initial, log, c);
  }

  lemma StoppedAtGate(w: World, allow: seq<ToolId>, initial: nat, turn: nat, intents: seq<Option<ToolId>>,
                      start: seq<Call>, log: seq<Call>, reason: Reason)
    requires Lawful(w, allow, initial, log) && TurnSoFar(turn, intents, start, log)
    requires !reason.ExecutionFailed? && !reason.ExecutionRefused?
    ensures TurnGood(w, allow, initial, turn, intents, start,
                     TurnEnd(log, initial + |log|, Some((|log| - |start|, reason))))
  {
    assert log[..|log|] == log;
  }

  lemma StoppedAtExecution(w: World, allow: seq<ToolId>, initial: nat, turn: nat, intents: seq<Option<ToolId>>,
                           start: seq<Call>,
                           log: seq<Call>, c: Call, reason: Reason)
    requires Lawful(w, allow, initial, log + [c]) && InTurn(turn, start, log + [c]) && AllRan(log) && !c.ran
            && |start| <= |log|
    requires reason.ExecutionFailed? || reason.ExecutionRefused?
    ensures TurnGood(w, allow, initial, turn, intents, start,
                     TurnEnd(log + [c], initial + |log|, Some((|log| - |start|, reason))))
  {
    assert (log + [c])[..|log|] == log;
  }

  lemma {:induction false} TurnLawful(w: World, allow: seq<ToolId>, initial: nat, turn: nat,
                                      intents: seq<Option<ToolId>>, k: nat, start: seq<Call>, log: seq<Call>)
    requires Lawful(w, allow, initial, log) && TurnSoFar(turn, intents, start, log) && |log| == |start| + k
            && k <= |intents|
    requires w.boot(turn, start) && w.model(turn, start) == Some(intents) && TurnBefore(w, start, turn)
    ensures TurnGood(w, allow, initial, turn, intents, start,
                     TryIntents(w, allow, turn, intents, k, log, initial + |log|))
    decreases |intents| - k
  {
    if k < |intents| {
      var gate := Gate(w, allow, turn, k, intents[k], log, initial + |log|);
      if gate.Some? {
        StoppedAtGate(w, allow, initial, turn, intents, start, log, gate.value);
      } else {
        var c := Call(turn, k, intents[k].value, w.execute(turn, k, log).Ran?);
        NextCall(w, allow, initial, turn, intents, start, log, c);
        CallMade(w, allow, initial, turn, intents, start, log, c);
        if c.ran {
          TurnLawful(w, allow, initial, turn, intents, k + 1, start, log + [c]);
        } else {
          var reason := if w.execute(turn, k, log).Failed? then ExecutionFailed else ExecutionRefused;
          StoppedAtExecution(w, allow, initial, turn, intents, start, log, c, reason);
        }
      }
    }
  }

  lemma WholeTurn(w: World, turn: nat, intents: seq<Option<ToolId>>, start: seq<Call>, log: seq<Call>)
    requires TurnSoFar(turn, intents, start, log) && |log| == |start| + |intents|
    requires intents != [] && w.model(turn, start) == Some(intents)
    ensures TurnBefore(w, log, turn + 1)
  {
    var last := log[|log| - 1];
    assert last.turn == turn && last.ordinal == |intents| - 1;
    assert log[..|log| - 1][..|start|] == start;
  }

  /*** The whole loop ***/

  ghost predicate TurnsBelow(log: seq<Call>, turn: nat) {
    forall i {:trigger log[i]} :: 0 <= i < |log| ==> log[i].turn < turn
  }

  /** No call lies past the intent at k of the turn. */
  ghost predicate NothingPast(log: seq<Call>, turn: nat, k: nat) {
    forall i {:trigger log[i]} :: 0 <= i < |log| ==> log[i].turn < turn || (log[i].turn == turn && log[i].ordinal <= k)
  }

  ghost predicate OnlyLastFailed(log: seq<Call>) { log != [] && AllRan(log[..|log| - 1]) && !log[|log| - 1].ran }

  /** What a finished loop looks like. */
  ghost predicate Sound(w: World, allow: seq<ToolId>, initial: nat, e: Ended) {
    && Lawful(w, allow, initial, e.log)
    && match e.stop
       case Blocked(k, reason) =>
         && NothingPast(e.log, e.turn, k)
         && (if reason.ExecutionFailed? || reason.ExecutionRefused? then OnlyLastFailed(e.log)
             && e.executed == initial + |e.log| - 1
             else AllRan(e.log) && e.executed == initial + |e.log|)
       case FinalAnswer => AllRan(e.log) && e.executed == initial + |e.log| && w.model(e.turn, e.log) == Some([])
       case Budget =>
         && AllRan(e.log) && e.executed == initial + |e.log| && e.executed >= MAX_TOOL_CALLS
         && w.model(e.turn, e.log).Some? && w.model(e.turn, e.log).value != []
       case _ => AllRan(e.log) && e.executed == initial + |e.log|
  }

  lemma BlockedSound(w: World, allow: seq<ToolId>, initial: nat, turn: nat, intents: seq<Option<ToolId>>,
                     start: seq<Call>, end: TurnEnd, calls: nat)
    requires TurnGood(w, allow, initial, turn, intents, start, end) && end.blocked.Some? && TurnsBelow(start, turn)
    ensures Sound(w, allow, initial,
                  Ended(Blocked(end.blocked.value.0, end.blocked.value.1), turn, end.log, end.executed, calls))
  {
    forall i | 0 <= i < |start| ensures end.log[i].turn < turn { assert end.log[i] == start[i]; }
    assert end.log[..|end.log|] == end.log;
  }

  lemma StopSound(w: World, allow: seq<ToolId>, initial: nat, turn: nat, log: seq<Call>, stop: Stop, calls: nat)
    requires Lawful(w, allow, initial, log) && AllRan(log) && !stop.Blocked?
    requires stop.FinalAnswer? ==> w.model(turn, log) == Some([])
    requires stop.Budget? ==>
            initial + |log| >= MAX_TOOL_CALLS && w.model(turn, log).Some? && w.model(turn, log).value != []
    ensures Sound(w, allow, initial, Ended(stop, turn, log, initial + |log|, calls))
  {
  }

  lemma {:induction false} TurnsSound(w: World, allow: seq<ToolId>, maxTurns: nat, initial: nat, turn: nat,
                                      log: seq<Call>, calls: nat)
    requires turn >= 1 && Lawful(w, allow, initial, log) && AllRan(log) && TurnsBelow(log, turn) && calls + 1 == turn
    requires TurnBefore(w, log, turn)
    ensures var e := Turns(w, allow, maxTurns, turn, log, initial + |log|, calls);
      Sound(w, allow, initial, e) && e.modelCalls <= (if maxTurns < calls then calls else maxTurns)
    decreases if turn <= maxTurns then maxTurns + 1 - turn else 0, 1
  {
    if turn > maxTurns {
      StopSound(w, allow, initial, turn, log, MaxTurns, calls);
    } else if !w.boot(turn, log) {
      StopSound(w, allow, initial, turn, log, BootstrapFailed, calls);
    } else if w.model(turn, log).None? {
      StopSound(w, allow, initial, turn, log, RouteFailed, calls + 1);
    } else if w.model(turn, log).value == [] {
      StopSound(w, allow, initial, turn, log, FinalAnswer, calls + 1);
    } else if initial + |log| >= MAX_TOOL_CALLS {
      StopSound(w, allow, initial, turn, log, Budget, calls + 1);
    } else {
      TurnSound(w, allow, maxTurns, initial, turn, log, calls);
    }
  }

  /** A turn in which intents are tried. */
  lemma TurnSound(w: World, allow: seq<ToolId>, maxTurns: nat, initial: nat, turn: nat, log: seq<Call>, calls: nat)
    requires turn >= 1 && Lawful(w, allow, initial, log) && AllRan(log) && TurnsBelow(log, turn) && calls + 1 == turn
    requires TurnBefore(w, log, turn) && turn <= maxTurns && w.boot(turn, log)
    requires w.model(turn, log).Some? && w.model(turn, log).value != [] && initial + |log| < MAX_TOOL_CALLS
    ensures var e := Turns(w, allow, maxTurns, turn, log, initial + |log|, calls);
      Sound(w, allow, initial, e) && e.modelCalls <= maxTurns
    decreases maxTurns + 1 - turn, 0
  {
    var intents := w.model(turn, log).value;
    var end := TryIntents(w, allow, turn, intents, 0, log, initial + |log|);
    TurnLawful(w, allow, initial, turn, intents, 0, log, log);
    if end.blocked.Some? {
      BlockedSound(w, allow, initial, turn, intents, log, end, calls + 1);
    } else if turn == maxTurns {
      StopSound(w, allow, initial, turn, end.log, MaxTurns, calls + 1);
    } else {
      WholeTurn(w, turn, intents, log, end.log);
      NextTurns(turn, log, end.log);
      TurnsSound(w, allow, maxTurns, initial, turn + 1, end.log, calls + 1);
    }
  }

  lemma NextTurns(turn: nat, start: seq<Call>, log: seq<Call>)
    requires InTurn(turn, start, log) && TurnsBelow(start, turn)
    ensures TurnsBelow(log, turn + 1)
  {
    forall i | 0 <= i < |log| ensures log[i].turn < turn + 1 {
      if i < |start| { assert log[i] == start[i]; }
    }
  }

  lemma {:induction false} RanBudget(w: World, allow: seq<ToolId>, initial: nat, log: seq<Call>)
    requires Lawful(w, allow, initial, log)
    ensures log == [] || initial + |log| <= MAX_TOOL_CALLS
    ensures forall i :: 0 <= i < |log| ==> log[i].tool in allow
  {
    forall i | 0 <= i < |log| ensures log[i].tool in allow { assert JustifiedAt(w, allow, initial, log, i); }
    if log != [] { assert JustifiedAt(w, allow, initial, log, |log| - 1); }
  }

  /** An end that is sound and ran within the budget. */
  lemma SoundEnd(w: World, allow: seq<ToolId>, initial: nat, e: Ended)
    requires Sound(w, allow, initial, e)
    ensures forall i :: 0 <= i < |e.log| ==> e.log[i].tool in allow
    ensures IsOk(e) ==>
              w.model(e.turn, e.log) == Some([]) || (e.executed >= MAX_TOOL_CALLS && w.model(e.turn, e.log).Some?)
  {
    forall i | 0 <= i < |e.log| ensures e.log[i].tool in allow { assert JustifiedAt(w, allow, initial, e.log, i); }
  }

  /** Against every adversary: each executor call is lawful and its tool allowed, the executed total never passes
      max(initial, 16), there are at most max_turns model calls, nothing is called past a blocked intent, and an ok
      result means that the last turn proposed nothing or that the budget was already spent. */
  lemma LoopSafety(w: World, registry: seq<Entry>, profile: Option<set<ToolId>>, maxTurns: nat, initial: nat)
    ensures var allow := ResolveAllowlist(registry, profile);
      var e := Turns(w, allow, maxTurns, 1, [], initial, 0);
      && Sound(w, allow, initial, e)
      && (forall i :: 0 <= i < |e.log| ==> e.log[i].tool in allow)
      && e.executed <= (if initial < MAX_TOOL_CALLS then MAX_TOOL_CALLS else initial)
      && e.modelCalls <= maxTurns
      && (IsOk(e) ==>
            w.model(e.turn, e.log) == Some([]) || (e.executed >= MAX_TOOL_CALLS && w.model(e.turn, e.log).Some?))
  {
    var allow := ResolveAllowlist(registry, profile);
    var e := Turns(w, allow, maxTurns, 1, [], initial, 0);
    TurnsSound(w, allow, maxTurns, initial, 1, [], 0);
    RanBudget(w, allow, initial, e.log);
    SoundEnd(w, allow, initial, e);
  }
}
