/** Why the brokered read loop stops (src/delegate-loop.js): every stop is the one its guards call for, and no other. */
module LoopStops {
  import opened Ordering
  import opened BrokeredLoop

  /** The preview did not fail, ask for authorization or deny; without a preview there is nothing it could say. */
  ghost predicate PassedPreview(w: World, turn: nat, k: nat, before: seq<Call>) {
    w.preview.Some? ==>
      var v := w.preview.value(turn, k, before); v.Allow? || v.AnythingElse?
  }

  ghost predicate Allowed(w: World, turn: nat, k: nat, before: seq<Call>) {
    w.preview.Some? ==> w.preview.value(turn, k, before).Allow?
  }

  ghost predicate PreviewSays(w: World, turn: nat, k: nat, before: seq<Call>, v: Verdict) {
    w.preview.Some? && w.preview.value(turn, k, before) == v
  }

  /** The intent may be executed: it normalizes, the preview allows it, its tool is on the allowlist, and the budget is
      not spent. */
  ghost predicate MayExecute(w: World, allow: seq<ToolId>, turn: nat, k: nat, intent: Option<ToolId>, before: seq<Call>,
                             executed: nat) {
    intent.Some? && Allowed(w, turn, k, before) && intent.value in allow && executed < 16
  }

  /** What must be so for the intent at k to be blocked for a reason, after these calls. */
  ghost predicate Why(w: World, allow: seq<ToolId>, turn: nat, k: nat, intent: Option<ToolId>, before: seq<Call>,
                      executed: nat, reason: Reason) {
    match reason
    case InvalidIntent => intent.None?
    case PreviewError => intent.Some? && PreviewSays(w, turn, k, before, PreviewFailed)
    case NeedsAuthorization => intent.Some? && PreviewSays(w, turn, k, before, RequireAuthorization)
    case Denied =>
      && intent.Some?
      && ( || PreviewSays(w, turn, k, before, Deny)
           || (PreviewSays(w, turn, k, before, AnythingElse) && intent.value in allow))
    case NotAllowlisted => intent.Some? && PassedPreview(w, turn, k, before) && intent.value !in allow
    case BudgetSpent => intent.Some? && Allowed(w, turn, k, before) && intent.value in allow && executed >= 16
    case ExecutionFailed =>
      MayExecute(w, allow, turn, k, intent, before, executed) && w.execute(turn, k, before).Failed?
    case ExecutionRefused =>
      MayExecute(w, allow, turn, k, intent, before, executed) && w.execute(turn, k, before).Refused?
  }

  /** An intent either runs or is blocked, for one reason. */
  lemma OneReason(w: World, allow: seq<ToolId>, turn: nat, k: nat, intent: Option<ToolId>, before: seq<Call>,
                  executed: nat, a: Reason, b: Reason)
    requires Why(w, allow, turn, k, intent, before, executed, a) && Why(w, allow, turn, k, intent, before, executed, b)
    ensures a == b && !(MayExecute(w, allow, turn, k, intent, before, executed) && w.execute(turn, k, before).Ran?)
  {
  }

  lemma GateWhy(w: World, allow: seq<ToolId>, turn: nat, k: nat, intent: Option<ToolId>, log: seq<Call>, executed: nat)
    ensures match Gate(w, allow, turn, k, intent, log, executed)
            case None => MayExecute(w, allow, turn, k, intent, log, executed)
            case Some(reason) =>
              && Why(w, allow, turn, k, intent, log, executed, reason)
              && !reason.ExecutionFailed? && !reason.ExecutionRefused?
  {
  }

  predicate Executing(reason: Reason) { reason.ExecutionFailed? || reason.ExecutionRefused? }

  /** How the intents of a turn end, from the calls ahead of the turn: all ran, or the one at j was blocked for its
      reason after the j before it, a blocked execution alone being logged. */
  ghost predicate TurnEnds(w: World, allow: seq<ToolId>, initial: nat, turn: nat, intents: seq<Option<ToolId>>,
                           start: seq<Call>, end: TurnEnd) {
    && start <= end.log
    && match end.blocked
       case None => |end.log| == |start| + |intents| && end.executed == initial + |end.log|
       case Some((j, reason)) =>
         && j < |intents| && end.executed == initial + |start| + j
         && |end.log| == |start| + j + (if Executing(reason) then 1 else 0)
         && Why(w, allow, turn, j, intents[j], end.log[..|start| + j], initial + |start| + j, reason)
  }

  lemma EndsHere(w: World, allow: seq<ToolId>, initial: nat, turn: nat, intents: seq<Option<ToolId>>, start: seq<Call>,
                 log: seq<Call>, more: seq<Call>, reason: Reason)
    requires start <= log && |log| - |start| < |intents|
    requires Why(w, allow, turn, |log| - |start|, intents[|log| - |start|], log, initial + |log|, reason)
    requires |more| == if Executing(reason) then 1 else 0
    ensures TurnEnds(w, allow, initial, turn, intents, start,
                     TurnEnd(log + more, initial + |log|, Some((|log| - |start|, reason))))
  {
    assert (log + more)[..|log|] == log;
  }

  lemma {:induction false} IntentsEnd(w: World, allow: seq<ToolId>, initial: nat, turn: nat,
                                      intents: seq<Option<ToolId>>, k: nat, start: seq<Call>, log: seq<Call>)
    requires start <= log && |log| == |start| + k && k <= |intents|
    ensures TurnEnds(w, allow, initial, turn, intents, start,
                     TryIntents(w, allow, turn, intents, k, log, initial + |log|))
    decreases |intents| - k
  {
    if k < |intents| {
      var gate := Gate(w, allow, turn, k, intents[k], log, initial + |log|);
      GateWhy(w, allow, turn, k, intents[k], log, initial + |log|);
      if gate.Some? {
        EndsHere(w, allow, initial, turn, intents, start, log, [], gate.value);
        assert log + [] == log;
      } else {
        var answer := w.execute(turn, k, log);
        var c := Call(turn, k, intents[k].value, answer.Ran?);
        if answer.Ran? {
          IntentsEnd(w, allow, initial, turn, intents, k + 1, start, log + [c]);
        } else {
          EndsHere(w, allow, initial, turn, intents, start, log, [c],
                   if answer.Failed? then ExecutionFailed else ExecutionRefused);
        }
      }
    }
  }

  /** The last turn began after the first n calls, booted, and proposed these intents. */
  ghost predicate LastTurn(w: World, e: Ended, n: nat, intents: seq<Option<ToolId>>) {
    && n <= |e.log| && w.boot(e.turn, e.log[..n]) && w.model(e.turn, e.log[..n]) == Some(intents) && intents != []
  }

  ghost predicate BlockedAt(w: World, allow: seq<ToolId>, initial: nat, e: Ended, n: nat, intents: seq<Option<ToolId>>,
                            k: nat, reason: Reason) {
    && LastTurn(w, e, n, intents) && k < |intents| && n + k <= |e.log| && initial + n < 16
    && |e.log| == n + k + (if Executing(reason) then 1 else 0)
    && e.executed == initial + n + k
    && Why(w, allow, e.turn, k, intents[k], e.log[..n + k], initial + n + k, reason)
  }

  /** Why the loop stopped. */
  ghost predicate StopWhy(w: World, allow: seq<ToolId>, maxTurns: nat, initial: nat, e: Ended) {
    match e.stop
    case BootstrapFailed => e.turn <= maxTurns && e.modelCalls + 1 == e.turn && !w.boot(e.turn, e.log)
    case RouteFailed => e.turn == e.modelCalls <= maxTurns && w.boot(e.turn, e.log) && w.model(e.turn, e.log).None?
    case FinalAnswer =>
      e.turn == e.modelCalls <= maxTurns && w.boot(e.turn, e.log) && w.model(e.turn, e.log) == Some([])
    case Budget =>
      && e.turn == e.modelCalls <= maxTurns && e.executed >= 16
      && exists intents :: LastTurn(w, e, |e.log|, intents)
    case MaxTurns =>
      || (maxTurns == 0 && e == Ended(MaxTurns, 1, [], initial, 0))
      || (e.turn == e.modelCalls == maxTurns
          && exists n: nat, intents :: LastTurn(w, e, n, intents) && |e.log| == n + |intents|)
    case Blocked(k, reason) =>
      && e.turn == e.modelCalls <= maxTurns
      && exists n: nat, intents :: BlockedAt(w, allow, initial, e, n, intents, k, reason)
  }

  lemma {:induction false} TurnsStop(w: World, allow: seq<ToolId>, maxTurns: nat, initial: nat, turn: nat,
                                     log: seq<Call>)
    requires 1 <= turn && (turn == 1 || turn <= maxTurns) && (turn == 1 ==> log == [])
    ensures StopWhy(w, allow, maxTurns, initial, Turns(w, allow, maxTurns, turn, log, initial + |log|, turn - 1))
    decreases if turn <= maxTurns then maxTurns + 1 - turn else 0, 1
  {
    assert log[..|log|] == log;
    if turn <= maxTurns && w.boot(turn, log) && w.model(turn, log).Some? && w.model(turn, log).value != [] {
      var intents := w.model(turn, log).value;
      if initial + |log| >= 16 {
        assert LastTurn(w, Ended(Budget, turn, log, initial + |log|, turn), |log|, intents);
      } else {
        TriedTurn(w, allow, maxTurns, initial, turn, log);
      }
    }
  }

  lemma {:induction false} TriedTurn(w: World, allow: seq<ToolId>, maxTurns: nat, initial: nat, turn: nat,
                                     log: seq<Call>)
    requires 1 <= turn <= maxTurns && (turn == 1 ==> log == []) && w.boot(turn, log) && initial + |log| < 16
    requires w.model(turn, log).Some? && w.model(turn, log).value != []
    ensures StopWhy(w, allow, maxTurns, initial, Turns(w, allow, maxTurns, turn, log, initial + |log|, turn - 1))
    decreases maxTurns + 1 - turn, 0
  {
    var intents := w.model(turn, log).value;
    var end := TryIntents(w, allow, turn, intents, 0, log, initial + |log|);
    IntentsEnd(w, allow, initial, turn, intents, 0, log, log);
    assert end.log[..|log|] == log;
    if end.blocked.Some? {
      var (k, reason) := end.blocked.value;
      assert BlockedAt(w, allow, initial, Ended(Blocked(k, reason), turn, end.log, end.executed, turn), |log|, intents,
                       k, reason);
    } else if turn == maxTurns {
      assert LastTurn(w, Ended(MaxTurns, turn, end.log, end.executed, turn), |log|, intents);
    } else {
      TurnsStop(w, allow, maxTurns, initial, turn + 1, end.log);
    }
  }

  /** Every way the loop can stop, against every adversary: a failed bootstrap or route, an empty proposal, a spent
      budget, the last turn over, or the first intent of the turn that its preview, the allowlist, the budget or the
      executor stops, for the one reason that applies; and the loop makes one model call a turn. */
  lemma LoopStopExact(w: World, allow: seq<ToolId>, maxTurns: nat, initial: nat)
    ensures StopWhy(w, allow, maxTurns, initial, Turns(w, allow, maxTurns, 1, [], initial, 0))
  {
    TurnsStop(w, allow, maxTurns, initial, 1, []);
  }

  /** The result is ok for a final answer and for a budget spent before the turn, and for no other stop: not for the
      turn limit, and not for a blocked intent. */
  lemma OkExact(w: World, allow: seq<ToolId>, maxTurns: nat, initial: nat)
    ensures var e := Turns(w, allow, maxTurns, 1, [], initial, 0);
      IsOk(e) <==>
        && !e.stop.BootstrapFailed? && !e.stop.RouteFailed? && !e.stop.MaxTurns? && !e.stop.Blocked?
        && w.boot(e.turn, e.log) && w.model(e.turn, e.log).Some?
        && (w.model(e.turn, e.log).value == [] || e.executed >= 16)
  {
    LoopStopExact(w, allow, maxTurns, initial);
    var e := Turns(w, allow, maxTurns, 1, [], initial, 0);
    assert e.log[..|e.log|] == e.log;
  }
}
