/** mapWithConcurrency (src/ask.js): workers that share one counter. A worker runs without interruption between two
    awaits, so a step is one resumption of one worker, and a schedule is any order of resumptions. */
module WorkerPool {
  import opened Ordering

  datatype Worker = Ready | Busy(index: nat) | Done

  /** claims lists the indices in the order in which they were taken from the counter. */
  datatype State<B> = State(next: nat, claims: seq<nat>, workers: seq<Worker>, output: seq<Option<B>>)

  /** Array.from({ length: Math.min(limit, items.length) }) */
  function PoolSize(limit: int, n: nat): (size: nat)
    ensures size <= n && (limit >= 0 ==> size <= limit) && (size == n || size == limit || (limit < 0 && size == 0))
  {
    if limit < 0 then 0 else if limit < n then limit else n
  }

  function Start<B>(n: nat, limit: int): State<B> {
    State(0, [], seq(PoolSize(limit, n), _ => Ready), seq(n, _ => None))
  }

  /** The worker takes the next index from the counter, or returns. */
  function Claim<B>(n: nat, s: State<B>, w: nat): State<B>
    requires w < |s.workers|
  {
    if s.next < n then State(s.next + 1, s.claims + [s.next], s.workers[w := Busy(s.next)], s.output)
    else s.(workers := s.workers[w := Done])
  }

  /** One resumption: a worker that was waiting for a result stores it, and then claims the next index or returns. */
  function Step<A, B>(items: seq<A>, f: (A, nat) -> B, s: State<B>, w: nat): State<B> {
    if w >= |s.workers| then s
    else
      match s.workers[w]
      case Done => s
      case Ready => Claim(|items|, s, w)
      case Busy(i) =>
        if i < |items| && i < |s.output| then Claim(|items|, s.(output := s.output[i := Some(f(items[i], i))]), w)
          else s
  }

  function Run<A, B>(items: seq<A>, f: (A, nat) -> B, s: State<B>, schedule: seq<nat>): State<B>
    decreases |schedule|
  {
    if schedule == [] then s else Run(items, f, Step(items, f, s, schedule[0]), schedule[1..])
  }

  predicate Active<B>(s: State<B>, w: nat) { w < |s.workers| && !s.workers[w].Done? }
  predicate Finished<B>(s: State<B>) { forall w :: 0 <= w < |s.workers| ==> s.workers[w].Done? }

  class Pool<A, B> {
    const items: seq<A>
    const f: (A, nat) -> B
    var next: nat
    var claims: seq<nat>
    var workers: seq<Worker>
    const output: array<Option<B>>

    ghost function View(): State<B>
      reads this, output
    {
      State(next, claims, workers, output[..])
    }

    constructor (items: seq<A>, limit: int, f: (A, nat) -> B)
      ensures this.items == items && this.f == f && fresh(output)
      ensures View() == Start<B>(|items|, limit)
    {
      this.items, this.f := items, f;
      next, claims, workers := 0, [], seq(PoolSize(limit, |items|), _ => Ready);
      output := new Option<B>[|items|](_ => None);
    }

    method ClaimNext(w: nat)
      requires w < |workers|
      modifies this
      ensures View() == Claim(|items|, old(View()), w)
    {
      if next < |items| {
        var index := next;
        next := next + 1;
        claims := claims + [index];
        workers := workers[w := Busy(index)];
      } else {
        workers := workers[w := Done];
      }
    }

    method Resume(w: nat)
      requires output.Length == |items|
      modifies this, output
      ensures View() == Step(items, f, old(View()), w)
    {
      if w >= |workers| { return; }
      match workers[w]
      case Done =>
      case Ready => ClaimNext(w);
      case Busy(index) =>
        if index < |items| {
          output[index] := Some(f(items[index], index));
          ClaimNext(w);
        }
    }
  }

  /*** What every schedule keeps ***/

  ghost predicate DistinctWork<B>(s: State<B>) {
    forall v, w :: 0 <= v < w < |s.workers| && s.workers[v].Busy? && s.workers[w].Busy? ==>
      s.workers[v].index != s.workers[w].index
  }

  ghost predicate InHand<B>(s: State<B>, i: nat) { exists w :: 0 <= w < |s.workers| && s.workers[w] == Busy(i) }

  /** A claimed index is in exactly one worker's hands or its result is stored; an unclaimed one is neither. */
  ghost predicate CellOk<A, B>(items: seq<A>, f: (A, nat) -> B, s: State<B>, i: nat)
    requires |s.output| == |items|
  {
    i < |items| ==>
      && (s.output[i].Some? <==> i < s.next && !InHand(s, i))
      && (s.output[i].Some? ==> s.output[i].value == f(items[i], i))
  }

  ghost predicate Inv<A, B>(items: seq<A>, f: (A, nat) -> B, s: State<B>) {
    && |s.output| == |items| && s.next <= |items| && DistinctWork(s) && (s.workers == [] ==> s.next == 0)
    && |s.claims| == s.next && (forall k :: 0 <= k < s.next ==> s.claims[k] == k)
    && (forall w :: 0 <= w < |s.workers| && s.workers[w].Busy? ==> s.workers[w].index < s.next)
    && (forall w :: 0 <= w < |s.workers| && s.workers[w].Done? ==> s.next == |items|)
    && (forall i: nat {:trigger CellOk(items, f, s, i)} :: CellOk(items, f, s, i))
  }

  lemma StartInv<A, B>(items: seq<A>, f: (A, nat) -> B, limit: int)
    ensures Inv(items, f, Start<B>(|items|, limit))
  {
  }

  lemma StepKeepsInv<A, B>(items: seq<A>, f: (A, nat) -> B, s: State<B>, w: nat)
    requires Inv(items, f, s)
    ensures Inv(items, f, Step(items, f, s, w))
  {
    var t := Step(items, f, s, w);
    if Active(s, w) {
      forall i: nat ensures CellOk(items, f, t, i) {
        assert CellOk(items, f, s, i);
        HandsAfter(items, f, s, w, i);
      }
    }
  }

  /** How a step changes what is in hand. */
  lemma HandsAfter<A, B>(items: seq<A>, f: (A, nat) -> B, s: State<B>, w: nat, i: nat)
    requires Inv(items, f, s) && Active(s, w)
    ensures InHand(Step(items, f, s, w), i)
            <==> (InHand(s, i) && s.workers[w] != Busy(i)) || i == s.next < |items|
  {
    var t := Step(items, f, s, w);
    if v :| 0 <= v < |t.workers| && t.workers[v] == Busy(i) {
      if v != w { assert s.workers[v] == Busy(i); }
    }
    if v :| 0 <= v < |s.workers| && s.workers[v] == Busy(i) && v != w {
      assert t.workers[v] == Busy(i);
    }
    if i == s.next < |items| { assert t.workers[w] == Busy(i); }
  }

  lemma {:induction false} RunKeepsInv<A, B>(items: seq<A>, f: (A, nat) -> B, s: State<B>, schedule: seq<nat>)
    requires Inv(items, f, s)
    ensures Inv(items, f, Run(items, f, s, schedule)) && |Run(items, f, s, schedule).workers| == |s.workers|
    decreases |schedule|
  {
    if schedule != [] {
      StepKeepsInv(items, f, s, schedule[0]);
      RunKeepsInv(items, f, Step(items, f, s, schedule[0]), schedule[1..]);
    }
  }

  /*** Every schedule ends ***/

  function Unreturned(workers: seq<Worker>): nat {
    if workers == [] then 0 else (if workers[0].Done? then 0 else 1) + Unreturned(workers[1..])
  }

  /** The indices still to be claimed and the workers still to return. */
  function Left<B>(n: nat, s: State<B>): nat { (if s.next < n then n - s.next else 0) + Unreturned(s.workers) }

  lemma {:induction false} UnreturnedUpdate(workers: seq<Worker>, w: nat, x: Worker)
    requires w < |workers| && !workers[w].Done?
    ensures Unreturned(workers[w := x]) == Unreturned(workers) - if x.Done? then 1 else 0
  {
    if w > 0 {
      UnreturnedUpdate(workers[1..], w - 1, x);
      assert workers[w := x][1..] == workers[1..][w - 1 := x];
    } else {
      assert workers[0 := x][1..] == workers[1..];
    }
  }

  /** Every resumption of a worker that has not returned claims one index or returns one worker. */
  lemma StepDecreases<A, B>(items: seq<A>, f: (A, nat) -> B, s: State<B>, w: nat)
    requires Inv(items, f, s) && Active(s, w)
    ensures Left(|items|, Step(items, f, s, w)) == Left(|items|, s) - 1
  {
    UnreturnedUpdate(s.workers, w, Step(items, f, s, w).workers[w]);
  }

  /** The scheduler resumes some worker that has not returned, as long as there is one. */
  ghost predicate AlwaysPicks<B(!new)>(pick: State<B> -> nat) {
    forall s {:trigger pick(s)} :: !Finished(s) ==> Active(s, pick(s))
  }

  lemma Picked<B(!new)>(pick: State<B> -> nat, s: State<B>)
    requires AlwaysPicks(pick) && !Finished(s)
    ensures Active(s, pick(s))
  {
  }

  /** Runs the pool to its end, always resuming the worker the scheduler picks. */
  method MapWithConcurrency<A, B(!new)>(items: seq<A>, limit: int, f: (A, nat) -> B, pick: State<B> -> nat)
    returns (output: seq<Option<B>>)
    requires AlwaysPicks(pick)
    ensures |output| == |items|
    ensures forall i :: 0 <= i < |items| ==> output[i] == if limit >= 1 then Some(f(items[i], i)) else None
  {
    var pool := new Pool(items, limit, f);
    StartInv(items, f, limit);
    ghost var size := |pool.workers|;
    while exists w :: 0 <= w < |pool.workers| && !pool.workers[w].Done?
      invariant pool.items == items && pool.f == f && pool.output.Length == |items| && fresh(pool) && fresh(pool.output)
      invariant Inv(items, f, pool.View()) && |pool.workers| == size
      decreases Left(|items|, pool.View())
    {
      ghost var s := pool.View();
      assert !Finished(s);
      var w := pick(State(pool.next, pool.claims, pool.workers, pool.output[..]));
      Picked(pick, s);
      StepKeepsInv(items, f, s, w);
      StepDecreases(items, f, s, w);
      pool.Resume(w);
    }
    output := pool.output[..];
    AtTheEnd(items, f, limit, pool.View());
  }

  lemma AtTheEnd<A, B>(items: seq<A>, f: (A, nat) -> B, limit: int, s: State<B>)
    requires Inv(items, f, s) && Finished(s) && |s.workers| == PoolSize(limit, |items|)
    ensures forall i :: 0 <= i < |items| ==> s.output[i] == if limit >= 1 then Some(f(items[i], i)) else None
  {
    forall i | 0 <= i < |items| ensures s.output[i] == if limit >= 1 then Some(f(items[i], i)) else None {
      assert CellOk(items, f, s, i);
      assert limit >= 1 ==> s.workers[0].Done?;
    }
  }

  /** Under every schedule, at every moment: each index below the counter was claimed exactly once and in order, no two
      workers hold one index, at most min(limit, n) are in flight, and every stored result is the worker's for its item.
      When all have returned, every result is there exactly when there was nothing to do or someone to do it. */
  lemma EverySchedule<A, B>(items: seq<A>, f: (A, nat) -> B, limit: int, schedule: seq<nat>)
    ensures var s := Run(items, f, Start<B>(|items|, limit), schedule);
      && |s.output| == |items| && s.next <= |items| && |s.claims| == s.next
         && (forall k :: 0 <= k < s.next ==> s.claims[k] == k)
      && DistinctWork(s) && |s.workers| == PoolSize(limit, |items|)
      && (forall i :: 0 <= i < |items| && s.output[i].Some? ==> s.output[i].value == f(items[i], i))
      && (Finished(s) ==>
            ((forall i :: 0 <= i < |items| ==> s.output[i] == Some(f(items[i], i))) <==> |items| == 0 || limit >= 1))
  {
    StartInv(items, f, limit);
    RunKeepsInv(items, f, Start<B>(|items|, limit), schedule);
    var s := Run(items, f, Start<B>(|items|, limit), schedule);
    forall i | 0 <= i < |items| && s.output[i].Some?
      ensures s.output[i].value == f(items[i], i)
    {
      assert CellOk(items, f, s, i);
    }
    if Finished(s) {
      AtTheEnd(items, f, limit, s);
      if |items| > 0 && limit < 1 { assert s.output[0] == None; }
    }
  }

  /** Every resumption is of a worker that has not returned. */
  ghost predicate AllActive<A, B>(items: seq<A>, f: (A, nat) -> B, s: State<B>, schedule: seq<nat>)
    decreases |schedule|
  {
    schedule == [] || (Active(s, schedule[0]) && AllActive(items, f, Step(items, f, s, schedule[0]), schedule[1..]))
  }

  lemma {:induction false} WorkDone<A, B>(items: seq<A>, f: (A, nat) -> B, s: State<B>, schedule: seq<nat>)
    requires Inv(items, f, s) && AllActive(items, f, s, schedule)
    ensures |schedule| + Left(|items|, Run(items, f, s, schedule)) == Left(|items|, s)
    decreases |schedule|
  {
    if schedule != [] {
      StepKeepsInv(items, f, s, schedule[0]);
      StepDecreases(items, f, s, schedule[0]);
      WorkDone(items, f, Step(items, f, s, schedule[0]), schedule[1..]);
    }
  }

  lemma {:induction false} NoneReturned(workers: seq<Worker>)
    ensures (forall w :: 0 <= w < |workers| ==> workers[w].Done?) ==> Unreturned(workers) == 0
    ensures (forall w :: 0 <= w < |workers| ==> !workers[w].Done?) ==> Unreturned(workers) == |workers|
  {
    if workers != [] { NoneReturned(workers[1..]); }
  }

  /** No schedule resumes workers that have not returned more than n + min(limit, n) times, and one that runs to the end
      resumes them exactly so often, or never when there are none. */
  lemma ScheduleLength<A, B>(items: seq<A>, f: (A, nat) -> B, limit: int, schedule: seq<nat>)
    requires AllActive(items, f, Start<B>(|items|, limit), schedule)
    ensures |schedule| <= |items| + PoolSize(limit, |items|)
    ensures Finished(Run(items, f, Start<B>(|items|, limit), schedule)) ==>
              |schedule| == if limit >= 1 then |items| + PoolSize(limit, |items|) else 0
  {
    var s := Start<B>(|items|, limit);
    var t := Run(items, f, s, schedule);
    StartInv(items, f, limit);
    RunKeepsInv(items, f, s, schedule);
    WorkDone(items, f, s, schedule);
    NoneReturned(s.workers);
    NoneReturned(t.workers);
    if Finished(t) && limit >= 1 && |items| > 0 { assert t.workers[0].Done?; }
  }
}
