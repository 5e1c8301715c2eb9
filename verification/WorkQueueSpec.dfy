/** The wakeup and shutdown protocol of a pool of workers sharing one queue and one binary,
    auto-reset event.  Every step is one region executed with the mutex held, or one
    operation on the event, which the mutex does not guard.
 */
module WorkQueueSpec {

  datatype Phase = Idle | Active | Stopping

  /** Where a worker is: about to test the loop condition with the mutex held; outside the
      mutex, with the queue seen empty (`last`) or not; waiting for the event; past its loop
      and about to signal; or gone. */
  datatype Worker = Testing | Unlocked(last: bool) | Waiting | Leaving | Exited

  /** `signalers` counts calls of add() between their unlock and their signal, and `closing`
      is a close() there.  `accepted` and `popped` are histories. */
  datatype Pool<J> = Pool(
    state: Phase, queue: seq<J>, wakeup: bool, workers: seq<Worker>,
    signalers: nat, closing: bool, accepted: seq<J>, popped: seq<J>)

  datatype Op<J> =
    | Start(n: nat)
    | Add(work: J)
    | Signal
    | Test(w: nat)
    | Proceed(w: nat)
    | Wake(w: nat)
    | Leave(w: nat)
    | Close
    | CloseSignal
    | Join

  function Initial<J>(): Pool<J> {
    Pool(Idle, [], false, [], 0, false, [], [])
  }

  predicate At<J>(p: Pool<J>, w: nat, pc: Worker) {
    w < |p.workers| && p.workers[w] == pc
  }

  predicate Enabled<J>(p: Pool<J>, op: Op<J>) {
    match op
    case Start(_) => p.state == Idle
    case Add(_) => true
    case Signal => 0 < p.signalers
    case Test(w) => At(p, w, Testing)
    case Proceed(w) => w < |p.workers| && p.workers[w].Unlocked?
    case Wake(w) => At(p, w, Waiting) && p.wakeup
    case Leave(w) => At(p, w, Leaving)
    case Close => true
    case CloseSignal => p.closing
    case Join => p.state == Stopping && !p.closing && forall i :: 0 <= i < |p.workers| ==> p.workers[i] == Exited
  }

  function SetWorker<J>(p: Pool<J>, w: nat, pc: Worker): Pool<J>
    requires w < |p.workers|
  {
    p.(workers := p.workers[w := pc])
  }

  /** The loop test of a worker, and the locked part of the loop body. */
  function TestStep<J>(p: Pool<J>, w: nat): Pool<J>
    requires w < |p.workers|
  {
    if p.state != Active then SetWorker(p, w, Leaving)
    else if p.queue == [] then SetWorker(p, w, Unlocked(true))
    else
      SetWorker(p.(queue := p.queue[1..], popped := p.popped + [p.queue[0]]), w, Unlocked(|p.queue| == 1))
  }

  function Step<J>(p: Pool<J>, op: Op<J>): Pool<J>
    requires Enabled(p, op)
  {
    match op
    case Start(n) => p.(state := Active, workers := seq(n, _ => Testing))
    case Add(work) =>
      if p.state != Active then p
      else p.(queue := p.queue + [work], accepted := p.accepted + [work],
              signalers := if p.queue == [] then p.signalers + 1 else p.signalers)
    case Signal => p.(signalers := p.signalers - 1, wakeup := true)
    case Test(w) => TestStep(p, w)
    case Proceed(w) => SetWorker(p, w, if p.workers[w].last then Waiting else Testing)
    case Wake(w) => SetWorker(p.(wakeup := false), w, Testing)
    case Leave(w) => SetWorker(p.(wakeup := true), w, Exited)
    case Close => if p.state != Active then p else p.(state := Stopping, closing := true)
    case CloseSignal => p.(closing := false, wakeup := true)
    case Join => p.(state := Idle, workers := [])
  }

  // ---------- The invariant of every run ----------

  /** The worker will look at the queue and the state again, or signal, without waiting. */
  predicate Lively(pc: Worker) {
    pc == Testing || pc == Unlocked(false) || pc == Leaving
  }

  ghost predicate Prompted<J>(p: Pool<J>) {
    p.wakeup || p.closing || 0 < p.signalers || exists w :: 0 <= w < |p.workers| && Lively(p.workers[w])
  }

  ghost predicate Inv<J>(p: Pool<J>) {
    && p.popped + p.queue == p.accepted
    && (p.state == Idle ==> p.workers == [])
    && (p.closing ==> p.state == Stopping)
    && (p.state == Active ==> forall w :: 0 <= w < |p.workers| ==> p.workers[w] != Leaving && p.workers[w] != Exited)
    && (p.queue != [] || p.state == Stopping ==> Prompted(p))
  }

  lemma StillPrompted<J>(p: Pool<J>, op: Op<J>, w: nat)
    requires Enabled(p, op) && w < |p.workers| && Lively(p.workers[w])
    requires p.state != Idle && !op.Join? && (op == Test(w) ==> Step(p, op).queue != [] || p.state == Stopping)
    ensures Prompted(Step(p, op))
  {
    var q := Step(p, op);
    if op == Leave(w) {
      assert q.wakeup;
    } else {
      assert Lively(q.workers[w]);
    }
  }

  /** What a worker which steps is about to do next. */
  lemma WorkerKeepsPrompted<J>(p: Pool<J>, op: Op<J>)
    requires Inv(p) && Enabled(p, op) && (op.Test? || op.Proceed? || op.Wake? || op.Leave?)
    requires Step(p, op).queue != [] || Step(p, op).state == Stopping
    ensures Prompted(Step(p, op))
  {
    var q := Step(p, op);
    if op.Wake? || (op.Test? && (p.state == Stopping || q.queue != [])) {
      assert Lively(q.workers[op.w]);
    } else if !p.wakeup && !p.closing && p.signalers == 0 {
      var w :| 0 <= w < |p.workers| && Lively(p.workers[w]);
      StillPrompted(p, op, w);
    }
  }

  lemma OthersKeepPrompted<J>(p: Pool<J>, op: Op<J>)
    requires Inv(p) && Enabled(p, op) && !(op.Test? || op.Proceed? || op.Wake? || op.Leave?)
    requires Step(p, op).queue != [] || Step(p, op).state == Stopping
    ensures Prompted(Step(p, op))
  {
    var q := Step(p, op);
    if p.state != Idle && !op.Join? && !p.wakeup && !p.closing && p.signalers == 0
       && exists w :: 0 <= w < |p.workers| && Lively(p.workers[w]) {
      var w :| 0 <= w < |p.workers| && Lively(p.workers[w]);
      assert Lively(q.workers[w]);
    }
  }

  lemma StepKeepsInv<J>(p: Pool<J>, op: Op<J>)
    requires Inv(p) && Enabled(p, op)
    ensures Inv(Step(p, op))
  {
    var q := Step(p, op);
    if q.queue != [] || q.state == Stopping {
      if op.Test? || op.Proceed? || op.Wake? || op.Leave? {
        WorkerKeepsPrompted(p, op);
      } else {
        OthersKeepPrompted(p, op);
      }
    }
  }

  // ---------- Runs ----------

  ghost predicate IsRun<J>(p: Pool<J>, ops: seq<Op<J>>)
    decreases |ops|
  {
    ops == [] || (Enabled(p, ops[0]) && IsRun(Step(p, ops[0]), ops[1..]))
  }

  ghost function Run<J>(p: Pool<J>, ops: seq<Op<J>>): Pool<J>
    requires IsRun(p, ops)
    decreases |ops|
  {
    if ops == [] then p else Run(Step(p, ops[0]), ops[1..])
  }

  lemma {:induction false} RunKeepsInv<J>(p: Pool<J>, ops: seq<Op<J>>)
    requires Inv(p) && IsRun(p, ops)
    ensures Inv(Run(p, ops))
    decreases |ops|
  {
    if ops != [] {
      StepKeepsInv(p, ops[0]);
      RunKeepsInv(Step(p, ops[0]), ops[1..]);
    }
  }

  /** The work which worker w takes in a step, and in a run. */
  ghost function TakenBy<J>(p: Pool<J>, op: Op<J>, w: nat): seq<J> {
    if op == Test(w) && p.state == Active && p.queue != [] then [p.queue[0]] else []
  }

  ghost function Taken<J>(p: Pool<J>, ops: seq<Op<J>>, w: nat): seq<J>
    requires IsRun(p, ops)
    decreases |ops|
  {
    if ops == [] then [] else TakenBy(p, ops[0], w) + Taken(Step(p, ops[0]), ops[1..], w)
  }

  lemma {:induction false} RunSnoc<J>(p: Pool<J>, ops: seq<Op<J>>, op: Op<J>, w: nat)
    requires IsRun(p, ops) && Enabled(Run(p, ops), op)
    ensures IsRun(p, ops + [op]) && Run(p, ops + [op]) == Step(Run(p, ops), op)
    ensures Taken(p, ops + [op], w) == Taken(p, ops, w) + TakenBy(Run(p, ops), op, w)
    decreases |ops|
  {
    var r := ops + [op];
    if ops == [] {
      assert r[1..] == [];
      assert IsRun(Step(p, op), []);
    } else {
      assert r[1..] == ops[1..] + [op];
      RunSnoc(Step(p, ops[0]), ops[1..], op, w);
    }
  }

  /** No wakeup is lost, and work leaves the queue in the order in which it was accepted. */
  lemma NoLostWakeup<J>(ops: seq<Op<J>>)
    requires IsRun(Initial<J>(), ops)
    ensures var p := Run(Initial(), ops);
            && p.popped + p.queue == p.accepted
            && (p.state == Active && p.queue != [] ==>
                  || p.wakeup || 0 < p.signalers
                  || exists w :: 0 <= w < |p.workers| && (p.workers[w] == Testing || p.workers[w] == Unlocked(false)))
  {
    RunKeepsInv(Initial<J>(), ops);
    var p := Run(Initial(), ops);
    if p.state == Active && p.queue != [] && !p.wakeup && p.signalers == 0 {
      var w :| 0 <= w < |p.workers| && Lively(p.workers[w]);
      assert p.workers[w] == Testing || p.workers[w] == Unlocked(false);
    }
  }

  // ---------- What was asked ----------

  /** Where start(), close() and the end of close() leave the pool. */
  function PhaseNext<J>(op: Op<J>, state: Phase): Phase {
    match op
    case Start(_) => Active
    case Close => if state == Active then Stopping else state
    case Join => Idle
    case _ => state
  }

  function PhaseAfter<J>(ops: seq<Op<J>>, state: Phase): Phase
    decreases |ops|
  {
    if ops == [] then state else PhaseAfter(ops[1..], PhaseNext(ops[0], state))
  }

  /** As many workers as the last start() asked for, until they have been joined. */
  function CrewAfter<J>(ops: seq<Op<J>>, crew: nat): nat
    decreases |ops|
  {
    if ops == [] then crew
    else CrewAfter(ops[1..], if ops[0].Start? then ops[0].n else if ops[0].Join? then 0 else crew)
  }

  /** The work which is added between start() and close(). */
  function AddedActive<J>(ops: seq<Op<J>>, state: Phase): seq<J>
    decreases |ops|
  {
    if ops == [] then []
    else
      var rest := AddedActive(ops[1..], PhaseNext(ops[0], state));
      if ops[0].Add? && state == Active then [ops[0].work] + rest else rest
  }

  lemma StepIsAsAsked<J>(p: Pool<J>, op: Op<J>)
    requires Enabled(p, op)
    ensures Step(p, op).state == PhaseNext(op, p.state)
    ensures |Step(p, op).workers| == if op.Start? then op.n else if op.Join? then 0 else |p.workers|
    ensures Step(p, op).accepted == p.accepted + if op.Add? && p.state == Active then [op.work] else []
  {}

  /** Every run has the workers which were asked for, accepts exactly the work which is added
      between start() and close(), and refuses the rest. */
  lemma {:induction false} RunIsAsAsked<J>(p: Pool<J>, ops: seq<Op<J>>)
    requires IsRun(p, ops)
    ensures Run(p, ops).state == PhaseAfter(ops, p.state)
    ensures |Run(p, ops).workers| == CrewAfter(ops, |p.workers|)
    ensures Run(p, ops).accepted == p.accepted + AddedActive(ops, p.state)
    decreases |ops|
  {
    if ops != [] {
      StepIsAsAsked(p, ops[0]);
      RunIsAsAsked(Step(p, ops[0]), ops[1..]);
    }
  }

  /** A worker notes the queue as empty exactly when its turn leaves it empty, be it by taking
      the last work. */
  lemma TestNotesEmpty<J>(p: Pool<J>, w: nat)
    requires Enabled(p, Test(w)) && p.state == Active
    ensures var q := Step(p, Test(w)); q.workers[w] == Unlocked(q.queue == [])
  {}

  // ---------- Progress ----------

  /** The steps which the pool takes by itself. */
  predicate Internal<J>(op: Op<J>) {
    op.Signal? || op.Test? || op.Proceed? || op.Wake? || op.Leave? || op.CloseSignal?
  }

  function Rank(state: Phase, pc: Worker): nat {
    match pc
    case Testing => if state == Active then 2 else 3
    case Unlocked(last) => if state != Active then 4 else if last then 1 else 3
    case Waiting => if state == Active then 0 else 3
    case Leaving => 2
    case Exited => 0
  }

  function Ranks(state: Phase, workers: seq<Worker>): nat {
    if workers == [] then 0 else Rank(state, workers[0]) + Ranks(state, workers[1..])
  }

  lemma {:induction false} RanksUpdate(state: Phase, workers: seq<Worker>, w: nat, pc: Worker)
    requires w < |workers|
    ensures Ranks(state, workers[w := pc]) == Ranks(state, workers) - Rank(state, workers[w]) + Rank(state, pc)
  {
    if w == 0 {
      assert workers[0 := pc][1..] == workers[1..];
    } else {
      assert workers[w := pc][1..] == workers[1..][w - 1 := pc];
      RanksUpdate(state, workers[1..], w - 1, pc);
    }
  }

  /** A bound on the steps which the pool can still take by itself. */
  function Measure<J>(p: Pool<J>): nat {
    if p.state == Active then
      2 * |p.queue| + 4 * p.signalers + (if p.wakeup then 3 else 0) + Ranks(Active, p.workers)
    else
      2 * p.signalers + (if p.closing then 2 else 0) + (if p.wakeup then 1 else 0) + Ranks(Stopping, p.workers)
  }

  lemma InternalStepDecreases<J>(p: Pool<J>, op: Op<J>)
    requires Inv(p) && Enabled(p, op) && Internal(op) && p.state != Idle
    ensures Measure(Step(p, op)) < Measure(p) && Step(p, op).state == p.state
  {
    if op.Test? || op.Proceed? || op.Wake? || op.Leave? {
      RanksUpdate(p.state, p.workers, op.w, Step(p, op).workers[op.w]);
    }
  }

  lemma {:induction false} InternalRunIsShort<J>(p: Pool<J>, ops: seq<Op<J>>)
    requires Inv(p) && IsRun(p, ops) && p.state != Idle
    requires forall op :: op in ops ==> Internal(op)
    ensures |ops| + Measure(Run(p, ops)) <= Measure(p) && Run(p, ops).state == p.state
    decreases |ops|
  {
    if ops != [] {
      InternalStepDecreases(p, ops[0]);
      StepKeepsInv(p, ops[0]);
      InternalRunIsShort(Step(p, ops[0]), ops[1..]);
    }
  }

  ghost predicate Quiet<J(!new)>(p: Pool<J>) {
    forall op: Op<J> :: Internal(op) ==> !Enabled(p, op)
  }

  lemma QuietWorkers<J(!new)>(p: Pool<J>)
    requires Quiet(p)
    ensures p.signalers == 0 && !p.closing
    ensures forall w :: 0 <= w < |p.workers| ==> p.workers[w] == Exited || (p.workers[w] == Waiting && !p.wakeup)
  {
    assert Internal<J>(Signal) && Internal<J>(CloseSignal);
    forall w | 0 <= w < |p.workers|
      ensures p.workers[w] == Exited || (p.workers[w] == Waiting && !p.wakeup)
    {
      assert Internal<J>(Test(w)) && Internal<J>(Proceed(w)) && Internal<J>(Wake(w)) && Internal<J>(Leave(w));
    }
  }

  lemma {:induction false} InternalRunKeeps<J>(p: Pool<J>, ops: seq<Op<J>>)
    requires IsRun(p, ops) && forall op :: op in ops ==> Internal(op)
    ensures Run(p, ops).accepted == p.accepted && |Run(p, ops).workers| == |p.workers|
    decreases |ops|
  {
    if ops != [] {
      assert ops[0] in ops;
      InternalRunKeeps(Step(p, ops[0]), ops[1..]);
    }
  }

  /** Left to itself an active pool with a worker comes to rest within a known number of
      steps, whichever steps are taken, and then all work accepted before was taken. */
  lemma PoolDrains<J(!new)>(p: Pool<J>, ops: seq<Op<J>>)
    requires Inv(p) && p.state == Active && 0 < |p.workers|
    requires IsRun(p, ops) && forall op :: op in ops ==> Internal(op)
    ensures |ops| <= Measure(p)
    ensures var q := Run(p, ops); Quiet(q) ==> q.queue == [] && q.popped == p.accepted
  {
    InternalRunIsShort(p, ops);
    RunKeepsInv(p, ops);
    InternalRunKeeps(p, ops);
    var q := Run(p, ops);
    if Quiet(q) {
      QuietWorkers(q);
      assert q.workers[0] == Waiting;
      assert !Prompted(q);
    }
  }

  /** After close() its one signal is passed on until every worker has left, within a known
      number of steps, whatever else is signalled meanwhile. */
  lemma ShutdownCompletes<J(!new)>(p: Pool<J>, ops: seq<Op<J>>)
    requires Inv(p) && p.state == Stopping
    requires IsRun(p, ops) && forall op :: op in ops ==> Internal(op)
    ensures |ops| <= Measure(p)
    ensures var q := Run(p, ops); Quiet(q) ==> Enabled(q, Join)
  {
    InternalRunIsShort(p, ops);
    RunKeepsInv(p, ops);
    var q := Run(p, ops);
    if Quiet(q) {
      QuietWorkers(q);
      assert Prompted(q);
    }
  }
}
