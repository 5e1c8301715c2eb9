/** The shared fields of a work queue, and its locked regions as methods. */
module WorkQueue {
  import opened WorkQueueSpec

  class Queue<J> {
    var state: Phase
    var queue: seq<J>
    var wakeup: bool
    var workers: seq<Worker>
    /** How many adders, and whether a close(), are between their unlock and their signal. */
    var signalers: nat
    var closing: bool
    ghost var accepted: seq<J>
    ghost var popped: seq<J>

    ghost function Abs(): Pool<J>
      reads this
    {
      Pool(state, queue, wakeup, workers, signalers, closing, accepted, popped)
    }

    constructor ()
      ensures Abs() == Initial()
    {
      state, queue, wakeup, workers := Idle, [], false, [];
      signalers, closing, accepted, popped := 0, false, [], [];
    }

    /** Throws, given here as false, unless the queue is idle. */
    method Start(nworkers: nat) returns (ok: bool)
      modifies this
      ensures ok == Enabled(old(Abs()), Op.Start(nworkers))
      ensures Abs() == if ok then Step(old(Abs()), Op.Start(nworkers)) else old(Abs())
    {
      ok := state == Idle;
      if ok {
        state := Active;
        workers := [];
        for i := 0 to nworkers
          invariant Abs() == old(Abs()).(state := Active, workers := seq(i, _ => Testing))
        {
          workers := workers + [Testing];
        }
      }
    }

    /** The locked part of add(); it is followed by Signal() when the result is true. */
    method Add(work: J) returns (signal: bool)
      modifies this
      ensures Abs() == Step(old(Abs()), Op.Add(work))
      ensures signal <==> signalers == old(signalers) + 1
    {
      if state != Active {
        return false;
      }
      signal := |queue| == 0;
      queue := queue + [work];
      accepted := accepted + [work];
      if signal { signalers := signalers + 1; }
    }

    method Signal()
      requires 0 < signalers
      modifies this
      ensures Abs() == Step(old(Abs()), Op.Signal)
    {
      wakeup := true;
      signalers := signalers - 1;
    }

    /** A worker's loop test, when it goes on: the locked part of the loop body.  The work to
        run, if any, is run after this, without the mutex. */
    method Take(w: nat) returns (work: seq<J>, last: bool)
      requires At(Abs(), w, Testing) && state == Active
      modifies this
      ensures Abs() == Step(old(Abs()), Op.Test(w))
      ensures work == TakenBy(old(Abs()), Op.Test(w), w)
      ensures workers[w] == Unlocked(last)
    {
      work := [];
      if |queue| != 0 {
        work := [queue[0]];
        queue := queue[1..];
        popped := popped + work;
      }
      last := |queue| == 0;
      workers := workers[w := Unlocked(last)];
    }

    /** A worker's loop test, when the loop ends. */
    method Quit(w: nat)
      requires At(Abs(), w, Testing) && state != Active
      modifies this
      ensures Abs() == Step(old(Abs()), Op.Test(w))
    {
      workers := workers[w := Leaving];
    }

    /** Outside the mutex, after any work was run. */
    method Proceed(w: nat)
      requires w < |workers| && workers[w].Unlocked?
      modifies this
      ensures Abs() == Step(old(Abs()), Op.Proceed(w))
    {
      workers := workers[w := if workers[w].last then Waiting else Testing];
    }

    /** The wait for the event ends, which resets it. */
    method Wake(w: nat)
      requires At(Abs(), w, Waiting) && wakeup
      modifies this
      ensures Abs() == Step(old(Abs()), Op.Wake(w))
    {
      wakeup := false;
      workers := workers[w := Testing];
    }

    method Leave(w: nat)
      requires At(Abs(), w, Leaving)
      modifies this
      ensures Abs() == Step(old(Abs()), Op.Leave(w))
    {
      wakeup := true;
      workers := workers[w := Exited];
    }

    /** The locked part of close(); it is followed by the signal, and by joining the workers,
        when the result is true. */
    method Close() returns (signal: bool)
      modifies this
      ensures Abs() == Step(old(Abs()), Op.Close)
      ensures signal <==> old(state) == Active
    {
      signal := state == Active;
      if signal {
        state := Stopping;
        closing := true;
      }
    }

    method CloseSignal()
      requires closing
      modifies this
      ensures Abs() == Step(old(Abs()), Op.CloseSignal)
    {
      wakeup := true;
      closing := false;
    }

    /** All workers were joined. */
    method Join()
      requires Enabled(Abs(), Op.Join)
      modifies this
      ensures Abs() == Step(old(Abs()), Op.Join)
    {
      workers := [];
      state := Idle;
    }

    // ---------- The worker's loop, among other threads ----------

    /** One step of another thread than worker w, if that thread is where it can take it. */
    method Other(w: nat, op: Op<J>) returns (done: bool)
      requires w < |workers|
      modifies this
      ensures done <==> OfOthers(w, op) && Enabled(old(Abs()), op)
      ensures Abs() == if done then Step(old(Abs()), op) else old(Abs())
    {
      done := true;
      match op {
        case Add(work) => var signal := Add(work);
        case Signal => if 0 < signalers { Signal(); } else { done := false; }
        case Close => var signal := Close();
        case CloseSignal => if closing { CloseSignal(); } else { done := false; }
        case _ => done := OtherWorker(w, op);
      }
    }

    method OtherWorker(w: nat, op: Op<J>) returns (done: bool)
      requires w < |workers|
      requires !op.Add? && !op.Signal? && !op.Close? && !op.CloseSignal?
      modifies this
      ensures done <==> OfOthers(w, op) && Enabled(old(Abs()), op)
      ensures Abs() == if done then Step(old(Abs()), op) else old(Abs())
    {
      done := !op.Start? && !op.Join? && op.w != w && op.w < |workers|;
      if !done { return; }
      match op {
        case Test(v) =>
          if workers[v] != Testing { done := false; }
          else if state != Active { Quit(v); }
          else { var work, last := Take(v); }
        case Proceed(v) => if workers[v].Unlocked? { Proceed(v); } else { done := false; }
        case Wake(v) => if workers[v] == Waiting && wakeup { Wake(v); } else { done := false; }
        case Leave(v) => if workers[v] == Leaving { Leave(v); } else { done := false; }
      }
    }

    /** The pool has come by the run `trace`, in which worker w has taken `ran`. */
    ghost predicate Traced(start: Pool<J>, trace: seq<Op<J>>, w: nat, ran: seq<J>)
      reads this
    {
      IsRun(start, trace) && Abs() == Run(start, trace) && ran == Taken(start, trace, w)
    }

    /** What other threads do while worker w does not hold the mutex. */
    method Interfere(w: nat, ops: seq<Op<J>>, ghost start: Pool<J>, ghost before: seq<Op<J>>, ghost ran: seq<J>)
      returns (ghost trace: seq<Op<J>>)
      requires w < |workers| && Traced(start, before, w, ran)
      modifies this
      ensures Traced(start, trace, w, ran)
      ensures |workers| == old(|workers|) && workers[w] == old(workers[w])
    {
      trace := before;
      for k := 0 to |ops|
        invariant Traced(start, trace, w, ran)
        invariant |workers| == old(|workers|) && workers[w] == old(workers[w])
      {
        var done := Other(w, ops[k]);
        if done {
          OthersKeepWorker(Run(start, trace), ops[k], w);
          RunSnoc(start, trace, ops[k], w);
          trace := trace + [ops[k]];
        }
      }
    }

    /** One turn of the loop, up to the look at the event. */
    method Turn(w: nat, others: seq<Op<J>>, ghost start: Pool<J>, ghost before: seq<Op<J>>, ghost ran: seq<J>)
      returns (work: seq<J>, last: bool, ghost trace: seq<Op<J>>)
      requires At(Abs(), w, Testing) && state == Active && Traced(start, before, w, ran)
      modifies this
      ensures Traced(start, trace, w, ran + work) && At(Abs(), w, if last then Waiting else Testing)
    {
      RunSnoc(start, before, Op.Test(w), w);
      work, last := Take(w);
      trace := Interfere(w, others, start, before + [Op.Test(w)], ran + work);
      RunSnoc(start, trace, Op.Proceed(w), w);
      Proceed(w);
      trace := trace + [Op.Proceed(w)];
    }

    /** The wait for the event, as long as it is seen; true when it has ended. */
    method Await(w: nat, others: seq<seq<Op<J>>>, from: nat,
                 ghost start: Pool<J>, ghost before: seq<Op<J>>, ghost ran: seq<J>)
      returns (woken: bool, k: nat, ghost trace: seq<Op<J>>)
      requires from <= |others| && At(Abs(), w, Waiting) && Traced(start, before, w, ran)
      modifies this
      ensures from <= k <= |others| && Traced(start, trace, w, ran)
      ensures At(Abs(), w, if woken then Testing else Waiting)
    {
      k, trace := from, before;
      while !wakeup
        invariant from <= k <= |others| && At(Abs(), w, Waiting) && Traced(start, trace, w, ran)
        decreases |others| - k
      {
        if k == |others| { return false, k, trace; }
        trace := Interfere(w, others[k], start, trace, ran);
        k := k + 1;
      }
      RunSnoc(start, trace, Op.Wake(w), w);
      Wake(w);
      woken, trace := true, trace + [Op.Wake(w)];
    }

    /** After the loop: the signal is passed on to the next worker. */
    method PassOn(w: nat, others: seq<Op<J>>, ghost start: Pool<J>, ghost before: seq<Op<J>>, ghost ran: seq<J>)
      returns (ghost trace: seq<Op<J>>)
      requires At(Abs(), w, Testing) && state != Active && Traced(start, before, w, ran)
      modifies this
      ensures Traced(start, trace, w, ran) && At(Abs(), w, Exited)
    {
      RunSnoc(start, before, Op.Test(w), w);
      Quit(w);
      trace := Interfere(w, others, start, before + [Op.Test(w)], ran);
      RunSnoc(start, trace, Op.Leave(w), w);
      Leave(w);
      trace := trace + [Op.Leave(w)];
    }

    /** run(), of worker w, as it is seen until the other threads' steps in `others` are used
        up: one block of them comes while work is run, during each look at the event, and
        before the mutex is had again.  Together they are a run of the pool, and what this
        worker runs is what it takes in it. */
    method RunWorker(w: nat, others: seq<seq<Op<J>>>) returns (gone: bool, ran: seq<J>, ghost trace: seq<Op<J>>)
      requires At(Abs(), w, Testing)
      modifies this
      ensures IsRun(old(Abs()), trace) && Abs() == Run(old(Abs()), trace) && ran == Taken(old(Abs()), trace, w)
      ensures w < |workers| && (gone <==> workers[w] == Exited)
      ensures !gone ==> workers[w] == Waiting || workers[w] == Testing
    {
      ghost var start := Abs();
      gone, ran, trace := false, [], [];
      var k := 0;
      while state == Active && k < |others|
        invariant 0 <= k <= |others| && At(Abs(), w, Testing) && Traced(start, trace, w, ran)
        decreases |others| - k
      {
        var work, last;
        work, last, trace := Turn(w, others[k], start, trace, ran);
        ran := ran + work;
        k := k + 1;
        if last {
          var woken;
          woken, k, trace := Await(w, others, k, start, trace, ran);
          if !woken { return; }
        }
        if k < |others| {
          trace := Interfere(w, others[k], start, trace, ran);
          k := k + 1;
        }
      }
      if state != Active {
        trace := PassOn(w, if k < |others| then others[k] else [], start, trace, ran);
        gone := true;
      }
    }
  }

  lemma OthersKeepWorker<J>(p: Pool<J>, op: Op<J>, w: nat)
    requires OfOthers(w, op) && Enabled(p, op) && w < |p.workers|
    ensures TakenBy(p, op, w) == []
    ensures |Step(p, op).workers| == |p.workers| && Step(p, op).workers[w] == p.workers[w]
  {}

  predicate OfOthers<J>(w: nat, op: Op<J>) {
    match op
    case Start(_) => false
    case Join => false
    case Test(v) => v != w
    case Proceed(v) => v != w
    case Wake(v) => v != w
    case Leave(v) => v != w
    case _ => true
  }
}
