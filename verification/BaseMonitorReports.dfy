/** What the elements of a QSRV monitor tell their client: which fields changed since the element
    before, and of which of these a change was lost.
 */
module BaseMonitorReports {
  import opened PvData
  import opened BaseMonitorSpec

  /** A post which did not queue an element, with the masks it was given.  It found the queue
      `full`, or was one which may not lead to overflow, and was refused. */
  datatype Posted = Posted(updated: Mask, overflowed: Mask, full: bool)

  /** What was posted since the last element was queued, or since the last start() which found
      a free element: that has made `base` pending. */
  datatype Record = Record(base: Mask, posts: seq<Posted>)

  const NOTHING := Record({}, [])

  /** The fields which a post is about. */
  function Given(op: Op): Mask {
    match op
    case PostMask(updated) => updated
    case PostMasks(updated, _) => updated
    case PostNoOverflow(updated) => updated
    case _ => {}
  }

  function GivenOverflow(op: Op): Mask {
    if op.PostMasks? then op.overflowed else {}
  }

  predicate IsPost(op: Op) {
    op.PostPending? || op.PostMask? || op.PostMasks? || op.PostNoOverflow? || op.ReleaseUpdate?
  }

  function RecordNext(m: Mon, r: Record, op: Op): Record {
    if op.Start? && !m.running then
      if m.free == 0 then r.(posts := r.posts + [Posted({}, {}, true)]) else Record({0}, [])
    else if IsPost(op) && m.running then
      if m.free == 0 then r.(posts := r.posts + [Posted(Given(op), GivenOverflow(op), !op.PostNoOverflow?)])
      else NOTHING
    else r
  }

  // ---------- What the masks should be ----------

  ghost predicate PostedBefore(r: Record, k: nat, b: nat)
    requires k <= |r.posts|
  {
    b in r.base || exists i :: 0 <= i < k && b in r.posts[i].updated
  }

  ghost predicate Changed(r: Record, b: nat) {
    PostedBefore(r, |r.posts|, b)
  }

  /** Field b was given as lost, or was posted when it was pending already, with the queue full. */
  ghost predicate Lost(r: Record, b: nat) {
    exists i :: 0 <= i < |r.posts| && LostBy(r, i, b)
  }

  ghost predicate LostBy(r: Record, i: nat, b: nat)
    requires i < |r.posts|
  {
    var p := r.posts[i];
    p.full && (b in p.overflowed || (b in p.updated && PostedBefore(r, i, b)))
  }

  ghost predicate FoundFull(r: Record) {
    exists i :: 0 <= i < |r.posts| && r.posts[i].full
  }

  ghost predicate Records(m: Mon, r: Record) {
    && (forall b :: b in m.changed <==> Changed(r, b))
    && (forall b :: b in m.overflow <==> Lost(r, b))
    && (m.inoverflow <==> FoundFull(r))
  }

  lemma OneMore(r: Record, p: Posted, b: nat)
    ensures var q := r.(posts := r.posts + [p]);
            && (Changed(q, b) <==> Changed(r, b) || b in p.updated)
            && (Lost(q, b) <==> Lost(r, b) || (p.full && (b in p.overflowed || (b in p.updated && Changed(r, b)))))
            && (FoundFull(q) <==> FoundFull(r) || p.full)
  {
    var k, q := |r.posts|, r.(posts := r.posts + [p]);
    assert q.posts[k] == p && forall i :: 0 <= i < k ==> q.posts[i] == r.posts[i];
    assert forall i :: 0 <= i <= k ==> (PostedBefore(q, i, b) <==> PostedBefore(r, i, b));
    assert forall i :: 0 <= i < k ==> (LostBy(q, i, b) <==> LostBy(r, i, b));
    if Lost(r, b) {
      var i :| 0 <= i < k && LostBy(r, i, b);
      assert LostBy(q, i, b);
    }
    if Changed(r, b) && b !in r.base {
      var i :| 0 <= i < k && b in r.posts[i].updated;
      assert b in q.posts[i].updated;
    }
    if FoundFull(r) {
      var i :| 0 <= i < k && r.posts[i].full;
      assert q.posts[i].full;
    }
    if p.full && (b in p.overflowed || (b in p.updated && Changed(r, b))) { assert LostBy(q, k, b); }
  }

  lemma StepRecords(next: Extents, m: Mon, r: Record, op: Op)
    requires Records(m, r) && Enabled(m, op)
    ensures Records(Step(next, m, op), RecordNext(m, r, op))
  {
    var k, q := Step(next, m, op), RecordNext(m, r, op);
    if q.posts != [] && q != r {
      var p := q.posts[|r.posts|];
      forall b ensures (b in k.changed <==> Changed(q, b)) && (b in k.overflow <==> Lost(q, b)) {
        OneMore(r, p, b);
      }
      OneMore(r, p, 0);
    }
  }

  // ---------- Runs ----------

  ghost function RecordAfter(next: Extents, m: Mon, r: Record, ops: seq<Op>): Record
    requires IsRun(next, m, ops)
    decreases |ops|
  {
    if ops == [] then r else RecordAfter(next, Step(next, m, ops[0]), RecordNext(m, r, ops[0]), ops[1..])
  }

  lemma {:induction false} RunRecords(next: Extents, m: Mon, r: Record, ops: seq<Op>)
    requires IsRun(next, m, ops) && Records(m, r)
    ensures Records(Run(next, m, ops), RecordAfter(next, m, r, ops))
    decreases |ops|
  {
    if ops != [] {
      StepRecords(next, m, r, ops[0]);
      RunRecords(next, Step(next, m, ops[0]), RecordNext(m, r, ops[0]), ops[1..]);
    }
  }

  /** An element is queued exactly by a post to a running monitor with a free element. */
  lemma QueuesExactly(next: Extents, m: Mon, op: Op)
    requires Enabled(m, op)
    ensures |m.filled| < |Step(next, m, op).filled| <==> IsPost(op) && m.running && 0 < m.free
  {}

  /** After every run, the next element to be queued tells the client exactly: as changed, what
      was posted since the element before it, or everything after a start; and as overrun, what
      was given as lost, or was posted while it was pending already, with the queue full. */
  lemma EveryElementReports(next: Extents, nbuffers: nat, value: Value, ops: seq<Op>, op: Op)
    requires IsRun(next, Connected(value, nbuffers, next), ops)
    requires var m := Run(next, Connected(value, nbuffers, next), ops);
             Enabled(m, op) && |m.filled| < |Step(next, m, op).filled|
    ensures var m := Run(next, Connected(value, nbuffers, next), ops);
            var r := RecordAfter(next, Connected(value, nbuffers, next), NOTHING, ops);
            var d := Step(next, m, op).filled[|m.filled|];
            && d.value == m.complete
            && (forall b :: b in d.changed <==> Changed(r, b) || b in Given(op))
            && (forall b :: b in d.overrun <==> Lost(r, b))
  {
    RunRecords(next, Connected(value, nbuffers, next), NOTHING, ops);
  }

  /** After every run, a monitor is in overflow exactly when since then a post, or a start(),
      has found the queue full. */
  lemma OverflowMeansFull(next: Extents, nbuffers: nat, value: Value, ops: seq<Op>)
    requires IsRun(next, Connected(value, nbuffers, next), ops)
    ensures Run(next, Connected(value, nbuffers, next), ops).inoverflow
            <==> FoundFull(RecordAfter(next, Connected(value, nbuffers, next), NOTHING, ops))
  {
    RunRecords(next, Connected(value, nbuffers, next), NOTHING, ops);
  }

  /** So two posts of a field, the second of which finds the queue full, have it reported lost. */
  lemma PostedTwiceIsLost(r: Record, i: nat, k: nat, b: nat)
    requires i < k < |r.posts| && r.posts[k].full && b in r.posts[i].updated && b in r.posts[k].updated
    ensures Lost(r, b)
  {
    assert PostedBefore(r, k, b) && LostBy(r, k, b);
  }

  // ---------- Running ----------

  predicate StartedAfter(ops: seq<Op>, was: bool)
    decreases |ops|
  {
    if ops == [] then was
    else StartedAfter(ops[1..], if ops[0].Start? then true else if ops[0].Stop? then false else was)
  }

  /** A monitor is running exactly when the last of its start() and stop() was a start(), be
      there a free element or not. */
  lemma {:induction false} RunningIsStarted(next: Extents, m: Mon, ops: seq<Op>)
    requires IsRun(next, m, ops)
    ensures Run(next, m, ops).running <==> StartedAfter(ops, m.running)
    decreases |ops|
  {
    if ops != [] { RunningIsStarted(next, Step(next, m, ops[0]), ops[1..]); }
  }

  // ---------- Notifications ----------

  /** How often a post leads from an empty queue to one which is not. */
  ghost function Wakeups(next: Extents, m: Mon, ops: seq<Op>): nat
    requires IsRun(next, m, ops)
    decreases |ops|
  {
    if ops == [] then 0
    else
      var k := Step(next, m, ops[0]);
      (if IsPost(ops[0]) && m.filled == [] && k.filled != [] then 1 else 0) + Wakeups(next, k, ops[1..])
  }

  function Notified(ops: seq<Op>): nat
    decreases |ops|
  {
    if ops == [] then 0 else (if ops[0] == Notify then 1 else 0) + Notified(ops[1..])
  }

  /** The client is notified just as often: what it was not notified of yet is on its way. */
  lemma {:induction false} WakeupsAreNotified(next: Extents, m: Mon, ops: seq<Op>)
    requires IsRun(next, m, ops)
    ensures Run(next, m, ops).h.pending + Notified(ops) == m.h.pending + Wakeups(next, m, ops)
    decreases |ops|
  {
    if ops != [] { WakeupsAreNotified(next, Step(next, m, ops[0]), ops[1..]); }
  }
}
