/** The monitor queue of the QSRV server, on values.

    The owner keeps one complete structure, and posts the fields it has changed.  When every
    element is in use the changes stay in the `changed` mask, until release() has returned
    an element and then, as a second step with the lock taken anew, asks for an update.
 */
module BaseMonitorSpec {
  import opened PvData

  /** History: the client's own copy of the structure; the fields which the owner has written
      and not posted, unless everything was posted since; releases between their two steps;
      whether nothing was queued since start(), or since a post was refused; and, of the
      client, how many notifications it has still to receive, and whether it will poll again. */
  datatype History = History(
    view: Value, owed: Mask, releasers: nat, starting: bool, refused: bool, pending: nat, active: bool)

  /** `filled` is the queue, `free` counts the empty elements, and `out` those which the
      client has polled and not released. */
  datatype Mon = Mon(
    complete: Value, changed: Mask, overflow: Mask, inoverflow: bool, running: bool,
    filled: seq<Delta>, free: nat, out: nat, h: History)

  function Connected(value: Value, nbuffers: nat, next: Extents): Mon {
    Mon(value, {}, {}, false, false, [], nbuffers, 0, History(Blank(next), {}, 0, false, false, 0, false))
  }

  datatype Op =
    | Write(value: Value, mask: Mask)
    | PostPending
    | PostMask(updated: Mask)
    | PostMasks(updated: Mask, overflowed: Mask)
    | PostNoOverflow(updated: Mask)
    | Start
    | Stop
    | Notify
    | Poll
    | ReleasePush
    | ReleaseUpdate

  // ---------- The operations ----------

  /** Queue the complete value, with the pending masks. */
  function PostOne(m: Mon): Mon
    requires 0 < m.free
  {
    m.(filled := m.filled + [Delta(m.complete, m.changed, m.overflow)], free := m.free - 1,
       changed := {}, overflow := {}, inoverflow := false,
       h := m.h.(starting := false, refused := false, owed := if 0 in m.changed then {} else m.h.owed,
                 pending := if m.filled == [] then m.h.pending + 1 else m.h.pending))
  }

  function Settle(m: Mon, updated: Mask): Mon {
    m.(h := m.h.(owed := m.h.owed - updated))
  }

  function Pending(m: Mon): Mon {
    if !m.running then m
    else if m.free == 0 then m.(inoverflow := true)
    else PostOne(m)
  }

  function Masked(m: Mon, updated: Mask, overflowed: Mask): Mon {
    if !m.running then Settle(m, updated)
    else if m.free == 0 then
      Settle(m, updated).(inoverflow := true,
                          overflow := m.overflow + overflowed + updated * m.changed,
                          changed := m.changed + updated)
    else
      PostOne(Settle(m, updated).(changed := m.changed + updated))
  }

  function NoOverflow(m: Mon, updated: Mask): Mon {
    if !m.running then Settle(m, updated)
    else
      var k := Settle(m, updated).(changed := m.changed + updated);
      if m.free == 0 then k.(h := k.h.(refused := true)) else PostOne(k)
  }

  function Started(m: Mon): Mon {
    if m.running then m
    else if m.free == 0 then m.(running := true, inoverflow := true)
    else m.(running := true, inoverflow := false, overflow := {}, changed := {0}, h := m.h.(starting := true))
  }

  predicate Enabled(m: Mon, op: Op) {
    match op
    case Notify => 0 < m.h.pending
    case ReleasePush => 0 < m.out
    case ReleaseUpdate => 0 < m.h.releasers
    case _ => true
  }

  function Step(next: Extents, m: Mon, op: Op): Mon
    requires Enabled(m, op)
  {
    match op
    case Write(value, mask) => m.(complete := Copy(next, m.complete, value, mask), h := m.h.(owed := m.h.owed + mask))
    case PostPending => Pending(m)
    case PostMask(updated) => Masked(m, updated, {})
    case PostMasks(updated, overflowed) => Masked(m, updated, overflowed)
    case PostNoOverflow(updated) => NoOverflow(m, updated)
    case Start => Started(m)
    case Stop => m.(running := false)
    case Notify => m.(h := m.h.(pending := m.h.pending - 1, active := true))
    case Poll =>
      if !m.running || m.filled == [] then m.(h := m.h.(active := 0 < m.out))
      else
        m.(filled := m.filled[1..], out := m.out + 1,
           h := m.h.(view := Copy(next, m.h.view, m.filled[0].value, m.filled[0].changed), active := true))
    case ReleasePush =>
      m.(out := m.out - 1, free := m.free + 1,
         h := m.h.(releasers := if m.inoverflow then m.h.releasers + 1 else m.h.releasers))
    case ReleaseUpdate => Pending(m.(h := m.h.(releasers := m.h.releasers - 1)))
  }

  // ---------- The invariant ----------

  /** What the client holds, then what is queued for it, is the complete value in every field
      which is neither pending nor written and not yet posted. */
  ghost predicate Agrees(next: Extents, m: Mon)
    requires |m.complete| == |m.h.view| == |next|
  {
    forall f :: 0 <= f < |next| && !Covers(next, m.changed + m.h.owed, f) ==>
      Fold(next, m.h.view, m.filled)[f] == m.complete[f]
  }

  /** Elements are conserved, and overflow means that none is free, or that a releaser is
      about to post. */
  ghost predicate Conserved(next: Extents, nbuffers: nat, m: Mon) {
    && |m.complete| == |m.h.view| == |next|
    && AllSized(next, m.filled)
    && m.free + |m.filled| + m.out == nbuffers
    && (0 < m.out ==> m.h.active)
    && (m.running && m.inoverflow ==> m.free == 0 || 0 < m.h.releasers)
  }

  /** While running, the client lacks nothing but pending fields, and these are pending for a
      reason. */
  ghost predicate Synced(next: Extents, m: Mon)
    requires |m.complete| == |m.h.view| == |next|
  {
    m.running ==>
      && Agrees(next, m)
      && (m.changed != {} ==> m.inoverflow || m.h.starting || m.h.refused)
      && (m.h.starting ==> 0 in m.changed)
  }

  /** Something is queued for the client only if it knows, or will be told. */
  predicate Told(m: Mon) {
    m.filled != [] ==> 0 < m.h.pending || m.h.active
  }

  ghost predicate Inv(next: Extents, nbuffers: nat, m: Mon) {
    Conserved(next, nbuffers, m) && Synced(next, m) && (m.running ==> Told(m))
  }

  lemma PostOneKeeps(next: Extents, m: Mon)
    requires IsExtents(next) && |m.complete| == |m.h.view| == |next| && 0 < m.free && Agrees(next, m)
    ensures Agrees(next, PostOne(m))
    ensures var d := PostOne(m).filled[|m.filled|];
            d.value == m.complete && d.changed == m.changed && d.overrun == m.overflow
  {
    var q := PostOne(m);
    var d := Delta(m.complete, m.changed, m.overflow);
    FoldSnoc(next, m.h.view, m.filled, d);
    forall f | 0 <= f < |next| && !Covers(next, q.changed + q.h.owed, f)
      ensures Fold(next, q.h.view, q.filled)[f] == q.complete[f]
    {
      CoversUnion(next, q.changed, q.h.owed, f);
      CoversUnion(next, m.changed, m.h.owed, f);
      if 0 in m.changed { CopyAll(next, Fold(next, m.h.view, m.filled), m.complete, m.changed); }
    }
  }

  /** Moving posted fields from the unposted to the pending ones keeps the agreement. */
  lemma SettleKeepsAgrees(next: Extents, m: Mon, updated: Mask)
    requires |m.complete| == |m.h.view| == |next| && Agrees(next, m)
    ensures Agrees(next, Settle(m, updated).(changed := m.changed + updated))
  {}

  lemma WriteKeepsAgrees(next: Extents, m: Mon, value: Value, mask: Mask)
    requires |m.complete| == |m.h.view| == |next| && Agrees(next, m)
    ensures Agrees(next, Step(next, m, Write(value, mask)))
  {}

  lemma StartAgrees(next: Extents, m: Mon)
    requires IsExtents(next) && |m.complete| == |m.h.view| == |next| && !m.running && 0 < m.free
    ensures Agrees(next, Started(m))
  {}

  // ---------- Every step ----------

  lemma StepKeepsConserved(next: Extents, nbuffers: nat, m: Mon, op: Op)
    requires Conserved(next, nbuffers, m) && Enabled(m, op)
    ensures Conserved(next, nbuffers, Step(next, m, op))
  {}

  lemma PostKeepsSynced(next: Extents, m: Mon, op: Op)
    requires IsExtents(next) && |m.complete| == |m.h.view| == |next| && Synced(next, m) && m.running
    requires op.PostPending? || op.PostMask? || op.PostMasks? || op.PostNoOverflow?
    ensures Synced(next, Step(next, m, op))
  {
    if op.PostPending? {
      if 0 < m.free { PostOneKeeps(next, m); }
    } else {
      SettleKeepsAgrees(next, m, op.updated);
      var k := Settle(m, op.updated).(changed := m.changed + op.updated);
      if 0 < m.free { PostOneKeeps(next, k); }
    }
  }

  /** Of a start() this asks for a free element, in which the complete value can be sent. */
  lemma StepKeepsSynced(next: Extents, nbuffers: nat, m: Mon, op: Op)
    requires IsExtents(next) && Conserved(next, nbuffers, m) && Synced(next, m) && Enabled(m, op)
    requires op.Start? ==> m.running || 0 < m.free
    ensures Conserved(next, nbuffers, Step(next, m, op)) && Synced(next, Step(next, m, op))
  {
    StepKeepsConserved(next, nbuffers, m, op);
    match op
    case Write(value, mask) =>
      if m.running { WriteKeepsAgrees(next, m, value, mask); }
    case Start =>
      if !m.running { StartAgrees(next, m); }
    case ReleaseUpdate =>
      var k := m.(h := m.h.(releasers := m.h.releasers - 1));
      if m.running { assert Agrees(next, k); }
      if m.running && 0 < m.free { PostOneKeeps(next, k); }
    case Stop =>
    case Notify =>
    case ReleasePush =>
    case Poll =>
    case _ =>
      if m.running { PostKeepsSynced(next, m, op); }
  }

  /** Of a start() this asks that the client has not given up on what is queued. */
  lemma StepKeepsTold(next: Extents, m: Mon, op: Op)
    requires Enabled(m, op) && (m.running ==> Told(m))
    requires op.Start? ==> m.running || Told(m)
    ensures Step(next, m, op).running ==> Told(Step(next, m, op))
  {}

  // ---------- Runs ----------

  ghost predicate IsRun(next: Extents, m: Mon, ops: seq<Op>)
    decreases |ops|
  {
    ops == [] || (Enabled(m, ops[0]) && IsRun(next, Step(next, m, ops[0]), ops[1..]))
  }

  ghost function Run(next: Extents, m: Mon, ops: seq<Op>): Mon
    requires IsRun(next, m, ops)
    decreases |ops|
  {
    if ops == [] then m else Run(next, Step(next, m, ops[0]), ops[1..])
  }

  /** What the last start() of the run which took effect has found, or `before` if none did. */
  ghost function LastStart(next: Extents, m: Mon, ops: seq<Op>, before: Mon): Mon
    requires IsRun(next, m, ops)
    decreases |ops|
  {
    if ops == [] then before
    else LastStart(next, Step(next, m, ops[0]), ops[1..], if ops[0].Start? && !m.running then m else before)
  }

  lemma {:induction false} RunKeepsConserved(next: Extents, nbuffers: nat, m: Mon, ops: seq<Op>)
    requires Conserved(next, nbuffers, m) && IsRun(next, m, ops)
    ensures Conserved(next, nbuffers, Run(next, m, ops))
    decreases |ops|
  {
    if ops != [] {
      StepKeepsConserved(next, nbuffers, m, ops[0]);
      RunKeepsConserved(next, nbuffers, Step(next, m, ops[0]), ops[1..]);
    }
  }

  /** Only the last start() matters: one before it, with a full queue, does no lasting harm. */
  lemma {:induction false} RunKeepsSynced(next: Extents, nbuffers: nat, m: Mon, ops: seq<Op>, before: Mon)
    requires IsExtents(next) && IsRun(next, m, ops)
    requires Conserved(next, nbuffers, m) && (0 < before.free ==> Synced(next, m))
    ensures Conserved(next, nbuffers, Run(next, m, ops))
    ensures 0 < LastStart(next, m, ops, before).free ==> Synced(next, Run(next, m, ops))
    decreases |ops|
  {
    if ops != [] {
      var found := if ops[0].Start? && !m.running then m else before;
      StepKeepsConserved(next, nbuffers, m, ops[0]);
      if 0 < found.free { StepKeepsSynced(next, nbuffers, m, ops[0]); }
      RunKeepsSynced(next, nbuffers, Step(next, m, ops[0]), ops[1..], found);
    }
  }

  lemma {:induction false} RunKeepsTold(next: Extents, m: Mon, ops: seq<Op>, before: Mon)
    requires IsRun(next, m, ops) && (Told(before) && m.running ==> Told(m))
    ensures var w := Run(next, m, ops); Told(LastStart(next, m, ops, before)) && w.running ==> Told(w)
    decreases |ops|
  {
    if ops != [] {
      var found := if ops[0].Start? && !m.running then m else before;
      if Told(found) { StepKeepsTold(next, m, ops[0]); }
      RunKeepsTold(next, Step(next, m, ops[0]), ops[1..], found);
    }
  }

  // ---------- Main results ----------

  /** After every run, with any posts between the two steps of a release and any restarts,
      the elements are conserved, and overflow is about to be left or has a full queue. */
  lemma EveryRunConserves(next: Extents, nbuffers: nat, value: Value, ops: seq<Op>)
    requires |value| == |next| && IsRun(next, Connected(value, nbuffers, next), ops)
    ensures var m := Run(next, Connected(value, nbuffers, next), ops);
            && m.free + |m.filled| + m.out == nbuffers
            && (m.running && m.inoverflow ==> m.free == 0 || 0 < m.h.releasers)
  {
    RunKeepsConserved(next, nbuffers, Connected(value, nbuffers, next), ops);
  }

  /** After every run whose last effective start found a free element, the client's copy and
      its queue lack nothing but the pending fields. */
  lemma EveryRunAgrees(next: Extents, nbuffers: nat, value: Value, ops: seq<Op>)
    requires IsExtents(next) && |value| == |next|
    requires var c := Connected(value, nbuffers, next);
             IsRun(next, c, ops) && 0 < LastStart(next, c, ops, c).free
    ensures var m := Run(next, Connected(value, nbuffers, next), ops);
            m.running ==> |m.complete| == |m.h.view| == |next| && Agrees(next, m)
  {
    var c := Connected(value, nbuffers, next);
    RunKeepsSynced(next, nbuffers, c, ops, c);
  }

  /** Nothing is stranded: a running client with nothing left to do holds the complete value,
      once the first post was made and unless a post without overflow was refused.  Of its
      last start this asks for a free element, and for a client which knew, or was to be
      told, of what was left in the queue. */
  lemma IdleClientsAreCurrent(next: Extents, nbuffers: nat, value: Value, ops: seq<Op>)
    requires IsExtents(next) && |value| == |next| && 0 < nbuffers
    requires var c := Connected(value, nbuffers, next);
             IsRun(next, c, ops) && 0 < LastStart(next, c, ops, c).free && Told(LastStart(next, c, ops, c))
    requires var m := Run(next, Connected(value, nbuffers, next), ops);
             && m.running && !m.h.active && m.h.pending == 0 && m.h.releasers == 0
             && m.h.owed == {} && !m.h.starting && !m.h.refused
    ensures var m := Run(next, Connected(value, nbuffers, next), ops); m.h.view == m.complete
  {
    var c := Connected(value, nbuffers, next);
    RunKeepsSynced(next, nbuffers, c, ops, c);
    RunKeepsTold(next, c, ops, c);
    NothingPending(next, nbuffers, Run(next, c, ops));
  }

  lemma NothingPending(next: Extents, nbuffers: nat, m: Mon)
    requires Conserved(next, nbuffers, m) && Synced(next, m) && 0 < nbuffers
    requires m.running && m.filled == [] && m.out == 0 && m.h.releasers == 0
    requires m.h.owed == {} && !m.h.starting && !m.h.refused
    ensures m.h.view == m.complete && !m.inoverflow
  {}

  /** A client's loop: poll() and release(), with its two steps, until poll() gives nothing. */
  function Drain(next: Extents, m: Mon): Mon
    requires m.running && m.out == 0
    decreases |m.filled| + (if m.inoverflow then 1 else 0)
  {
    if m.filled == [] then Step(next, m, Poll)
    else
      var r := Step(next, Step(next, m, Poll), ReleasePush);
      if m.inoverflow then Drain(next, Step(next, r, ReleaseUpdate)) else Drain(next, r)
  }

  /** It ends with all elements free, out of overflow, and with the complete value. */
  lemma {:induction false} DrainReachesComplete(next: Extents, nbuffers: nat, m: Mon)
    requires IsExtents(next) && Conserved(next, nbuffers, m) && Synced(next, m) && 0 < nbuffers
    requires m.running && m.out == 0 && m.h.releasers == 0
    requires m.h.owed == {} && !m.h.starting && !m.h.refused
    ensures var w := Drain(next, m);
            && w.h.view == w.complete == m.complete && w.free == nbuffers && w.filled == [] && !w.inoverflow
    decreases |m.filled| + (if m.inoverflow then 1 else 0)
  {
    if m.filled == [] {
      NothingPending(next, nbuffers, m);
    } else {
      var p := Step(next, m, Poll);
      StepKeepsSynced(next, nbuffers, m, Poll);
      StepKeepsSynced(next, nbuffers, p, ReleasePush);
      var r := Step(next, p, ReleasePush);
      if m.inoverflow {
        StepKeepsSynced(next, nbuffers, r, ReleaseUpdate);
        DrainReachesComplete(next, nbuffers, Step(next, r, ReleaseUpdate));
      } else {
        DrainReachesComplete(next, nbuffers, r);
      }
    }
  }

  /** The first element after a start which found a free one is complete, and says so. */
  lemma FirstElementIsComplete(next: Extents, nbuffers: nat, m: Mon, op: Op)
    requires Conserved(next, nbuffers, m) && Synced(next, m) && m.running && m.h.starting && Enabled(m, op)
    requires |m.filled| < |Step(next, m, op).filled|
    ensures var d := Step(next, m, op).filled[|m.filled|];
            0 in d.changed && d.value == m.complete && d.overrun == m.overflow
  {}

  // ---------- Starting without a free element ----------

  /** A start() which finds no free element keeps no record of what was written before it:
      it is right about every value only if all fields happen to be pending already. */
  lemma StartNeedsAnElement(next: Extents, m: Mon)
    requires IsExtents(next) && |m.h.view| == |next| && !m.running
    ensures (forall value: Value :: |value| == |next| ==> Agrees(next, Started(m.(complete := value))))
            <==> 0 < m.free || forall f :: 0 <= f < |next| ==> Covers(next, m.changed + m.h.owed, f)
  {
    if 0 < m.free {
      forall value: Value | |value| == |next| ensures Agrees(next, Started(m.(complete := value))) {
        StartAgrees(next, m.(complete := value));
      }
    } else if f :| 0 <= f < |next| && !Covers(next, m.changed + m.h.owed, f) {
      var held := Fold(next, m.h.view, m.filled);
      var value := held[f := held[f] + 1];
      assert !Agrees(next, Started(m.(complete := value)));
    }
  }

  lemma {:induction false} RunConcat(next: Extents, m: Mon, a: seq<Op>, b: seq<Op>)
    requires IsRun(next, m, a) && IsRun(next, Run(next, m, a), b)
    ensures IsRun(next, m, a + b) && Run(next, m, a + b) == Run(next, Run(next, m, a), b)
    decreases |a|
  {
    if a == [] {
      assert a + b == b;
    } else {
      assert (a + b)[1..] == a[1..] + b;
      RunConcat(next, Step(next, m, a[0]), a[1..], b);
    }
  }

  /** A monitor with one element, which the client has polled and holds. */
  const HELD := Mon([0], {}, {}, false, true, [], 0, 1, History([0], {}, 0, false, false, 0, true))

  lemma ComesToBeHeld()
    ensures var ops := [Start, PostPending, Notify, Poll];
            IsRun([1], Connected([0], 1, [1]), ops) && Run([1], Connected([0], 1, [1]), ops) == HELD
  {}

  /** The monitor is stopped, a write is posted, and the monitor is started again.  Then
      nothing is pending, and the client lacks the write. */
  lemma RestartForgetsWrite()
    ensures
      var next := [1];
      var ops := [Start, PostPending, Notify, Poll] + [Stop, Write([5], {0}), PostMask({0}), Start];
      && IsRun(next, Connected([0], 1, next), ops)
      && var m := Run(next, Connected([0], 1, next), ops);
      && m.running && m.complete == [5] && m.h.view == [0] && m.filled == []
      && m.changed == {} && m.h.owed == {} && !Agrees(next, m)
  {
    var next, tail := [1], [Stop, Write([5], {0}), PostMask({0}), Start];
    ComesToBeHeld();
    CopyAll(next, [0], [5], {0});
    var m2 := Step(next, Step(next, HELD, Stop), Write([5], {0}));
    assert m2.complete == [5] && m2.h.owed == {0};
    assert IsRun(next, HELD, tail) && Run(next, HELD, tail) == Step(next, Step(next, m2, PostMask({0})), Start);
    RunConcat(next, Connected([0], 1, next), [Start, PostPending, Notify, Poll], tail);
    var m := Run(next, HELD, tail);
    assert !Covers(next, m.changed + m.h.owed, 0);
    assert Fold(next, m.h.view, m.filled)[0] != m.complete[0];
  }

  // ---------- Starting with a queue ----------

  /** The first post after a start() which finds a free element notifies the client if and
      only if nothing was left in the queue. */
  lemma FirstPostNotifies(next: Extents, m: Mon, post: Op)
    requires !m.running && 0 < m.free
    requires post.PostPending? || post.PostMask? || post.PostMasks? || post.PostNoOverflow?
    ensures Step(next, Started(m), post).h.pending == m.h.pending + (if m.filled == [] then 1 else 0)
  {}

  /** So a start() which finds a free element keeps the whole invariant if and only if the
      client knows, or will be told, of what is left in the queue. */
  lemma RestartNeedsTold(next: Extents, nbuffers: nat, m: Mon)
    requires IsExtents(next) && Inv(next, nbuffers, m) && !m.running && 0 < m.free
    ensures Inv(next, nbuffers, Started(m)) <==> Told(m)
  {}

  /** The client has something to poll, does not know, and will not be told. */
  predicate Silent(m: Mon) {
    m.filled != [] && m.h.pending == 0 && !m.h.active && m.out == 0
  }

  /** And it stays so for good, whatever is posted, until it polls of its own accord. */
  lemma {:induction false} SilentForGood(next: Extents, m: Mon, ops: seq<Op>)
    requires Silent(m) && IsRun(next, m, ops) && Poll !in ops
    ensures Silent(Run(next, m, ops)) && m.filled <= Run(next, m, ops).filled
    decreases |ops|
  {
    if ops != [] {
      assert ops[0] in ops;
      SilentForGood(next, Step(next, m, ops[0]), ops[1..]);
    }
  }

  /** A client can come to that: it is notified, but its only poll() comes when the monitor
      was stopped; then the monitor is started again. */
  lemma RestartWithQueueLosesWakeup()
    ensures
      var next := [1];
      var ops := [Start, PostPending, Stop] + [Notify, Poll, Start, PostPending];
      && IsRun(next, Connected([0], 2, next), ops)
      && var m := Run(next, Connected([0], 2, next), ops);
      && m.running && Silent(m) && |m.filled| == 2
  {
    var next, c := [1], Connected([0], 2, [1]);
    var head, tail := [Start, PostPending, Stop], [Notify, Poll, Start, PostPending];
    assert IsRun(next, c, head);
    var m := Run(next, c, head);
    assert !m.running && m.free == 1 && m.out == 0 && m.h.pending == 1 && m.filled == [Delta([0], {0}, {})];
    assert IsRun(next, m, tail) && Silent(Run(next, m, tail)) && |Run(next, m, tail).filled| == 2;
    RunConcat(next, c, head, tail);
  }

  // ---------- Overruns ----------

  /** The overruns which a monitor has on record: queued with the last element, or pending. */
  function Recorded(before: Mon, after: Mon): Mask {
    if |before.filled| < |after.filled| then after.filled[|before.filled|].overrun else after.overflow
  }

  /** A post with an overrun mask records it exactly when the queue is full: with a free
      element the mask is dropped. */
  lemma OverrunsNeedAFullQueue(next: Extents, m: Mon, updated: Mask)
    requires m.running
    ensures (forall overflowed: Mask :: overflowed <= Recorded(m, Step(next, m, PostMasks(updated, overflowed))))
            <==> m.free == 0
  {
    if 0 < m.free {
      var b: nat := FreshBit(m.overflow);
      assert b !in Recorded(m, Step(next, m, PostMasks(updated, {b})));
      assert !({b} <= Recorded(m, Step(next, m, PostMasks(updated, {b}))));
    }
  }

  ghost function FreshBit(mask: Mask): (b: nat)
    ensures b !in mask
    ensures forall x :: x in mask ==> x < b
  {
    if mask == {} then 0
    else
      var x :| x in mask;
      var b := FreshBit(mask - {x});
      assert forall y :: y in mask ==> y == x || y in mask - {x};
      if x < b then b else x + 1
  }
}
