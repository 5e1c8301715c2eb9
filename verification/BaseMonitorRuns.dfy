/** What its owner and its client do to one monitor of the QSRV server, on the heap. */
module BaseMonitorRuns {
  import opened BaseMonitor
  import opened MonitorElements
  import opened PvData
  import Spec = BaseMonitorSpec

  /** What is called, or goes on: `Return(e)` is the first step of release(). */
  datatype Call = Do(op: Spec.Op) | Return(e: MonitorElement)

  function OpOf(call: Call): Spec.Op {
    match call
    case Do(op) => op
    case Return(_) => Spec.ReleasePush
  }

  /** What goes on around a monitor: the elements which the client holds, the notifications
      under way to it, and the releases between their two steps. */
  datatype Around = Around(held: set<MonitorElement>, pending: nat, releasers: nat)

  ghost predicate Surrounds(a: Around, m: Monitor)
    reads m
  {
    a == Around(m.out, m.h.pending, m.h.releasers)
  }

  /** A client returns only what it holds, and no step goes on which was not begun. */
  predicate Possible(a: Around, call: Call) {
    match call
    case Do(Notify) => 0 < a.pending
    case Do(ReleasePush) => false
    case Do(ReleaseUpdate) => 0 < a.releasers
    case Do(_) => true
    case Return(e) => e in a.held
  }

  // ---------- What the calls come to ----------

  /** A monitor, the elements it keeps, and those which the client holds. */
  datatype Place = Place(mon: Spec.Mon, stock: seq<MonitorElement>, held: set<MonitorElement>)

  ghost function Look(m: Monitor): Place
    reads m, m.complete, m.inuse
  {
    Place(m.Abs(), m.Stock(), m.out)
  }

  predicate Made(p: Place, call: Call) {
    Possible(Around(p.held, p.mon.h.pending, p.mon.h.releasers), call) && Spec.Enabled(p.mon, OpOf(call))
  }

  /** A call which is not possible is not made.  The client polls the element which was kept
      for longest, and what it returns is kept for longest from then on. */
  function After(next: Extents, p: Place, call: Call): Place {
    if !Made(p, call) then p
    else
      var q := p.(mon := Spec.Step(next, p.mon, OpOf(call)));
      match call
      case Return(e) => q.(stock := p.stock + [e], held := p.held - {e})
      case Do(Poll) =>
        if !p.mon.running || p.mon.filled == [] || p.stock == [] then q
        else q.(stock := p.stock[1..], held := p.held + {p.stock[0]})
      case _ => q
  }

  function AfterAll(next: Extents, p: Place, calls: seq<Call>): Place
    decreases |calls|
  {
    if calls == [] then p else AfterAll(next, After(next, p, calls[0]), calls[1..])
  }

  function OpsMade(next: Extents, p: Place, calls: seq<Call>): seq<Spec.Op>
    decreases |calls|
  {
    if calls == [] then []
    else
      (if Made(p, calls[0]) then [OpOf(calls[0])] else []) + OpsMade(next, After(next, p, calls[0]), calls[1..])
  }

  /** Those which are made are a run of the specification. */
  lemma {:induction false} CallsAreRun(next: Extents, p: Place, calls: seq<Call>)
    ensures Spec.IsRun(next, p.mon, OpsMade(next, p, calls))
    ensures Spec.Run(next, p.mon, OpsMade(next, p, calls)) == AfterAll(next, p, calls).mon
    decreases |calls|
  {
    if calls != [] {
      var rest := OpsMade(next, After(next, p, calls[0]), calls[1..]);
      CallsAreRun(next, After(next, p, calls[0]), calls[1..]);
      if Made(p, calls[0]) { assert ([OpOf(calls[0])] + rest)[1..] == rest; } else { assert [] + rest == rest; }
    }
  }

  // ---------- One call ----------

  /** `pool` has all elements which the monitor ever passes around. */
  ghost predicate Owns(m: Monitor, pool: set<MonitorElement>)
    reads m
  {
    m.out <= pool && forall i :: 0 <= i < |m.Stock()| ==> m.Stock()[i] in pool
  }

  /** The owner changes some fields of the structure. */
  method WriteStep(m: Monitor, value: Value, mask: Mask)
    requires m.Valid()
    modifies m`h, m.complete
    ensures m.Valid() && m.out == old(m.out) && m.Stock() == old(m.Stock())
    ensures m.Abs() == Spec.Step(m.next, old(m.Abs()), Spec.Write(value, mask))
  {
    m.complete.value := Copy(m.next, m.complete.value, value, mask);
    m.h := m.h.(owed := m.h.owed + mask);
  }

  ghost method NotifyStep(m: Monitor)
    requires m.Valid() && 0 < m.h.pending
    modifies m`h
    ensures m.Valid() && m.out == old(m.out) && m.Stock() == old(m.Stock())
    ensures m.Abs() == Spec.Step(m.next, old(m.Abs()), Spec.Notify)
  {
    m.h := m.h.(pending := m.h.pending - 1, active := true);
  }

  method PostStep(m: Monitor, op: Spec.Op) returns (notify: bool)
    requires m.Valid()
    requires op.PostPending? || op.PostMask? || op.PostMasks? || op.PostNoOverflow?
    modifies m, if m.empty == [] then {} else {m.empty[0]}
    ensures m.Valid() && m.out == old(m.out) && m.Stock() == old(m.Stock())
    ensures m.Abs() == Spec.Step(m.next, old(m.Abs()), op)
    ensures m.h.pending == old(m.h.pending) + if notify then 1 else 0
    ensures m.h.releasers == old(m.h.releasers)
  {
    var posted;
    match op {
      case PostPending => posted, notify := m.PostPending();
      case PostMask(updated) => posted, notify := m.PostMask(updated);
      case PostMasks(updated, overflowed) => posted, notify := m.PostMasks(updated, overflowed);
      case PostNoOverflow(updated) => posted, notify := m.PostNoOverflow(updated);
    }
  }

  /** What touches no element but the first free one. */
  method OwnStep(m: Monitor, op: Spec.Op, a: Around) returns (b: Around)
    requires m.Valid() && Surrounds(a, m) && Possible(a, Do(op)) && !op.Poll?
    modifies m, m.complete, if m.empty == [] then {} else {m.empty[0]}
    ensures m.Valid() && m.out == old(m.out) && m.Stock() == old(m.Stock()) && Surrounds(b, m)
    ensures Look(m) == After(m.next, old(Look(m)), Do(op))
  {
    b := a;
    match op {
      case Write(value, mask) => WriteStep(m, value, mask);
      case Start => var notify := m.Start();
      case Stop => var notify := m.Stop();
      case Notify =>
        NotifyStep(m);
        b := b.(pending := b.pending - 1);
      case ReleaseUpdate =>
        var posted, notify := m.RequestUpdate();
        b := b.(releasers := b.releasers - 1, pending := if notify then b.pending + 1 else b.pending);
      case PostPending | PostMask(_) | PostMasks(_, _) | PostNoOverflow(_) =>
        var notify := PostStep(m, op);
        if notify { b := b.(pending := b.pending + 1); }
    }
  }

  /** What moves an element from the monitor to the client, or back. */
  method ClientStep(m: Monitor, call: Call, a: Around, ghost pool: set<MonitorElement>) returns (b: Around)
    requires m.Valid() && Surrounds(a, m) && Possible(a, call) && Owns(m, pool)
    requires call.Return? || call.op.Poll?
    modifies m
    ensures m.Valid() && Surrounds(b, m) && Owns(m, pool)
    ensures Look(m) == After(m.next, old(Look(m)), call)
  {
    match call {
      case Return(e) =>
        var update := m.ReleasePush(e);
        assert m.Stock() == old(m.Stock()) + [e];
        b := a.(held := a.held - {e}, releasers := if update then a.releasers + 1 else a.releasers);
      case Do(_) =>
        var e := m.Poll();
        assert e != null ==> e == old(m.Stock())[0] && m.Stock() == old(m.Stock())[1..];
        b := if e == null then a else a.(held := a.held + {e});
    }
  }

  // ---------- Any number of calls ----------

  /** The calls are made in order, those which are possible.  What the client held at the
      start and does not return, it still holds, with nothing written to it. */
  method Serve(m: Monitor, calls: seq<Call>, a: Around, ghost pool: set<MonitorElement>) returns (b: Around)
    requires m.Valid() && Surrounds(a, m) && Owns(m, pool)
    modifies m, m.complete, pool
    ensures m.Valid() && Surrounds(b, m) && Owns(m, pool)
    ensures Look(m) == AfterAll(m.next, old(Look(m)), calls)
    ensures forall e :: e in old(m.out) && Return(e) !in calls ==> e in m.out && e.Contents() == old(e.Contents())
    decreases |calls|
  {
    b := a;
    if calls != [] {
      var call := calls[0];
      if Possible(a, call) {
        if call.Return? || call.op.Poll? {
          b := ClientStep(m, call, a, pool);
        } else {
          assert m.empty != [] ==> m.empty[0] == m.Stock()[|m.inuse|];
          b := OwnStep(m, call.op, a);
        }
      }
      b := Serve(m, calls[1..], b, pool);
    }
  }

  /** So from connect() on, the elements are conserved; and if the last start() found a free
      one, the client's copy and its queue lack nothing but the pending fields. */
  method ServeAll(m: Monitor, calls: seq<Call>, a: Around, ghost pool: set<MonitorElement>)
    returns (b: Around, ghost ops: seq<Spec.Op>)
    requires IsExtents(m.next) && |m.complete.value| == |m.next|
    requires m.Valid() && Surrounds(a, m) && Owns(m, pool)
    requires m.Abs() == Spec.Connected(m.complete.value, m.nbuffers, m.next)
    modifies m, m.complete, pool
    ensures m.Valid() && ops == OpsMade(m.next, old(Look(m)), calls)
    ensures Spec.IsRun(m.next, old(m.Abs()), ops) && m.Abs() == Spec.Run(m.next, old(m.Abs()), ops)
    ensures |m.empty| + |m.inuse| + |m.out| == m.nbuffers && |m.complete.value| == |m.h.view| == |m.next|
    ensures m.running && m.inoverflow ==> m.empty == [] || 0 < b.releasers
    ensures m.running && 0 < Spec.LastStart(m.next, old(m.Abs()), ops, old(m.Abs())).free ==>
              Spec.Agrees(m.next, m.Abs())
  {
    ghost var c, p := m.Abs(), Look(m);
    ops := OpsMade(m.next, p, calls);
    CallsAreRun(m.next, p, calls);
    b := Serve(m, calls, a, pool);
    Spec.RunKeepsSynced(m.next, m.nbuffers, c, ops, c);
  }
}
