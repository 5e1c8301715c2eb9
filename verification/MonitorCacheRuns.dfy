/** What any number of threads do to one upstream subscription and its users, on the heap. */
module MonitorCacheRuns {
  import opened MonitorCache
  import opened MonitorElements
  import opened PvData
  import Spec = MonitorUserSpec
  import Runs = GatewayRuns
  import Reports = GatewayReports

  type Gateway = Runs.Gateway<MonitorUser, MonitorElement>
  type Op = Runs.Op<MonitorUser, MonitorElement>

  ghost function Elements(m: MonitorCacheEntry): set<MonitorElement>
    reads m, m.interested
  {
    set u, e | u in m.interested && e in u.elements :: e
  }

  /** The heap is as the state of the run says; only the notifications under way are not in
      the heap.  What a client holds is read from the elements themselves. */
  ghost predicate Mirrors(m: MonitorCacheEntry, g: Gateway)
    requires m.Valid()
    reads m, m.interested, m.lastelem, Elements(m)
  {
    && g.havedata == m.havedata && g.last == m.lastelem.value
    && (forall u :: u in g.clients ==> u in m.interested)
    && (forall u :: u in m.interested ==> u in g.clients && g.clients[u].user == u.Abs())
  }

  /** The same, but for user u. */
  ghost predicate MirrorsBut(m: MonitorCacheEntry, g: Gateway, u: MonitorUser)
    requires m.Valid()
    reads m, m.interested, m.lastelem, Elements(m)
  {
    && g.havedata == m.havedata && g.last == m.lastelem.value
    && (forall w :: w in g.clients ==> w in m.interested)
    && (forall w :: w in m.interested && w != u ==> w in g.clients && g.clients[w].user == w.Abs())
  }

  lemma SetClient(m: MonitorCacheEntry, g: Gateway, u: MonitorUser, c: Runs.Client<MonitorElement>)
    requires m.Valid() && u in m.interested && MirrorsBut(m, g, u) && c.user == u.Abs()
    ensures Mirrors(m, g.(clients := g.clients[u := c]))
  {}

  /** The heap has taken one step, or none. */
  ghost predicate Follows(m: MonitorCacheEntry, g: Gateway, ops: seq<Op>)
    requires m.Valid()
    reads m, m.interested, m.lastelem, Elements(m)
  {
    if ops == [] then Mirrors(m, g)
    else
      |ops| == 1 && Runs.Enabled(m.next, g, ops[0]) && Mirrors(m, Runs.Step(m.next, m.bufferSize, g, ops[0]))
  }

  // ---------- What a client does ----------

  method PollStep(m: MonitorCacheEntry, u: MonitorUser, ghost g: Gateway) returns (ghost op: Op)
    requires m.Valid() && Mirrors(m, g) && u in m.interested
    modifies u
    ensures m.Valid() && forall w :: w in m.interested ==> w.elements == old(w.elements)
    ensures Runs.Enabled(m.next, g, op) && Mirrors(m, Runs.Step(m.next, m.bufferSize, g, op))
  {
    var e := m.PollUser(u);
    op := Runs.Poll(u, if e == null then m.lastelem else e);
    SetClient(m, g, u, Runs.ClientStep(m.next, m.bufferSize, g, g.clients[u], op));
  }

  method StopStep(m: MonitorCacheEntry, u: MonitorUser, ghost g: Gateway) returns (ghost op: Op)
    requires m.Valid() && Mirrors(m, g) && u in m.interested
    modifies u
    ensures m.Valid() && forall w :: w in m.interested ==> w.elements == old(w.elements)
    ensures Runs.Enabled(m.next, g, op) && Mirrors(m, Runs.Step(m.next, m.bufferSize, g, op))
  {
    m.StopUser(u);
    op := Runs.Stop(u);
    SetClient(m, g, u, Runs.ClientStep(m.next, m.bufferSize, g, g.clients[u], op));
  }

  method ReleaseStep(m: MonitorCacheEntry, u: MonitorUser, e: MonitorElement, ghost g: Gateway) returns (ghost op: Op)
    requires m.Valid() && Mirrors(m, g) && u in m.interested
    modifies u, {e} * u.inuse
    ensures m.Valid() && forall w :: w in m.interested ==> w.elements == old(w.elements)
    ensures op == Runs.Release(u, e)
    ensures Runs.Enabled(m.next, g, op) && Mirrors(m, Runs.Step(m.next, m.bufferSize, g, op))
  {
    var ok := m.ReleaseUser(u, e);
    op := Runs.Release(u, e);
    SetClient(m, g, u, Runs.ClientStep(m.next, m.bufferSize, g, g.clients[u], op));
  }

  method StartOnly(m: MonitorCacheEntry, u: MonitorUser, stale: Mask, ghost g: Gateway) returns (notify: bool)
    requires m.Valid() && Mirrors(m, g) && u in m.interested && m.startresult
    requires stale == if u.empty == [] then {} else u.empty[0].changed
    modifies u, u.elements - u.inuse
    ensures m.Valid() && MirrorsBut(m, g, u)
    ensures forall w :: w in m.interested ==> fresh(w.elements - old(w.elements))
    ensures u.Abs() == Spec.Start(m.next, g.clients[u].user, m.bufferSize, g.havedata, g.last, stale)
    ensures notify <==> g.clients[u].user.filled == [] && u.filled != []
  {
    var ok;
    ok, notify := m.StartUser(u);
  }

  method StartSafely(m: MonitorCacheEntry, u: MonitorUser, ghost g: Gateway)
    returns (notify: bool, ghost op: Op)
    requires m.Valid() && Mirrors(m, g) && u in m.interested
    requires m.startresult && Spec.SafeStart(u.Abs(), m.havedata)
    modifies u, u.elements - u.inuse
    ensures m.Valid() && forall w :: w in m.interested ==> fresh(w.elements - old(w.elements))
    ensures op.Start? && op.id == u && Runs.Enabled(m.next, g, op)
    ensures Mirrors(m, Runs.Step(m.next, m.bufferSize, g, op))
    ensures notify <==> g.clients[u].user.filled == [] && u.filled != []
  {
    var stale := if u.empty == [] then {} else u.empty[0].changed;
    op := Runs.Start(u, stale);
    notify := StartOnly(m, u, stale, g);
    SetClient(m, g, u, Runs.ClientStep(m.next, m.bufferSize, g, g.clients[u], op));
  }

  /** A user which missed updates while it was stopped is not started again while it has
      elements to spare, and none is started once the upstream has failed. */
  method StartStep(m: MonitorCacheEntry, u: MonitorUser, ghost g: Gateway) returns (ghost ops: seq<Op>)
    requires m.Valid() && Mirrors(m, g) && u in m.interested
    modifies u, u.elements - u.inuse
    ensures m.Valid() && forall w :: w in m.interested ==> fresh(w.elements - old(w.elements))
    ensures Follows(m, g, ops)
  {
    var spare := |u.empty| - if m.havedata then 1 else 0;
    ops := [];
    if m.startresult && (u.initial || !u.inoverflow || spare <= 0) {
      var notify, op := StartSafely(m, u, g);
      ops := [op];
    }
  }

  method JoinStep(m: MonitorCacheEntry, ghost g: Gateway) returns (u: MonitorUser)
    requires m.Valid() && Mirrors(m, g)
    modifies m`interested
    ensures m.Valid() && fresh(u) && m.interested == old(m.interested) + {u} && u.elements == {}
    ensures Runs.Enabled(m.next, g, Runs.Join(u)) && Mirrors(m, Runs.Step(m.next, m.bufferSize, g, Runs.Join(u)))
  {
    u := m.CreateMonitor();
    SetClient(m, g, u, Runs.Client(Spec.Fresh(m.next), 0, false));
  }

  // ---------- What the upstream does ----------

  method EventStep(m: MonitorCacheEntry, updates: seq<Delta>, ghost g: Gateway)
    returns (dsnotify: set<MonitorUser>, ghost op: Op)
    requires m.Valid() && Mirrors(m, g) && Runs.GatewayInv(m.next, m.bufferSize, g) && AllSized(m.next, updates)
    modifies m`havedata, m.lastelem, m.interested, m.Writable()
    ensures m.Valid() && op == Runs.Event(updates)
    ensures forall w :: w in m.interested ==> w.elements == old(w.elements)
    ensures Runs.Enabled(m.next, g, op) && Mirrors(m, Runs.Step(m.next, m.bufferSize, g, op))
    ensures forall u :: u in m.interested ==>
              (u in dsnotify <==> g.clients[u].user.filled == [] && u.filled != [])
  {
    ghost var pre := map u | u in m.interested :: u.Look();
    dsnotify := m.MonitorEvent(updates, pre);
    op := Runs.Event(updates);
  }

  // ---------- Any number of threads ----------

  /** One step of one client, or the arrival of a notification. */
  method ClientStep(m: MonitorCacheEntry, u: MonitorUser, ghost g: Gateway) returns (ghost ops: seq<Op>)
    requires m.Valid() && Mirrors(m, g) && u in m.interested
    modifies u, u.elements
    ensures m.Valid() && forall w :: w in m.interested ==> fresh(w.elements - old(w.elements))
    ensures Follows(m, g, ops)
  {
    ops := [];
    if {
      case true => ops := StartStep(m, u, g);
      case true =>
        var op := StopStep(m, u, g);
        ops := [op];
      case true =>
        var op := PollStep(m, u, g);
        ops := [op];
      case true =>
        // an element which some client holds, be it this one or not
        var w :| w in m.interested;
        if w.inuse != {} {
          var e :| e in w.inuse;
          var op := ReleaseStep(m, u, e, g);
          ops := [op];
        }
      case true => ops := NotifyStep(m, u, g);
    }
  }

  ghost method NotifyStep(m: MonitorCacheEntry, u: MonitorUser, g: Gateway) returns (ops: seq<Op>)
    requires m.Valid() && Mirrors(m, g) && u in m.interested
    ensures Follows(m, g, ops)
  {
    ops := [];
    if 0 < g.clients[u].pending {
      ops := [Runs.Notify(u)];
      SetClient(m, g, u, Runs.ClientStep(m.next, m.bufferSize, g, g.clients[u], ops[0]));
    }
  }

  /** One step of the upstream, or a new client. */
  method UpstreamStep(m: MonitorCacheEntry, updates: seq<Delta>, ghost g: Gateway) returns (ghost ops: seq<Op>)
    requires m.Valid() && Mirrors(m, g) && Runs.GatewayInv(m.next, m.bufferSize, g) && AllSized(m.next, updates)
    modifies m`havedata, m`interested, m.lastelem, m.interested, m.Writable()
    ensures m.Valid()
    ensures forall u :: u in m.interested ==>
              if u in old(m.interested) then u.elements == old(u.elements) else fresh(u) && u.elements == {}
    ensures Follows(m, g, ops)
  {
    if {
      case true =>
        var dsnotify, op := EventStep(m, updates, g);
        ops := [op];
      case true =>
        var u := JoinStep(m, g);
        ops := [Runs.Join(u)];
    }
  }

  /** One step, of whichever thread comes first. */
  method AnyStep(m: MonitorCacheEntry, updates: seq<Delta>, ghost g: Gateway) returns (ghost ops: seq<Op>)
    requires m.Valid() && Mirrors(m, g) && Runs.GatewayInv(m.next, m.bufferSize, g) && AllSized(m.next, updates)
    modifies m`havedata, m`interested, m.lastelem, m.interested, Elements(m)
    ensures m.Valid()
    ensures forall u :: u in m.interested ==>
              if u in old(m.interested) then fresh(u.elements - old(u.elements)) else fresh(u) && u.elements == {}
    ensures Follows(m, g, ops)
  {
    if {
      case true =>
        ops := UpstreamStep(m, updates, g);
      case m.interested != {} =>
        var u :| u in m.interested;
        ops := ClientStep(m, u, g);
    }
  }

  /** Whatever the upstream and the clients do, in any order, the heap follows a run of the
      specification. */
  method Serve(m: MonitorCacheEntry, batches: seq<seq<Delta>>, ghost g0: Gateway) returns (ghost trace: seq<Op>)
    requires IsExtents(m.next) && 0 < m.bufferSize && forall i :: 0 <= i < |batches| ==> AllSized(m.next, batches[i])
    requires m.Valid() && Mirrors(m, g0) && Runs.GatewayInv(m.next, m.bufferSize, g0)
    modifies m`havedata, m`interested, m.lastelem, m.interested, Elements(m)
    ensures m.Valid() && Runs.IsRun(m.next, m.bufferSize, g0, trace)
    ensures Mirrors(m, Runs.Run(m.next, m.bufferSize, g0, trace))
    decreases |batches|
  {
    trace := [];
    if batches != [] {
      var ops := AnyStep(m, batches[0], g0);
      ghost var g := if ops == [] then g0 else Runs.Step(m.next, m.bufferSize, g0, ops[0]);
      if ops != [] { Runs.StepKeepsInv(m.next, m.bufferSize, g0, ops[0]); }
      trace := Serve(m, batches[1..], g);
      if ops != [] {
        ghost var rest := trace;
        trace := [ops[0]] + rest;
        assert trace[1..] == rest;
      }
    }
  }

  lemma HeldInRun(m: MonitorCacheEntry, g: Gateway, u: MonitorUser, e: MonitorElement)
    requires m.Valid() && Mirrors(m, g) && u in m.interested
    ensures e in u.inuse <==> e in g.clients[u].user.out
    ensures e in u.inuse ==> Runs.Holds(g, u, e, e.Contents())
  {}

  lemma ConvergesInRun(m: MonitorCacheEntry, g: Gateway, u: MonitorUser)
    requires m.Valid() && Mirrors(m, g) && Runs.GatewayInv(m.next, m.bufferSize, g)
    requires u in m.interested && !u.initial
    ensures Spec.Eventually(m.next, u.Abs()) == m.lastelem.value
  {}

  /** So every started user converges to the upstream's last value; and whatever a client held
      at the start and has not released, it still holds, with nothing written to it. */
  method ServeAll(m: MonitorCacheEntry, batches: seq<seq<Delta>>, ghost g0: Gateway) returns (ghost trace: seq<Op>)
    requires IsExtents(m.next) && 0 < m.bufferSize && forall i :: 0 <= i < |batches| ==> AllSized(m.next, batches[i])
    requires m.Valid() && Mirrors(m, g0) && Runs.GatewayInv(m.next, m.bufferSize, g0)
    modifies m`havedata, m`interested, m.lastelem, m.interested, Elements(m)
    ensures m.Valid() && Runs.IsRun(m.next, m.bufferSize, g0, trace)
    ensures Mirrors(m, Runs.Run(m.next, m.bufferSize, g0, trace))
    ensures forall u :: u in m.interested && !u.initial ==> Spec.Eventually(m.next, u.Abs()) == m.lastelem.value
    ensures forall u, e :: u in old(m.interested) && e in old(u.inuse) && Runs.Release(u, e) !in trace ==>
              u in m.interested && e in u.inuse && e.Contents() == old(e.Contents())
  {
    forall u, e | u in m.interested && e in u.inuse ensures Runs.Holds(g0, u, e, e.Contents()) {
      HeldInRun(m, g0, u, e);
    }
    trace := Serve(m, batches, g0);
    ghost var g := Runs.Run(m.next, m.bufferSize, g0, trace);
    Runs.RunKeepsInv(m.next, m.bufferSize, g0, trace);
    forall u | u in m.interested && !u.initial ensures Spec.Eventually(m.next, u.Abs()) == m.lastelem.value {
      ConvergesInRun(m, g, u);
    }
    forall u, e | u in old(m.interested) && e in old(u.inuse) && Runs.Release(u, e) !in trace
      ensures u in m.interested && e in u.inuse && e.Contents() == old(e.Contents())
    {
      Runs.PolledElementsAreStable(m.next, m.bufferSize, g0, trace, u, e, old(e.Contents()));
      HeldInRun(m, g, u, e);
    }
  }

  /** What is on the heap after a run tells each client of the upstream's updates: each of them
      once, with its masks, in the order in which they were sent. */
  lemma ReportedOnHeap(m: MonitorCacheEntry, trace: seq<Op>, u: MonitorUser)
    requires IsExtents(m.next) && 0 < m.bufferSize && m.Valid() && u in m.interested
    requires Runs.IsRun(m.next, m.bufferSize, Runs.Initial<MonitorUser, MonitorElement>(m.next), trace)
    requires Mirrors(m, Runs.Run(m.next, m.bufferSize, Runs.Initial<MonitorUser, MonitorElement>(m.next), trace))
    ensures m.lastelem.value == Fold(m.next, Blank(m.next), Reports.Upstream(trace))
    ensures Reports.Accounts(m.next, Reports.Upstream(trace), u.Abs(),
              Reports.AccountAfter(m.next, m.bufferSize, Runs.Initial<MonitorUser, MonitorElement>(m.next), 0,
                                   Reports.NO_ACCOUNT, trace, u))
  {
    var all := Reports.Upstream(trace);
    Reports.EveryUpdateIsReportedOnce<MonitorUser, MonitorElement>(m.next, m.bufferSize, trace, u);
    assert all[..|all|] == all;
  }

  /** A new subscription is where every run begins. */
  lemma StartsMirrored(m: MonitorCacheEntry)
    requires m.Valid() && m.interested == {} && !m.havedata && m.lastelem.value == Blank(m.next)
    ensures Mirrors(m, Runs.Initial(m.next))
    ensures Runs.GatewayInv(m.next, m.bufferSize, Runs.Initial<MonitorUser, MonitorElement>(m.next))
  {}
}
