/** A group together with the monitor queues of its subscribers: database events are written to
    the one structure which all of them share, and posted to those which are subscribed.
 */
module GroupMonitors {
  import opened PvData
  import G = GroupSpec
  import M = BaseMonitorSpec

  /** `complete` is the shared structure, and `scratch` the mask of the event in progress.  A
      monitor is `joining` between start() and the addMonitor() it leads to, and `leaving`
      between stop() and removeMonitor(). */
  datatype System = System(
    group: G.Group, mons: map<nat, M.Mon>, complete: Value, scratch: Mask, joining: set<nat>, leaving: set<nat>)

  datatype Op =
    | Connect(id: nat)
    | Start(id: nat)
    | Join(id: nat)
    | Greet(id: nat)
    | Enter(id: nat)
    | Stop(id: nat)
    | Leave(id: nat)
    | Event(i: nat, property: bool, value: Value, mask: Mask)
    | Post(id: nat)
    | Finish
    | Client(id: nat, act: M.Op)

  function Initial(hasValue: seq<bool>, value: Value): System {
    System(G.Initial(hasValue), map[], value, {}, {}, {})
  }

  // ---------- Steps ----------

  /** Calls of start() and stop() on one monitor do not overlap. */
  predicate Calls(s: System, id: nat) {
    && G.LockFree(s.group)
    && id in s.mons && id !in s.joining && id !in s.group.greeting && id !in s.leaving
  }

  /** A start() finds a free element; no release() of before is between its two steps, to post
      what the start has made pending; and no event in progress still counts the monitor. */
  predicate SafeStart(s: System, id: nat)
    requires id in s.mons
  {
    var m := s.mons[id];
    m.running || (0 < m.free && m.h.releasers == 0 && id !in s.group.interested)
  }

  /** While addMonitor() has dropped the lock to post, no event comes which changes anything. */
  predicate SafeEvent(s: System, mask: Mask) {
    s.group.greeting == {} || mask == {}
  }

  /** When it has the lock again, some other is still subscribed, and no first events are awaited
      anew. */
  predicate SafeEnter(s: System) {
    s.group.interested != {} && s.group.waits == 0
  }

  predicate Enabled(s: System, op: Op) {
    match op
    case Connect(id) => id !in s.mons
    case Start(id) => Calls(s, id) && SafeStart(s, id)
    case Join(id) => id in s.joining && id in s.mons && G.LockFree(s.group) && !G.PostsAtOnce(s.group)
    case Greet(id) => id in s.joining && id in s.mons && G.LockFree(s.group) && G.PostsAtOnce(s.group)
    case Enter(id) => id in s.mons && G.Enabled(s.group, G.Enter(id)) && SafeEnter(s)
    case Stop(id) => Calls(s, id)
    case Leave(id) => id in s.leaving && G.Enabled(s.group, G.Remove(id))
    case Event(i, property, value, mask) =>
      G.Enabled(s.group, G.Event(i, property)) && |value| == |s.complete| && SafeEvent(s, mask)
    case Post(id) => id in s.mons && G.Enabled(s.group, G.Post(id))
    case Finish => G.Enabled(s.group, G.Finish)
    case Client(id, act) =>
      && id in s.mons && G.LockFree(s.group)
      && (act.Notify? || act.Poll? || act.ReleasePush? || act.ReleaseUpdate?) && M.Enabled(s.mons[id], act)
  }

  /** start(): it leads to addMonitor() if the monitor was not running and has a free element. */
  function Started(s: System, id: nat): System
    requires id in s.mons
  {
    var m := s.mons[id];
    if m.running then s
    else s.(mons := s.mons[id := M.Started(m)], joining := if m.free == 0 then s.joining else s.joining + {id})
  }

  function Joined(s: System, id: nat): System {
    s.(group := G.Added(s.group, id), joining := s.joining - {id})
  }

  function Greeted(s: System, id: nat): System
    requires id in s.mons
  {
    s.(group := G.Greeted(s.group, id), joining := s.joining - {id}, mons := s.mons[id := M.Pending(s.mons[id])])
  }

  function Entered(s: System, id: nat): System {
    s.(group := G.Entered(s.group, id))
  }

  function Stopped(s: System, id: nat): System
    requires id in s.mons
  {
    var m := s.mons[id];
    if !m.running then s else s.(mons := s.mons[id := m.(running := false)], leaving := s.leaving + {id})
  }

  function Left(s: System, id: nat): System {
    s.(group := G.Removed(s.group, id), leaving := s.leaving - {id})
  }

  function Written(next: Extents, m: M.Mon, value: Value, mask: Mask): M.Mon {
    M.Step(next, m, M.Write(value, mask))
  }

  /** An event, up to its first post. */
  function Changed(next: Extents, s: System, i: nat, property: bool, value: Value, mask: Mask): System {
    s.(group := G.Step(s.group, G.Event(i, property)),
       mons := map id | id in s.mons :: Written(next, s.mons[id], value, mask),
       complete := Copy(next, s.complete, value, mask), scratch := mask)
  }

  function Step(next: Extents, nbuffers: nat, s: System, op: Op): System
    requires Enabled(s, op)
  {
    match op
    case Connect(id) => s.(mons := s.mons[id := M.Connected(s.complete, nbuffers, next)])
    case Start(id) => Started(s, id)
    case Join(id) => Joined(s, id)
    case Greet(id) => Greeted(s, id)
    case Enter(id) => Entered(s, id)
    case Stop(id) => Stopped(s, id)
    case Leave(id) => Left(s, id)
    case Event(i, property, value, mask) => Changed(next, s, i, property, value, mask)
    case Post(id) =>
      s.(group := G.Step(s.group, G.Post(id)), mons := s.mons[id := M.Masked(s.mons[id], s.scratch, {})])
    case Finish => s.(group := G.Step(s.group, G.Finish))
    case Client(id, act) => s.(mons := s.mons[id := M.Step(next, s.mons[id], act)])
  }

  // ---------- The invariant ----------

  predicate Subscribed(g: G.Group, id: nat) {
    (id in g.interested && id !in g.removing) || id in g.adding
  }

  /** What an event in progress has written and not yet posted to a subscriber. */
  function Unposted(g: G.Group, id: nat, scratch: Mask): Mask {
    if g.iterating && id in g.interested && id !in g.posted && id !in g.adding then scratch else {}
  }

  /** Started, with the whole structure pending, and nothing which could post it too early. */
  predicate Whole(m: M.Mon) {
    m.h.starting && !m.inoverflow && m.h.releasers == 0
  }

  /** Nothing is pending, and nothing is about to make it so. */
  predicate Served(m: M.Mon) {
    m.changed == {} && m.h.owed == {} && !m.inoverflow && !m.h.starting && m.h.releasers == 0
  }

  ghost predicate MonInv(next: Extents, nbuffers: nat, s: System, id: nat, m: M.Mon) {
    && M.Conserved(next, nbuffers, m) && M.Synced(next, m) && m.complete == s.complete
    && (m.running <==> (id in s.group.want && id !in s.leaving) || id in s.joining)
    && (id in s.joining ==> Whole(m) && 0 < m.free && id !in s.group.want && id !in s.group.interested)
    && (id in s.group.greeting ==> Served(m) && id !in s.group.interested)
    && (0 < s.group.waits && id in s.group.interested && m.running ==> Whole(m))
    && (Subscribed(s.group, id) && m.running ==> m.h.owed <= Unposted(s.group, id, s.scratch) || 0 in m.changed)
  }

  ghost predicate Inv(next: Extents, nbuffers: nat, s: System) {
    && G.Inv(s.group) && G.Heard(s.group) && s.group.lost == {} && s.group.removing <= s.group.interested
    && s.group.adding !! s.group.removing
    && |s.complete| == |next|
    && s.leaving <= s.group.want && s.leaving !! s.group.greeting
    && (forall id :: id in s.group.want || id in s.group.interested || id in s.joining ==> id in s.mons)
    && forall id :: id in s.mons ==> MonInv(next, nbuffers, s, id, s.mons[id])
  }

  lemma ConnectKeepsInv(next: Extents, nbuffers: nat, s: System, id: nat)
    requires Inv(next, nbuffers, s) && Enabled(s, Connect(id))
    ensures Inv(next, nbuffers, Step(next, nbuffers, s, Connect(id)))
  {}

  lemma ClientHasInv(next: Extents, nbuffers: nat, s: System, id: nat, act: M.Op)
    requires IsExtents(next) && Inv(next, nbuffers, s) && Enabled(s, Client(id, act))
    ensures MonInv(next, nbuffers, s, id, M.Step(next, s.mons[id], act))
  {
    M.StepKeepsSynced(next, nbuffers, s.mons[id], act);
  }

  lemma ClientKeepsInv(next: Extents, nbuffers: nat, s: System, id: nat, act: M.Op)
    requires IsExtents(next) && Inv(next, nbuffers, s) && Enabled(s, Client(id, act))
    ensures Inv(next, nbuffers, Step(next, nbuffers, s, Client(id, act)))
  {
    ClientHasInv(next, nbuffers, s, id, act);
    var m := M.Step(next, s.mons[id], act);
    assert Step(next, nbuffers, s, Client(id, act)) == s.(mons := s.mons[id := m]);
  }

  lemma PostKeepsInv(next: Extents, nbuffers: nat, s: System, id: nat)
    requires IsExtents(next) && Inv(next, nbuffers, s) && Enabled(s, Post(id))
    ensures Inv(next, nbuffers, Step(next, nbuffers, s, Post(id)))
  {
    G.StepKeepsInv(s.group, G.Post(id));
    M.StepKeepsSynced(next, nbuffers, s.mons[id], M.PostMask(s.scratch));
  }

  lemma FinishKeepsInv(next: Extents, nbuffers: nat, s: System)
    requires Inv(next, nbuffers, s) && Enabled(s, Finish)
    ensures Inv(next, nbuffers, Step(next, nbuffers, s, Finish))
  {
    G.StepKeepsInv(s.group, G.Finish);
  }

  lemma WrittenHasInv(next: Extents, nbuffers: nat, s: System, i: nat, property: bool, value: Value, mask: Mask,
                      id: nat)
    requires IsExtents(next) && Inv(next, nbuffers, s) && Enabled(s, Event(i, property, value, mask)) && id in s.mons
    ensures var t := Changed(next, s, i, property, value, mask); MonInv(next, nbuffers, t, id, t.mons[id])
  {
    M.StepKeepsSynced(next, nbuffers, s.mons[id], M.Write(value, mask));
    assert s.mons[id].h.owed + mask == {} <==> s.mons[id].h.owed == {} && mask == {};
  }

  /** An event keeps the invariant if and only if it is safe. */
  lemma EventIsExact(next: Extents, nbuffers: nat, s: System, i: nat, property: bool, value: Value, mask: Mask)
    requires IsExtents(next) && Inv(next, nbuffers, s)
    requires G.Enabled(s.group, G.Event(i, property)) && |value| == |s.complete|
    ensures Inv(next, nbuffers, Changed(next, s, i, property, value, mask)) <==> SafeEvent(s, mask)
  {
    var t := Changed(next, s, i, property, value, mask);
    if SafeEvent(s, mask) {
      G.StepKeepsInv(s.group, G.Event(i, property));
      G.StepKeepsHeard(s.group, G.Event(i, property));
      forall id | id in s.mons ensures MonInv(next, nbuffers, t, id, t.mons[id]) {
        WrittenHasInv(next, nbuffers, s, i, property, value, mask, id);
      }
    } else {
      var id :| id in s.group.greeting;
      var bit :| bit in mask;
      assert id in s.group.want && bit in t.mons[id].h.owed && !MonInv(next, nbuffers, t, id, t.mons[id]);
    }
  }

  lemma StopKeepsInv(next: Extents, nbuffers: nat, s: System, id: nat)
    requires IsExtents(next) && Inv(next, nbuffers, s) && Enabled(s, Stop(id))
    ensures Inv(next, nbuffers, Step(next, nbuffers, s, Stop(id)))
  {
    M.StepKeepsSynced(next, nbuffers, s.mons[id], M.Stop);
  }

  lemma LeaveKeepsInv(next: Extents, nbuffers: nat, s: System, id: nat)
    requires Inv(next, nbuffers, s) && Enabled(s, Leave(id))
    ensures Inv(next, nbuffers, Step(next, nbuffers, s, Leave(id)))
  {
    G.StepKeepsInv(s.group, G.Remove(id));
    var t := Left(s, id);
    forall other | other in s.mons ensures MonInv(next, nbuffers, t, other, t.mons[other]) {
      assert MonInv(next, nbuffers, s, other, s.mons[other]);
    }
  }

  lemma JoinKeepsInv(next: Extents, nbuffers: nat, s: System, id: nat)
    requires IsExtents(next) && Inv(next, nbuffers, s) && Enabled(s, Join(id))
    ensures Inv(next, nbuffers, Step(next, nbuffers, s, Join(id)))
  {
    G.StepKeepsInv(s.group, G.Add(id));
    G.StepKeepsHeard(s.group, G.Add(id));
    var t := Joined(s, id);
    forall other | other in s.mons ensures MonInv(next, nbuffers, t, other, t.mons[other]) {
      assert MonInv(next, nbuffers, s, other, s.mons[other]);
    }
  }

  lemma NewcomerHasInv(next: Extents, nbuffers: nat, s: System, id: nat)
    requires IsExtents(next) && Inv(next, nbuffers, s) && Enabled(s, Greet(id))
    ensures MonInv(next, nbuffers, Greeted(s, id), id, Greeted(s, id).mons[id])
  {
    M.StepKeepsSynced(next, nbuffers, s.mons[id], M.PostPending);
  }

  lemma GreetKeepsInv(next: Extents, nbuffers: nat, s: System, id: nat)
    requires IsExtents(next) && Inv(next, nbuffers, s) && Enabled(s, Greet(id))
    ensures Inv(next, nbuffers, Step(next, nbuffers, s, Greet(id)))
  {
    G.StepKeepsInv(s.group, G.Greet(id));
    NewcomerHasInv(next, nbuffers, s, id);
    var t := Greeted(s, id);
    forall other | other in s.mons && other != id ensures MonInv(next, nbuffers, t, other, t.mons[other]) {
      assert MonInv(next, nbuffers, s, other, s.mons[other]);
    }
  }

  /** The end of addMonitor() keeps the invariant if and only if it is safe. */
  lemma EnterIsExact(next: Extents, nbuffers: nat, s: System, id: nat)
    requires IsExtents(next) && Inv(next, nbuffers, s) && id in s.mons && G.Enabled(s.group, G.Enter(id))
    ensures Inv(next, nbuffers, Entered(s, id)) <==> SafeEnter(s)
  {
    var t := Entered(s, id);
    G.StepKeepsInv(s.group, G.Enter(id));
    G.StepKeepsHeard(s.group, G.Enter(id));
    if SafeEnter(s) {
      forall other | other in s.mons ensures MonInv(next, nbuffers, t, other, t.mons[other]) {
        assert MonInv(next, nbuffers, s, other, s.mons[other]);
      }
    } else if s.group.interested != {} {
      assert MonInv(next, nbuffers, s, id, s.mons[id]) && !MonInv(next, nbuffers, t, id, t.mons[id]);
    }
  }

  /** A start() keeps the invariant if and only if it is safe. */
  lemma StartIsExact(next: Extents, nbuffers: nat, s: System, id: nat)
    requires IsExtents(next) && Inv(next, nbuffers, s) && Calls(s, id)
    ensures Inv(next, nbuffers, Started(s, id)) <==> SafeStart(s, id)
  {
    var m, t := s.mons[id], Started(s, id);
    if !m.running && SafeStart(s, id) {
      M.StepKeepsSynced(next, nbuffers, m, M.Start);
      forall other | other in s.mons ensures MonInv(next, nbuffers, t, other, t.mons[other]) {
        assert MonInv(next, nbuffers, s, other, s.mons[other]);
      }
    } else if !m.running {
      assert !MonInv(next, nbuffers, t, id, t.mons[id]);
    }
  }

  lemma StepKeepsInv(next: Extents, nbuffers: nat, s: System, op: Op)
    requires IsExtents(next) && Inv(next, nbuffers, s) && Enabled(s, op)
    ensures Inv(next, nbuffers, Step(next, nbuffers, s, op))
  {
    match op
    case Connect(id) => ConnectKeepsInv(next, nbuffers, s, id);
    case Start(id) => StartIsExact(next, nbuffers, s, id);
    case Join(id) => JoinKeepsInv(next, nbuffers, s, id);
    case Greet(id) => GreetKeepsInv(next, nbuffers, s, id);
    case Enter(id) => EnterIsExact(next, nbuffers, s, id);
    case Stop(id) => StopKeepsInv(next, nbuffers, s, id);
    case Leave(id) => LeaveKeepsInv(next, nbuffers, s, id);
    case Event(i, property, value, mask) => EventIsExact(next, nbuffers, s, i, property, value, mask);
    case Post(id) => PostKeepsInv(next, nbuffers, s, id);
    case Finish => FinishKeepsInv(next, nbuffers, s);
    case Client(id, act) => ClientKeepsInv(next, nbuffers, s, id, act);
  }

  // ---------- Runs ----------

  ghost predicate IsRun(next: Extents, nbuffers: nat, s: System, ops: seq<Op>)
    decreases |ops|
  {
    ops == [] || (Enabled(s, ops[0]) && IsRun(next, nbuffers, Step(next, nbuffers, s, ops[0]), ops[1..]))
  }

  ghost function Run(next: Extents, nbuffers: nat, s: System, ops: seq<Op>): System
    requires IsRun(next, nbuffers, s, ops)
    decreases |ops|
  {
    if ops == [] then s else Run(next, nbuffers, Step(next, nbuffers, s, ops[0]), ops[1..])
  }

  lemma {:induction false} RunKeepsInv(next: Extents, nbuffers: nat, s: System, ops: seq<Op>)
    requires IsExtents(next) && Inv(next, nbuffers, s) && IsRun(next, nbuffers, s, ops)
    ensures Inv(next, nbuffers, Run(next, nbuffers, s, ops))
    decreases |ops|
  {
    if ops != [] {
      StepKeepsInv(next, nbuffers, s, ops[0]);
      RunKeepsInv(next, nbuffers, Step(next, nbuffers, s, ops[0]), ops[1..]);
    }
  }

  // ---------- Main results ----------

  /** Field by field, what the client holds and then its queue make the shared structure, but
      for what is pending. */
  ghost predicate Follows(next: Extents, m: M.Mon, complete: Value) {
    |m.h.view| == |complete| == |next|
    && forall f :: 0 <= f < |next| && !Covers(next, m.changed, f) ==>
         Fold(next, m.h.view, m.filled)[f] == complete[f]
  }

  /** After every run, between events, every running monitor follows the group's structure, and
      is subscribed, with database events enabled, unless it is still being added. */
  lemma SubscribersFollow(next: Extents, nbuffers: nat, hasValue: seq<bool>, value: Value, ops: seq<Op>, id: nat)
    requires IsExtents(next) && |value| == |next| && IsRun(next, nbuffers, Initial(hasValue, value), ops)
    requires var s := Run(next, nbuffers, Initial(hasValue, value), ops);
             !s.group.iterating && id in s.mons && s.mons[id].running
    ensures var s := Run(next, nbuffers, Initial(hasValue, value), ops);
            && ((id in s.group.interested && s.group.enabled) || id in s.joining || id in s.group.greeting)
            && Follows(next, s.mons[id], s.complete)
  {
    RunKeepsInv(next, nbuffers, Initial(hasValue, value), ops);
    var s := Run(next, nbuffers, Initial(hasValue, value), ops);
    var m := s.mons[id];
    assert MonInv(next, nbuffers, s, id, m);
    forall f | 0 <= f < |next| && !Covers(next, m.changed, f)
      ensures Fold(next, m.h.view, m.filled)[f] == s.complete[f]
    {
      if 0 !in m.changed { assert m.changed + m.h.owed == m.changed; }
    }
  }

  /** While it is joining, and while first events are awaited, a running monitor has the whole
      structure pending, so that its first element will be complete. */
  lemma AwaitingIsWhole(next: Extents, nbuffers: nat, hasValue: seq<bool>, value: Value, ops: seq<Op>, id: nat)
    requires IsExtents(next) && |value| == |next| && IsRun(next, nbuffers, Initial(hasValue, value), ops)
    requires var s := Run(next, nbuffers, Initial(hasValue, value), ops);
             && id in s.mons && s.mons[id].running
             && (id in s.joining || (0 < s.group.waits && id in s.group.interested))
    ensures var s := Run(next, nbuffers, Initial(hasValue, value), ops);
            0 in s.mons[id].changed && s.mons[id].h.starting
  {
    RunKeepsInv(next, nbuffers, Initial(hasValue, value), ops);
    var s := Run(next, nbuffers, Initial(hasValue, value), ops);
    assert MonInv(next, nbuffers, s, id, s.mons[id]);
  }

  // ---------- Unsafe starts ----------

  /** Without a free element a monitor runs, and is on no way to be subscribed. */
  lemma StartedWithoutElement(s: System, id: nat)
    requires Calls(s, id) && !s.mons[id].running && s.mons[id].free == 0
    ensures Started(s, id).mons[id].running && id !in Started(s, id).joining && Started(s, id).group == s.group
  {}

  /** While an event still counts the monitor, it can join only to be lost when that is done. */
  lemma StartedWhileCounted(next: Extents, nbuffers: nat, s: System, id: nat)
    requires Inv(next, nbuffers, s) && Calls(s, id) && !s.mons[id].running && 0 < s.mons[id].free
    requires id in s.group.interested
    ensures var t := Entered(Greeted(Started(s, id), id), id);
            t.group.iterating && id in t.group.adding * t.group.removing && id !in G.Finished(t.group).interested
  {
    assert MonInv(next, nbuffers, s, id, s.mons[id]);
  }

  lemma WrittenAfterPosting(next: Extents, m: M.Mon, value: Value, mask: Mask, f: nat)
    requires IsExtents(next) && |value| == |m.complete| == |m.h.view| == |next|
    requires m.running && 0 < m.free && 0 in m.changed
    requires f < |next| && Covers(next, mask, f) && value[f] != m.complete[f]
    ensures var k := Written(next, M.Pending(m), value, mask);
            k.complete == Copy(next, m.complete, value, mask) && !Follows(next, k, k.complete)
  {
    FoldSnoc(next, m.h.view, m.filled, Delta(m.complete, m.changed, m.overflow));
    CopyAll(next, Fold(next, m.h.view, m.filled), m.complete, m.changed);
    assert !Covers(next, {}, f);
  }

  /** A release() of before the start which posts now takes what was pending, and the client
      lacks what the next event writes. */
  lemma EarlyReleaseForgets(next: Extents, nbuffers: nat, s: System, id: nat,
                            i: nat, property: bool, value: Value, mask: Mask, f: nat)
    requires IsExtents(next) && |value| == |s.complete| == |next| && Enabled(s, Client(id, M.ReleaseUpdate))
    requires var m := s.mons[id];
             m.running && 0 < m.free && 0 in m.changed && m.complete == s.complete && |m.h.view| == |next|
    requires G.Enabled(s.group, G.Event(i, property))
    requires f < |next| && Covers(next, mask, f) && value[f] != s.complete[f]
    ensures var t := Step(next, nbuffers, s, Client(id, M.ReleaseUpdate));
            var u := Changed(next, t, i, property, value, mask);
            u.mons[id].complete == u.complete && Behind(next, u, id)
  {
    WrittenAfterPosting(next, s.mons[id].(h := s.mons[id].h.(releasers := s.mons[id].h.releasers - 1)), value, mask, f);
  }

  // ---------- Unsafe ends of addMonitor() ----------

  lemma WrittenIsMissed(next: Extents, m: M.Mon, value: Value, mask: Mask, f: nat)
    requires |value| == |m.complete| == |m.h.view| == |next| && m.running && M.Synced(next, m) && Served(m)
    requires f < |next| && Covers(next, mask, f) && value[f] != m.complete[f]
    ensures var k := Written(next, m, value, mask); !Follows(next, k, k.complete)
  {
    assert !Covers(next, m.changed + m.h.owed, f) && !Covers(next, m.changed, f);
  }

  /** An event which comes when addMonitor() has posted to the new subscriber, with the lock
      dropped for that, and has not inserted it yet, leaves it behind. */
  lemma EventDuringGreetingIsMissed(next: Extents, nbuffers: nat, s: System, id: nat,
                                    i: nat, property: bool, value: Value, mask: Mask, f: nat)
    requires Inv(next, nbuffers, s) && id in s.group.greeting && |value| == |s.complete|
    requires G.Enabled(s.group, G.Event(i, property))
    requires f < |next| && Covers(next, mask, f) && value[f] != s.complete[f]
    ensures var u := Changed(next, s, i, property, value, mask);
            Behind(next, u, id) && u.mons[id].complete == u.complete
  {
    assert id in s.group.want && MonInv(next, nbuffers, s, id, s.mons[id]);
    WrittenIsMissed(next, s.mons[id], value, mask, f);
  }

  /** So does the first event which a monitor awaits that was inserted beside newcomers only:
      it is posted to nobody, and this monitor has nothing pending. */
  lemma EnteredAmongNewcomersMisses(next: Extents, nbuffers: nat, s: System, id: nat,
                                    i: nat, property: bool, value: Value, mask: Mask, f: nat)
    requires Inv(next, nbuffers, s) && id in s.group.greeting && |value| == |s.complete|
    requires G.Enabled(s.group, G.Event(i, property)) && 1 < s.group.waits
    requires f < |next| && Covers(next, mask, f) && value[f] != s.complete[f]
    ensures var u := Changed(next, Entered(s, id), i, property, value, mask);
            && Behind(next, u, id) && u.mons[id].complete == u.complete
            && id in u.group.interested && !u.group.iterating
  {
    assert id in s.group.want && MonInv(next, nbuffers, s, id, s.mons[id]);
    WrittenIsMissed(next, s.mons[id], value, mask, f);
  }

  ghost predicate Behind(next: Extents, s: System, id: nat) {
    id in s.mons && |s.mons[id].h.view| == |s.complete| == |next| && !Follows(next, s.mons[id], s.complete)
  }

  lemma PostingDoesNotHelp(next: Extents, m: M.Mon, complete: Value)
    requires m.complete == complete && |m.h.view| == |complete| == |next| && !Follows(next, m, complete)
    ensures !Follows(next, M.Pending(m), complete)
  {
    var f :| 0 <= f < |next| && !Covers(next, m.changed, f) && Fold(next, m.h.view, m.filled)[f] != complete[f];
    if m.running && 0 < m.free {
      FoldSnoc(next, m.h.view, m.filled, Delta(m.complete, m.changed, m.overflow));
      assert !Covers(next, M.Pending(m).changed, f);
    }
  }

  /** Nothing makes up for it: not the posts to the others, nor addMonitor() when it comes. */
  lemma {:induction false} StaysBehind(next: Extents, nbuffers: nat, s: System, id: nat, ops: seq<Op>)
    requires IsRun(next, nbuffers, s, ops) && Behind(next, s, id) && s.mons[id].complete == s.complete
    requires forall op :: op in ops ==>
               op in {Join(id), Greet(id), Enter(id), Finish} || (op.Post? && op.id != id)
    ensures Behind(next, Run(next, nbuffers, s, ops), id)
    decreases |ops|
  {
    if ops != [] {
      var t := Step(next, nbuffers, s, ops[0]);
      assert ops[0] in ops;
      PostingDoesNotHelp(next, s.mons[id], s.complete);
      StaysBehind(next, nbuffers, t, id, ops[1..]);
    }
  }
}
