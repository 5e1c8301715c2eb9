/** Scheduling of PVA link channels on the shared work queue.

    A channel puts itself on the queue when its monitor calls back, and again after each run
    which took an update.  Its flag `queued` is meant to keep it from being there twice.
 */
module LinkChannelSpec {
  import opened WorkQueueSpec

  datatype Event = Data | Disconnect | Fail | Cancel

  /** One channel.  Besides its fields: `adding` counts callbacks which have decided to add
      the channel to the work queue and not done so yet, `popped` counts runs taken from the
      queue and still to take the channel's lock, `requeueing` runs which are past their
      locked part and will add the channel again.  `monq` is the length of the monitor's
      queue, `data` counts Data callbacks still to be made, and `armed` says that the next
      update will cause one: so it does after a poll() has found the queue empty. */
  datatype Channel = Channel(
    connected: bool, queued: bool, adding: nat, popped: nat, requeueing: nat,
    monq: nat, armed: bool, data: nat)

  const NEW_CHANNEL := Channel(false, false, 0, 0, 0, 0, true, 0)

  // ---------- Locked regions of a channel ----------

  /** monitorEvent(), up to its unlock. */
  function OnEvent(k: Channel, evt: Event): Channel {
    var j := match evt
      case Data => k.(connected := true)
      case Disconnect => k.(connected := false)
      case Fail => k.(connected := false)
      case Cancel => k;
    var queue := evt != Cancel;
    if k.queued then j
    else j.(queued := queue, adding := if queue then j.adding + 1 else j.adding)
  }

  /** The locked part of run(). */
  function RunLocked(k: Channel): Channel
    requires 0 < k.popped
  {
    var j := k.(popped := k.popped - 1);
    if k.connected && k.monq == 0 then j.(queued := false, armed := true)
    else if k.connected then j.(queued := true, monq := k.monq - 1, requeueing := k.requeueing + 1)
    else j.(queued := false)
  }

  /** An update reaches the monitor's queue. */
  function Arrive(k: Channel): Channel {
    k.(monq := k.monq + 1, armed := false, data := if k.armed then k.data + 1 else k.data)
  }

  // ---------- All channels, and the pool ----------

  datatype System = System(pool: Pool<nat>, chans: seq<Channel>)

  datatype Move =
    | Update(c: nat)
    | Lost(c: nat, evt: Event, monq: nat, armed: bool)
    | Cancelled(c: nat)
    | Deliver(c: nat)
    | AddDone(c: nat)
    | RunLock(c: nat)
    | Requeue(c: nat)
    | PoolStep(op: Op<nat>)

  /** What the channels and the pool do by themselves, without the upstream. */
  predicate Own(m: Move) {
    m.Deliver? || m.AddDone? || m.RunLock? || m.Requeue? || m.PoolStep?
  }

  predicate CanMove(s: System, m: Move) {
    match m
    case PoolStep(op) => (op.Signal? || op.Test? || op.Proceed? || op.Wake?) && Enabled(s.pool, op)
    case Lost(c, evt, _, _) => c < |s.chans| && (evt == Disconnect || evt == Fail)
    case Deliver(c) => c < |s.chans| && 0 < s.chans[c].data
    case AddDone(c) => c < |s.chans| && 0 < s.chans[c].adding
    case RunLock(c) => c < |s.chans| && 0 < s.chans[c].popped
    case Requeue(c) => c < |s.chans| && 0 < s.chans[c].requeueing
    case _ => m.c < |s.chans|
  }

  /** Where a channel is counted after one move; what the client library keeps of its own
      queue when the connection is lost is left open. */
  function Moved(k: Channel, m: Move): Channel
    requires m.Deliver? ==> 0 < k.data
    requires m.AddDone? ==> 0 < k.adding
    requires m.RunLock? ==> 0 < k.popped
    requires m.Requeue? ==> 0 < k.requeueing
  {
    match m
    case Update(_) => Arrive(k)
    case Lost(_, evt, monq, armed) => OnEvent(k, evt).(monq := monq, armed := armed)
    case Cancelled(_) => OnEvent(k, Cancel)
    case Deliver(_) => OnEvent(k.(data := k.data - 1), Data)
    case AddDone(_) => k.(adding := k.adding - 1)
    case RunLock(_) => RunLocked(k)
    case Requeue(_) => k.(requeueing := k.requeueing - 1)
    case PoolStep(_) => k.(popped := k.popped + 1)
  }

  /** The channel which a pool step takes from the queue, if it takes one. */
  predicate Takes(p: Pool<nat>, op: Op<nat>) {
    op.Test? && p.state == Active && p.queue != []
  }

  function Next(s: System, m: Move): System
    requires CanMove(s, m)
  {
    if m.PoolStep? then
      var c := if Takes(s.pool, m.op) then s.pool.queue[0] else |s.chans|;
      System(Step(s.pool, m.op), if c < |s.chans| then s.chans[c := Moved(s.chans[c], m)] else s.chans)
    else
      System(if m.AddDone? || m.Requeue? then Step(s.pool, Add(m.c)) else s.pool,
             s.chans[m.c := Moved(s.chans[m.c], m)])
  }

  // ---------- The invariant ----------

  /** The runs of a channel which are scheduled, or about to be: those on the queue, and
      those on their way to it or from it to their locked part. */
  function Tokens(k: Channel, inqueue: nat): nat {
    k.adding + k.popped + k.requeueing + inqueue
  }

  /** While connected, an update in the monitor's queue will be looked at. */
  predicate Attended(k: Channel) {
    k.connected && (0 < k.monq || !k.armed) ==> k.queued || 0 < k.data
  }

  predicate ChannelInv(k: Channel, inqueue: nat) {
    && Tokens(k, inqueue) == (if k.queued then 1 else 0)
    && Attended(k)
  }

  ghost predicate SystemInv(s: System) {
    && Inv(s.pool) && s.pool.state == Active && 0 < |s.pool.workers|
    && (forall i :: 0 <= i < |s.pool.queue| ==> s.pool.queue[i] < |s.chans|)
    && (forall c :: 0 <= c < |s.chans| ==> ChannelInv(s.chans[c], multiset(s.pool.queue)[c]))
  }

  /** One move of one channel, which adds to the queue, takes from it, or does neither. */
  lemma MovedKeepsInv(k: Channel, m: Move, before: nat, after: nat)
    requires ChannelInv(k, before)
    requires m.Deliver? ==> 0 < k.data
    requires m.AddDone? ==> 0 < k.adding
    requires m.RunLock? ==> 0 < k.popped
    requires m.Requeue? ==> 0 < k.requeueing
    requires m.Lost? ==> m.evt == Disconnect || m.evt == Fail
    requires after == before + (if m.AddDone? || m.Requeue? then 1 else 0) - (if m.PoolStep? then 1 else 0)
    ensures ChannelInv(Moved(k, m), after)
  {}

  lemma PoolStepKeepsInv(s: System, op: Op<nat>)
    requires SystemInv(s) && CanMove(s, PoolStep(op))
    ensures SystemInv(Next(s, PoolStep(op)))
  {
    var m := PoolStep(op);
    var t := Next(s, m);
    StepKeepsInv(s.pool, op);
    if Takes(s.pool, op) {
      var c := s.pool.queue[0];
      assert s.pool.queue == [c] + t.pool.queue;
      MovedKeepsInv(s.chans[c], m, multiset(s.pool.queue)[c], multiset(t.pool.queue)[c]);
    }
  }

  lemma NextKeepsInv(s: System, m: Move)
    requires SystemInv(s) && CanMove(s, m)
    ensures SystemInv(Next(s, m))
  {
    if m.PoolStep? {
      PoolStepKeepsInv(s, m.op);
    } else {
      var t := Next(s, m);
      if m.AddDone? || m.Requeue? {
        StepKeepsInv(s.pool, Add(m.c));
        assert t.pool.queue == s.pool.queue + [m.c];
      }
      MovedKeepsInv(s.chans[m.c], m, multiset(s.pool.queue)[m.c], multiset(t.pool.queue)[m.c]);
    }
  }

  // ---------- Runs ----------

  ghost predicate IsRun(s: System, moves: seq<Move>)
    decreases |moves|
  {
    moves == [] || (CanMove(s, moves[0]) && IsRun(Next(s, moves[0]), moves[1..]))
  }

  ghost function Run(s: System, moves: seq<Move>): System
    requires IsRun(s, moves)
    decreases |moves|
  {
    if moves == [] then s else Run(Next(s, moves[0]), moves[1..])
  }

  function StartedSystem(nworkers: nat, nchans: nat): System {
    System(Step(Initial(), WorkQueueSpec.Start(nworkers)), seq(nchans, _ => NEW_CHANNEL))
  }

  lemma StartedKeepsInv(nworkers: nat, nchans: nat)
    requires 0 < nworkers
    ensures SystemInv(StartedSystem(nworkers, nchans))
  {}

  lemma {:induction false} RunKeepsInv(s: System, moves: seq<Move>)
    requires SystemInv(s) && IsRun(s, moves)
    ensures SystemInv(Run(s, moves)) && |Run(s, moves).chans| == |s.chans|
    decreases |moves|
  {
    if moves != [] {
      NextKeepsInv(s, moves[0]);
      RunKeepsInv(Next(s, moves[0]), moves[1..]);
    }
  }

  /** After every run of the workers, the channels and their monitors, a channel has exactly
      one run scheduled when its flag says so and none otherwise; so it is on the queue at
      most once, and no update is stranded in the monitor of a connected channel. */
  lemma ScheduledOnce(nworkers: nat, nchans: nat, moves: seq<Move>, c: nat)
    requires 0 < nworkers && c < nchans && IsRun(StartedSystem(nworkers, nchans), moves)
    ensures var s := Run(StartedSystem(nworkers, nchans), moves);
            && |s.chans| == nchans
            && var k := s.chans[c];
            && Tokens(k, multiset(s.pool.queue)[c]) == (if k.queued then 1 else 0)
            && (k.connected && 0 < k.monq ==> k.queued || 0 < k.data)
  {
    var start := StartedSystem(nworkers, nchans);
    StartedKeepsInv(nworkers, nchans);
    RunKeepsInv(start, moves);
    var s := Run(start, moves);
    assert ChannelInv(s.chans[c], multiset(s.pool.queue)[c]);
  }

  // ---------- What the events come to ----------

  function ConnectsNext(m: Move, c: nat, was: bool): bool {
    if m == Deliver(c) then true else if m.Lost? && m.c == c then false else was
  }

  /** Whether the last that happened to the connection of channel c is that it gave data. */
  function ConnectedAfter(moves: seq<Move>, c: nat, was: bool): bool
    decreases |moves|
  {
    if moves == [] then was else ConnectedAfter(moves[1..], c, ConnectsNext(moves[0], c, was))
  }

  function UnseenNext(m: Move, c: nat, was: bool): bool {
    if m == Deliver(c) || (m.Lost? && m.c == c) then true else if m == RunLock(c) then false else was
  }

  /** Whether an event of channel c, be it data or a lost connection, came after its last run. */
  function UnseenAfter(moves: seq<Move>, c: nat, was: bool): bool
    decreases |moves|
  {
    if moves == [] then was else UnseenAfter(moves[1..], c, UnseenNext(moves[0], c, was))
  }

  lemma {:induction false} AfterConcat(a: seq<Move>, b: seq<Move>, c: nat, was: bool)
    ensures ConnectedAfter(a + b, c, was) == ConnectedAfter(b, c, ConnectedAfter(a, c, was))
    ensures UnseenAfter(a + b, c, was) == UnseenAfter(b, c, UnseenAfter(a, c, was))
    decreases |a|
  {
    if a == [] {
      assert a + b == b;
    } else {
      assert (a + b)[1..] == a[1..] + b;
      AfterConcat(a[1..], b, c, ConnectsNext(a[0], c, was));
      AfterConcat(a[1..], b, c, UnseenNext(a[0], c, was));
    }
  }

  /** A channel is connected just after data, and while an event is unseen it is flagged. */
  predicate Heeds(k: Channel, connected: bool, unseen: bool) {
    k.connected == connected && (unseen ==> k.queued)
  }

  lemma NextHeeds(s: System, m: Move, c: nat, connected: bool, unseen: bool)
    requires CanMove(s, m) && c < |s.chans| && Heeds(s.chans[c], connected, unseen)
    ensures c < |Next(s, m).chans|
    ensures Heeds(Next(s, m).chans[c], ConnectsNext(m, c, connected), UnseenNext(m, c, unseen))
  {}

  lemma {:induction false} RunHeeds(s: System, moves: seq<Move>, c: nat, connected: bool, unseen: bool)
    requires IsRun(s, moves) && c < |s.chans| && Heeds(s.chans[c], connected, unseen)
    ensures |Run(s, moves).chans| == |s.chans|
    ensures Heeds(Run(s, moves).chans[c], ConnectedAfter(moves, c, connected), UnseenAfter(moves, c, unseen))
    decreases |moves|
  {
    if moves != [] {
      NextHeeds(s, moves[0], c, connected, unseen);
      RunHeeds(Next(s, moves[0]), moves[1..], c,
               ConnectsNext(moves[0], c, connected), UnseenNext(moves[0], c, unseen));
    }
  }

  /** After every run, a channel is connected if and only if it had data since its connection
      was last lost. */
  lemma ConnectedMeansData(nworkers: nat, nchans: nat, moves: seq<Move>, c: nat)
    requires c < nchans && IsRun(StartedSystem(nworkers, nchans), moves)
    ensures var s := Run(StartedSystem(nworkers, nchans), moves);
            |s.chans| == nchans && (s.chans[c].connected <==> ConnectedAfter(moves, c, false))
  {
    RunHeeds(StartedSystem(nworkers, nchans), moves, c, false, false);
  }

  /** A cancelled monitor schedules nothing. */
  lemma CancelIsSilent(s: System, c: nat)
    requires CanMove(s, Cancelled(c))
    ensures Next(s, Cancelled(c)) == s
  {}

  function Arrivals(moves: seq<Move>, c: nat): nat
    decreases |moves|
  {
    if moves == [] then 0 else (if moves[0] == Update(c) then 1 else 0) + Arrivals(moves[1..], c)
  }

  /** How many runs of channel c find an update. */
  ghost function RunsWithUpdate(s: System, moves: seq<Move>, c: nat): nat
    requires IsRun(s, moves) && c < |s.chans|
    decreases |moves|
  {
    if moves == [] then 0
    else
      var rest := if c < |Next(s, moves[0]).chans| then RunsWithUpdate(Next(s, moves[0]), moves[1..], c) else 0;
      if moves[0] == RunLock(c) && s.chans[c].connected && 0 < s.chans[c].monq then 1 + rest else rest
  }

  /** Each of them takes one, so that over a run without disconnection every update which came
      in is still in the monitor's queue, or had a run of its own. */
  lemma {:induction false} OneRunForEachUpdate(s: System, moves: seq<Move>, c: nat)
    requires IsRun(s, moves) && c < |s.chans| && forall m :: m in moves && m.Lost? ==> m.c != c
    ensures |Run(s, moves).chans| == |s.chans|
    ensures Run(s, moves).chans[c].monq + RunsWithUpdate(s, moves, c) == s.chans[c].monq + Arrivals(moves, c)
    decreases |moves|
  {
    if moves != [] {
      assert moves[0] in moves;
      OneRunForEachUpdate(Next(s, moves[0]), moves[1..], c);
    }
  }

  // ---------- Progress ----------

  /** Weights chosen so that each move costs more than what it sets going. */
  function Weight(k: Channel): nat {
    10 * k.data + 8 * k.adding + k.popped + 8 * k.requeueing + 8 * k.monq
  }

  function Weights(chans: seq<Channel>): nat {
    if chans == [] then 0 else Weight(chans[0]) + Weights(chans[1..])
  }

  lemma {:induction false} WeightsUpdate(chans: seq<Channel>, c: nat, k: Channel)
    requires c < |chans|
    ensures Weights(chans[c := k]) == Weights(chans) - Weight(chans[c]) + Weight(k)
  {
    if c == 0 {
      assert chans[0 := k][1..] == chans[1..];
    } else {
      assert chans[c := k][1..] == chans[1..][c - 1 := k];
      WeightsUpdate(chans[1..], c - 1, k);
    }
  }

  function Effort(s: System): nat {
    Measure(s.pool) + |s.pool.queue| + Weights(s.chans)
  }

  lemma PoolStepDecreases(s: System, op: Op<nat>)
    requires SystemInv(s) && CanMove(s, PoolStep(op))
    ensures Effort(Next(s, PoolStep(op))) < Effort(s)
  {
    InternalStepDecreases(s.pool, op);
    if Takes(s.pool, op) {
      var c := s.pool.queue[0];
      WeightsUpdate(s.chans, c, Next(s, PoolStep(op)).chans[c]);
    }
  }

  lemma OwnMoveDecreases(s: System, m: Move)
    requires SystemInv(s) && CanMove(s, m) && Own(m)
    ensures Effort(Next(s, m)) < Effort(s)
  {
    if m.PoolStep? {
      PoolStepDecreases(s, m.op);
    } else {
      WeightsUpdate(s.chans, m.c, Moved(s.chans[m.c], m));
    }
  }

  lemma {:induction false} OwnRunIsShort(s: System, moves: seq<Move>)
    requires SystemInv(s) && IsRun(s, moves)
    requires forall m :: m in moves ==> Own(m)
    ensures |moves| + Effort(Run(s, moves)) <= Effort(s)
    decreases |moves|
  {
    if moves != [] {
      assert moves[0] in moves;
      OwnMoveDecreases(s, moves[0]);
      NextKeepsInv(s, moves[0]);
      OwnRunIsShort(Next(s, moves[0]), moves[1..]);
    }
  }

  ghost predicate AtRest(s: System) {
    forall m :: Own(m) ==> !CanMove(s, m)
  }

  lemma AtRestMeansDrained(s: System)
    requires SystemInv(s) && AtRest(s)
    ensures s.pool.queue == []
    ensures forall c :: 0 <= c < |s.chans| ==> !s.chans[c].queued && (s.chans[c].connected ==> s.chans[c].monq == 0)
  {
    assert !CanMove(s, PoolStep(Signal));
    forall w | 0 <= w < |s.pool.workers| ensures s.pool.workers[w] == Waiting && !s.pool.wakeup {
      assert !CanMove(s, PoolStep(Test(w))) && !CanMove(s, PoolStep(Proceed(w))) && !CanMove(s, PoolStep(Wake(w)));
    }
    assert s.pool.workers[0] == Waiting;
    assert !Prompted(s.pool);
    forall c | 0 <= c < |s.chans|
      ensures !s.chans[c].queued && (s.chans[c].connected ==> s.chans[c].monq == 0)
    {
      assert !CanMove(s, Deliver(c)) && !CanMove(s, AddDone(c)) && !CanMove(s, RunLock(c)) && !CanMove(s, Requeue(c));
      assert ChannelInv(s.chans[c], multiset(s.pool.queue)[c]);
    }
  }

  /** When the upstream pauses, workers and channels come to rest within a known number of
      moves, in whatever order they are made.  Then every event was followed by a run of its
      channel, and every channel which had data since its connection was last lost has taken
      every update: the pool's signals and the channels' flags lose none of them. */
  lemma EveryUpdateIsTaken(nworkers: nat, nchans: nat, before: seq<Move>, moves: seq<Move>)
    requires 0 < nworkers && IsRun(StartedSystem(nworkers, nchans), before)
    requires var s := Run(StartedSystem(nworkers, nchans), before);
             IsRun(s, moves) && forall m :: m in moves ==> Own(m)
    ensures var s := Run(StartedSystem(nworkers, nchans), before);
            && |moves| <= Effort(s)
            && var t := Run(s, moves);
            && |t.chans| == nchans
            && (AtRest(t) ==> t.pool.queue == [] && forall c :: 0 <= c < nchans ==>
                  && !UnseenAfter(before + moves, c, false)
                  && (ConnectedAfter(before + moves, c, false) ==> t.chans[c].monq == 0))
  {
    var start := StartedSystem(nworkers, nchans);
    StartedKeepsInv(nworkers, nchans);
    RunKeepsInv(start, before);
    var s := Run(start, before);
    OwnRunIsShort(s, moves);
    RunKeepsInv(s, moves);
    var t := Run(s, moves);
    forall c | 0 <= c < nchans
      ensures Heeds(t.chans[c], ConnectedAfter(before + moves, c, false), UnseenAfter(before + moves, c, false))
    {
      RunHeeds(start, before, c, false, false);
      RunHeeds(s, moves, c, ConnectedAfter(before, c, false), UnseenAfter(before, c, false));
      AfterConcat(before, moves, c, false);
    }
    if AtRest(t) { AtRestMeansDrained(t); }
  }

  // ---------- A channel which is not disconnected ----------

  /** A channel which has not connected yet has no update, or is about to be called back. */
  predicate Reached(k: Channel) {
    !k.connected ==> 0 < k.data || (k.monq == 0 && k.armed)
  }

  lemma {:induction false} RunReaches(s: System, moves: seq<Move>, c: nat)
    requires IsRun(s, moves) && c < |s.chans| && Reached(s.chans[c])
    requires forall m :: m in moves && m.Lost? ==> m.c != c
    ensures |Run(s, moves).chans| == |s.chans| && Reached(Run(s, moves).chans[c])
    decreases |moves|
  {
    if moves != [] {
      assert moves[0] in moves;
      RunReaches(Next(s, moves[0]), moves[1..], c);
    }
  }

  lemma NothingLeft(t: System, c: nat)
    requires SystemInv(t) && AtRest(t) && c < |t.chans| && Reached(t.chans[c])
    ensures t.chans[c].monq == 0
  {
    AtRestMeansDrained(t);
    assert !CanMove(t, Deliver(c));
  }

  lemma AllHadRuns(s: System, moves: seq<Move>, c: nat, t: System)
    requires IsRun(s, moves) && c < |s.chans| && s.chans[c] == NEW_CHANNEL && t == Run(s, moves)
    requires forall m :: m in moves && m.Lost? ==> m.c != c
    ensures |t.chans| == |s.chans| && Reached(t.chans[c])
    ensures t.chans[c].monq == 0 ==> RunsWithUpdate(s, moves, c) == Arrivals(moves, c)
  {
    RunReaches(s, moves, c);
    OneRunForEachUpdate(s, moves, c);
  }

  /** At rest, a channel which began as a new one has had exactly one run for each update which
      came in. */
  lemma EveryUpdateHasItsRun(s: System, moves: seq<Move>, c: nat, t: System)
    requires IsRun(s, moves) && c < |s.chans| && s.chans[c] == NEW_CHANNEL && t == Run(s, moves)
    requires forall m :: m in moves && m.Lost? ==> m.c != c
    ensures SystemInv(s) && AtRest(t) ==> RunsWithUpdate(s, moves, c) == Arrivals(moves, c)
  {
    AllHadRuns(s, moves, c, t);
    if SystemInv(s) && AtRest(t) {
      RunKeepsInv(s, moves);
      NothingLeft(t, c);
    }
  }
}
