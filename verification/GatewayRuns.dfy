/** Runs of a gateway monitor: one upstream subscription, any number of downstream users.

    A step is one region executed with the monitor's mutex held, or the delivery of one
    notification.  A client is `active` from when it is notified, or polls of its own
    accord, until a poll() gives nothing while it has no element to release.
 */
module GatewayRuns {
  import opened PvData
  import opened MonitorUserSpec

  datatype Client<E> = Client(user: User<E>, pending: nat, active: bool)

  datatype Gateway<C, E> = Gateway(havedata: bool, last: Value, clients: map<C, Client<E>>)

  datatype Op<C, E> =
    | Event(updates: seq<Delta>)
    | Notify(id: C)
    | Join(id: C)
    | Start(id: C, stale: Mask)
    | Stop(id: C)
    | Poll(id: C, e: E)
    | Release(id: C, e: E)

  function Initial<C, E>(next: Extents): Gateway<C, E> {
    Gateway(false, Blank(next), map[])
  }

  // ---------- One upstream event ----------

  /** What a user is sent for an update: the complete value, and the masks of the update. */
  function Accumulated(next: Extents, last: Value, upd: Delta): Delta {
    Delta(Copy(next, last, upd.value, upd.changed), upd.changed, upd.overrun)
  }

  function UpdateUser<E>(next: Extents, last: Value, u: User<E>, updates: seq<Delta>): User<E>
    decreases |updates|
  {
    if updates == [] then u
    else
      var d := Accumulated(next, last, updates[0]);
      UpdateUser(next, d.value, Update(next, u, d), updates[1..])
  }

  lemma {:induction false} UpdateUserKeepsInv<E>(next: Extents, bufferSize: nat, last: Value, u: User<E>,
                                                     updates: seq<Delta>)
    requires |last| == |next| && AllSized(next, updates) && Inv(next, bufferSize, last, u)
    ensures Inv(next, bufferSize, Fold(next, last, updates), UpdateUser(next, last, u, updates))
    ensures UpdateUser(next, last, u, updates).out == u.out
    ensures UpdateUser(next, last, u, updates).running == u.running
    ensures u.filled <= UpdateUser(next, last, u, updates).filled
    decreases |updates|
  {
    if updates != [] {
      assert updates[0] in updates;
      UpdateKeepsInv(next, bufferSize, last, u, updates[0]);
      var d := Accumulated(next, last, updates[0]);
      UpdateUserKeepsInv(next, bufferSize, d.value, Update(next, u, d), updates[1..]);
    }
  }

  lemma {:induction false} UpdateUserSnoc<E>(next: Extents, last: Value, u: User<E>, q: seq<Delta>, upd: Delta)
    ensures UpdateUser(next, last, u, q + [upd])
            == Update(next, UpdateUser(next, last, u, q), Accumulated(next, Fold(next, last, q), upd))
    decreases |q|
  {
    var r := q + [upd];
    if q == [] {
      assert r[1..] == [];
      var d := Accumulated(next, last, upd);
      assert UpdateUser(next, last, u, r) == UpdateUser(next, d.value, Update(next, u, d), []);
    } else {
      assert r[1..] == q[1..] + [upd];
      var d := Accumulated(next, last, q[0]);
      UpdateUserSnoc(next, d.value, Update(next, u, d), q[1..], upd);
    }
  }

  lemma {:induction false} UpdateUserSafe<E>(next: Extents, last: Value, u: User<E>, q: seq<Delta>)
    requires AssertHolds(u)
    ensures AssertHolds(UpdateUser(next, last, u, q)) && u.filled <= UpdateUser(next, last, u, q).filled
    decreases |q|
  {
    if q != [] {
      var d := Accumulated(next, last, q[0]);
      UpdateUserSafe(next, d.value, Update(next, u, d), q[1..]);
    }
  }

  // ---------- Steps ----------

  function Pend<E>(c: Client<E>, u: User<E>): Client<E> {
    Client(u, if c.user.filled == [] && u.filled != [] then c.pending + 1 else c.pending, c.active)
  }

  /** What may happen: updates have the structure of the monitor, a notification is one that
      was sent, an element is polled under a name not in use, and a user which missed
      updates while stopped is not started again while it has elements to spare. */
  ghost predicate Enabled<C, E>(next: Extents, g: Gateway<C, E>, op: Op<C, E>) {
    match op
    case Event(updates) => AllSized(next, updates)
    case Notify(id) => id in g.clients && 0 < g.clients[id].pending
    case Join(id) => id !in g.clients
    case Start(id, _) => id in g.clients && SafeStart(g.clients[id].user, g.havedata)
    case Stop(id) => id in g.clients
    case Poll(id, e) => id in g.clients && (g.clients[id].user.filled != [] ==> e !in g.clients[id].user.out)
    case Release(id, _) => id in g.clients
  }

  function Step<C, E>(next: Extents, bufferSize: nat, g: Gateway<C, E>, op: Op<C, E>): Gateway<C, E> {
    match op
    case Event(updates) =>
      Gateway(true, Fold(next, g.last, updates),
        map id | id in g.clients :: Pend(g.clients[id], UpdateUser(next, g.last, g.clients[id].user, updates)))
    case Join(id) =>
      g.(clients := g.clients[id := Client(Fresh(next), 0, false)])
    case _ =>
      if op.id !in g.clients then g
      else g.(clients := g.clients[op.id := ClientStep(next, bufferSize, g, g.clients[op.id], op)])
  }

  function ClientStep<C, E>(next: Extents, bufferSize: nat, g: Gateway<C, E>, c: Client<E>, op: Op<C, E>): Client<E> {
    match op
    case Notify(_) =>
      Client(c.user, if 0 < c.pending then c.pending - 1 else 0, true)
    case Start(_, stale) =>
      Pend(c, MonitorUserSpec.Start(next, c.user, bufferSize, g.havedata, g.last, stale))
    case Stop(_) =>
      c.(user := MonitorUserSpec.Stop(c.user))
    case Poll(_, e) =>
      Client(MonitorUserSpec.Poll(next, c.user, e), c.pending, c.user.filled != [] || c.user.out != map[])
    case Release(_, e) =>
      c.(user := MonitorUserSpec.Release(c.user, e))
    case _ => c
  }

  // ---------- The invariant of every run ----------

  /** A user with something to poll has been, or will be, told so. */
  ghost predicate Told<E>(c: Client<E>) {
    && (c.user.filled != [] ==> 0 < c.pending || c.active)
    && (c.user.out != map[] ==> c.active)
  }

  ghost predicate GatewayInv<C, E>(next: Extents, bufferSize: nat, g: Gateway<C, E>) {
    && |g.last| == |next|
    && (!g.havedata ==> g.last == Blank(next))
    && forall id :: id in g.clients ==> Inv(next, bufferSize, g.last, g.clients[id].user) && Told(g.clients[id])
  }

  lemma ClientStepKeeps<C, E>(next: Extents, bufferSize: nat, g: Gateway<C, E>, op: Op<C, E>)
    requires IsExtents(next) && 0 < bufferSize
    requires GatewayInv(next, bufferSize, g) && Enabled(next, g, op)
    requires !op.Event? && !op.Join?
    ensures var c := ClientStep(next, bufferSize, g, g.clients[op.id], op);
            Inv(next, bufferSize, g.last, c.user) && Told(c)
  {
    var c := g.clients[op.id];
    match op
    case Start(_, stale) => StartKeepsInv(next, bufferSize, g.last, c.user, g.havedata, stale);
    case Poll(_, e) => PollKeepsInv(next, bufferSize, g.last, c.user, e);
    case Release(_, e) => ReleaseKeepsInv(next, bufferSize, g.last, c.user, e);
    case _ =>
  }

  lemma EventKeepsInv<C, E>(next: Extents, bufferSize: nat, g: Gateway<C, E>, updates: seq<Delta>)
    requires GatewayInv(next, bufferSize, g) && AllSized(next, updates)
    ensures GatewayInv(next, bufferSize, Step(next, bufferSize, g, Event(updates)))
  {
    forall id | id in g.clients
      ensures var u := UpdateUser(next, g.last, g.clients[id].user, updates);
              Inv(next, bufferSize, Fold(next, g.last, updates), u) && Told(Pend(g.clients[id], u))
    {
      UpdateUserKeepsInv(next, bufferSize, g.last, g.clients[id].user, updates);
    }
  }

  lemma SetClientKeepsInv<C, E>(next: Extents, bufferSize: nat, g: Gateway<C, E>, id: C, c: Client<E>)
    requires GatewayInv(next, bufferSize, g) && Inv(next, bufferSize, g.last, c.user) && Told(c)
    ensures GatewayInv(next, bufferSize, g.(clients := g.clients[id := c]))
  {}

  lemma StepKeepsInv<C, E>(next: Extents, bufferSize: nat, g: Gateway<C, E>, op: Op<C, E>)
    requires IsExtents(next) && 0 < bufferSize
    requires GatewayInv(next, bufferSize, g) && Enabled(next, g, op)
    ensures GatewayInv(next, bufferSize, Step(next, bufferSize, g, op))
  {
    if op.Event? {
      EventKeepsInv(next, bufferSize, g, op.updates);
    } else if op.Join? {
      SetClientKeepsInv(next, bufferSize, g, op.id, Client(Fresh(next), 0, false));
    } else {
      ClientStepKeeps(next, bufferSize, g, op);
      SetClientKeepsInv(next, bufferSize, g, op.id, ClientStep(next, bufferSize, g, g.clients[op.id], op));
    }
  }

  ghost predicate IsRun<C, E>(next: Extents, bufferSize: nat, g: Gateway<C, E>, ops: seq<Op<C, E>>)
    decreases |ops|
  {
    ops == [] || (Enabled(next, g, ops[0]) && IsRun(next, bufferSize, Step(next, bufferSize, g, ops[0]), ops[1..]))
  }

  function Run<C, E>(next: Extents, bufferSize: nat, g: Gateway<C, E>, ops: seq<Op<C, E>>): Gateway<C, E>
    decreases |ops|
  {
    if ops == [] then g else Run(next, bufferSize, Step(next, bufferSize, g, ops[0]), ops[1..])
  }

  lemma {:induction false} RunKeepsInv<C, E>(next: Extents, bufferSize: nat, g: Gateway<C, E>, ops: seq<Op<C, E>>)
    requires IsExtents(next) && 0 < bufferSize
    requires GatewayInv(next, bufferSize, g) && IsRun(next, bufferSize, g, ops)
    ensures GatewayInv(next, bufferSize, Run(next, bufferSize, g, ops))
    decreases |ops|
  {
    if ops != [] {
      StepKeepsInv(next, bufferSize, g, ops[0]);
      RunKeepsInv(next, bufferSize, Step(next, bufferSize, g, ops[0]), ops[1..]);
    }
  }

  // ---------- Main results ----------

  /** However slowly a client polls, what it holds, then what is queued for it, then what is
      in its overflow element, come to the upstream value after every run. */
  lemma EveryRunConverges<C, E>(next: Extents, bufferSize: nat, ops: seq<Op<C, E>>, id: C)
    requires IsExtents(next) && 0 < bufferSize && IsRun(next, bufferSize, Initial<C, E>(next), ops)
    requires var g := Run(next, bufferSize, Initial<C, E>(next), ops); id in g.clients && !g.clients[id].user.initial
    ensures var g := Run(next, bufferSize, Initial<C, E>(next), ops);
            var u := g.clients[id].user;
            && Eventually(next, u) == g.last
            && u.free + |u.filled| + |u.out| == bufferSize
            && AssertHolds(u)
            && (u.inoverflow ==> MasksOf(u.over, u.episode))
  {
    RunKeepsInv(next, bufferSize, Initial<C, E>(next), ops);
  }

  /** No wakeup is lost: a running client which has nothing to do already holds the upstream
      value, although leaving overflow queues an element without a notification. */
  lemma IdleClientsAreCurrent<C, E>(next: Extents, bufferSize: nat, ops: seq<Op<C, E>>, id: C)
    requires IsExtents(next) && 0 < bufferSize && IsRun(next, bufferSize, Initial<C, E>(next), ops)
    requires var g := Run(next, bufferSize, Initial<C, E>(next), ops);
             id in g.clients && g.clients[id].user.running && g.clients[id].pending == 0 && !g.clients[id].active
    ensures var g := Run(next, bufferSize, Initial<C, E>(next), ops);
            g.clients[id].user.view == g.last && !g.clients[id].user.inoverflow
  {
    RunKeepsInv(next, bufferSize, Initial<C, E>(next), ops);
    var u := Run(next, bufferSize, Initial<C, E>(next), ops).clients[id].user;
    assert u.filled == [] && u.out == map[];
    assert u.over.changed == {} by { assert u.episode == []; }
    CopyNothing(next, u.view, u.over.value);
  }

  /** Client `id` has polled the element it calls `e`, and the element holds `d`. */
  ghost predicate Holds<C, E>(g: Gateway<C, E>, id: C, e: E, d: Delta) {
    id in g.clients && e in g.clients[id].user.out && g.clients[id].user.out[e] == d
  }

  lemma StepKeepsPolled<C, E>(next: Extents, bufferSize: nat, g: Gateway<C, E>, op: Op<C, E>, id: C, e: E, d: Delta)
    requires GatewayInv(next, bufferSize, g) && Enabled(next, g, op) && op != Release(id, e)
    requires Holds(g, id, e, d)
    ensures Holds(Step(next, bufferSize, g, op), id, e, d)
  {
    match op
    case Event(updates) =>
      UpdateUserKeepsInv(next, bufferSize, g.last, g.clients[id].user, updates);
    case Join(_) =>
    case _ =>
      if op.id == id {
        var c := ClientStep(next, bufferSize, g, g.clients[id], op);
        assert e in c.user.out && c.user.out[e] == d;
      }
  }

  /** Nothing is written to an element between its poll() and its release(), whatever the
      upstream, the client, and all other clients do meanwhile. */
  lemma {:induction false} PolledElementsAreStable<C, E>(next: Extents, bufferSize: nat, g: Gateway<C, E>,
                                                             ops: seq<Op<C, E>>, id: C, e: E, d: Delta)
    requires IsExtents(next) && 0 < bufferSize
    requires GatewayInv(next, bufferSize, g) && IsRun(next, bufferSize, g, ops)
    requires Release(id, e) !in ops
    requires Holds(g, id, e, d)
    ensures Holds(Run(next, bufferSize, g, ops), id, e, d)
    decreases |ops|
  {
    if ops != [] {
      var h := Step(next, bufferSize, g, ops[0]);
      assert Holds(h, id, e, d) by { StepKeepsPolled(next, bufferSize, g, ops[0], id, e, d); }
      assert GatewayInv(next, bufferSize, h) by { StepKeepsInv(next, bufferSize, g, ops[0]); }
      PolledElementsAreStable(next, bufferSize, h, ops[1..], id, e, d);
    }
  }
}
