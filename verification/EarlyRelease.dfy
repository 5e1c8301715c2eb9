/** A run in which a release() which began before a restart makes a subscriber miss an event for
    good: one field, one member, queues of one element, and two monitors.
 */
module EarlyRelease {
  import opened PvData
  import opened GroupMonitors
  import G = GroupSpec
  import M = BaseMonitorSpec

  const ONE: Extents := [1]
  const SEEN := [G.Member(true, true, true)]

  const AWAITING := M.Mon([0], {0}, {}, false, true, [], 1, 0, M.History([0], {0}, 0, true, false, 0, false))
  const QUEUED := M.Mon([0], {}, {}, false, true, [Delta([0], {0}, {})], 0, 0,
                        M.History([0], {}, 0, false, false, 1, false))
  const OVERFLOWN := QUEUED.(changed := {0}, inoverflow := true)
  const TOLD := OVERFLOWN.(h := M.History([0], {}, 0, false, false, 0, true))
  const STOPPED := M.Mon([0], {0}, {}, true, false, [], 1, 0, M.History([0], {}, 1, false, false, 0, true))

  /** What an event which changes nothing leaves of a monitor. */
  function Owing(m: M.Mon): M.Mon {
    m.(h := m.h.(owed := m.h.owed + {0}))
  }

  function AllOwing(mons: map<nat, M.Mon>): map<nat, M.Mon> {
    map k | k in mons :: Owing(mons[k])
  }

  predicate AllZero(s: System) {
    s.complete == [0] && forall k :: k in s.mons ==> s.mons[k].complete == [0]
  }

  lemma SameWritten(s: System)
    requires AllZero(s)
    ensures Copy(ONE, [0], [0], {0}) == [0]
    ensures (map k | k in s.mons :: Written(ONE, s.mons[k], [0], {0})) == AllOwing(s.mons)
  {
    CopyAll(ONE, [0], [0], {0});
  }

  lemma {:induction false} RunConcat(s: System, a: seq<Op>, b: seq<Op>)
    requires IsRun(ONE, 1, s, a) && IsRun(ONE, 1, Run(ONE, 1, s, a), b)
    ensures IsRun(ONE, 1, s, a + b) && Run(ONE, 1, s, a + b) == Run(ONE, 1, Run(ONE, 1, s, a), b)
    decreases |a|
  {
    if a == [] {
      assert a + b == b;
    } else {
      assert (a + b)[1..] == a[1..] + b;
      RunConcat(Step(ONE, 1, s, a[0]), a[1..], b);
    }
  }

  lemma RunOne(s: System, a: Op)
    requires Enabled(s, a)
    ensures IsRun(ONE, 1, s, [a]) && Run(ONE, 1, s, [a]) == Step(ONE, 1, s, a)
  {
    assert [a][1..] == [];
    assert IsRun(ONE, 1, Step(ONE, 1, s, a), []);
  }

  lemma RunTwo(s: System, a: Op, b: Op)
    requires Enabled(s, a) && Enabled(Step(ONE, 1, s, a), b)
    ensures IsRun(ONE, 1, s, [a, b]) && Run(ONE, 1, s, [a, b]) == Step(ONE, 1, Step(ONE, 1, s, a), b)
  {
    assert [a, b][1..] == [b];
    RunOne(Step(ONE, 1, s, a), b);
  }

  lemma RunThree(s: System, a: Op, b: Op, c: Op)
    requires Enabled(s, a) && Enabled(Step(ONE, 1, s, a), b) && Enabled(Step(ONE, 1, Step(ONE, 1, s, a), b), c)
    ensures IsRun(ONE, 1, s, [a, b, c])
    ensures Run(ONE, 1, s, [a, b, c]) == Step(ONE, 1, Step(ONE, 1, Step(ONE, 1, s, a), b), c)
  {
    assert [a, b, c][1..] == [b, c];
    RunTwo(Step(ONE, 1, s, a), b, c);
  }

  // ---------- Segments of the run ----------

  predicate Idle(s: System) {
    && |s.group.members| == 1 && s.group.members[0].hasValue && s.group.waits == 0
    && s.group.interested == {} && s.group.adding == {} && s.group.removing == {} && s.group.greeting == {}
    && !s.group.iterating
    && s.group.want == {} && s.group.lost == {} && s.joining == {} && s.leaving == {}
  }

  lemma TwoAwaited(ms: seq<G.Member>)
    requires |ms| == 1 && ms[0].hasValue
    ensures G.ResetAll(ms) == [G.Member(true, false, false)] && G.Unseen(G.ResetAll(ms)) == 2
  {
    assert G.ResetAll(ms)[..0] == [];
  }

  const STARTED := M.Mon([0], {0}, {}, false, true, [], 1, 0, M.History([0], {}, 0, true, false, 0, false))

  function Alone(members: seq<G.Member>, waits: nat, id: nat, got: set<nat>, posted: set<nat>): G.Group {
    G.Group(members, {id}, {}, {}, {}, false, waits, true, true, {id}, got, posted, {})
  }

  /** A first subscriber comes. */
  lemma Joins(s: System, id: nat)
    requires Idle(s) && AllZero(s) && id !in s.mons
    ensures var ops := [Connect(id), Start(id), Join(id)];
            && IsRun(ONE, 1, s, ops)
            && Run(ONE, 1, s, ops)
            == s.(mons := s.mons[id := STARTED],
                  group := Alone([G.Member(true, false, false)], 2, id, s.group.got - {id}, s.group.posted))
  {
    TwoAwaited(s.group.members);
    var s1 := Step(ONE, 1, s, Connect(id));
    var s2 := Step(ONE, 1, s1, Start(id));
    assert M.Started(M.Connected([0], 1, ONE)) == STARTED;
    assert s2.mons == s.mons[id := STARTED] && s2.joining == {id};
    var s3 := Step(ONE, 1, s2, Join(id));
    assert s3.mons == s.mons[id := STARTED] && s3.joining == {};
    assert s3.group.interested == {id} && s3.group.want == {id};
    RunThree(s, Connect(id), Start(id), Join(id));
  }

  /** The first of two awaited events. */
  lemma FirstSeen(s: System, id: nat)
    requires AllZero(s) && id in s.mons && s.mons[id] == STARTED
    requires s.group == Alone([G.Member(true, false, false)], 2, id, s.group.got, s.group.posted)
    ensures var ops := [Event(0, false, [0], {0})];
            && IsRun(ONE, 1, s, ops)
            && Run(ONE, 1, s, ops)
            == s.(mons := AllOwing(s.mons), scratch := {0},
                  group := Alone([G.Member(true, true, false)], 1, id, s.group.got, s.group.posted))
  {
    SameWritten(s);
    RunOne(s, Event(0, false, [0], {0}));
  }

  predicate Ready(g: G.Group, id: nat) {
    || g == Alone([G.Member(true, true, false)], 1, id, g.got, g.posted)
    || g == Alone(SEEN, 0, id, g.got, g.posted)
  }

  lemma GroupPosts(g: G.Group, id: nat)
    requires Ready(g, id)
    ensures G.Enabled(g, G.Event(0, true))
    ensures var h := G.Step(g, G.Event(0, true));
            && G.Enabled(h, G.Post(id))
            && var k := G.Step(h, G.Post(id));
            && G.Enabled(k, G.Finish) && G.Step(k, G.Finish) == Alone(SEEN, 0, id, g.got + {id}, {id})
  {
    var h := G.Step(g, G.Event(0, true));
    assert h.members == SEEN && h.iterating && h.posted == {};
    assert G.Step(h, G.Post(id)).posted == {id};
  }

  /** An event which is the last awaited, or comes later, and its post. */
  lemma Posts(s: System, id: nat)
    requires AllZero(s) && id in s.mons && Ready(s.group, id)
    ensures var ops := [Event(0, true, [0], {0}), Post(id), Finish];
            && IsRun(ONE, 1, s, ops)
            && Run(ONE, 1, s, ops)
            == s.(mons := AllOwing(s.mons)[id := M.Masked(Owing(s.mons[id]), {0}, {})], scratch := {0},
                  group := Alone(SEEN, 0, id, s.group.got + {id}, {id}))
  {
    SameWritten(s);
    GroupPosts(s.group, id);
    RunThree(s, Event(0, true, [0], {0}), Post(id), Finish);
  }

  lemma Masks()
    ensures M.Masked(Owing(Owing(STARTED)), {0}, {}) == QUEUED
    ensures M.Masked(Owing(QUEUED), {0}, {}) == OVERFLOWN
    ensures Owing(Owing(STOPPED)) == Owing(STOPPED)
  {
    var none, zero: Mask := {}, {0};
    assert none + zero == zero && zero + zero == zero && zero - zero == none && zero * none == none;
    assert STARTED.h.owed == none && QUEUED.changed == none && STOPPED.h.owed == none;
  }

  const IN_OVERFLOW := System(Alone(SEEN, 0, 1, {1}, {1}), map[1 := OVERFLOWN], [0], {0}, {}, {})

  /** The subscriber was stopped between the two steps of a release(). */
  const LEFT := System(G.Group(SEEN, {}, {}, {}, {}, false, 0, false, true, {}, {1}, {1}, {}),
                       map[1 := STOPPED], [0], {0}, {}, {})

  /** And then another has come. */
  const BESIDE := System(Alone(SEEN, 0, 2, {1, 2}, {2}), map[1 := Owing(STOPPED), 2 := QUEUED], [0], {0}, {}, {})

  function Entering(id: nat): seq<Op> {
    [Connect(id), Start(id), Join(id)] + [Event(0, false, [0], {0})] + [Event(0, true, [0], {0}), Post(id), Finish]
  }

  function Posting(id: nat): seq<Op> {
    [Event(0, true, [0], {0}), Post(id), Finish]
  }

  const RELEASES := [Client(1, M.Notify), Client(1, M.Poll), Client(1, M.ReleasePush)] + [Stop(1), Leave(1)]

  lemma EntersFirst(s: System, id: nat)
    requires Idle(s) && AllZero(s) && id !in s.mons
    ensures var ops := [Connect(id), Start(id), Join(id)] + [Event(0, false, [0], {0})];
            && IsRun(ONE, 1, s, ops)
            && Run(ONE, 1, s, ops)
            == s.(mons := AllOwing(s.mons[id := STARTED]), scratch := {0},
                  group := Alone([G.Member(true, true, false)], 1, id, s.group.got - {id}, s.group.posted))
  {
    var a, b := [Connect(id), Start(id), Join(id)], [Event(0, false, [0], {0})];
    Joins(s, id);
    FirstSeen(Run(ONE, 1, s, a), id);
    RunConcat(s, a, b);
  }

  lemma PostsFirst(s: System, id: nat)
    requires AllZero(s) && id in s.mons && s.mons[id] == Owing(STARTED)
    requires s.group == Alone([G.Member(true, true, false)], 1, id, s.group.got, s.group.posted)
    ensures IsRun(ONE, 1, s, Posting(id))
    ensures Run(ONE, 1, s, Posting(id))
            == s.(mons := AllOwing(s.mons)[id := QUEUED], scratch := {0},
                  group := Alone(SEEN, 0, id, s.group.got + {id}, {id}))
  {
    Masks();
    Posts(s, id);
  }

  /** A newcomer, beside others which are not running. */
  lemma Enters(s: System, id: nat)
    requires Idle(s) && AllZero(s) && id !in s.mons
    ensures IsRun(ONE, 1, s, Entering(id))
    ensures Run(ONE, 1, s, Entering(id))
            == s.(mons := AllOwing(AllOwing(s.mons))[id := QUEUED], scratch := {0},
                  group := Alone(SEEN, 0, id, s.group.got - {id} + {id}, {id}))
  {
    var first := [Connect(id), Start(id), Join(id)] + [Event(0, false, [0], {0})];
    EntersFirst(s, id);
    var t := Run(ONE, 1, s, first);
    PostsFirst(t, id);
    assert AllOwing(t.mons)[id := QUEUED] == AllOwing(AllOwing(s.mons))[id := QUEUED];
    RunConcat(s, first, Posting(id));
  }

  lemma ComesToOverflow()
    ensures IsRun(ONE, 1, Initial([true], [0]), Entering(1) + Posting(1))
    ensures Run(ONE, 1, Initial([true], [0]), Entering(1) + Posting(1)) == IN_OVERFLOW
  {
    var s := Initial([true], [0]);
    Enters(s, 1);
    var s1 := Run(ONE, 1, s, Entering(1));
    assert s1.mons == map[1 := QUEUED];
    Masks();
    Posts(s1, 1);
    assert Run(ONE, 1, s1, Posting(1)).mons == map[1 := OVERFLOWN];
    RunConcat(s, Entering(1), Posting(1));
  }

  lemma Polled()
    ensures M.Step(ONE, OVERFLOWN, M.Notify) == TOLD
    ensures M.Step(ONE, TOLD, M.Poll) == TOLD.(filled := [], out := 1)
    ensures M.Step(ONE, TOLD.(filled := [], out := 1), M.ReleasePush) == STOPPED.(running := true)
  {
    CopyAll(ONE, [0], [0], {0});
    assert TOLD.filled[1..] == [];
  }

  lemma ComesToLeave()
    ensures IsRun(ONE, 1, IN_OVERFLOW, RELEASES) && Run(ONE, 1, IN_OVERFLOW, RELEASES) == LEFT
  {
    Polled();
    var s := IN_OVERFLOW;
    var s1 := Step(ONE, 1, s, Client(1, M.Notify));
    assert s1.mons == map[1 := TOLD];
    var s2 := Step(ONE, 1, s1, Client(1, M.Poll));
    assert s2.mons == map[1 := TOLD.(filled := [], out := 1)];
    var s3 := Step(ONE, 1, s2, Client(1, M.ReleasePush));
    assert s3.mons == map[1 := STOPPED.(running := true)];
    RunThree(s, Client(1, M.Notify), Client(1, M.Poll), Client(1, M.ReleasePush));
    StopsAndLeaves(s3);
    RunConcat(s, [Client(1, M.Notify), Client(1, M.Poll), Client(1, M.ReleasePush)], [Stop(1), Leave(1)]);
  }

  lemma StopsAndLeaves(s: System)
    requires s == IN_OVERFLOW.(mons := map[1 := STOPPED.(running := true)])
    ensures IsRun(ONE, 1, s, [Stop(1), Leave(1)]) && Run(ONE, 1, s, [Stop(1), Leave(1)]) == LEFT
  {
    var s1 := Step(ONE, 1, s, Stop(1));
    assert s1.mons == map[1 := STOPPED] && s1.leaving == {1};
    assert Step(ONE, 1, s1, Leave(1)).group == LEFT.group;
    RunTwo(s, Stop(1), Leave(1));
  }

  /** All of it is one run. */
  lemma ComesToRestart()
    ensures var ops := Entering(1) + Posting(1) + RELEASES + Entering(2);
            && IsRun(ONE, 1, Initial([true], [0]), ops)
            && Run(ONE, 1, Initial([true], [0]), ops) == BESIDE
  {
    var s := Initial([true], [0]);
    ComesToOverflow();
    ComesToLeave();
    RunConcat(s, Entering(1) + Posting(1), RELEASES);
    Masks();
    Enters(LEFT, 2);
    assert AllOwing(AllOwing(LEFT.mons))[2 := QUEUED] == BESIDE.mons;
    assert LEFT.group.got - {2} + {2} == {1, 2};
    RunConcat(s, Entering(1) + Posting(1) + RELEASES, Entering(2));
  }

  const REST := [Client(1, M.ReleaseUpdate), Event(0, false, [5], {0})] + ([Post(2), Finish] + [Greet(1), Enter(1)])

  const RESTARTED := STOPPED.(inoverflow := false, running := true, h := M.History([0], {0}, 1, true, false, 0, true))

  lemma Restarts()
    ensures Started(BESIDE, 1) == BESIDE.(joining := {1}, mons := map[1 := RESTARTED, 2 := QUEUED])
  {
    assert Owing(STOPPED).h.owed == {0};
    assert M.Started(Owing(STOPPED)) == RESTARTED;
    assert Started(BESIDE, 1).mons == map[1 := RESTARTED, 2 := QUEUED];
    assert {} + {1} == {1};
  }

  /** Then the old release() posts, and an event comes. */
  function Taken(s: System): System
    requires 1 in s.mons && Enabled(s, Client(1, M.ReleaseUpdate))
  {
    Changed(ONE, Step(ONE, 1, s, Client(1, M.ReleaseUpdate)), 0, false, [5], {0})
  }

  lemma ReleaseTakes(s: System)
    requires s == BESIDE.(joining := {1}, mons := map[1 := RESTARTED, 2 := QUEUED])
    ensures Enabled(s, Client(1, M.ReleaseUpdate)) && Behind(ONE, Taken(s), 1)
    ensures Taken(s).mons[1].complete == Taken(s).complete
  {
    assert 0 in [0] && Covers(ONE, {0}, 0);
    EarlyReleaseForgets(ONE, 1, s, 1, 0, false, [5], {0}, 0);
  }

  lemma ReleaseTakesIt()
    ensures var t, ops := Started(BESIDE, 1), [Client(1, M.ReleaseUpdate), Event(0, false, [5], {0})];
            && IsRun(ONE, 1, t, ops)
            && var u := Run(ONE, 1, t, ops);
            && Behind(ONE, u, 1) && u.mons[1].complete == u.complete && u.mons[1].running && 2 in u.mons
            && u.group.iterating && u.group.interested == {2} && u.group.posted == {} && u.group.waits == 0
            && u.group.adding == {} && u.group.removing == {} && u.group.greeting == {} && u.joining == {1}
  {
    var t := Started(BESIDE, 1);
    Restarts();
    ReleaseTakes(t);
    RunTwo(t, Client(1, M.ReleaseUpdate), Event(0, false, [5], {0}));
  }

  /** Then the first monitor is started again, which is not safe: the release() posts, an
      event is posted to the other, and addMonitor() comes.  In the end the first monitor is
      subscribed, nothing is pending for it, and it is behind. */
  lemma ForgottenForGood()
    ensures Calls(BESIDE, 1) && !SafeStart(BESIDE, 1)
    ensures IsRun(ONE, 1, Started(BESIDE, 1), REST)
    ensures var s := Run(ONE, 1, Started(BESIDE, 1), REST);
            && !s.group.iterating && 1 in s.group.interested && 1 !in s.joining && 1 in s.mons && s.mons[1].running
            && Behind(ONE, s, 1)
  {
    var t, ops := Started(BESIDE, 1), [Client(1, M.ReleaseUpdate), Event(0, false, [5], {0})];
    ReleaseTakesIt();
    var u := Run(ONE, 1, t, ops);
    OthersAreServed(u);
    StaysBehind(ONE, 1, u, 1, [Post(2), Finish] + [Greet(1), Enter(1)]);
    RunConcat(t, ops, [Post(2), Finish] + [Greet(1), Enter(1)]);
  }

  lemma OthersAreServed(s: System)
    requires 1 in s.mons && 2 in s.mons && s.joining == {1} && s.mons[1].running
    requires s.group.iterating && s.group.interested == {2} && s.group.posted == {} && s.group.waits == 0
    requires s.group.adding == {} && s.group.removing == {} && s.group.greeting == {}
    ensures var ops := [Post(2), Finish] + [Greet(1), Enter(1)];
            && IsRun(ONE, 1, s, ops)
            && var t := Run(ONE, 1, s, ops);
            && !t.group.iterating && 1 in t.group.interested && t.joining == {} && 1 in t.mons && t.mons[1].running
  {
    var s1 := Step(ONE, 1, s, Post(2));
    assert s1.group.posted == {2};
    var s2 := Step(ONE, 1, s1, Finish);
    assert s2.group.interested == {2};
    RunTwo(s, Post(2), Finish);
    var s3 := Step(ONE, 1, s2, Greet(1));
    assert s3.group.greeting == {1} && s3.joining == {};
    RunTwo(s2, Greet(1), Enter(1));
    RunConcat(s, [Post(2), Finish], [Greet(1), Enter(1)]);
  }
}
