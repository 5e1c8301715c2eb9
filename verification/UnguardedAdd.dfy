/** Two runs in which addMonitor() has dropped the lock to post to a new subscriber, and what
    happens then leaves that one behind: one field, one member, and queues of one element.
 */
module UnguardedAdd {
  import opened PvData
  import opened GroupMonitors
  import opened EarlyRelease
  import G = GroupSpec
  import M = BaseMonitorSpec

  const SERVED := System(Alone(SEEN, 0, 1, {1}, {1}), map[1 := QUEUED], [0], {0}, {}, {})

  /** Monitor 1 is subscribed, and monitor 2 was posted to and is not inserted yet. */
  const GREETED := SERVED.(mons := map[1 := QUEUED, 2 := QUEUED],
                           group := SERVED.group.(greeting := {2}, want := {1, 2}, got := {1, 2}))

  const COMING := [Connect(2), Start(2), Greet(2)]

  lemma ComesToGreet()
    ensures IsRun(ONE, 1, SERVED, COMING) && Run(ONE, 1, SERVED, COMING) == GREETED
  {
    var s1 := Step(ONE, 1, SERVED, Connect(2));
    var s2 := Step(ONE, 1, s1, Start(2));
    assert M.Started(M.Connected([0], 1, ONE)) == STARTED;
    assert s2.mons == map[1 := QUEUED, 2 := STARTED] && s2.joining == {2};
    assert M.Pending(STARTED) == QUEUED;
    var s3 := Step(ONE, 1, s2, Greet(2));
    assert s3.joining == {} && s3.group == GREETED.group && s3.mons == GREETED.mons;
    RunThree(SERVED, Connect(2), Start(2), Greet(2));
  }

  lemma ComesToBeGreeted()
    ensures IsRun(ONE, 1, Initial([true], [0]), Entering(1) + COMING)
    ensures Run(ONE, 1, Initial([true], [0]), Entering(1) + COMING) == GREETED
  {
    var s := Initial([true], [0]);
    Enters(s, 1);
    assert AllOwing(AllOwing(s.mons))[1 := QUEUED] == map[1 := QUEUED];
    assert s.group.got - {1} + {1} == {1};
    assert Run(ONE, 1, s, Entering(1)) == SERVED;
    ComesToGreet();
    RunConcat(s, Entering(1), COMING);
  }

  lemma GreetedHasInv()
    ensures Inv(ONE, 1, GREETED)
  {
    ComesToBeGreeted();
    assert Inv(ONE, 1, Initial([true], [0]));
    RunKeepsInv(ONE, 1, Initial([true], [0]), Entering(1) + COMING);
  }

  // ---------- An event comes ----------

  const REST_OF_EVENT := [Post(1), Finish, Enter(2)]

  const WRITTEN := Changed(ONE, GREETED, 0, false, [5], {0})

  lemma WriteMissesNewcomer()
    ensures Behind(ONE, WRITTEN, 2) && WRITTEN.mons[2].complete == WRITTEN.complete
  {
    GreetedHasInv();
    assert Covers(ONE, {0}, 0);
    EventDuringGreetingIsMissed(ONE, 1, GREETED, 2, 0, false, [5], {0}, 0);
  }

  lemma EventGoesOn(s: System)
    requires s.group == GREETED.group.(iterating := true, posted := {}) && 1 in s.mons && 2 in s.mons
    ensures IsRun(ONE, 1, s, REST_OF_EVENT)
    ensures var u := Run(ONE, 1, s, REST_OF_EVENT);
            !u.group.iterating && 2 in u.group.interested && 2 !in u.group.greeting
  {
    var s1 := Step(ONE, 1, s, Post(1));
    assert s1.group.posted == {1};
    var s2 := Step(ONE, 1, s1, Finish);
    assert s2.group.interested == {1} && s2.group.greeting == {2};
    RunThree(s, Post(1), Finish, Enter(2));
  }

  /** An event which writes the field is posted to monitor 1 only.  In the end monitor 2 is
      subscribed, nothing is pending for it, and it is behind. */
  lemma MissedForGood()
    ensures !SafeEvent(GREETED, {0}) && G.Enabled(GREETED.group, G.Event(0, false))
    ensures IsRun(ONE, 1, WRITTEN, REST_OF_EVENT)
    ensures var u := Run(ONE, 1, WRITTEN, REST_OF_EVENT);
            && !u.group.iterating && 2 in u.group.interested && 2 !in u.group.greeting && Behind(ONE, u, 2)
  {
    assert WRITTEN.group == GREETED.group.(iterating := true, posted := {});
    EventGoesOn(WRITTEN);
    WriteMissesNewcomer();
    StaysBehind(ONE, 1, WRITTEN, 2, REST_OF_EVENT);
  }

  // ---------- The others leave, and another comes ----------

  const LEAVING := [Stop(1), Leave(1)]
  const THIRD := [Connect(3), Start(3), Join(3)]

  lemma OtherLeaves()
    ensures IsRun(ONE, 1, GREETED, LEAVING)
    ensures var s := Run(ONE, 1, GREETED, LEAVING);
            && s.group == GREETED.group.(interested := {}, want := {2}, enabled := false)
            && s.mons.Keys == {1, 2} && s.complete == [0] && s.joining == {} && s.leaving == {}
  {
    var s1 := Step(ONE, 1, GREETED, Stop(1));
    assert s1.leaving == {1} && s1.group == GREETED.group;
    var s2 := Step(ONE, 1, s1, Leave(1));
    assert s2.group.interested == {} && s2.group.want == {2} && s2.leaving == {};
    RunTwo(GREETED, Stop(1), Leave(1));
  }

  lemma ThirdComes(s: System)
    requires s.group == GREETED.group.(interested := {}, want := {2}, enabled := false)
    requires s.mons.Keys == {1, 2} && s.complete == [0] && s.joining == {} && s.leaving == {}
    ensures IsRun(ONE, 1, s, THIRD)
    ensures var t := Run(ONE, 1, s, THIRD);
            && t.group.waits == 2 && 2 in t.group.greeting && !t.group.iterating && t.complete == [0]
            && t.group.interested == {3} && t.group.ever && t.group.members == [G.Member(true, false, false)]
  {
    var s1 := Step(ONE, 1, s, Connect(3));
    var s2 := Step(ONE, 1, s1, Start(3));
    assert s2.joining == {3} && s2.group == s.group;
    TwoAwaited(s.group.members);
    var s3 := Step(ONE, 1, s2, Join(3));
    assert s3.group.interested == {3};
    RunThree(s, Connect(3), Start(3), Join(3));
  }

  const SWAP := LEAVING + THIRD

  lemma ComesToSwap()
    ensures IsRun(ONE, 1, GREETED, SWAP)
    ensures var t := Run(ONE, 1, GREETED, SWAP);
            && t.group.waits == 2 && 2 in t.group.greeting && !t.group.iterating && t.complete == [0]
            && t.group.interested == {3} && t.group.ever && t.group.members == [G.Member(true, false, false)]
  {
    OtherLeaves();
    ThirdComes(Run(ONE, 1, GREETED, LEAVING));
    RunConcat(GREETED, LEAVING, THIRD);
  }

  lemma FirstEventMisses(s: System)
    requires Inv(ONE, 1, s) && s.group.waits == 2 && 2 in s.group.greeting && !s.group.iterating
    requires s.complete == [0] && s.group.ever && s.group.members == [G.Member(true, false, false)]
    ensures var u := Changed(ONE, Entered(s, 2), 0, false, [5], {0});
            !u.group.iterating && 2 in u.group.interested && 2 !in u.group.greeting && Behind(ONE, u, 2)
  {
    assert Covers(ONE, {0}, 0);
    EnteredAmongNewcomersMisses(ONE, 1, s, 2, 0, false, [5], {0}, 0);
  }

  /** Monitor 1 leaves and monitor 3 comes, for which first events are awaited again.  Monitor 2
      is inserted beside it, and the first of these events leaves it behind: subscribed,
      between events, and with nothing pending. */
  lemma SwappedForGood()
    ensures IsRun(ONE, 1, GREETED, SWAP)
    ensures var s := Run(ONE, 1, GREETED, SWAP);
            && !SafeEnter(s) && G.Enabled(s.group, G.Enter(2))
            && G.Enabled(Entered(s, 2).group, G.Event(0, false))
            && var u := Changed(ONE, Entered(s, 2), 0, false, [5], {0});
            && !u.group.iterating && 2 in u.group.interested && 2 !in u.group.greeting && Behind(ONE, u, 2)
  {
    ComesToSwap();
    GreetedHasInv();
    RunKeepsInv(ONE, 1, GREETED, SWAP);
    FirstEventMisses(Run(ONE, 1, GREETED, SWAP));
  }
}
