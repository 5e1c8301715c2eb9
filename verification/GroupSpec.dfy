/** The subscribers of a group, while database events are fanned out to them.

    An event posts to each subscriber in turn, and drops the lock for each post; subscribers
    which come or go meanwhile are noted and taken into account when the event is done.
 */
module GroupSpec {

  /** Of a member: whether its values cause events, and which first events were seen. */
  datatype Member = Member(hasValue: bool, sawValue: bool, sawProperty: bool)

  /** `greeting` has the monitors which addMonitor() posts to, with the lock dropped, and has
      still to insert.  `enabled` says whether database events are enabled, `ever` whether they
      ever were.  Histories: `want` is the set of started monitors, `got` those posted to since they were
      added, `posted` those posted to by the event in progress, and `lost` the started ones
      which an earlier event has left both added and removed. */
  datatype Group = Group(
    members: seq<Member>, interested: set<nat>, adding: set<nat>, removing: set<nat>, greeting: set<nat>,
    iterating: bool, waits: nat, enabled: bool,
    ever: bool, want: set<nat>, got: set<nat>, posted: set<nat>, lost: set<nat>)

  datatype Op =
    | Add(mon: nat)
    | Greet(mon: nat)
    | Enter(mon: nat)
    | Remove(mon: nat)
    | Event(i: nat, property: bool)
    | Post(mon: nat)
    | Finish

  function Initial(hasValue: seq<bool>): Group {
    Group(seq(|hasValue|, i requires 0 <= i < |hasValue| => Member(hasValue[i], false, false)),
          {}, {}, {}, {}, false, 0, false, false, {}, {}, {}, {})
  }

  // ---------- The operations ----------

  function Reset(m: Member): Member {
    Member(m.hasValue, !m.hasValue, false)
  }

  function ResetAll(ms: seq<Member>): (r: seq<Member>)
    ensures |r| == |ms|
    ensures forall i :: 0 <= i < |ms| ==> r[i] == Reset(ms[i])
  {
    seq(|ms|, i requires 0 <= i < |ms| => Reset(ms[i]))
  }

  function UnseenBy(m: Member): nat {
    (if m.sawValue then 0 else 1) + (if m.sawProperty then 0 else 1)
  }

  /** How many first events are still to come. */
  function Unseen(ms: seq<Member>): nat {
    if ms == [] then 0 else UnseenBy(ms[|ms| - 1]) + Unseen(ms[..|ms| - 1])
  }

  predicate Empty(g: Group) {
    g.interested == {} && g.adding == {}
  }

  /** Whether addMonitor() posts to the new subscriber; it drops the lock to notify it. */
  predicate PostsAtOnce(g: Group) {
    !Empty(g) && g.waits == 0
  }

  function Inserted(g: Group, mon: nat): Group {
    if g.iterating then g.(adding := g.adding + {mon}) else g.(interested := g.interested + {mon})
  }

  /** addMonitor() when it does not post. */
  function Added(g: Group, mon: nat): Group {
    var h :=
      if !Empty(g) then g
      else
        g.(enabled := true, ever := true, members := ResetAll(g.members), waits := Unseen(ResetAll(g.members)));
    Inserted(h.(want := g.want + {mon}, got := g.got - {mon}), mon)
  }

  /** addMonitor() up to its post, and then the rest of it. */
  function Greeted(g: Group, mon: nat): Group {
    g.(greeting := g.greeting + {mon}, want := g.want + {mon}, got := g.got + {mon})
  }

  function Entered(g: Group, mon: nat): Group {
    Inserted(g.(greeting := g.greeting - {mon}), mon)
  }

  /** finalizeMonitor(): with the last subscriber gone, events are disabled. */
  function Finalize(g: Group): Group {
    if g.interested != {} then g else g.(enabled := false)
  }

  function Removed(g: Group, mon: nat): Group {
    var h :=
      if mon in g.adding then g.(adding := g.adding - {mon})
      else if g.iterating then g.(removing := g.removing + {mon})
      else Finalize(g.(interested := g.interested - {mon}));
    h.(want := g.want - {mon}, lost := g.lost - {mon})
  }

  function Seen(m: Member, property: bool): Member {
    if property then m.(sawProperty := true) else m.(sawValue := true)
  }

  /** Whether this is the first such event; the program then asserts that one is awaited. */
  predicate First(g: Group, i: nat, property: bool)
    requires i < |g.members|
  {
    if property then !g.members[i].sawProperty else !g.members[i].sawValue
  }

  function Marked(g: Group, i: nat, property: bool): Group
    requires i < |g.members|
  {
    g.(members := g.members[i := Seen(g.members[i], property)],
       waits := if First(g, i, property) && 0 < g.waits then g.waits - 1 else g.waits)
  }

  function Begun(g: Group): Group {
    if g.waits == 0 then g.(iterating := true, posted := {}) else g
  }

  function Posted(g: Group, mon: nat): Group {
    g.(posted := g.posted + {mon}, got := g.got + {mon})
  }

  function Finished(g: Group): Group {
    Finalize(g.(interested := (g.interested + g.adding) - g.removing, adding := {}, removing := {},
                iterating := false, lost := g.lost + g.adding * g.removing))
  }

  /** Between events, and during each post of one. */
  predicate LockFree(g: Group) {
    g.iterating ==> g.posted != {}
  }

  /** A monitor is not added twice without being removed, nor removed while it is being added,
      but may be removed without having been added; and events are not delivered before the
      first enable. */
  predicate Enabled(g: Group, op: Op) {
    match op
    case Add(mon) => LockFree(g) && mon !in g.want && !PostsAtOnce(g)
    case Greet(mon) => LockFree(g) && mon !in g.want && PostsAtOnce(g)
    case Enter(mon) => LockFree(g) && mon in g.greeting
    case Remove(mon) => LockFree(g) && mon !in g.greeting
    case Event(i, property) => g.ever && !g.iterating && i < |g.members| && (property || g.members[i].hasValue)
    case Post(mon) => g.iterating && mon in g.interested - g.posted
    case Finish => g.iterating && g.posted == g.interested
  }

  predicate AssertHolds(g: Group, op: Op)
    requires Enabled(g, op)
  {
    op.Event? && First(g, op.i, op.property) ==> 0 < g.waits
  }

  function Step(g: Group, op: Op): Group {
    match op
    case Add(mon) => Added(g, mon)
    case Greet(mon) => Greeted(g, mon)
    case Enter(mon) => Entered(g, mon)
    case Remove(mon) => Removed(g, mon)
    case Event(i, property) => if i < |g.members| then Begun(Marked(g, i, property)) else g
    case Post(mon) => Posted(g, mon)
    case Finish => Finished(g)
  }

  // ---------- The invariant ----------

  lemma {:induction false} UnseenUpdate(ms: seq<Member>, i: nat, m: Member)
    requires i < |ms|
    ensures Unseen(ms[i := m]) == Unseen(ms) - UnseenBy(ms[i]) + UnseenBy(m)
    ensures Unseen(ms) >= UnseenBy(ms[i])
  {
    var k := |ms| - 1;
    if i == k {
      assert ms[i := m][..k] == ms[..k];
    } else {
      assert ms[i := m][..k] == ms[..k][i := m];
      UnseenUpdate(ms[..k], i, m);
    }
  }

  lemma {:induction false} UnseenAfterReset(ms: seq<Member>)
    ensures |ms| <= Unseen(ResetAll(ms))
  {
    if ms != [] {
      var k := |ms| - 1;
      assert ResetAll(ms)[..k] == ResetAll(ms[..k]);
      UnseenAfterReset(ms[..k]);
    }
  }

  /** The subscribers, as far as requests and losses go. */
  ghost predicate Tracked(g: Group) {
    && g.want == (g.interested - g.removing) + g.adding + g.greeting + g.lost
    && g.adding * g.interested <= g.removing && g.greeting * g.interested <= g.removing
    && g.lost !! g.interested && g.lost !! g.adding && g.greeting !! g.adding && g.greeting !! g.lost
  }

  ghost predicate Inv(g: Group) {
    && (g.ever ==> g.waits == Unseen(g.members)
                   && forall i :: 0 <= i < |g.members| ==> g.members[i].hasValue || g.members[i].sawValue)
    && (!g.ever ==> g.waits == 0 && g.want == {} && !g.iterating && g.interested == {})
    && (g.iterating ==> g.waits == 0 && g.posted <= g.interested && g.posted <= g.got)
    && (!g.iterating ==> g.adding == {} && g.removing == {})
    && (g.enabled ==> g.interested != {})
    && (g.interested == {} ==> g.adding == {})
    && Tracked(g)
    && g.adding <= g.got && g.greeting <= g.got
    && (g.waits == 0 && !g.iterating && g.members != [] ==> g.interested <= g.got)
  }

  /** Who is subscribed has events enabled. */
  predicate Heard(g: Group) {
    g.interested != {} ==> g.enabled
  }

  lemma EventKeepsInv(g: Group, i: nat, property: bool)
    requires Inv(g) && Enabled(g, Event(i, property))
    ensures AssertHolds(g, Event(i, property)) && Inv(Step(g, Event(i, property)))
  {
    UnseenUpdate(g.members, i, Seen(g.members[i], property));
  }

  lemma RequestKeepsTracked(g: Group, op: Op)
    requires Inv(g) && Enabled(g, op) && (op.Add? || op.Greet? || op.Enter? || op.Remove?)
    ensures Tracked(Step(g, op))
  {}

  lemma FinishKeepsTracked(g: Group)
    requires Inv(g) && Enabled(g, Finish)
    ensures Tracked(Step(g, Finish))
  {}

  lemma StepKeepsInv(g: Group, op: Op)
    requires Inv(g) && Enabled(g, op)
    ensures AssertHolds(g, op) && Inv(Step(g, op))
  {
    match op
    case Event(i, property) => EventKeepsInv(g, i, property);
    case Finish => FinishKeepsTracked(g);
    case Post(_) =>
    case _ =>
      UnseenAfterReset(g.members);
      RequestKeepsTracked(g, op);
  }

  // ---------- Runs ----------

  ghost predicate IsRun(g: Group, ops: seq<Op>) {
    ops == [] || (IsRun(g, ops[..|ops| - 1]) && Enabled(Run(g, ops[..|ops| - 1]), ops[|ops| - 1]))
  }

  function Run(g: Group, ops: seq<Op>): Group {
    if ops == [] then g else Step(Run(g, ops[..|ops| - 1]), ops[|ops| - 1])
  }

  lemma RunSnoc(g: Group, ops: seq<Op>, op: Op)
    ensures Run(g, ops + [op]) == Step(Run(g, ops), op)
    ensures IsRun(g, ops + [op]) <==> IsRun(g, ops) && Enabled(Run(g, ops), op)
  {
    assert (ops + [op])[..|ops|] == ops;
  }

  lemma {:induction false} RunKeepsInv(g: Group, ops: seq<Op>)
    requires Inv(g) && IsRun(g, ops)
    ensures Inv(Run(g, ops)) && |Run(g, ops).members| == |g.members|
  {
    if ops != [] {
      RunKeepsInv(g, ops[..|ops| - 1]);
      StepKeepsInv(Run(g, ops[..|ops| - 1]), ops[|ops| - 1]);
    }
  }

  // ---------- Main results ----------

  /** The count of awaited first events is right, so that its assertions hold; nobody is
      posted to before the last of them, be it by an event or when it is added; and after that
      everybody is who is added beside others, and everybody was who was not lost. */
  lemma EveryRunStartsUp(hasValue: seq<bool>, ops: seq<Op>)
    requires IsRun(Initial(hasValue), ops)
    ensures var g := Run(Initial(hasValue), ops);
            && (g.ever ==> g.waits == Unseen(g.members))
            && (forall op :: Enabled(g, op) ==> AssertHolds(g, op))
            && (forall mon :: Enabled(g, Post(mon)) ==> g.waits == 0)
            && (forall mon :: Enabled(g, Greet(mon)) ==> g.waits == 0 && g.interested != {})
            && (forall mon :: Enabled(g, Add(mon)) ==> g.interested == {} || 0 < g.waits)
            && (hasValue != [] && g.waits == 0 && !g.iterating ==> g.want - g.lost <= g.got)
  {
    RunKeepsInv(Initial(hasValue), ops);
    var g := Run(Initial(hasValue), ops);
    forall op | Enabled(g, op) ensures AssertHolds(g, op) {
      if op.Event? { EventKeepsInv(g, op.i, op.property); }
    }
  }

  /** Between events the subscribers are the started monitors, but for the lost ones and those
      which are being added, and nothing is left pending; and database events are enabled only
      if there is a subscriber. */
  lemma EveryRunTracksSubscribers(hasValue: seq<bool>, ops: seq<Op>)
    requires IsRun(Initial(hasValue), ops)
    ensures var g := Run(Initial(hasValue), ops);
            && (!g.iterating ==> g.interested == g.want - g.lost - g.greeting && g.adding == {} && g.removing == {})
            && g.lost <= g.want && g.greeting <= g.want
            && (g.enabled ==> g.interested != {})
  {
    RunKeepsInv(Initial(hasValue), ops);
  }

  /** Since the last time a first subscriber came, this event of member i was delivered. */
  ghost predicate Delivered(hasValue: seq<bool>, ops: seq<Op>, i: nat, property: bool) {
    ops != []
    && (var before, op := ops[..|ops| - 1], ops[|ops| - 1];
        && !(op.Add? && Empty(Run(Initial(hasValue), before)))
        && (op == Event(i, property) || Delivered(hasValue, before, i, property)))
  }

  lemma StepSeen(g: Group, op: Op, i: nat)
    requires Enabled(g, op) && i < |g.members|
    ensures var h := Step(g, op);
            var anew := op.Add? && Empty(g);
            && |h.members| == |g.members| && h.members[i].hasValue == g.members[i].hasValue
            && (h.members[i].sawProperty <==> !anew && (op == Event(i, true) || g.members[i].sawProperty))
            && (h.members[i].sawValue <==>
                  if anew then !g.members[i].hasValue else op == Event(i, false) || g.members[i].sawValue)
            && (h.ever <==> anew || g.ever)
  {}

  /** Which first events were seen is what was delivered; values which cause none need not be. */
  lemma {:induction false} SeenIsDelivered(hasValue: seq<bool>, ops: seq<Op>, i: nat)
    requires IsRun(Initial(hasValue), ops) && i < |hasValue|
    ensures var g := Run(Initial(hasValue), ops);
            && |g.members| == |hasValue| && g.members[i].hasValue == hasValue[i]
            && (g.members[i].sawProperty <==> Delivered(hasValue, ops, i, true))
            && (g.members[i].sawValue <==> Delivered(hasValue, ops, i, false) || (g.ever && !hasValue[i]))
  {
    if ops != [] {
      var before := ops[..|ops| - 1];
      SeenIsDelivered(hasValue, before, i);
      StepSeen(Run(Initial(hasValue), before), ops[|before|], i);
    }
  }

  lemma {:induction false} NoneUnseen(ms: seq<Member>)
    ensures Unseen(ms) == 0 <==> forall i :: 0 <= i < |ms| ==> ms[i].sawValue && ms[i].sawProperty
  {
    if ms != [] { NoneUnseen(ms[..|ms| - 1]); }
  }

  /** Member i has delivered its properties, and its value too if that causes events. */
  ghost predicate Done(hasValue: seq<bool>, ops: seq<Op>, i: nat)
    requires i < |hasValue|
  {
    Delivered(hasValue, ops, i, true) && (hasValue[i] ==> Delivered(hasValue, ops, i, false))
  }

  /** The group has stopped waiting exactly when every member has done so since the last time a
      first subscriber came. */
  lemma WaitsUntilAllDelivered(hasValue: seq<bool>, ops: seq<Op>)
    requires IsRun(Initial(hasValue), ops) && Run(Initial(hasValue), ops).ever
    ensures Run(Initial(hasValue), ops).waits == 0 <==> forall i :: 0 <= i < |hasValue| ==> Done(hasValue, ops, i)
  {
    var g := Run(Initial(hasValue), ops);
    RunKeepsInv(Initial(hasValue), ops);
    forall i | 0 <= i < |hasValue|
      ensures g.members[i].sawValue && g.members[i].sawProperty <==> Done(hasValue, ops, i)
    {
      SeenIsDelivered(hasValue, ops, i);
    }
    NoneUnseen(g.members);
    if g.waits != 0 {
      var i :| 0 <= i < |g.members| && !(g.members[i].sawValue && g.members[i].sawProperty);
      assert !Done(hasValue, ops, i);
    }
  }

  lemma StepInIteration(g: Group, op: Op)
    requires g.iterating && Enabled(g, op) && op != Finish
    ensures Step(g, op).interested == g.interested && Step(g, op).iterating
  {}

  /** The subscribers are not changed while they are being iterated over, whatever is
      requested meanwhile. */
  lemma {:induction false} IterationIsStable(g: Group, ops: seq<Op>)
    requires g.iterating && IsRun(g, ops) && Finish !in ops
    ensures Run(g, ops).interested == g.interested && Run(g, ops).iterating
  {
    if ops != [] {
      var k := |ops| - 1;
      assert ops[k] in ops && forall op :: op in ops[..k] ==> op in ops;
      IterationIsStable(g, ops[..k]);
      StepInIteration(Run(g, ops[..k]), ops[k]);
    }
  }

  // ---------- Removed and added again ----------

  lemma FinishLoses(g: Group)
    requires Inv(g) && g.iterating
    ensures var h := Finished(g);
            && h.want - h.interested - h.greeting - g.lost == g.adding * g.removing
            && h.interested + g.adding * g.removing == h.want - g.lost - h.greeting
            && h.interested !! g.adding * g.removing
  {
    var h := Finished(g);
    assert h.interested == (g.interested - g.removing) + (g.adding - g.removing);
    assert g.want == h.interested + g.adding * g.removing + g.greeting + g.lost;
  }

  /** After every run, the event which ends loses exactly those monitors which were removed
      and then added again while it went on; so it loses none if and only if there are none. */
  lemma ReaddedIsLost(hasValue: seq<bool>, ops: seq<Op>)
    requires IsRun(Initial(hasValue), ops) && Enabled(Run(Initial(hasValue), ops), Finish)
    ensures var g := Run(Initial(hasValue), ops);
            var h := Step(g, Finish);
            && h.want == g.want && h.greeting == g.greeting
            && h.want - h.interested - h.greeting - g.lost == g.adding * g.removing
            && (h.interested == h.want - g.lost - h.greeting <==> g.adding !! g.removing)
  {
    RunKeepsInv(Initial(hasValue), ops);
    FinishLoses(Run(Initial(hasValue), ops));
  }

  /** During the event in progress, this monitor was inserted, and not removed since. */
  ghost predicate AddedMeanwhile(g: Group, ops: seq<Op>, mon: nat) {
    ops != []
    && (var before, op := ops[..|ops| - 1], ops[|ops| - 1];
        && op != Finish && op != Remove(mon)
        && (((op == Add(mon) || op == Enter(mon)) && Run(g, before).iterating) || AddedMeanwhile(g, before, mon)))
  }

  /** During it, this monitor was removed, and it had not just been inserted. */
  ghost predicate RemovedMeanwhile(g: Group, ops: seq<Op>, mon: nat) {
    ops != []
    && (var before, op := ops[..|ops| - 1], ops[|ops| - 1];
        && op != Finish
        && ((op == Remove(mon) && Run(g, before).iterating && mon !in Run(g, before).adding)
            || RemovedMeanwhile(g, before, mon)))
  }

  lemma StepPends(g: Group, op: Op, mon: nat)
    requires Inv(g) && Enabled(g, op)
    ensures mon in Step(g, op).adding
            <==> op != Finish && op != Remove(mon)
                 && (((op == Add(mon) || op == Enter(mon)) && g.iterating) || mon in g.adding)
    ensures mon in Step(g, op).removing
            <==> op != Finish && ((op == Remove(mon) && g.iterating && mon !in g.adding) || mon in g.removing)
  {}

  /** What waits for the end of an event is exactly what was asked for while it went on. */
  lemma {:induction false} PendingIsExact(g: Group, ops: seq<Op>, mon: nat)
    requires Inv(g) && g.adding == {} && g.removing == {} && IsRun(g, ops)
    ensures mon in Run(g, ops).adding <==> AddedMeanwhile(g, ops, mon)
    ensures mon in Run(g, ops).removing <==> RemovedMeanwhile(g, ops, mon)
  {
    if ops != [] {
      var before := ops[..|ops| - 1];
      PendingIsExact(g, before, mon);
      RunKeepsInv(g, before);
      StepPends(Run(g, before), ops[|before|], mon);
    }
  }

  /** No monitor is added again during the event which is to remove it. */
  ghost predicate NoneReadded(g: Group, ops: seq<Op>) {
    forall k :: 0 <= k < |ops| && (ops[k].Add? || ops[k].Enter?) ==> ops[k].mon !in Run(g, ops[..k]).removing
  }

  /** Then none is ever lost: the subscribers are the started monitors which were added. */
  lemma NoneReaddedNoneLost(hasValue: seq<bool>, ops: seq<Op>)
    requires IsRun(Initial(hasValue), ops) && NoneReadded(Initial(hasValue), ops)
    ensures var g := Run(Initial(hasValue), ops);
            g.lost == {} && (!g.iterating ==> g.interested == g.want - g.greeting)
  {
    NoneReaddedApart(Initial(hasValue), ops);
    RunKeepsInv(Initial(hasValue), ops);
  }

  lemma StepKeepsApart(g: Group, op: Op)
    requires Enabled(g, op) && g.lost == {} && g.adding !! g.removing
    requires op.Add? || op.Enter? ==> op.mon !in g.removing
    ensures Step(g, op).lost == {} && Step(g, op).adding !! Step(g, op).removing
  {}

  lemma {:induction false} NoneReaddedApart(g: Group, ops: seq<Op>)
    requires IsRun(g, ops) && NoneReadded(g, ops)
    requires g.lost == {} && g.adding !! g.removing
    ensures Run(g, ops).lost == {} && Run(g, ops).adding !! Run(g, ops).removing
  {
    if ops != [] {
      var before, op := ops[..|ops| - 1], ops[|ops| - 1];
      assert forall k :: 0 <= k < |before| ==> before[..k] == ops[..k] && before[k] == ops[k];
      NoneReaddedApart(g, before);
      StepKeepsApart(Run(g, before), op);
    }
  }

  /** Two monitors wait for the first events of one member, and then both are posted to. */
  lemma TwoArePostedTo()
    ensures var ops := [Add(1), Add(2), Event(0, false), Event(0, true)];
            && IsRun(Initial([true]), ops)
            && Run(Initial([true]), ops)
            == Group([Member(true, true, true)], {1, 2}, {}, {}, {}, true, 0, true, true, {1, 2}, {}, {}, {})
  {
    var g := Initial([true]);
    var awaiting := [Add(1), Add(2)];
    RunSnoc(g, [], Add(1));
    RunSnoc(g, [Add(1)], Add(2));
    assert [] + [Add(1)] == [Add(1)] && [Add(1)] + [Add(2)] == awaiting;
    assert Run(g, awaiting).members == [Member(true, false, false)] && Run(g, awaiting).waits == 2;
    RunSnoc(g, awaiting, Event(0, false));
    RunSnoc(g, awaiting + [Event(0, false)], Event(0, true));
    assert awaiting + [Event(0, false)] + [Event(0, true)] == [Add(1), Add(2), Event(0, false), Event(0, true)];
  }

  const BOTH := [Add(1), Add(2), Event(0, false), Event(0, true)]

  /** Monitor 2 is stopped and started again while an event posts to monitor 1: it stays
      started, and is not subscribed. */
  lemma LostMonitor()
    ensures var ops := BOTH + [Post(1), Remove(2), Greet(2), Enter(2), Post(2), Finish];
            && IsRun(Initial([true]), ops)
            && var g := Run(Initial([true]), ops);
            g.want == {1, 2} && g.interested == {1} && g.lost == {2}
  {
    var g := Initial([true]);
    TwoArePostedTo();
    RunSnoc(g, BOTH, Post(1));
    RunSnoc(g, BOTH + [Post(1)], Remove(2));
    RunSnoc(g, BOTH + [Post(1)] + [Remove(2)], Greet(2));
    RunSnoc(g, BOTH + [Post(1)] + [Remove(2)] + [Greet(2)], Enter(2));
    var readded := BOTH + [Post(1)] + [Remove(2)] + [Greet(2)] + [Enter(2)];
    assert Run(g, readded)
        == Group([Member(true, true, true)], {1, 2}, {2}, {2}, {}, true, 0, true, true, {1, 2}, {1, 2}, {1}, {});
    RunSnoc(g, readded, Post(2));
    RunSnoc(g, readded + [Post(2)], Finish);
    assert readded + [Post(2)] + [Finish] == BOTH + [Post(1), Remove(2), Greet(2), Enter(2), Post(2), Finish];
  }

  // ---------- Left alone while being added ----------

  /** A step keeps events enabled for who is subscribed if and only if it does not insert a new
      subscriber where the others have left, while addMonitor() had dropped the lock. */
  lemma StepKeepsHeard(g: Group, op: Op)
    requires Inv(g) && Heard(g) && Enabled(g, op)
    ensures Heard(Step(g, op)) <==> (op.Enter? ==> g.interested != {})
  {}

  ghost predicate Accompanied(g: Group, ops: seq<Op>) {
    forall k :: 0 <= k < |ops| && ops[k].Enter? ==> Run(g, ops[..k]).interested != {}
  }

  lemma {:induction false} AccompaniedHeard(g: Group, ops: seq<Op>)
    requires Inv(g) && Heard(g) && IsRun(g, ops) && Accompanied(g, ops)
    ensures Heard(Run(g, ops))
  {
    if ops != [] {
      var before := ops[..|ops| - 1];
      assert forall k :: 0 <= k < |before| ==> before[..k] == ops[..k] && before[k] == ops[k];
      AccompaniedHeard(g, before);
      RunKeepsInv(g, before);
      StepKeepsHeard(Run(g, before), ops[|ops| - 1]);
    }
  }

  /** If every new subscriber finds another one when it is inserted, then database events are
      enabled just when there is a subscriber. */
  lemma AccompaniedIsHeard(hasValue: seq<bool>, ops: seq<Op>)
    requires IsRun(Initial(hasValue), ops) && Accompanied(Initial(hasValue), ops)
    ensures var g := Run(Initial(hasValue), ops); g.enabled <==> g.interested != {}
  {
    AccompaniedHeard(Initial(hasValue), ops);
    RunKeepsInv(Initial(hasValue), ops);
  }

  lemma OneAwaits()
    ensures var ops := [Add(1), Event(0, false)];
            && IsRun(Initial([true]), ops)
            && Run(Initial([true]), ops)
            == Group([Member(true, true, false)], {1}, {}, {}, {}, false, 1, true, true, {1}, {}, {}, {})
  {
    var g := Initial([true]);
    RunSnoc(g, [], Add(1));
    assert [] + [Add(1)] == [Add(1)];
    assert Run(g, [Add(1)]).members == [Member(true, false, false)] && Run(g, [Add(1)]).waits == 2;
    RunSnoc(g, [Add(1)], Event(0, false));
    assert [Add(1)] + [Event(0, false)] == [Add(1), Event(0, false)];
  }

  lemma OneIsServed()
    ensures var ops := [Add(1), Event(0, false), Event(0, true), Post(1), Finish];
            && IsRun(Initial([true]), ops)
            && Run(Initial([true]), ops)
            == Group([Member(true, true, true)], {1}, {}, {}, {}, false, 0, true, true, {1}, {1}, {1}, {})
  {
    var g, awaiting := Initial([true]), [Add(1), Event(0, false)];
    OneAwaits();
    RunSnoc(g, awaiting, Event(0, true));
    RunSnoc(g, awaiting + [Event(0, true)], Post(1));
    RunSnoc(g, awaiting + [Event(0, true)] + [Post(1)], Finish);
    assert awaiting + [Event(0, true)] + [Post(1)] + [Finish]
        == [Add(1), Event(0, false), Event(0, true), Post(1), Finish];
  }

  /** Monitor 2 comes when all first events were seen, and monitor 1, the only other one, leaves
      while monitor 2 is posted to: it ends subscribed, with database events disabled. */
  lemma LeftAlone()
    ensures var ops := [Add(1), Event(0, false), Event(0, true), Post(1), Finish] + [Greet(2), Remove(1), Enter(2)];
            && IsRun(Initial([true]), ops)
            && var g := Run(Initial([true]), ops);
            g.interested == g.want == {2} && g.greeting == {} && !g.enabled && !g.iterating
  {
    var g, served := Initial([true]), [Add(1), Event(0, false), Event(0, true), Post(1), Finish];
    OneIsServed();
    RunSnoc(g, served, Greet(2));
    RunSnoc(g, served + [Greet(2)], Remove(1));
    RunSnoc(g, served + [Greet(2)] + [Remove(1)], Enter(2));
    assert served + [Greet(2)] + [Remove(1)] + [Enter(2)] == served + [Greet(2), Remove(1), Enter(2)];
  }

  lemma StepStaysDisabled(g: Group, op: Op)
    requires Enabled(g, op) && !g.enabled && (op.Add? ==> !Empty(g))
    ensures !Step(g, op).enabled
  {}

  /** They stay disabled, whatever is requested and whoever comes, until addMonitor() finds
      nobody subscribed. */
  lemma {:induction false} StaysDisabled(g: Group, ops: seq<Op>)
    requires IsRun(g, ops) && !g.enabled
    requires forall k :: 0 <= k < |ops| && ops[k].Add? ==> !Empty(Run(g, ops[..k]))
    ensures !Run(g, ops).enabled
  {
    if ops != [] {
      var before := ops[..|ops| - 1];
      assert forall k :: 0 <= k < |before| ==> before[..k] == ops[..k] && before[k] == ops[k];
      StaysDisabled(g, before);
      StepStaysDisabled(Run(g, before), ops[|before|]);
    }
  }

  // ---------- The first subscriber ----------

  /** The first subscriber waits for the first events of the members; a group without any
      member has none to wait for, nor any event which would ever post to it. */
  lemma FirstSubscriberIsServed(hasValue: seq<bool>, mon: nat)
    ensures var g := Step(Initial(hasValue), Add(mon));
            && (mon !in g.got)
            && ((g.waits == 0 && forall i, property :: !Enabled(g, Event(i, property))) <==> hasValue == [])
  {
    UnseenAfterReset(Initial(hasValue).members);
  }
}
