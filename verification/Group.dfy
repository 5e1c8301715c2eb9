/** A group, its subscribers, and the fan-out of a database event to them. */
module Group {
  import opened GroupSpec

  /** The locked regions of start() and stop() of a monitor: start() with addMonitor() after it
      if it finds a free element, and stop() with removeMonitor() after it.  addMonitor() has a
      second region if it posts, as that drops the lock to notify the client. */
  datatype Call =
    | StartCall(mon: nat, element: bool)
    | AddCall(mon: nat)
    | EnterCall(mon: nat)
    | StopCall(mon: nat)
    | RemoveCall(mon: nat)

  /** What a call comes to for the group. */
  function Asked(call: Call, joining: set<nat>, greeting: set<nat>, leaving: set<nat>, g: GroupSpec.Group): seq<Op> {
    match call
    case AddCall(mon) => if mon !in joining then [] else if PostsAtOnce(g) then [Greet(mon)] else [Add(mon)]
    case EnterCall(mon) => if mon in greeting then [Enter(mon)] else []
    case RemoveCall(mon) => if mon in leaving then [Remove(mon)] else []
    case _ => []
  }

  class PDBGroupPV {
    var members: seq<Member>
    var interested: set<nat>
    var interested_add: set<nat>
    var interested_remove: set<nat>
    var interested_iterating: bool
    var initial_waits: nat
    /** Whether the database delivers events of the members. */
    var enabled: bool
    /** The monitors which are running, by their own flags, and those between two regions of a
        start(), of addMonitor(), or of a stop(). */
    var running: set<nat>
    var joining: set<nat>
    var greeting: set<nat>
    var leaving: set<nat>
    ghost var ever: bool
    ghost var want: set<nat>
    ghost var got: set<nat>
    ghost var posted: set<nat>
    ghost var lost: set<nat>

    ghost function Abs(): GroupSpec.Group
      reads this
    {
      GroupSpec.Group(members, interested, interested_add, interested_remove, greeting, interested_iterating,
                      initial_waits, enabled, ever, want, got, posted, lost)
    }

    ghost function Calls(): (set<nat>, set<nat>, set<nat>)
      reads this
    {
      (running, joining, leaving)
    }

    /** A monitor which is neither running nor about to be removed is not added. */
    ghost predicate Serialised()
      reads this
    {
      && want <= running + leaving && joining <= running && joining !! want
      && greeting <= want && greeting !! leaving && joining !! leaving
    }

    constructor (hasValue: seq<bool>)
      ensures Abs() == Initial(hasValue) && running == {} && joining == {} && leaving == {}
    {
      members := seq(|hasValue|, i requires 0 <= i < |hasValue| => Member(hasValue[i], false, false));
      interested, interested_add, interested_remove := {}, {}, {};
      interested_iterating, initial_waits, enabled := false, 0, false;
      running, joining, greeting, leaving := {}, {}, {}, {};
      ever, want, got, posted, lost := false, {}, {}, {}, {};
    }

    /** Start the subscriptions of all members, and count the first events to wait for. */
    method StartSubscriptions() returns (ievts: nat)
      modifies this`members
      ensures members == ResetAll(old(members))
      ensures ievts == Unseen(members)
    {
      ghost var was := members;
      ievts := 0;
      var i := 0;
      while i < |members|
        invariant 0 <= i <= |members| == |was|
        invariant forall k :: 0 <= k < i ==> members[k] == Reset(was[k])
        invariant forall k :: i <= k < |was| ==> members[k] == was[k]
        invariant ievts == Unseen(members[..i])
      {
        var info := members[i];
        if info.hasValue {
          ievts := ievts + 1;
          info := info.(sawValue := false);
        } else {
          info := info.(sawValue := true);
        }
        ievts := ievts + 1;
        info := info.(sawProperty := false);
        ghost var done := members[..i];
        members := members[i := info];
        i := i + 1;
        assert members[..i][..i - 1] == done;
      }
      assert members[..i] == members;
    }

    /** With the first subscriber, database events are enabled and awaited. */
    method FirstMonitor()
      modifies this
      ensures Calls() == old(Calls())
      ensures var was := old(Abs());
              Abs() == was.(enabled := true, ever := true, members := ResetAll(was.members),
                            waits := Unseen(ResetAll(was.members)))
    {
      initial_waits := StartSubscriptions();
      enabled := true;
      ever := true;
    }

    /** addMonitor(): if it posts to the new subscriber, this is its part before the lock is
        dropped, and Insert() the part after. */
    method AddMonitor(mon: nat) returns (post: bool)
      requires mon !in greeting
      modifies this
      ensures post <==> PostsAtOnce(old(Abs()))
      ensures Abs() == if post then Greeted(old(Abs()), mon) else Added(old(Abs()), mon)
      ensures Calls() == old(Calls())
    {
      post := false;
      if interested == {} && interested_add == {} {
        FirstMonitor();
      } else if initial_waits == 0 {
        post := true;
      }
      want := want + {mon};
      got := if post then got + {mon} else got - {mon};
      if post {
        greeting := greeting + {mon};
      } else {
        Insert(mon);
      }
    }

    method Insert(mon: nat)
      modifies this
      ensures Abs() == Entered(old(Abs()), mon) && Calls() == old(Calls())
    {
      greeting := greeting - {mon};
      if interested_iterating {
        interested_add := interested_add + {mon};
      } else {
        interested := interested + {mon};
      }
    }

    method RemoveMonitor(mon: nat)
      modifies this
      ensures Abs() == Removed(old(Abs()), mon) && Calls() == old(Calls())
    {
      if mon in interested_add {
        interested_add := interested_add - {mon};
      } else if interested_iterating {
        interested_remove := interested_remove + {mon};
      } else {
        interested := interested - {mon};
        FinalizeMonitor();
      }
      want := want - {mon};
      lost := lost - {mon};
    }

    method FinalizeMonitor()
      requires !interested_iterating
      modifies this
      ensures Abs() == Finalize(old(Abs())) && Calls() == old(Calls())
    {
      if interested != {} { return; }
      enabled := false;
    }

    /** The part of an event which is counted, and checked by assertions. */
    method Mark(i: nat, property: bool)
      requires i < |members| && (First(Abs(), i, property) ==> 0 < initial_waits)
      modifies this
      ensures Abs() == Marked(old(Abs()), i, property) && Calls() == old(Calls())
    {
      if !property {
        if !members[i].sawValue {
          members := members[i := members[i].(sawValue := true)];
          assert initial_waits > 0;
          initial_waits := initial_waits - 1;
        } else {
          assert members[i := members[i].(sawValue := true)] == members;
        }
      } else {
        if !members[i].sawProperty {
          members := members[i := members[i].(sawProperty := true)];
          assert initial_waits > 0;
          initial_waits := initial_waits - 1;
        } else {
          assert members[i := members[i].(sawProperty := true)] == members;
        }
      }
    }

    /** addMonitor() after a start(), and what is left of it. */
    method AddRequest(call: Call) returns (ghost ops: seq<Op>)
      requires Serialised() && LockFree(Abs()) && (call.AddCall? || call.EnterCall?)
      modifies this
      ensures Serialised() && ops == Asked(call, old(joining), old(greeting), old(leaving), old(Abs()))
      ensures ops == [] ==> Abs() == old(Abs())
      ensures ops != [] ==> Enabled(old(Abs()), ops[0]) && Abs() == Step(old(Abs()), ops[0])
    {
      ops := [];
      var mon := call.mon;
      if call.AddCall? && mon in joining {
        joining := joining - {mon};
        var post := AddMonitor(mon);
        ops := [if post then Greet(mon) else Add(mon)];
      }
      if call.EnterCall? && mon in greeting {
        ops := [Enter(mon)];
        Insert(mon);
      }
    }

    /** One region of a start() or stop().  The running flag decides whether a call takes
        effect; calls on one monitor do not overlap.  A start which finds no free element does
        not reach the group, and the stop after it removes what was never added. */
    method Request(call: Call) returns (ghost ops: seq<Op>)
      requires Serialised() && LockFree(Abs())
      modifies this
      ensures Serialised() && ops == Asked(call, old(joining), old(greeting), old(leaving), old(Abs()))
      ensures ops == [] ==> Abs() == old(Abs())
      ensures ops != [] ==> Enabled(old(Abs()), ops[0]) && Abs() == Step(old(Abs()), ops[0])
    {
      ops := [];
      var mon := call.mon;
      match call {
        case StartCall(_, element) =>
          if mon !in running && mon !in leaving {
            running := running + {mon};
            if element { joining := joining + {mon}; }
          }
        case AddCall(_) | EnterCall(_) =>
          ops := AddRequest(call);
        case StopCall(_) =>
          if mon in running && mon !in joining && mon !in greeting {
            running := running - {mon};
            leaving := leaving + {mon};
          }
        case RemoveCall(_) =>
          if mon in leaving {
            leaving := leaving - {mon};
            ops := [Remove(mon)];
            RemoveMonitor(mon);
          }
      }
    }

    /** The group has come by the run `trace`, which posts to each of `to` once. */
    ghost predicate Traced(start: GroupSpec.Group, trace: seq<Op>, to: set<nat>)
      reads this
    {
      && Serialised()
      && IsRun(start, trace) && Abs() == Run(start, trace)
      && Posts(trace) == to && CountPosts(trace) == |to|
    }

    /** What other threads ask for while a post has dropped the lock. */
    method Serve(calls: seq<Call>, ghost start: GroupSpec.Group, ghost before: seq<Op>, ghost to: set<nat>)
      returns (ghost trace: seq<Op>)
      requires Traced(start, before, to) && interested_iterating && posted != {}
      modifies this
      ensures Traced(start, trace, to)
      ensures interested == old(interested) && interested_iterating && posted == old(posted)
    {
      trace := before;
      for k := 0 to |calls|
        invariant Traced(start, trace, to)
        invariant interested == old(interested) && interested_iterating && posted == old(posted)
      {
        var ops := Request(calls[k]);
        if ops != [] {
          TraceOn(start, trace, ops[0]);
          trace := trace + [ops[0]];
        }
      }
    }

    method TakeIn()
      modifies this`interested, this`interested_add
      ensures interested == old(interested + interested_add) && interested_add == {}
    {
      while interested_add != {}
        invariant interested + interested_add == old(interested + interested_add)
        decreases interested_add
      {
        var first :| first in interested_add;
        interested := interested + {first};
        interested_add := interested_add - {first};
      }
    }

    /** Once every subscriber was posted to, the requests made meanwhile take effect. */
    method Finish()
      requires interested_iterating
      modifies this
      ensures Abs() == Finished(old(Abs())) && Calls() == old(Calls())
    {
      lost := lost + interested_add * interested_remove;
      TakeIn();
      interested := interested - interested_remove;
      interested_remove := {};
      interested_iterating := false;
      FinalizeMonitor();
    }

    /** One post, which drops the lock for other threads. */
    method PostTo(mon: nat, calls: seq<Call>, ghost start: GroupSpec.Group, ghost before: seq<Op>)
      returns (ghost trace: seq<Op>)
      requires Traced(start, before, posted) && interested_iterating && mon in interested - posted
      modifies this
      ensures Traced(start, trace, posted)
      ensures interested == old(interested) && interested_iterating && posted == old(posted) + {mon}
    {
      TraceOn(start, before, Post(mon));
      posted, got := posted + {mon}, got + {mon};
      trace := Serve(calls, start, before + [Post(mon)], posted);
    }

    /** pdb_group_event(), while other threads make calls: those in `others[k]` during the k-th
        post.  Whatever they ask for, each of those which were subscribed when the event came
        in is posted to exactly once, and then the requests take effect. */
    method Event(i: nat, property: bool, others: seq<seq<Call>>) returns (ghost trace: seq<Op>)
      requires Enabled(Abs(), GroupSpec.Event(i, property)) && AssertHolds(Abs(), GroupSpec.Event(i, property))
      requires Serialised()
      modifies this
      ensures Serialised() && IsRun(old(Abs()), trace) && Abs() == Run(old(Abs()), trace) && !interested_iterating
      ensures var awaited := Marked(old(Abs()), i, property).waits != 0;
              Posts(trace) == (if awaited then {} else old(interested)) && CountPosts(trace) == |Posts(trace)|
    {
      ghost var start := Abs();
      TraceOn(start, [], GroupSpec.Event(i, property));
      trace := [GroupSpec.Event(i, property)];
      assert [] + trace == trace;
      Mark(i, property);
      if initial_waits == 0 {
        interested_iterating := true;
        posted := {};
        trace := FanOut(others, start, trace);
      }
    }

    method FanOut(others: seq<seq<Call>>, ghost start: GroupSpec.Group, ghost before: seq<Op>)
      returns (ghost trace: seq<Op>)
      requires interested_iterating && posted == {} && Traced(start, before, {})
      modifies this
      ensures Traced(start, trace, old(interested)) && !interested_iterating
    {
      trace := PostAll(others, start, before);
      TraceOn(start, trace, GroupSpec.Finish);
      trace := trace + [GroupSpec.Finish];
      Finish();
    }

    method PostAll(others: seq<seq<Call>>, ghost start: GroupSpec.Group, ghost before: seq<Op>)
      returns (ghost trace: seq<Op>)
      requires interested_iterating && posted == {} && Traced(start, before, {})
      modifies this
      ensures interested_iterating && interested == old(interested) == posted && Traced(start, trace, posted)
    {
      trace := before;
      var todo := interested;
      var k := 0;
      while todo != {}
        invariant todo <= interested == old(interested) && interested_iterating && posted == interested - todo
        invariant Traced(start, trace, posted)
        decreases todo
      {
        var mon :| mon in todo;
        trace := PostTo(mon, if k < |others| then others[k] else [], start, trace);
        todo := todo - {mon};
        k := k + 1;
      }
    }
  }

  lemma TraceOn(start: GroupSpec.Group, trace: seq<Op>, op: Op)
    requires IsRun(start, trace) && Enabled(Run(start, trace), op)
    ensures IsRun(start, trace + [op]) && Run(start, trace + [op]) == Step(Run(start, trace), op)
    ensures Posts(trace + [op]) == Posts(trace) + if op.Post? then {op.mon} else {}
    ensures CountPosts(trace + [op]) == CountPosts(trace) + if op.Post? then 1 else 0
  {
    RunSnoc(start, trace, op);
    PostsSnoc(trace, op);
  }

  /** The monitors posted to in a run, and the number of posts. */
  ghost function Posts(ops: seq<Op>): set<nat> {
    set op | op in ops && op.Post? :: op.mon
  }

  ghost function CountPosts(ops: seq<Op>): nat {
    if ops == [] then 0 else CountPosts(ops[..|ops| - 1]) + if ops[|ops| - 1].Post? then 1 else 0
  }

  lemma PostsSnoc(ops: seq<Op>, op: Op)
    ensures Posts(ops + [op]) == Posts(ops) + if op.Post? then {op.mon} else {}
    ensures CountPosts(ops + [op]) == CountPosts(ops) + if op.Post? then 1 else 0
  {
    assert (ops + [op])[..|ops|] == ops;
    assert forall o :: o in ops + [op] <==> o in ops || o == op;
  }
}
