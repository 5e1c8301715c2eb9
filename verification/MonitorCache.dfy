/** The gateway's monitor cache: elements shared by reference between the queues of a user
    and its client, and users fed from one upstream subscription.
 */
module MonitorCache {
  import opened MonitorElements
  import opened PvData
  import Spec = MonitorUserSpec
  import Runs = GatewayRuns

  ghost function Polled(s: set<MonitorElement>): (m: map<MonitorElement, Delta>)
    reads s
  {
    map e | e in s :: e.Contents()
  }

  /** The elements of a user, each in exactly one place. */
  ghost predicate Placed(elements: set<MonitorElement>, filled: seq<MonitorElement>, empty: seq<MonitorElement>,
                         inuse: set<MonitorElement>, over: MonitorElement) {
    && (forall i :: 0 <= i < |filled| ==> filled[i] in elements && filled[i] !in inuse && filled[i] != over)
    && (forall i :: 0 <= i < |empty| ==> empty[i] in elements && empty[i] !in inuse && empty[i] != over)
    && (forall i, j :: 0 <= i < j < |filled| ==> filled[i] != filled[j])
    && (forall i, j :: 0 <= i < j < |empty| ==> empty[i] != empty[j])
    && (forall i, j :: 0 <= i < |filled| && 0 <= j < |empty| ==> filled[i] != empty[j])
    && inuse <= elements
    && over in elements - inuse
    && |filled| + |empty| + |inuse| + 1 == |elements|
  }

  lemma PlacedSwap(elements: set<MonitorElement>, filled: seq<MonitorElement>, empty: seq<MonitorElement>,
                   inuse: set<MonitorElement>, over: MonitorElement, e: MonitorElement)
    requires Placed(elements, filled, empty, inuse, over) && e in inuse
    ensures Placed(elements, filled + [over], empty, inuse - {e}, e)
  {}

  lemma {:induction false} DistinctCount(q: seq<MonitorElement>)
    requires forall i, j :: 0 <= i < j < |q| ==> q[i] != q[j]
    ensures |set e | e in q| == |q|
  {
    if q != [] {
      DistinctCount(q[1..]);
      assert q == [q[0]] + q[1..];
      assert (set e | e in q) == {q[0]} + set e | e in q[1..];
      assert q[0] !in q[1..];
    }
  }

  lemma SubsetOfSameSize(a: set<MonitorElement>, b: set<MonitorElement>)
    requires a <= b && |a| == |b|
    ensures a == b
  {
    assert |b - a| == |b| - |a|;
  }

  lemma DisjointCount(a: set<MonitorElement>, b: set<MonitorElement>)
    requires a * b == {}
    ensures |a + b| == |a| + |b|
  {}

  /** A user's elements are exactly its filled, its free and its polled ones, and one more. */
  lemma PlacesPartition(elements: set<MonitorElement>, filled: seq<MonitorElement>, empty: seq<MonitorElement>,
                        inuse: set<MonitorElement>, over: MonitorElement)
    requires Placed(elements, filled, empty, inuse, over)
    ensures var f, m := set e | e in filled, set e | e in empty;
            && elements == f + m + inuse + {over}
            && f * m == {} && (f + m) * inuse == {} && over !in f + m + inuse
            && |f| == |filled| && |m| == |empty|
  {
    var f, m := set e | e in filled, set e | e in empty;
    DistinctCount(filled);
    DistinctCount(empty);
    assert f * m == {} && (f + m) * inuse == {} && over !in f + m + inuse;
    DisjointCount(f, m);
    DisjointCount(f + m, inuse);
    DisjointCount(f + m + inuse, {over});
    SubsetOfSameSize(f + m + inuse + {over}, elements);
  }

  method MakeElements(next: Extents, n: nat)
    returns (over: MonitorElement, made: seq<MonitorElement>, ghost all: set<MonitorElement>)
    ensures fresh(all) && |all| == n + 1 && |made| == n && Placed(all, [], made, {}, over)
    ensures over.Contents() == Delta(Blank(next), {}, {})
    ensures forall i :: 0 <= i < n ==> made[i].changed == {}
  {
    over := new MonitorElement(next);
    made, all := [], {over};
    while |made| < n
      invariant |made| <= n && |all| == |made| + 1 && fresh(all)
      invariant Placed(all, [], made, {}, over)
      invariant over.Contents() == Delta(Blank(next), {}, {})
      invariant forall i :: 0 <= i < |made| ==> made[i].changed == {}
    {
      var e := new MonitorElement(next);
      made, all := made + [e], all + {e};
    }
  }

  /** A user as an observer of the heap sees it: its elements, those its client holds, and
      its abstract state. */
  datatype Seen = Seen(elements: set<MonitorElement>, inuse: set<MonitorElement>, abs: Spec.User<MonitorElement>)

  /** One downstream subscription.  An element of a started user is in exactly one place:
      waiting in `filled`, free in `empty`, held by the client, or accumulating overflow. */
  class MonitorUser {
    const next: Extents
    const bufferSize: nat
    var initial: bool
    var running: bool
    var inoverflow: bool
    var filled: seq<MonitorElement>
    var empty: seq<MonitorElement>
    var inuse: set<MonitorElement>
    var overflowElement: MonitorElement?
    ghost var elements: set<MonitorElement>
    ghost var view: Value
    ghost var episode: seq<Delta>

    ghost predicate Valid()
      reads this
    {
      if overflowElement == null then
        initial && filled == [] && empty == [] && inuse == {} && elements == {}
      else
        && !initial
        && |elements| == bufferSize + 1
        && Placed(elements, filled, empty, inuse, overflowElement)
    }

    ghost function Look(): Seen
      reads this, filled, inuse, {overflowElement}
    {
      Seen(elements, inuse, Abs())
    }

    ghost function Abs(): Spec.User<MonitorElement>
      reads this, filled, inuse, {overflowElement}
    {
      Spec.User(initial, running, inoverflow, Deltas(filled), |empty|, Polled(inuse),
                if overflowElement == null then Delta([], {}, {}) else overflowElement.Contents(),
                view, episode)
    }

    constructor (next: Extents, bufferSize: nat)
      ensures Valid() && this.next == next && this.bufferSize == bufferSize
      ensures elements == {} && Abs() == Spec.Fresh(next)
    {
      this.next, this.bufferSize := next, bufferSize;
      initial, running, inoverflow := true, false, false;
      filled, empty, inuse, overflowElement := [], [], {}, null;
      elements, view, episode := {}, Blank(next), [];
    }

    /** The update is added to the overflow element. */
    method Overflow(last: MonitorElement)
      requires Valid() && last !in elements && overflowElement != null
      modifies this, overflowElement
      ensures Valid() && elements == old(elements) && filled == old(filled) && inuse == old(inuse)
      ensures Abs() == old(Abs()).(inoverflow := true, over := Spec.Squash(next, old(Abs().over), last.Contents()),
                                   episode := old(episode) + [last.Contents()])
    {
      ghost var was := Abs();
      inoverflow := true;
      overflowElement.overrun := overflowElement.overrun + last.overrun;
      overflowElement.overrun := overflowElement.overrun + overflowElement.changed * last.changed;
      overflowElement.changed := overflowElement.changed + last.changed;
      overflowElement.value := Copy(next, overflowElement.value, last.value, last.changed);
      episode := episode + [last.Contents()];
      assert Deltas(filled) == was.filled;
      assert Polled(inuse) == was.out;
    }

    /** The update is queued in a free element. */
    method Enqueue(last: MonitorElement)
      requires Valid() && last !in elements && empty != []
      modifies this, empty[0]
      ensures Valid() && elements == old(elements) && filled == old(filled) + [old(empty[0])] && inuse == old(inuse)
      ensures Abs() == old(Abs()).(filled := old(Abs().filled) + [last.Contents()], free := old(|empty|) - 1)
    {
      ghost var was := Abs();
      var elem := empty[0];
      elem.overrun := last.overrun;
      elem.changed := last.changed;
      elem.value := last.value;
      filled := filled + [elem];
      empty := empty[1..];
      assert Deltas(filled) == was.filled + [last.Contents()];
      assert Polled(inuse) == was.out;
    }

    /** The part of monitorEvent() which treats one user and one update.  The elements which
        the client holds are not in its frame. */
    method Update(last: MonitorElement) returns (notify: bool)
      requires Valid() && last !in elements && Spec.AssertHolds(Abs())
      modifies this, elements - inuse
      ensures Valid() && elements == old(elements) && inuse == old(inuse)
      ensures Abs() == Spec.Update(next, old(Abs()), last.Contents())
      ensures notify <==> old(filled) == [] && filled != []
    {
      if initial {
        return false;
      }
      if !running || |empty| == 0 {
        Overflow(last);
        return false;
      }
      assert !inoverflow;
      notify := |filled| == 0;
      Enqueue(last);
    }

    method Poll() returns (e: MonitorElement?)
      requires Valid()
      modifies this
      ensures Valid() && elements == old(elements)
      ensures old(filled) == [] ==> e == null && Abs() == old(Abs())
      ensures old(filled) != [] ==>
                e == old(filled[0]) && e !in old(inuse) && Abs() == Spec.Poll(next, old(Abs()), e)
    {
      e := null;
      if |filled| != 0 {
        ghost var was := Abs();
        e := filled[0];
        inuse := inuse + {e};
        filled := filled[1..];
        view := Copy(next, view, e.value, e.changed);
        assert Deltas(filled) == was.filled[1..];
        assert Polled(inuse) == was.out[e := e.Contents()];
      }
    }

    /** The overflow element is queued, and the returned one takes its place. */
    method SwapOverflow(e: MonitorElement)
      requires Valid() && e in inuse
      modifies this
      ensures Valid() && elements == old(elements) && overflowElement == e
      ensures Abs() == old(Abs()).(
                         out := old(Abs().out) - {e}, filled := old(Abs().filled) + [old(Abs().over)],
                         over := e.Contents(), inoverflow := false, episode := [])
    {
      ghost var was := Abs();
      PlacedSwap(elements, filled, empty, inuse, overflowElement, e);
      inuse := inuse - {e};
      filled := filled + [overflowElement];
      overflowElement := e;
      inoverflow := false;
      episode := [];
      assert Deltas(filled) == was.filled + [was.over];
      assert Polled(inuse) == was.out - {e};
    }

    method ClearOverflow()
      requires Valid() && overflowElement != null
      modifies overflowElement
      ensures Valid()
      ensures Abs() == old(Abs()).(over := Delta(old(overflowElement.value), {}, {}))
    {
      ghost var was := Abs();
      overflowElement.changed := {};
      overflowElement.overrun := {};
      assert Deltas(filled) == was.filled;
      assert Polled(inuse) == was.out;
    }

    /** Gives false, where the program throws, for an element which the client does not hold. */
    method Release(e: MonitorElement) returns (ok: bool)
      requires Valid()
      modifies this, {e} * inuse
      ensures Valid() && elements == old(elements)
      ensures ok <==> e in old(inuse)
      ensures Abs() == Spec.Release(old(Abs()), e)
    {
      ok := e in inuse;
      if !ok {
        assert e !in Abs().out;
      } else if inoverflow {
        SwapOverflow(e);
        ClearOverflow();
      } else {
        ghost var was := Abs();
        inuse := inuse - {e};
        empty := empty + [e];
        assert Polled(inuse) == was.out - {e};
      }
    }

    /** On the first start the elements are made: `bufferSize` free ones, and one more. */
    method Allocate()
      requires Valid() && initial
      modifies this
      ensures Valid() && fresh(elements) && running == old(running)
      ensures Abs() == old(Abs()).(initial := false, free := bufferSize, over := Delta(Blank(next), {}, {}))
      ensures forall e :: e in empty ==> e.changed == {}
    {
      ghost var was := Abs();
      var over, made, all := MakeElements(next, bufferSize);
      initial, empty, overflowElement, elements := false, made, over, all;
      assert Deltas(filled) == was.filled && Polled(inuse) == was.out;
    }

    /** `lval` is the upstream's last element, if any update was received. */
    method Start(lval: MonitorElement?) returns (notify: bool)
      requires Valid() && (lval == null || lval !in elements)
      modifies this, if empty == [] then {} else {empty[0]}
      ensures Valid() && fresh(elements - old(elements))
      ensures Abs() == Spec.Start(next, old(Abs()), bufferSize, lval != null,
                                  if lval != null then lval.value else [],
                                  if old(empty) == [] then {} else old(empty[0].changed))
      ensures notify <==> old(filled) == [] && filled != []
    {
      if initial {
        Allocate();
      }
      notify := |filled| == 0;
      if lval != null && |empty| != 0 {
        InitialElement(lval);
      }
      notify := notify && |filled| != 0;
      running := true;
    }

    method InitialElement(lval: MonitorElement)
      requires Valid() && lval !in elements && empty != []
      modifies this, empty[0]
      ensures Valid() && elements == old(elements) && filled == old(filled) + [old(empty[0])]
      ensures Abs() == old(Abs()).(filled := old(Abs().filled) + [Delta(lval.value, old(empty[0].changed) + {0}, {})],
                                   free := old(|empty|) - 1)
    {
      ghost var was := Abs();
      var elem := empty[0];
      elem.value := lval.value;
      elem.changed := elem.changed + {0};
      elem.overrun := {};
      filled := filled + [elem];
      empty := empty[1..];
      assert Deltas(filled) == was.filled + [elem.Contents()];
      assert Polled(inuse) == was.out;
    }

    method Stop()
      requires Valid()
      modifies this
      ensures Valid() && elements == old(elements)
      ensures Abs() == Spec.Stop(old(Abs()))
    {
      running := false;
    }
  }

  /** One upstream subscription, and the users which share it. */
  class MonitorCacheEntry {
    const next: Extents
    const bufferSize: nat
    var havedata: bool
    var startresult: bool
    var lastelem: MonitorElement
    var interested: set<MonitorUser>

    /** Users share no element with each other, nor with the entry. */
    ghost predicate Valid()
      reads this, interested
    {
      && (forall u :: u in interested ==>
            u.Valid() && lastelem !in u.elements && u.next == next && u.bufferSize == bufferSize)
      && (forall u, w, e :: u in interested && w in interested && u != w && e in u.elements ==> e !in w.elements)
    }

    /** What the entry's monitorConnect() leaves: no user yet, no data yet. */
    constructor (next: Extents, bufferSize: nat)
      ensures Valid() && interested == {} && !havedata && startresult
      ensures this.next == next && this.bufferSize == bufferSize && lastelem.value == Blank(next)
    {
      this.next, this.bufferSize := next, bufferSize;
      lastelem := new MonitorElement(next);
      havedata, startresult, interested := false, true, {};
    }

    /** A new downstream subscription: it receives nothing before it is started. */
    method CreateMonitor() returns (u: MonitorUser)
      requires Valid()
      modifies this`interested
      ensures Valid() && fresh(u) && interested == old(interested) + {u}
      ensures u.Abs() == Spec.Fresh(next) && u.elements == {}
      ensures forall w :: w in old(interested) ==> w.Look() == old(w.Look())
    {
      u := new MonitorUser(next, bufferSize);
      interested := interested + {u};
    }

    /** Start a user, unless the upstream subscription failed. */
    method StartUser(u: MonitorUser) returns (ok: bool, notify: bool)
      requires Valid() && u in interested
      modifies u, if u.empty == [] then {} else {u.empty[0]}
      ensures Valid() && ok == startresult && fresh(u.elements - old(u.elements))
      ensures !ok ==> u.Abs() == old(u.Abs()) && !notify
      ensures ok ==> u.Abs() == Spec.Start(next, old(u.Abs()), bufferSize, havedata, lastelem.value,
                                           if old(u.empty) == [] then {} else old(u.empty[0].changed))
      ensures ok ==> (notify <==> old(u.filled) == [] && u.filled != [])
      ensures forall w :: w in interested && w != u ==> w.Look() == old(w.Look())
    {
      if !startresult {
        return false, false;
      }
      ok := true;
      if havedata {
        notify := u.Start(lastelem);
      } else {
        notify := u.Start(null);
      }
    }

    /** poll(), release() and stop() of one user do not reach any other. */
    method PollUser(u: MonitorUser) returns (e: MonitorElement?)
      requires Valid() && u in interested
      modifies u
      ensures Valid() && u.elements == old(u.elements)
      ensures e == if old(u.filled) == [] then null else old(u.filled[0])
      ensures e != null ==> e !in old(u.inuse)
      ensures u.Abs() == Spec.Poll(next, old(u.Abs()), if e == null then lastelem else e)
      ensures forall w :: w in interested && w != u ==> w.Look() == old(w.Look())
    {
      e := u.Poll();
    }

    method ReleaseUser(u: MonitorUser, e: MonitorElement) returns (ok: bool)
      requires Valid() && u in interested
      modifies u, {e} * u.inuse
      ensures Valid() && u.elements == old(u.elements)
      ensures ok <==> e in old(u.inuse)
      ensures u.Abs() == Spec.Release(old(u.Abs()), e)
      ensures forall w :: w in interested && w != u ==> w.Look() == old(w.Look())
    {
      ok := u.Release(e);
    }

    method StopUser(u: MonitorUser)
      requires Valid() && u in interested
      modifies u
      ensures Valid() && u.elements == old(u.elements)
      ensures u.Abs() == Spec.Stop(old(u.Abs()))
      ensures forall w :: w in interested && w != u ==> w.Look() == old(w.Look())
    {
      u.Stop();
    }

    /** What an event may write: nothing that a client holds. */
    ghost function Writable(): set<MonitorElement>
      reads this, interested
    {
      set u, e | u in interested && e in u.elements - u.inuse :: e
    }

    /** The update in `lastelem`, for one user; no other user is affected. */
    method DeliverTo(u: MonitorUser) returns (notify: bool)
      requires Valid() && u in interested && Spec.AssertHolds(u.Abs())
      modifies u, u.elements - u.inuse
      ensures Valid()
      ensures u.Look() == old(u.Look()).(abs := Spec.Update(next, old(u.Abs()), lastelem.Contents()))
      ensures forall w :: w in interested && w != u ==> w.Look() == old(w.Look())
      ensures notify <==> old(u.Look()).abs.filled == [] && u.Look().abs.filled != []
    {
      notify := u.Update(lastelem);
    }

    /** An update has been delivered to all users but those in `todo`. */
    ghost predicate Delivered(pre: map<MonitorUser, Seen>, todo: set<MonitorUser>, d: Delta)
      reads this, interested, set u, e | u in interested && e in u.elements :: e
      requires Valid()
    {
      forall u :: u in interested ==>
        u in pre && u.Look() == if u in todo then pre[u] else pre[u].(abs := Spec.Update(next, pre[u].abs, d))
    }

    /** One turn of the loop over users. */
    method DeliverNext(u: MonitorUser, ghost pre: map<MonitorUser, Seen>, ghost todo: set<MonitorUser>)
      returns (notify: bool)
      requires Valid() && u in todo && todo <= interested && Delivered(pre, todo, lastelem.Contents())
      requires Spec.AssertHolds(pre[u].abs)
      modifies u, u.elements - u.inuse
      ensures Valid() && Delivered(pre, todo - {u}, lastelem.Contents())
      ensures lastelem.Contents() == old(lastelem.Contents())
      ensures notify <==> Woken(pre[u], u.Look())
      ensures forall w :: w in interested && w != u ==> w.Look() == old(w.Look())
    {
      notify := DeliverTo(u);
    }

    /** The update in `lastelem`, for every user. */
    method DeliverToAll(ghost pre: map<MonitorUser, Seen>, ghost frame: set<MonitorElement>)
      returns (notify: set<MonitorUser>)
      requires Valid()
      requires forall u :: u in interested ==>
                 && u in pre && u.Look() == pre[u] && Spec.AssertHolds(pre[u].abs)
                 && pre[u].elements - pre[u].inuse <= frame
      modifies interested, frame
      ensures Valid() && lastelem.Contents() == old(lastelem.Contents())
      ensures forall u :: u in interested ==>
                u.Look() == pre[u].(abs := Spec.Update(next, pre[u].abs, lastelem.Contents()))
      ensures notify <= interested
      ensures forall u :: u in interested ==> (u in notify <==> Woken(pre[u], u.Look()))
    {
      notify := {};
      var todo := interested;
      while todo != {}
        invariant todo <= interested && Valid() && lastelem.Contents() == old(lastelem.Contents())
        invariant notify <= interested && Delivered(pre, todo, lastelem.Contents())
        invariant forall u :: u in interested ==> (u in notify <==> u !in todo && Woken(pre[u], u.Look()))
        decreases todo
      {
        var u :| u in todo;
        var n := DeliverNext(u, pre, todo);
        if n { notify := notify + {u}; }
        todo := todo - {u};
      }
    }

    /** Add an update to the complete upstream value, with the masks of this update alone. */
    method Accumulate(update: Delta)
      requires Valid()
      modifies lastelem
      ensures Valid() && lastelem.Contents() == Runs.Accumulated(next, old(lastelem.value), update)
      ensures lastelem.changed == update.changed && lastelem.overrun == update.overrun
      ensures forall u :: u in interested ==> u.Look() == old(u.Look())
    {
      lastelem.value := Copy(next, lastelem.value, update.value, update.changed);
      lastelem.changed := update.changed;
      lastelem.overrun := update.overrun;
    }

    /** One update: added to the complete value, and delivered to every user. */
    method PassOn(update: Delta, ghost cur: map<MonitorUser, Seen>, ghost frame: set<MonitorElement>)
      returns (notify: set<MonitorUser>)
      requires Valid()
      requires forall u :: u in interested ==>
                 && u in cur && u.Look() == cur[u] && Spec.AssertHolds(cur[u].abs)
                 && cur[u].elements - cur[u].inuse <= frame
      modifies lastelem, interested, frame
      ensures Valid() && lastelem.Contents() == Runs.Accumulated(next, old(lastelem.value), update)
      ensures forall u :: u in interested ==>
                u.Look() == cur[u].(abs := Spec.Update(next, cur[u].abs, lastelem.Contents()))
      ensures notify <= interested
      ensures forall u :: u in interested ==> (u in notify <==> Woken(cur[u], u.Look()))
    {
      Accumulate(update);
      notify := DeliverToAll(cur, frame);
    }

    /** The upstream queue is emptied into the queues of all started users.  The result is
        the users to notify after unlocking: those whose queue was empty and is no longer. */
    method MonitorEvent(updates: seq<Delta>, ghost pre: map<MonitorUser, Seen>) returns (dsnotify: set<MonitorUser>)
      requires Valid()
      requires forall u :: u in interested ==> u in pre && u.Look() == pre[u] && Spec.AssertHolds(pre[u].abs)
      modifies this`havedata, lastelem, interested, Writable()
      ensures Valid() && havedata && lastelem.value == Fold(next, old(lastelem.value), updates)
      ensures forall u :: u in interested ==> u.Look() == After(next, old(lastelem.value), pre[u], updates)
      ensures dsnotify <= interested
      ensures forall u :: u in interested ==> (u in dsnotify <==> Woken(pre[u], u.Look()))
    {
      havedata := true;
      dsnotify := {};
      ghost var frame := Writable();
      ghost var last := lastelem.value;
      ghost var cur: map<MonitorUser, Seen> := pre;
      var i := 0;
      while i < |updates|
        invariant 0 <= i <= |updates| && Valid() && havedata && dsnotify <= interested
        invariant lastelem.value == Fold(next, last, updates[..i])
        invariant forall u :: u in interested ==>
                    && u in cur && u.Look() == cur[u]
                    && cur[u] == After(next, last, pre[u], updates[..i])
        invariant forall u :: u in interested ==> (u in dsnotify <==> Woken(pre[u], cur[u]))
      {
        assert updates[..i] + [updates[i]] == updates[..i + 1];
        FoldSnoc(next, last, updates[..i], updates[i]);
        AfterStep(next, last, pre, updates[..i], updates[i]);
        var notify := PassOn(updates[i], cur, frame);
        dsnotify := dsnotify + notify;
        cur := Each(next, cur, lastelem.Contents());
        i := i + 1;
      }
      assert updates[..i] == updates;
    }
  }

  // ---------- One user across an event ----------

  ghost function After(next: Extents, last: Value, s: Seen, updates: seq<Delta>): Seen {
    s.(abs := Runs.UpdateUser(next, last, s.abs, updates))
  }

  ghost function Each(next: Extents, m: map<MonitorUser, Seen>, d: Delta): map<MonitorUser, Seen> {
    map u | u in m :: m[u].(abs := Spec.Update(next, m[u].abs, d))
  }

  /** The queue went from empty to not empty. */
  ghost predicate Woken(before: Seen, after: Seen) {
    before.abs.filled == [] && after.abs.filled != []
  }

  lemma AfterStep(next: Extents, last: Value, pre: map<MonitorUser, Seen>, q: seq<Delta>, upd: Delta)
    ensures forall u :: u in pre && Spec.AssertHolds(pre[u].abs) ==>
              var a, b := After(next, last, pre[u], q), After(next, last, pre[u], q + [upd]);
              && b == a.(abs := Spec.Update(next, a.abs, Runs.Accumulated(next, Fold(next, last, q), upd)))
              && Spec.AssertHolds(a.abs)
              && (Woken(pre[u], b) <==> Woken(pre[u], a) || Woken(a, b))
  {
    forall u | u in pre && Spec.AssertHolds(pre[u].abs)
      ensures
        var a, b := After(next, last, pre[u], q), After(next, last, pre[u], q + [upd]);
        && b == a.(abs := Spec.Update(next, a.abs, Runs.Accumulated(next, Fold(next, last, q), upd)))
        && Spec.AssertHolds(a.abs)
        && (Woken(pre[u], b) <==> Woken(pre[u], a) || Woken(a, b))
    {
      Runs.UpdateUserSnoc(next, last, pre[u].abs, q, upd);
      Runs.UpdateUserSafe(next, last, pre[u].abs, q);
    }
  }
}
