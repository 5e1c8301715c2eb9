/** The monitor queue of the QSRV server, over shared elements and a shared structure. */
module BaseMonitor {
  import opened MonitorElements
  import opened PvData
  import opened BaseMonitorSpec

  class PVStructure {
    var value: Value

    constructor (value: Value)
      ensures this.value == value
    {
      this.value := value;
    }
  }

  /** No element is in two places. */
  ghost predicate Apart(inuse: seq<MonitorElement>, empty: seq<MonitorElement>, out: set<MonitorElement>) {
    && (forall i, j :: 0 <= i < j < |inuse| ==> inuse[i] != inuse[j])
    && (forall i, j :: 0 <= i < j < |empty| ==> empty[i] != empty[j])
    && (forall i, j :: 0 <= i < |inuse| && 0 <= j < |empty| ==> inuse[i] != empty[j])
    && (forall i :: 0 <= i < |inuse| ==> inuse[i] !in out)
    && (forall i :: 0 <= i < |empty| ==> empty[i] !in out)
  }

  lemma ReturnKeepsApart(
      inuse: seq<MonitorElement>, empty: seq<MonitorElement>, out: set<MonitorElement>, e: MonitorElement)
    requires Apart(inuse, empty, out) && e in out
    ensures Apart(inuse, empty + [e], out - {e}) && |out - {e}| == |out| - 1
  {}

  lemma PollKeepsApart(inuse: seq<MonitorElement>, empty: seq<MonitorElement>, out: set<MonitorElement>)
    requires Apart(inuse, empty, out) && inuse != []
    ensures Apart(inuse[1..], empty, out + {inuse[0]}) && |out + {inuse[0]}| == |out| + 1
    ensures [inuse[0]] + (inuse[1..] + empty) == inuse + empty
  {}

  class Monitor {
    const next: Extents
    const nbuffers: nat
    const complete: PVStructure
    var changed: Mask
    var overflow: Mask
    var inoverflow: bool
    var running: bool
    var inuse: seq<MonitorElement>
    var empty: seq<MonitorElement>
    /** The elements which were polled and not released; the program does not keep them. */
    ghost var out: set<MonitorElement>
    ghost var h: History

    ghost predicate Valid()
      reads this
    {
      && Apart(inuse, empty, out)
      && |inuse| + |empty| + |out| == nbuffers
    }

    /** The elements which the program keeps, in the order in which they come to be used. */
    ghost function Stock(): seq<MonitorElement>
      reads this
    {
      inuse + empty
    }

    ghost function Abs(): Mon
      reads this, complete, inuse
    {
      Mon(complete.value, changed, overflow, inoverflow, running, Deltas(inuse), |empty|, |out|, h)
    }

    /** Construction, and connect() to the owner's structure. */
    constructor (next: Extents, complete: PVStructure, nbuffers: nat)
      ensures Valid() && this.next == next && this.nbuffers == nbuffers && this.complete == complete
      ensures fresh(empty) && Abs() == Connected(complete.value, nbuffers, next)
    {
      this.next, this.complete, this.nbuffers := next, complete, nbuffers;
      changed, overflow, inoverflow, running := {}, {}, false, false;
      inuse, empty, out := [], [], {};
      h := History(Blank(next), {}, 0, false, false, 0, false);
      new;
      while |empty| < nbuffers
        invariant |empty| <= nbuffers && fresh(empty)
        invariant forall i, j :: 0 <= i < j < |empty| ==> empty[i] != empty[j]
        invariant inuse == [] && out == {}
        invariant Abs() == Connected(complete.value, nbuffers, next).(free := |empty|)
      {
        var e := new MonitorElement(next);
        empty := empty + [e];
      }
    }

    /** p_postone(): whether the queue was empty before. */
    method PostOne() returns (notify: bool)
      requires Valid() && empty != []
      modifies this, empty[0]
      ensures Valid() && out == old(out) && Stock() == old(Stock())
      ensures Abs() == BaseMonitorSpec.PostOne(old(Abs())).(inoverflow := old(inoverflow))
      ensures notify <==> old(inuse) == []
    {
      ghost var was := Abs();
      ghost var after := BaseMonitorSpec.PostOne(was).h;
      var elem := empty[0];
      elem.value := complete.value;
      elem.changed := changed;
      elem.overrun := overflow;
      overflow := {};
      changed := {};
      notify := |inuse| == 0;
      inuse := inuse + [elem];
      empty := empty[1..];
      h := after;
      assert Deltas(inuse) == was.filled + [elem.Contents()];
    }

    /** post() of what is pending. */
    method PostPending() returns (posted: bool, notify: bool)
      requires Valid()
      modifies this, if empty == [] then {} else {empty[0]}
      ensures Valid() && out == old(out) && Stock() == old(Stock())
      ensures Abs() == Pending(old(Abs()))
      ensures posted <==> running && old(empty) != []
      ensures notify <==> posted && old(inuse) == []
    {
      posted, notify := false, false;
      if !running { return; }
      if |empty| == 0 {
        inoverflow := true;
      } else {
        notify := PostOne();
        inoverflow := false;
        posted := true;
      }
    }

    method PostMask(updated: Mask) returns (posted: bool, notify: bool)
      requires Valid()
      modifies this, if empty == [] then {} else {empty[0]}
      ensures Valid() && out == old(out) && Stock() == old(Stock())
      ensures Abs() == Masked(old(Abs()), updated, {})
      ensures running && old(empty) == [] ==> overflow == old(overflow) + updated * old(changed)
      ensures posted <==> running && old(empty) != []
      ensures notify <==> posted && old(inuse) == []
    {
      posted, notify := false, false;
      h := h.(owed := h.owed - updated);
      if !running { return; }
      if |empty| == 0 {
        inoverflow := true;
        overflow := overflow + updated * changed;
        changed := changed + updated;
        assert overflow == old(overflow) + {} + updated * old(changed);
      } else {
        changed := changed + updated;
        notify := PostOne();
        inoverflow := false;
        posted := true;
      }
    }

    method PostMasks(updated: Mask, overflowed: Mask) returns (posted: bool, notify: bool)
      requires Valid()
      modifies this, if empty == [] then {} else {empty[0]}
      ensures Valid() && out == old(out) && Stock() == old(Stock())
      ensures Abs() == Masked(old(Abs()), updated, overflowed)
      ensures running && old(empty) == [] ==> overflow == old(overflow) + overflowed + updated * old(changed)
      ensures posted <==> running && old(empty) != []
      ensures notify <==> posted && old(inuse) == []
    {
      posted, notify := false, false;
      h := h.(owed := h.owed - updated);
      if !running { return; }
      if |empty| == 0 {
        inoverflow := true;
        overflow := overflow + overflowed;
        overflow := overflow + updated * changed;
        changed := changed + updated;
      } else {
        changed := changed + updated;
        notify := PostOne();
        inoverflow := false;
        posted := true;
      }
    }

    method PostNoOverflow(updated: Mask) returns (posted: bool, notify: bool)
      requires Valid()
      modifies this, if empty == [] then {} else {empty[0]}
      ensures Valid() && out == old(out) && Stock() == old(Stock())
      ensures Abs() == NoOverflow(old(Abs()), updated)
      ensures posted <==> running && old(empty) != []
      ensures notify <==> posted && old(inuse) == []
    {
      posted, notify := false, false;
      h := h.(owed := h.owed - updated);
      if !running { return; }
      changed := changed + updated;
      if |empty| == 0 {
        h := h.(refused := true);
        return;
      }
      notify := PostOne();
      inoverflow := false;
      posted := true;
    }

    /** Whether onStart() is called after unlocking. */
    method Start() returns (notify: bool)
      requires Valid()
      modifies this
      ensures Valid() && out == old(out) && Stock() == old(Stock())
      ensures Abs() == Started(old(Abs()))
      ensures notify <==> !old(running) && empty != []
    {
      notify := false;
      if running { return; }
      running := true;
      inoverflow := |empty| == 0;
      if !inoverflow {
        overflow := {};
        changed := {};
        changed := changed + {0};
        notify := true;
        h := h.(starting := true);
      }
    }

    method Stop() returns (notify: bool)
      requires Valid()
      modifies this
      ensures Valid() && out == old(out) && Stock() == old(Stock())
      ensures Abs() == Step(next, old(Abs()), Op.Stop)
      ensures notify <==> old(running)
    {
      notify := running;
      running := false;
    }

    method Poll() returns (e: MonitorElement?)
      requires Valid()
      modifies this
      ensures Valid()
      ensures Abs() == Step(next, old(Abs()), Op.Poll)
      ensures e == if old(running) && old(inuse) != [] then old(inuse[0]) else null
      ensures e == null ==> out == old(out) && Stock() == old(Stock())
      ensures e != null ==> e !in old(out) && out == old(out) + {e} && [e] + Stock() == old(Stock())
    {
      e := null;
      ghost var was := Abs();
      if running && |inuse| != 0 {
        e := inuse[0];
        PollKeepsApart(inuse, empty, out);
        inuse := inuse[1..];
        out := out + {e};
        h := h.(view := Copy(next, h.view, e.value, e.changed), active := true);
        assert Deltas(inuse) == was.filled[1..];
      } else {
        h := h.(active := 0 < |out|);
      }
    }

    /** The first step of release(): whether requestUpdate() is called after unlocking.  Any
        element is taken; the monitor stays sound exactly when it is one the client holds. */
    method ReleasePush(e: MonitorElement) returns (update: bool)
      requires Valid()
      modifies this
      ensures Valid() <==> e in old(out)
      ensures out == old(out) - {e} && empty == old(empty) + [e] && inuse == old(inuse)
      ensures e in old(out) ==> 0 < old(Abs()).out && Abs() == Step(next, old(Abs()), Op.ReleasePush)
      ensures update <==> old(inoverflow)
    {
      if e in out { ReturnKeepsApart(inuse, empty, out, e); } else { assert out - {e} == out; }
      empty := empty + [e];
      out := out - {e};
      update := inoverflow;
      if update { h := h.(releasers := h.releasers + 1); }
    }

    /** The second step, which takes the lock again. */
    method RequestUpdate() returns (posted: bool, notify: bool)
      requires Valid() && 0 < h.releasers
      modifies this, if empty == [] then {} else {empty[0]}
      ensures Valid() && out == old(out) && Stock() == old(Stock())
      ensures Abs() == Step(next, old(Abs()), ReleaseUpdate)
      ensures posted <==> running && old(empty) != []
      ensures notify <==> posted && old(inuse) == []
    {
      h := h.(releasers := h.releasers - 1);
      posted, notify := PostPending();
    }

    /** The elements which are neither free nor queued are those the client holds. */
    method GetStats() returns (nempty: nat, nfilled: nat, noutstanding: nat)
      requires Valid()
      ensures nempty == |empty| && nfilled == |inuse| && noutstanding == |out|
    {
      nempty := |empty|;
      nfilled := |inuse|;
      noutstanding := nbuffers - nempty - nfilled;
    }
  }
}
