/** The queue of one downstream user of a gateway monitor, on values. */
module MonitorUserSpec {
  import opened PvData

  /** `free` counts the empty elements, `out` holds the elements polled and not yet
      released, under the names by which the client returns them, and `over` is the extra
      element.  Two history variables are added to the fields of the program: `view` is the
      client's own copy of the structure, updated by each element it polls, and `episode`
      lists the upstream updates squashed into `over` since overflow began.
   */
  datatype User<E> = User(
    initial: bool, running: bool, inoverflow: bool,
    filled: seq<Delta>, free: nat, out: map<E, Delta>, over: Delta,
    view: Value, episode: seq<Delta>)

  function Fresh<E>(next: Extents): User<E> {
    User(true, false, false, [], 0, map[], Delta([], {}, {}), Blank(next), [])
  }

  // ---------- The operations ----------

  /** Accumulate one more update into the overflow element. */
  function Squash(next: Extents, over: Delta, d: Delta): Delta {
    Delta(Copy(next, over.value, d.value, d.changed),
          over.changed + d.changed,
          over.overrun + d.overrun + over.changed * d.changed)
  }

  /** One upstream update.  `d.value` is the complete upstream value after it. */
  function Update<E>(next: Extents, u: User<E>, d: Delta): User<E> {
    if u.initial then u
    else if !u.running || u.free == 0 then
      u.(inoverflow := true, over := Squash(next, u.over, d), episode := u.episode + [d])
    else
      u.(filled := u.filled + [d], free := u.free - 1)
  }

  /** The assertion which Update makes when it takes a free element. */
  predicate AssertHolds<E>(u: User<E>) {
    u.running && 0 < u.free ==> !u.inoverflow
  }

  /** `stale` is what the changed mask of the first free element still holds. */
  function Start<E>(next: Extents, u: User<E>, bufferSize: nat, havedata: bool, last: Value, stale: Mask): User<E> {
    var v := if u.initial
             then u.(initial := false, free := bufferSize, over := Delta(Blank(next), {}, {}))
             else u;
    var w := if havedata && 0 < v.free
             then v.(filled := v.filled + [Delta(last, stale + {0}, {})], free := v.free - 1)
             else v;
    w.(running := true)
  }

  function Stop<E>(u: User<E>): User<E> {
    u.(running := false)
  }

  function Poll<E>(next: Extents, u: User<E>, e: E): User<E> {
    if u.filled == [] then u
    else
      var d := u.filled[0];
      u.(filled := u.filled[1..], out := u.out[e := d], view := Copy(next, u.view, d.value, d.changed))
  }

  /** Returning an element which was not polled changes nothing. */
  function Release<E>(u: User<E>, e: E): User<E> {
    if e !in u.out then u
    else if u.inoverflow then
      u.(out := u.out - {e}, filled := u.filled + [u.over], over := Delta(u.out[e].value, {}, {}),
         inoverflow := false, episode := [])
    else
      u.(out := u.out - {e}, free := u.free + 1)
  }

  // ---------- What the masks of the overflow element mean ----------

  ghost function AnyChanged(q: seq<Delta>): Mask {
    set i, b | 0 <= i < |q| && b in q[i].changed :: b
  }

  ghost function AnyOverrun(q: seq<Delta>): Mask {
    set i, b | 0 <= i < |q| && b in q[i].overrun :: b
  }

  ghost predicate Repeated(q: seq<Delta>, b: nat) {
    exists i, j :: 0 <= i < j < |q| && b in q[i].changed && b in q[j].changed
  }

  /** The bits which at least two of the updates changed. */
  ghost function ChangedTwice(q: seq<Delta>): Mask {
    set b | b in AnyChanged(q) && Repeated(q, b)
  }

  ghost predicate MasksOf(over: Delta, q: seq<Delta>) {
    && over.changed == AnyChanged(q)
    && over.overrun == AnyOverrun(q) + ChangedTwice(q)
  }

  lemma MasksSquash(next: Extents, over: Delta, q: seq<Delta>, d: Delta)
    requires MasksOf(over, q)
    ensures MasksOf(Squash(next, over, d), q + [d])
  {
    var r := q + [d];
    assert r[|q|] == d;
    forall b ensures b in AnyChanged(r) <==> b in AnyChanged(q) + d.changed {
      if b in AnyChanged(q) {
        var i :| 0 <= i < |q| && b in q[i].changed;
        assert r[i] == q[i];
      }
      if b in d.changed { assert b in r[|q|].changed; }
    }
    forall b ensures b in AnyOverrun(r) <==> b in AnyOverrun(q) + d.overrun {
      if b in AnyOverrun(q) {
        var i :| 0 <= i < |q| && b in q[i].overrun;
        assert r[i] == q[i];
      }
      if b in d.overrun { assert b in r[|q|].overrun; }
    }
    forall b ensures b in ChangedTwice(r) <==> b in ChangedTwice(q) + AnyChanged(q) * d.changed {
      if b in ChangedTwice(q) {
        var i, j :| 0 <= i < j < |q| && b in q[i].changed && b in q[j].changed;
        assert r[i] == q[i] && r[j] == q[j];
      }
      if b in AnyChanged(q) * d.changed {
        var i :| 0 <= i < |q| && b in q[i].changed;
        assert r[i] == q[i] && b in r[|q|].changed;
      }
    }
    assert AnyChanged(r) == AnyChanged(q) + d.changed;
    assert AnyOverrun(r) == AnyOverrun(q) + d.overrun;
    assert ChangedTwice(r) == ChangedTwice(q) + AnyChanged(q) * d.changed;
  }

  // ---------- The invariant ----------

  /** What the client will hold once it has polled everything there is for it. */
  ghost function Eventually<E>(next: Extents, u: User<E>): Value {
    Copy(next, Fold(next, u.view, u.filled), u.over.value, u.over.changed)
  }

  ghost predicate Sized<E>(next: Extents, u: User<E>) {
    && |u.view| == |next|
    && |u.over.value| == |next|
    && AllSized(next, u.filled)
    && forall e :: e in u.out ==> |u.out[e].value| == |next|
  }

  ghost predicate Inv<E>(next: Extents, bufferSize: nat, last: Value, u: User<E>) {
    if u.initial then u == Fresh(next) else
    && Sized(next, u)
    && u.free + |u.filled| + |u.out| == bufferSize
    && (u.inoverflow <==> u.episode != [])
    && MasksOf(u.over, u.episode)
    && Eventually(next, u) == last
    && AssertHolds(u)
  }

  lemma OverAgrees(next: Extents, x: Value, over: Delta, last: Value)
    requires |x| == |over.value| == |last| == |next|
    requires Copy(next, x, over.value, over.changed) == last
    ensures Copy(next, last, over.value, over.changed) == last
  {}

  lemma CopyTwice(next: Extents, last: Value, upd: Value, m: Mask)
    requires |last| == |upd|
    ensures var last' := Copy(next, last, upd, m); Copy(next, last, last', m) == last'
  {}

  lemma CopySquash(next: Extents, x: Value, over: Delta, last: Value, upd: Value, d: Delta)
    requires |x| == |over.value| == |last| == |upd| == |next|
    requires Copy(next, x, over.value, over.changed) == last
    requires d.value == Copy(next, last, upd, d.changed)
    ensures var o := Squash(next, over, d); Copy(next, x, o.value, o.changed) == d.value
  {}

  lemma UpdateKeepsInv<E>(next: Extents, bufferSize: nat, last: Value, u: User<E>, upd: Delta)
    requires |last| == |upd.value| == |next|
    requires Inv(next, bufferSize, last, u)
    ensures var last' := Copy(next, last, upd.value, upd.changed);
            Inv(next, bufferSize, last', Update(next, u, Delta(last', upd.changed, upd.overrun)))
  {
    var last' := Copy(next, last, upd.value, upd.changed);
    var d := Delta(last', upd.changed, upd.overrun);
    if u.initial {
    } else if !u.running || u.free == 0 {
      MasksSquash(next, u.over, u.episode, d);
      CopySquash(next, Fold(next, u.view, u.filled), u.over, last, upd.value, d);
    } else {
      assert u.over.changed == {} by { assert u.episode == []; }
      CopyNothing(next, Fold(next, u.view, u.filled), u.over.value);
      FoldSnoc(next, u.view, u.filled, d);
      CopyTwice(next, last, upd.value, upd.changed);
      CopyNothing(next, last', u.over.value);
    }
  }

  lemma PollKeepsInv<E>(next: Extents, bufferSize: nat, last: Value, u: User<E>, e: E)
    requires Inv(next, bufferSize, last, u) && (u.filled != [] ==> e !in u.out)
    ensures Inv(next, bufferSize, last, Poll(next, u, e))
  {}

  lemma ReleaseKeepsInv<E>(next: Extents, bufferSize: nat, last: Value, u: User<E>, e: E)
    requires Inv(next, bufferSize, last, u)
    ensures Inv(next, bufferSize, last, Release(u, e))
  {
    if e in u.out {
      var w := Release(u, e);
      assert w.out.Keys == u.out.Keys - {e};
      if u.inoverflow {
        FoldSnoc(next, u.view, u.filled, u.over);
        CopyNothing(next, last, w.over.value);
        assert AnyChanged([]) == {} && AnyOverrun([]) == {};
      }
    }
  }

  // ---------- Starting, and starting again ----------

  /** Whether a start() leaves no free element beside pending overflow. */
  predicate SafeStart<E>(u: User<E>, havedata: bool) {
    u.initial || !u.inoverflow || u.free <= (if havedata then 1 else 0)
  }

  /** The initial element overwrites whatever the client holds, and stale fields of the
      overflow element do not show behind it. */
  lemma InitialElementSuffices(next: Extents, view: Value, q: seq<Delta>, over: Delta, last: Value, mask: Mask)
    requires IsExtents(next) && |view| == |over.value| == |last| == |next| && 0 in mask
    requires over.changed == {} || Copy(next, Fold(next, view, q), over.value, over.changed) == last
    ensures Copy(next, Fold(next, view, q + [Delta(last, mask, {})]), over.value, over.changed) == last
  {
    var x := Fold(next, view, q);
    FoldSnoc(next, view, q, Delta(last, mask, {}));
    CopyAll(next, x, last, mask);
    if over.changed == {} {
      CopyNothing(next, last, over.value);
    } else {
      OverAgrees(next, x, over, last);
    }
  }

  lemma StartKeepsInv<E>(next: Extents, bufferSize: nat, last: Value, u: User<E>, havedata: bool, stale: Mask)
    requires IsExtents(next) && |last| == |next| && 0 < bufferSize
    requires !havedata ==> last == Blank(next)
    requires Inv(next, bufferSize, last, u)
    ensures Inv(next, bufferSize, last, Start(next, u, bufferSize, havedata, last, stale)) <==> SafeStart(u, havedata)
  {
    if u.initial {
      assert AnyChanged([]) == {} && AnyOverrun([]) == {};
      var over := Delta(Blank(next), {}, {});
      CopyNothing(next, Fold(next, u.view, []), over.value);
      InitialElementSuffices(next, u.view, [], over, last, stale + {0});
    } else if havedata && 0 < u.free {
      InitialElementSuffices(next, u.view, u.filled, u.over, last, stale + {0});
    }
  }

  /** With no elements at all, a user which joins late is never given the current value. */
  lemma StartNeedsAnElement<E>(next: Extents, bufferSize: nat)
    requires IsExtents(next)
    ensures (forall last: Value, stale: Mask :: |last| == |next| ==>
               Inv(next, bufferSize, last, Start(next, Fresh<E>(next), bufferSize, true, last, stale)))
            <==> 0 < bufferSize
  {
    if 0 < bufferSize {
      forall last: Value, stale: Mask | |last| == |next|
        ensures Inv(next, bufferSize, last, Start(next, Fresh<E>(next), bufferSize, true, last, stale))
      {
        StartKeepsInv(next, bufferSize, last, Fresh<E>(next), true, stale);
      }
    } else {
      var last := seq(|next|, _ => 1);
      var w := Start(next, Fresh<E>(next), 0, true, last, {});
      CopyNothing(next, w.view, w.over.value);
      assert Eventually(next, w)[0] == 0 && last[0] == 1;
      assert !Inv(next, bufferSize, last, w);
    }
  }

  /** What the assertion guards against: a user with two elements is stopped, misses update
      1, is started again and is then sent update 2.  The next release() queues the missed
      update behind it, and the client ends on the older value. */
  lemma UnsafeStartGoesBack()
    ensures
      var next := [1];
      var u0 := Start<nat>(next, Fresh(next), 2, false, [0], {});
      var u1 := Update(next, Stop(u0), Delta([1], {0}, {}));
      var u2 := Start(next, u1, 2, true, [1], {});
      var u3 := Update(next, u2, Delta([2], {0}, {}));
      var u4 := Release(Poll(next, u3, 7), 7);
      && Inv(next, 2, [1], u1)
      && !AssertHolds(u2)
      && Eventually(next, u4) == [1]
  {}

  // ---------- Leaving overflow ----------

  /** The element which release() takes out of overflow reports exactly what was squashed
      into it: as changed, whatever any update of the episode changed; as overrun, whatever
      was lost upstream or changed by two updates. */
  lemma OverflowExit<E>(next: Extents, bufferSize: nat, last: Value, u: User<E>, e: E)
    requires Inv(next, bufferSize, last, u) && u.inoverflow && e in u.out
    ensures var w := Release(u, e);
            && |w.filled| == |u.filled| + 1
            && w.filled[..|u.filled|] == u.filled
            && MasksOf(w.filled[|u.filled|], u.episode)
            && forall f :: 0 <= f < |next| && Covers(next, AnyChanged(u.episode), f) ==>
                 w.filled[|u.filled|].value[f] == last[f]
  {}

  /** A client's loop: poll() and release() until poll() gives nothing. */
  function Drain<E>(next: Extents, u: User<E>, e: E): User<E>
    requires u.out == map[]
    decreases |u.filled| + (if u.inoverflow then 1 else 0)
  {
    if u.filled == [] then u
    else
      var p := Poll(next, u, e);
      assert p.out.Keys == {e};
      assert Release(p, e).out.Keys == {};
      Drain(next, Release(p, e), e)
  }

  lemma {:induction false} DrainReachesUpstream<E>(next: Extents, bufferSize: nat, last: Value, u: User<E>, e: E)
    requires Inv(next, bufferSize, last, u) && 0 < bufferSize
    requires u.running && u.out == map[]
    ensures var w := Drain(next, u, e);
            w.filled == [] && !w.inoverflow && w.free == bufferSize && w.out == map[] && w.view == last
    decreases |u.filled| + (if u.inoverflow then 1 else 0)
  {
    if u.filled == [] {
      assert u.episode == [];
      CopyNothing(next, u.view, u.over.value);
    } else {
      var p := Poll(next, u, e);
      PollKeepsInv(next, bufferSize, last, u, e);
      ReleaseKeepsInv(next, bufferSize, last, p, e);
      assert p.out.Keys == {e};
      assert Release(p, e).out.Keys == {};
      DrainReachesUpstream(next, bufferSize, last, Release(p, e), e);
    }
  }
}
