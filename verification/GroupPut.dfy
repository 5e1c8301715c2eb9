/** A put to a group: the members' records are written and processed in turn, in the order of
    their putorder, until one of them refuses.
 */
module GroupPut {
  import opened GroupCompile

  /** The putorder of a field which does not give one: puts pass such a member by. */
  const NO_PUT := -0x8000_0000

  datatype Proc = Passive | Inhibit | Force

  /** The record of one member, when its turn comes: whether puts to it are disabled, whether
      the put's mask marks its value, whether the client may write it, whether a put to the
      field processes the record, whether that is being processed already, and whether
      processing it reports no error. */
  datatype Target = Target(disabled: bool, marked: bool, permit: bool, passive: bool, active: bool, sound: bool)

  datatype Effect = Write(i: nat) | Process(i: nat) | ProcessLater(i: nat)

  /** PVIF::get(), with permission. */
  function TryProcess(t: Target, proc: Proc, i: nat): (bool, seq<Effect>) {
    var tryproc := if proc != Passive then proc == Force else t.passive;
    if !tryproc then (true, [])
    else if t.active then (true, [ProcessLater(i)])
    else (t.sound, [Process(i)])
  }

  /** get() of a scalar or plain mapping. */
  function PutOne(t: Target, proc: Proc, i: nat): (bool, seq<Effect>) {
    if t.disabled then (false, [])
    else
      var written := if t.marked && t.permit then [Write(i)] else [];
      if t.marked || proc == Force then
        if t.permit then
          var (ok, more) := TryProcess(t, proc, i);
          (ok, written + more)
        else (false, written)
      else (true, written)
  }

  predicate Allowed(infos: seq<Info>, i: nat) {
    i < |infos| && infos[i].putorder != NO_PUT
  }

  function PutUpTo(infos: seq<Info>, targets: seq<Target>, proc: Proc, n: nat): (bool, seq<Effect>)
    requires n <= |infos| == |targets|
  {
    if n == 0 then (true, [])
    else
      var (ok, done) := PutUpTo(infos, targets, proc, n - 1);
      if !ok || !Allowed(infos, n - 1) then (ok, done)
      else
        var (one, more) := PutOne(targets[n - 1], proc, n - 1);
        (one, done + more)
  }

  /** The loops of put().  Both modes make the same calls; they differ in what is locked. */
  method Put(infos: seq<Info>, targets: seq<Target>, proc: Proc) returns (ok: bool, effects: seq<Effect>)
    requires |infos| == |targets|
    ensures (ok, effects) == PutUpTo(infos, targets, proc, |infos|)
  {
    ok, effects := true, [];
    var i := 0;
    while ok && i < |infos|
      invariant 0 <= i <= |infos| && (ok, effects) == PutUpTo(infos, targets, proc, i)
    {
      if infos[i].putorder != NO_PUT {
        var (one, more) := PutOne(targets[i], proc, i);
        ok, effects := one, effects + more;
      }
      i := i + 1;
    }
    if !ok { StoppedStays(infos, targets, proc, i, |infos|); }
  }

  lemma {:induction false} StoppedStays(infos: seq<Info>, targets: seq<Target>, proc: Proc, i: nat, n: nat)
    requires i <= n <= |infos| == |targets| && !PutUpTo(infos, targets, proc, i).0
    ensures PutUpTo(infos, targets, proc, n) == PutUpTo(infos, targets, proc, i)
  {
    if i < n { StoppedStays(infos, targets, proc, i, n - 1); }
  }

  // ---------- What a put does ----------

  /** The record takes what the put asks of it. */
  predicate Passes(t: Target, proc: Proc) {
    && !t.disabled
    && (t.marked || proc == Force ==> t.permit && (Processed(t, proc) ==> t.sound))
  }

  /** The put asks for the record to be processed. */
  predicate Asks(t: Target, proc: Proc) {
    proc == Force || (proc == Passive && t.marked && t.passive)
  }

  /** And it is not being processed already. */
  predicate Processed(t: Target, proc: Proc) {
    Asks(t, proc) && !t.active
  }

  /** The put comes as far as member i. */
  ghost predicate Reaches(infos: seq<Info>, targets: seq<Target>, proc: Proc, i: nat)
    requires |infos| == |targets|
  {
    Allowed(infos, i) && forall j :: 0 <= j < i && Allowed(infos, j) ==> Passes(targets[j], proc)
  }

  /** A put reports success just when no member for which puts are allowed refuses. */
  lemma {:induction false} PutSucceeds(infos: seq<Info>, targets: seq<Target>, proc: Proc, n: nat)
    requires n <= |infos| == |targets|
    ensures PutUpTo(infos, targets, proc, n).0
            <==> forall j :: 0 <= j < n && Allowed(infos, j) ==> Passes(targets[j], proc)
  {
    if 0 < n {
      PutSucceeds(infos, targets, proc, n - 1);
      assert PutOne(targets[n - 1], proc, n - 1).0 <==> Passes(targets[n - 1], proc);
    }
  }

  /** A put writes exactly the marked members for which puts are allowed, up to the first
      which refuses; it processes exactly those which the put and the record ask for; and of
      these it has exactly those processed again later which are being processed already. */
  lemma {:induction false} PutIsExact(infos: seq<Info>, targets: seq<Target>, proc: Proc, n: nat, i: nat)
    requires n <= |infos| == |targets|
    ensures Write(i) in PutUpTo(infos, targets, proc, n).1
            <==> i < n && Reaches(infos, targets, proc, i)
                 && !targets[i].disabled && targets[i].marked && targets[i].permit
    ensures Process(i) in PutUpTo(infos, targets, proc, n).1
            <==> i < n && Reaches(infos, targets, proc, i)
                 && !targets[i].disabled && targets[i].permit && Processed(targets[i], proc)
    ensures ProcessLater(i) in PutUpTo(infos, targets, proc, n).1
            <==> i < n && Reaches(infos, targets, proc, i)
                 && !targets[i].disabled && targets[i].permit && Asks(targets[i], proc) && targets[i].active
  {
    if 0 < n {
      PutIsExact(infos, targets, proc, n - 1, i);
      PutSucceeds(infos, targets, proc, n - 1);
    }
  }

  /** Effects on members below n, in the order of the members; a record is written first. */
  ghost predicate Forward(infos: seq<Info>, e: seq<Effect>, n: nat) {
    && (forall a :: 0 <= a < |e| ==> e[a].i < n && Allowed(infos, e[a].i))
    && (forall a, b :: 0 <= a < b < |e| ==> e[a].i <= e[b].i && (e[a].i == e[b].i ==> e[a].Write? && !e[b].Write?))
  }

  lemma ForwardOn(infos: seq<Info>, done: seq<Effect>, more: seq<Effect>, n: nat)
    requires Forward(infos, done, n) && Allowed(infos, n)
    requires forall k :: 0 <= k < |more| ==> more[k].i == n
    requires |more| < 2 || (|more| == 2 && more[0].Write? && !more[1].Write?)
    ensures Forward(infos, done + more, n + 1)
  {}

  lemma {:induction false} PutGoesForward(infos: seq<Info>, targets: seq<Target>, proc: Proc, n: nat)
    requires n <= |infos| == |targets|
    ensures Forward(infos, PutUpTo(infos, targets, proc, n).1, n)
  {
    if 0 < n {
      PutGoesForward(infos, targets, proc, n - 1);
      var (ok, done) := PutUpTo(infos, targets, proc, n - 1);
      if ok && Allowed(infos, n - 1) {
        ForwardOn(infos, done, PutOne(targets[n - 1], proc, n - 1).1, n - 1);
      }
    }
  }

  /** For every configuration, a put writes and processes records in increasing putorder, each
      written at most once and before it is processed, and leaves alone those for which no
      putorder was given. */
  lemma PutsInOrder(fields: seq<Field>, infos: seq<Info>, targets: seq<Target>, proc: Proc)
    requires Compiled(fields, infos) && |infos| == |targets|
    ensures var e := PutUpTo(infos, targets, proc, |infos|).1;
            && (forall a :: 0 <= a < |e| ==> e[a].i < |infos| && infos[e[a].i].putorder != -0x8000_0000)
            && (forall a, b :: 0 <= a < b < |e| ==> infos[e[a].i].putorder <= infos[e[b].i].putorder)
            && (forall a, b :: 0 <= a < b < |e| && e[a].i == e[b].i ==> e[a].Write? && !e[b].Write?)
  {
    PutGoesForward(infos, targets, proc, |infos|);
  }

  /** A put which succeeds has written every marked member which was given a putorder, be it
      the least but one, or zero. */
  lemma SuccessWritesAll(infos: seq<Info>, targets: seq<Target>, proc: Proc, i: nat)
    requires |infos| == |targets| && i < |infos| && PutUpTo(infos, targets, proc, |infos|).0
    requires targets[i].marked && -0x8000_0000 < infos[i].putorder
    ensures Write(i) in PutUpTo(infos, targets, proc, |infos|).1
  {
    PutSucceeds(infos, targets, proc, |infos|);
    PutIsExact(infos, targets, proc, |infos|, i);
  }
}
