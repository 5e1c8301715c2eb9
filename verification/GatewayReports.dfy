/** What the elements of a gateway user's queue tell its client of the upstream updates.

    Each element stands for a stretch of the updates, as the upstream sent them.  Its masks are
    those of the stretch, and polling it brings the client to the value which the upstream had
    at the end of it; and every update since the first start() is reported in just one element.
 */
module GatewayReports {
  import opened PvData
  import opened MonitorUserSpec
  import opened GatewayRuns

  // ---------- One event ----------

  /** How many of `n` updates find a free element. */
  function Room<E>(u: User<E>, n: nat): nat {
    if u.initial || !u.running then 0 else if u.free < n then u.free else n
  }

  /** The complete value after update k, with the masks which the upstream gave to the update. */
  function Element(next: Extents, last: Value, updates: seq<Delta>, k: nat): Delta
    requires k < |updates|
  {
    Delta(Fold(next, last, updates[..k + 1]), updates[k].changed, updates[k].overrun)
  }

  lemma FirstElement(next: Extents, last: Value, updates: seq<Delta>)
    requires updates != []
    ensures Element(next, last, updates, 0) == Accumulated(next, last, updates[0])
  {
    assert updates[..1] == [updates[0]] && updates[..1][1..] == [];
    assert Fold(next, last, updates[..1]) == Fold(next, Accumulated(next, last, updates[0]).value, []);
  }

  lemma ElementOn(next: Extents, last: Value, updates: seq<Delta>, k: nat)
    requires k + 1 < |updates|
    ensures Element(next, last, updates, k + 1)
            == Element(next, Copy(next, last, updates[0].value, updates[0].changed), updates[1..], k)
  {
    assert updates[..k + 2][1..] == updates[1..][..k + 1];
  }

  /** While a running user has free elements, each update of an event gets one, with the masks
      which the upstream gave; after that none does. */
  lemma {:induction false} QueuedOneByOne<E>(next: Extents, last: Value, u: User<E>, updates: seq<Delta>)
    ensures var w := UpdateUser(next, last, u, updates);
            var n := Room(u, |updates|);
            && |w.filled| == |u.filled| + n && w.filled[..|u.filled|] == u.filled && w.free == u.free - n
            && forall k :: 0 <= k < n ==> w.filled[|u.filled| + k] == Element(next, last, updates, k)
    decreases |updates|
  {
    if updates != [] {
      var d := Accumulated(next, last, updates[0]);
      var v := Update(next, u, d);
      var w := UpdateUser(next, d.value, v, updates[1..]);
      var n := Room(u, |updates|);
      QueuedOneByOne(next, d.value, v, updates[1..]);
      if 0 < n {
        FirstElement(next, last, updates);
        assert w.filled[|u.filled|] == w.filled[..|v.filled|][|u.filled|] == d;
        forall k | 1 <= k < n ensures w.filled[|u.filled| + k] == Element(next, last, updates, k) {
          ElementOn(next, last, updates, k - 1);
        }
        assert w.filled[..|u.filled|] == w.filled[..|v.filled|][..|u.filled|];
      }
    }
  }

  // ---------- The account of a user ----------

  /** What an element stands for: some of the updates, or the whole structure as it was then,
      which it says beside whatever its changed mask held already. */
  datatype Span = Part(from: nat, to: nat) | Whole(to: nat, stale: Mask)

  /** The spans of the queue; the number of updates which the client's view is up to; how many
      updates the elements polled by it have reported; and where overflow began, if it did. */
  datatype Account = Account(spans: seq<Span>, seen: nat, reported: nat, since: nat)

  const NO_ACCOUNT := Account([], 0, 0, 0)

  function Singles(n: nat, count: nat): (r: seq<Span>)
    ensures |r| == count
  {
    seq(count, i requires 0 <= i < count => Part(n + i, n + i + 1))
  }

  /** Those updates which find a free element get one each. */
  function AccountUpdates<E>(u: User<E>, n: nat, a: Account, count: nat): Account {
    var room := Room(u, count);
    a.(spans := a.spans + Singles(n, room), since := a.since + room)
  }

  /** `n` updates were sent before.  The first start() finds nothing to report but the whole. */
  function AccountStart<E>(u: User<E>, bufferSize: nat, havedata: bool, n: nat, a: Account,
                           stale: Mask): Account
  {
    var b := if u.initial then a.(reported := n, since := n) else a;
    if havedata && 0 < (if u.initial then bufferSize else u.free) then b.(spans := b.spans + [Whole(n, stale)])
    else b
  }

  function AccountPoll(a: Account): Account {
    if a.spans == [] then a
    else
      var s := a.spans[0];
      a.(spans := a.spans[1..], seen := s.to, reported := if s.Part? then s.to else a.reported)
  }

  /** What was held back since overflow began comes in one element. */
  function AccountRelease<E>(u: User<E>, e: E, n: nat, a: Account): Account {
    if e in u.out && a.since < n then a.(spans := a.spans + [Part(a.since, n)], since := n) else a
  }

  function AccountNext<C, E>(bufferSize: nat, g: Gateway<C, E>, n: nat, a: Account, op: Op<C, E>, id: C): Account {
    if id !in g.clients then NO_ACCOUNT
    else
      var u := g.clients[id].user;
      if op.Event? then AccountUpdates(u, n, a, |op.updates|)
      else if op.id != id then a
      else if op.Start? then AccountStart(u, bufferSize, g.havedata, n, a, op.stale)
      else if op.Poll? then AccountPoll(a)
      else if op.Release? then AccountRelease(u, op.e, n, a)
      else a
  }

  // ---------- What the account means ----------

  /** The upstream value after n updates. */
  function At(next: Extents, all: seq<Delta>, n: nat): Value
    requires n <= |all|
  {
    Fold(next, Blank(next), all[..n])
  }

  ghost predicate Reports(next: Extents, all: seq<Delta>, d: Delta, s: Span) {
    match s
    case Part(from, to) => from < to <= |all| && MasksOf(d, all[from..to])
    case Whole(to, stale) => to <= |all| && d == Delta(At(next, all, to), stale + {0}, {})
  }

  /** The parts follow each other without gap or overlap, from `start` to `end`. */
  predicate Tiled(spans: seq<Span>, start: nat, end: nat)
    decreases |spans|
  {
    if spans == [] then start == end
    else
      match spans[0]
      case Whole(_, _) => Tiled(spans[1..], start, end)
      case Part(from, to) => from == start && from < to && Tiled(spans[1..], to, end)
  }

  predicate InOrder(seen: nat, spans: seq<Span>, n: nat) {
    && seen <= n
    && (forall i :: 0 <= i < |spans| ==> seen <= spans[i].to <= n)
    && forall i, j :: 0 <= i < j < |spans| ==> spans[i].to <= spans[j].to
  }

  /** Polling element i leads the client to what the upstream was at the end of its span. */
  ghost predicate Leads(next: Extents, all: seq<Delta>, view: Value, q: seq<Delta>, spans: seq<Span>, i: nat)
    requires i < |q| == |spans|
  {
    spans[i].to <= |all| && Fold(next, view, q[..i + 1]) == At(next, all, spans[i].to)
  }

  ghost predicate Queue(next: Extents, all: seq<Delta>, view: Value, q: seq<Delta>, spans: seq<Span>, seen: nat) {
    && |spans| == |q| && InOrder(seen, spans, |all|)
    && view == At(next, all, seen)
    && (forall i :: 0 <= i < |q| ==> Reports(next, all, q[i], spans[i]))
    && forall i :: 0 <= i < |q| ==> Leads(next, all, view, q, spans, i)
  }

  /** Of a started user: what is queued, and what overflow holds back. */
  ghost predicate Accounts<E>(next: Extents, all: seq<Delta>, u: User<E>, a: Account) {
    && Queue(next, all, u.view, u.filled, a.spans, a.seen)
    && (!u.initial ==>
          && a.since <= |all| && (u.inoverflow <==> a.since < |all|)
          && MasksOf(u.over, all[a.since..])
          && Tiled(a.spans, a.reported, a.since))
  }

  // ---------- Stretches of the updates ----------

  /** Only the masks of updates matter for what is said of the masks. */
  lemma SameMasks(over: Delta, q: seq<Delta>, r: seq<Delta>)
    requires MasksOf(over, q) && |q| == |r|
    requires forall i :: 0 <= i < |q| ==> q[i].changed == r[i].changed && q[i].overrun == r[i].overrun
    ensures MasksOf(over, r)
  {
    forall b ensures b in AnyChanged(q) <==> b in AnyChanged(r) {
      if b in AnyChanged(q) { var i :| 0 <= i < |q| && b in q[i].changed; assert b in r[i].changed; }
      if b in AnyChanged(r) { var i :| 0 <= i < |r| && b in r[i].changed; assert b in q[i].changed; }
    }
    forall b ensures b in AnyOverrun(q) <==> b in AnyOverrun(r) {
      if b in AnyOverrun(q) { var i :| 0 <= i < |q| && b in q[i].overrun; assert b in r[i].overrun; }
      if b in AnyOverrun(r) { var i :| 0 <= i < |r| && b in r[i].overrun; assert b in q[i].overrun; }
    }
    forall b ensures Repeated(q, b) <==> Repeated(r, b) {
      if Repeated(q, b) {
        var i, j :| 0 <= i < j < |q| && b in q[i].changed && b in q[j].changed;
        assert b in r[i].changed && b in r[j].changed;
      }
      if Repeated(r, b) {
        var i, j :| 0 <= i < j < |r| && b in r[i].changed && b in r[j].changed;
        assert b in q[i].changed && b in q[j].changed;
      }
    }
    assert AnyChanged(q) == AnyChanged(r) && AnyOverrun(q) == AnyOverrun(r);
    assert ChangedTwice(q) == ChangedTwice(r);
  }

  lemma MasksOfNone(d: Delta)
    requires d.changed == {} && d.overrun == {}
    ensures MasksOf(d, [])
  {
    assert AnyChanged([]) == {} && AnyOverrun([]) == {} && ChangedTwice([]) == {};
  }

  /** The masks of one update are those of the stretch which is that update. */
  lemma MasksOfOne(d: Delta)
    ensures MasksOf(d, [d])
  {
    forall b ensures b in AnyChanged([d]) <==> b in d.changed {
      if b in d.changed { assert b in [d][0].changed; }
    }
    forall b ensures b in AnyOverrun([d]) <==> b in d.overrun {
      if b in d.overrun { assert b in [d][0].overrun; }
    }
    assert AnyChanged([d]) == d.changed && AnyOverrun([d]) == d.overrun && ChangedTwice([d]) == {};
  }

  lemma {:induction false} TiledMore(spans: seq<Span>, start: nat, end: nat, s: Span)
    requires Tiled(spans, start, end) && (s.Part? ==> s.from == end < s.to)
    ensures Tiled(spans + [s], start, if s.Part? then s.to else end)
    decreases |spans|
  {
    var r := spans + [s];
    if spans == [] {
      assert r[1..] == [];
    } else {
      assert r[1..] == spans[1..] + [s];
      TiledMore(spans[1..], match spans[0] case Whole(_, _) => start case Part(_, to) => to, end, s);
    }
  }

  // ---------- The queue ----------

  lemma QueueMore(next: Extents, all: seq<Delta>, view: Value, q: seq<Delta>, spans: seq<Span>, seen: nat,
                  d: Delta, s: Span)
    requires Queue(next, all, view, q, spans, seen)
    requires s.to == |all| && Reports(next, all, d, s)
    requires Copy(next, Fold(next, view, q), d.value, d.changed) == At(next, all, |all|)
    ensures Queue(next, all, view, q + [d], spans + [s], seen)
  {
    var r, t := q + [d], spans + [s];
    forall i | 0 <= i < |r| ensures Leads(next, all, view, r, t, i) {
      if i < |q| {
        assert r[..i + 1] == q[..i + 1];
        assert Leads(next, all, view, q, spans, i);
      } else {
        assert r[..i + 1] == r;
        FoldSnoc(next, view, q, d);
      }
    }
  }

  lemma QueuePoll(next: Extents, all: seq<Delta>, view: Value, q: seq<Delta>, spans: seq<Span>, seen: nat)
    requires Queue(next, all, view, q, spans, seen) && q != []
    ensures Queue(next, all, Copy(next, view, q[0].value, q[0].changed), q[1..], spans[1..], spans[0].to)
  {
    var d := q[0];
    var after := Copy(next, view, d.value, d.changed);
    assert q[..1] == [d] && q[..1][1..] == [];
    assert Leads(next, all, view, q, spans, 0);
    assert Fold(next, view, q[..1]) == Fold(next, after, []);
    forall i | 0 <= i < |q| - 1 ensures Leads(next, all, after, q[1..], spans[1..], i) {
      assert Leads(next, all, view, q, spans, i + 1);
      assert q[..i + 2][1..] == q[1..][..i + 1];
    }
  }

  /** One more update of the upstream changes nothing of what was said before it. */
  lemma QueueLater(next: Extents, all: seq<Delta>, upd: Delta, view: Value, q: seq<Delta>, spans: seq<Span>, seen: nat)
    requires Queue(next, all, view, q, spans, seen)
    ensures Queue(next, all + [upd], view, q, spans, seen)
  {
    var more := all + [upd];
    assert forall n :: 0 <= n <= |all| ==> more[..n] == all[..n];
    forall i | 0 <= i < |q|
      ensures Reports(next, more, q[i], spans[i]) && Leads(next, more, view, q, spans, i)
    {
      assert Reports(next, all, q[i], spans[i]) && Leads(next, all, view, q, spans, i);
      var s := spans[i];
      if s.Part? { assert more[s.from..s.to] == all[s.from..s.to]; }
    }
  }

  // ---------- Every step keeps the account ----------

  /** What follows what is queued: nothing unless in overflow. */
  lemma NothingHeldBack<E>(next: Extents, bufferSize: nat, last: Value, u: User<E>)
    requires Inv(next, bufferSize, last, u) && !u.initial && !u.inoverflow
    ensures Fold(next, u.view, u.filled) == last && u.over.changed == {} && u.over.overrun == {}
  {
    assert u.episode == [];
    assert AnyChanged([]) == {} && AnyOverrun([]) == {};
    CopyNothing(next, Fold(next, u.view, u.filled), u.over.value);
  }

  lemma SquashedAccounts<E>(next: Extents, all: seq<Delta>, u: User<E>, a: Account, upd: Delta, d: Delta)
    requires Accounts(next, all, u, a) && !u.initial && Room(u, 1) == 0
    requires d.changed == upd.changed && d.overrun == upd.overrun
    ensures Accounts(next, all + [upd], Update(next, u, d), AccountUpdates(u, |all|, a, 1))
  {
    var more := all + [upd];
    QueueLater(next, all, upd, u.view, u.filled, a.spans, a.seen);
    assert a.spans + Singles(|all|, 0) == a.spans;
    MasksSquash(next, u.over, all[a.since..], d);
    SameMasks(Squash(next, u.over, d), all[a.since..] + [d], more[a.since..]);
  }

  lemma QueuedAccounts<E>(next: Extents, bufferSize: nat, all: seq<Delta>, u: User<E>, a: Account, upd: Delta, d: Delta)
    requires |upd.value| == |next| && Inv(next, bufferSize, Fold(next, Blank(next), all), u)
    requires Accounts(next, all, u, a) && Room(u, 1) == 1
    requires d == Accumulated(next, Fold(next, Blank(next), all), upd)
    ensures Accounts(next, all + [upd], Update(next, u, d), AccountUpdates(u, |all|, a, 1))
  {
    var s := Part(|all|, |all| + 1);
    OneMoreQueued(next, bufferSize, all, u, a, upd, d);
    OneSingle(u, |all|, a);
    assert (all + [upd])[|all| + 1..] == [];
    assert Tiled(a.spans + [s], a.reported, s.to) by { TiledMore(a.spans, a.reported, a.since, s); }
  }

  lemma OneSingle<E>(u: User<E>, n: nat, a: Account)
    requires Room(u, 1) == 1
    ensures AccountUpdates(u, n, a, 1) == a.(spans := a.spans + [Part(n, n + 1)], since := a.since + 1)
  {
    assert Singles(n, 1) == [Part(n, n + 1)];
  }

  lemma OneMoreQueued<E>(next: Extents, bufferSize: nat, all: seq<Delta>, u: User<E>, a: Account, upd: Delta, d: Delta)
    requires |upd.value| == |next| && Inv(next, bufferSize, Fold(next, Blank(next), all), u)
    requires Accounts(next, all, u, a) && Room(u, 1) == 1
    requires d == Accumulated(next, Fold(next, Blank(next), all), upd)
    ensures Queue(next, all + [upd], u.view, u.filled + [d], a.spans + [Part(|all|, |all| + 1)], a.seen)
    ensures a.since == |all| && MasksOf(u.over, []) && !u.inoverflow
  {
    var last, more := Fold(next, Blank(next), all), all + [upd];
    QueueLater(next, all, upd, u.view, u.filled, a.spans, a.seen);
    NothingHeldBack(next, bufferSize, last, u);
    CopyTwice(next, last, upd.value, upd.changed);
    FoldSnoc(next, Blank(next), all, upd);
    assert more[..|more|] == more && more[|all|..|all| + 1] == [upd];
    MasksOfOne(upd);
    MasksOfNone(u.over);
    QueueMore(next, more, u.view, u.filled, a.spans, a.seen, d, Part(|all|, |all| + 1));
  }

  lemma UpdateAccounts<E>(next: Extents, bufferSize: nat, all: seq<Delta>, u: User<E>, a: Account, upd: Delta, d: Delta)
    requires |upd.value| == |next| && Inv(next, bufferSize, Fold(next, Blank(next), all), u)
    requires Accounts(next, all, u, a)
    requires d == Accumulated(next, Fold(next, Blank(next), all), upd)
    ensures Accounts(next, all + [upd], Update(next, u, d), AccountUpdates(u, |all|, a, 1))
  {
    if u.initial {
      QueueLater(next, all, upd, u.view, u.filled, a.spans, a.seen);
      assert a.spans + Singles(|all|, 0) == a.spans;
    } else if Room(u, 1) == 0 {
      SquashedAccounts(next, all, u, a, upd, d);
    } else {
      QueuedAccounts(next, bufferSize, all, u, a, upd, d);
    }
  }

  // ---------- A whole event ----------

  lemma AccountSplit<E>(next: Extents, u: User<E>, n: nat, a: Account, count: nat, d: Delta)
    requires 0 < count
    ensures AccountUpdates(Update(next, u, d), n + 1, AccountUpdates(u, n, a, 1), count - 1)
            == AccountUpdates(u, n, a, count)
  {
    var room := Room(u, count);
    if 0 < room {
      assert Singles(n, 1) + Singles(n + 1, room - 1) == Singles(n, room);
      assert (a.spans + Singles(n, 1)) + Singles(n + 1, room - 1) == a.spans + Singles(n, room);
    }
  }

  lemma NoAccount<E>(u: User<E>, n: nat, a: Account)
    ensures AccountUpdates(u, n, a, 0) == a
  {
    assert a.spans + Singles(n, 0) == a.spans;
  }

  lemma Regroup(all: seq<Delta>, updates: seq<Delta>)
    requires updates != []
    ensures (all + [updates[0]]) + updates[1..] == all + updates
  {}

  /** Here `end` and `b` are what the event makes of the user and of its account. */
  lemma {:induction false} EventAccounts<E>(next: Extents, bufferSize: nat, all: seq<Delta>, last: Value,
                                            u: User<E>, a: Account, updates: seq<Delta>,
                                            whole: seq<Delta>, end: User<E>, b: Account)
    requires AllSized(next, updates) && last == Fold(next, Blank(next), all) && Inv(next, bufferSize, last, u)
    requires Accounts(next, all, u, a)
    requires whole == all + updates && end == UpdateUser(next, last, u, updates)
    requires b == AccountUpdates(u, |all|, a, |updates|)
    ensures Accounts(next, whole, end, b)
    decreases |updates|
  {
    if updates == [] {
      NoAccount(u, |all|, a);
      assert whole == all;
    } else {
      var upd, d := updates[0], Accumulated(next, last, updates[0]);
      assert upd in updates;
      UpdateAccounts(next, bufferSize, all, u, a, upd, d);
      UpdateKeepsInv(next, bufferSize, last, u, upd);
      FoldSnoc(next, Blank(next), all, upd);
      AccountSplit(next, u, |all|, a, |updates|, d);
      Regroup(all, updates);
      EventAccounts(next, bufferSize, all + [upd], d.value, Update(next, u, d), AccountUpdates(u, |all|, a, 1),
                    updates[1..], whole, end, b);
    }
  }

  // ---------- What the client does ----------

  lemma StartAccounts<E>(next: Extents, bufferSize: nat, all: seq<Delta>, u: User<E>, a: Account,
                         havedata: bool, stale: Mask)
    requires IsExtents(next) && 0 < bufferSize && Inv(next, bufferSize, Fold(next, Blank(next), all), u)
    requires Accounts(next, all, u, a)
    ensures Accounts(next, all,
                     MonitorUserSpec.Start(next, u, bufferSize, havedata, Fold(next, Blank(next), all), stale),
                     AccountStart(u, bufferSize, havedata, |all|, a, stale))
  {
    var last := Fold(next, Blank(next), all);
    var d, s := Delta(last, stale + {0}, {}), Span.Whole(|all|, stale);
    assert all[..|all|] == all && all[|all|..] == [];
    if havedata {
      CopyAll(next, Fold(next, u.view, u.filled), last, d.changed);
      QueueMore(next, all, u.view, u.filled, a.spans, a.seen, d, s);
    }
    if u.initial {
      MasksOfNone(Delta(Blank(next), {}, {}));
      assert a.spans == [];
      if havedata { assert a.spans + [s] == [s] && [s][1..] == []; }
    } else if havedata {
      TiledMore(a.spans, a.reported, a.since, s);
    }
  }

  lemma PollAccounts<E>(next: Extents, bufferSize: nat, all: seq<Delta>, u: User<E>, a: Account, e: E)
    requires Inv(next, bufferSize, Fold(next, Blank(next), all), u) && Accounts(next, all, u, a)
    ensures Accounts(next, all, MonitorUserSpec.Poll(next, u, e), AccountPoll(a))
  {
    if u.filled != [] { QueuePoll(next, all, u.view, u.filled, a.spans, a.seen); }
  }

  lemma ReleaseAccounts<E>(next: Extents, bufferSize: nat, all: seq<Delta>, u: User<E>, a: Account, e: E)
    requires Inv(next, bufferSize, Fold(next, Blank(next), all), u) && Accounts(next, all, u, a)
    ensures Accounts(next, all, MonitorUserSpec.Release(u, e), AccountRelease(u, e, |all|, a))
  {
    if e in u.out && u.inoverflow {
      var s := Part(a.since, |all|);
      assert all[..|all|] == all && all[|all|..] == [] && all[a.since..|all|] == all[a.since..];
      QueueMore(next, all, u.view, u.filled, a.spans, a.seen, u.over, s);
      TiledMore(a.spans, a.reported, a.since, s);
      MasksOfNone(Delta(u.out[e].value, {}, {}));
    }
  }

  // ---------- Runs ----------

  function SentBy<C, E>(op: Op<C, E>): seq<Delta> {
    if op.Event? then op.updates else []
  }

  /** All updates which the upstream sends in a run. */
  function Upstream<C, E>(ops: seq<Op<C, E>>): seq<Delta>
    decreases |ops|
  {
    if ops == [] then [] else SentBy(ops[0]) + Upstream(ops[1..])
  }

  lemma {:induction false} FoldConcat(next: Extents, v: Value, a: seq<Delta>, b: seq<Delta>)
    ensures Fold(next, v, a + b) == Fold(next, Fold(next, v, a), b)
    decreases |a|
  {
    if a == [] {
      assert a + b == b;
    } else {
      assert (a + b)[1..] == a[1..] + b;
      FoldConcat(next, Copy(next, v, a[0].value, a[0].changed), a[1..], b);
    }
  }

  lemma ClientAccounts<C, E>(next: Extents, bufferSize: nat, g: Gateway<C, E>, all: seq<Delta>, a: Account,
                             op: Op<C, E>, id: C)
    requires IsExtents(next) && 0 < bufferSize && id in g.clients && !op.Event? && !op.Join? && op.id == id
    requires Inv(next, bufferSize, g.last, g.clients[id].user) && g.last == Fold(next, Blank(next), all)
    requires Accounts(next, all, g.clients[id].user, a)
    ensures var c := ClientStep(next, bufferSize, g, g.clients[id], op);
            Accounts(next, all, c.user, AccountNext(bufferSize, g, |all|, a, op, id))
  {
    var u := g.clients[id].user;
    match op
    case Start(_, stale) => StartAccounts(next, bufferSize, all, u, a, g.havedata, stale);
    case Poll(_, e) => PollAccounts(next, bufferSize, all, u, a, e);
    case Release(_, e) => ReleaseAccounts(next, bufferSize, all, u, a, e);
    case _ =>
  }

  lemma NewcomerAccounts<E>(next: Extents, all: seq<Delta>)
    ensures Accounts(next, all, Fresh<E>(next), NO_ACCOUNT)
  {
    assert all[..0] == [];
  }

  /** `g` has come by the updates in `all`, and `a` accounts for client id. */
  ghost predicate Accounted<C, E>(next: Extents, bufferSize: nat, g: Gateway<C, E>, all: seq<Delta>, a: Account,
                                  id: C)
  {
    && GatewayInv(next, bufferSize, g) && g.last == Fold(next, Blank(next), all)
    && (id in g.clients ==> Accounts(next, all, g.clients[id].user, a))
  }

  lemma StepAccounts<C, E>(next: Extents, bufferSize: nat, g: Gateway<C, E>, all: seq<Delta>, a: Account,
                           op: Op<C, E>, id: C)
    requires IsExtents(next) && 0 < bufferSize && Enabled(next, g, op) && Accounted(next, bufferSize, g, all, a, id)
    ensures Accounted(next, bufferSize, Step(next, bufferSize, g, op), all + SentBy(op),
                      AccountNext(bufferSize, g, |all|, a, op, id), id)
  {
    StepKeepsInv(next, bufferSize, g, op);
    var h, b := Step(next, bufferSize, g, op), AccountNext(bufferSize, g, |all|, a, op, id);
    if op.Event? {
      FoldConcat(next, Blank(next), all, op.updates);
      if id in g.clients {
        EventAccounts(next, bufferSize, all, g.last, g.clients[id].user, a, op.updates,
                      all + op.updates, h.clients[id].user, b);
      }
    } else {
      assert all + SentBy(op) == all;
      if op.Join? && op.id == id {
        NewcomerAccounts<E>(next, all);
      } else if id in g.clients && op.id == id {
        ClientAccounts(next, bufferSize, g, all, a, op, id);
      }
    }
  }

  function AccountAfter<C, E>(next: Extents, bufferSize: nat, g: Gateway<C, E>, n: nat, a: Account,
                              ops: seq<Op<C, E>>, id: C): Account
    decreases |ops|
  {
    if ops == [] then a
    else
      AccountAfter(next, bufferSize, Step(next, bufferSize, g, ops[0]), n + |SentBy(ops[0])|,
                   AccountNext(bufferSize, g, n, a, ops[0], id), ops[1..], id)
  }

  lemma NextSeen<C, E>(next: Extents, bufferSize: nat, g: Gateway<C, E>, all: seq<Delta>, a: Account,
                       op: Op<C, E>, id: C)
    requires Accounted(next, bufferSize, g, all, a, id) && id in g.clients
    ensures a.seen <= AccountNext(bufferSize, g, |all|, a, op, id).seen
  {}

  /** Here `h` is where the run leads, by the updates `whole`, and `b` the account of it. */
  lemma {:induction false} RunAccounts<C, E>(next: Extents, bufferSize: nat, g: Gateway<C, E>, all: seq<Delta>,
                                             a: Account, ops: seq<Op<C, E>>, id: C,
                                             h: Gateway<C, E>, whole: seq<Delta>, b: Account)
    requires IsExtents(next) && 0 < bufferSize && IsRun(next, bufferSize, g, ops)
    requires Accounted(next, bufferSize, g, all, a, id)
    requires h == Run(next, bufferSize, g, ops) && whole == all + Upstream(ops)
    requires b == AccountAfter(next, bufferSize, g, |all|, a, ops, id)
    ensures Accounted(next, bufferSize, h, whole, b, id)
    ensures id in g.clients ==> id in h.clients && a.seen <= b.seen
    decreases |ops|
  {
    if ops == [] {
      assert whole == all;
    } else {
      var op := ops[0];
      StepAccounts(next, bufferSize, g, all, a, op, id);
      if id in g.clients { NextSeen(next, bufferSize, g, all, a, op, id); }
      JoinSent(all, SentBy(op), Upstream(ops[1..]));
      RunAccounts(next, bufferSize, Step(next, bufferSize, g, op), all + SentBy(op),
                  AccountNext(bufferSize, g, |all|, a, op, id), ops[1..], id, h, whole, b);
    }
  }

  lemma AtPrefix(next: Extents, all: seq<Delta>, more: seq<Delta>, n: nat)
    requires n <= |all|
    ensures At(next, all + more, n) == At(next, all, n)
  {
    assert (all + more)[..n] == all[..n];
  }

  lemma JoinSent(a: seq<Delta>, b: seq<Delta>, c: seq<Delta>)
    ensures (a + b) + c == a + (b + c)
  {}

  // ---------- Main results ----------

  /** After every run, in terms of what the upstream sent: a client's view is the upstream value
      after some number of the updates; each queued element has exactly the masks of its
      stretch of updates and leads the view to the upstream value at the end of it; and the
      stretches, with what overflow holds back, follow each other without gap or overlap. */
  lemma EveryUpdateIsReportedOnce<C, E>(next: Extents, bufferSize: nat, ops: seq<Op<C, E>>, id: C)
    requires IsExtents(next) && 0 < bufferSize && IsRun(next, bufferSize, Initial<C, E>(next), ops)
    requires id in Run(next, bufferSize, Initial<C, E>(next), ops).clients
    ensures var g := Run(next, bufferSize, Initial<C, E>(next), ops);
            var a := AccountAfter(next, bufferSize, Initial<C, E>(next), 0, NO_ACCOUNT, ops, id);
            && g.last == At(next, Upstream(ops), |Upstream(ops)|)
            && Accounts(next, Upstream(ops), g.clients[id].user, a)
  {
    var all := Upstream(ops);
    var g := Run(next, bufferSize, Initial<C, E>(next), ops);
    var a := AccountAfter(next, bufferSize, Initial<C, E>(next), 0, NO_ACCOUNT, ops, id);
    assert [] + all == all && all[..|all|] == all;
    RunAccounts(next, bufferSize, Initial<C, E>(next), [], NO_ACCOUNT, ops, id, g, all, a);
  }

  /** A client never goes back: from any point of any run, its view moves on through what the
      upstream was. */
  lemma ViewsMoveOn<C, E>(next: Extents, bufferSize: nat, g: Gateway<C, E>, all: seq<Delta>, a: Account,
                          ops: seq<Op<C, E>>, id: C)
    requires IsExtents(next) && 0 < bufferSize && IsRun(next, bufferSize, g, ops)
    requires Accounted(next, bufferSize, g, all, a, id) && id in g.clients
    ensures var h := Run(next, bufferSize, g, ops);
            var whole := all + Upstream(ops);
            var b := AccountAfter(next, bufferSize, g, |all|, a, ops, id);
            && id in h.clients && a.seen <= b.seen <= |whole|
            && g.clients[id].user.view == At(next, whole, a.seen) && h.clients[id].user.view == At(next, whole, b.seen)
  {
    var h := Run(next, bufferSize, g, ops);
    var b := AccountAfter(next, bufferSize, g, |all|, a, ops, id);
    RunAccounts(next, bufferSize, g, all, a, ops, id, h, all + Upstream(ops), b);
    AtPrefix(next, all, Upstream(ops), a.seen);
  }

  // ---------- Running ----------

  /** Whether the last start() or stop() of the client was a start(). */
  predicate StartedAfter<C(==), E(==)>(ops: seq<Op<C, E>>, id: C, was: bool)
    decreases |ops|
  {
    if ops == [] then was
    else
      var op := ops[0];
      StartedAfter(ops[1..], id, if op.Start? && op.id == id then true else was && op != Op.Stop(id))
  }

  lemma {:induction false} RunningIsStarted<C, E>(next: Extents, bufferSize: nat, g: Gateway<C, E>,
                                                  ops: seq<Op<C, E>>, id: C)
    requires IsRun(next, bufferSize, g, ops) && id in g.clients
    ensures id in Run(next, bufferSize, g, ops).clients
    ensures Run(next, bufferSize, g, ops).clients[id].user.running
            <==> StartedAfter(ops, id, g.clients[id].user.running)
    decreases |ops|
  {
    if ops != [] {
      RunningStep(next, bufferSize, g, ops[0], id);
      RunningIsStarted(next, bufferSize, Step(next, bufferSize, g, ops[0]), ops[1..], id);
    }
  }

  lemma {:induction false} UpdatesLeaveRunning<E>(next: Extents, last: Value, u: User<E>, updates: seq<Delta>)
    ensures UpdateUser(next, last, u, updates).running == u.running
    decreases |updates|
  {
    if updates != [] {
      var d := Accumulated(next, last, updates[0]);
      UpdatesLeaveRunning(next, d.value, Update(next, u, d), updates[1..]);
    }
  }

  lemma RunningStep<C, E>(next: Extents, bufferSize: nat, g: Gateway<C, E>, op: Op<C, E>, id: C)
    requires Enabled(next, g, op) && id in g.clients
    ensures id in Step(next, bufferSize, g, op).clients
    ensures Step(next, bufferSize, g, op).clients[id].user.running
            <==> (op.Start? && op.id == id) || (g.clients[id].user.running && op != Op.Stop(id))
  {
    if op.Event? { UpdatesLeaveRunning(next, g.last, g.clients[id].user, op.updates); }
  }

  // ---------- Notifications ----------

  ghost predicate Wakes<C, E>(next: Extents, bufferSize: nat, g: Gateway<C, E>, op: Op<C, E>, id: C)
    requires id in g.clients
  {
    var h := Step(next, bufferSize, g, op);
    && (op.Event? || (op.Start? && op.id == id))
    && g.clients[id].user.filled == [] && id in h.clients && h.clients[id].user.filled != []
  }

  /** How often an event or a start() of the client leads from an empty queue to one which is not. */
  ghost function Wakeups<C, E>(next: Extents, bufferSize: nat, g: Gateway<C, E>, ops: seq<Op<C, E>>, id: C): nat
    requires id in g.clients
    decreases |ops|
  {
    if ops == [] then 0
    else
      var h := Step(next, bufferSize, g, ops[0]);
      (if Wakes(next, bufferSize, g, ops[0], id) then 1 else 0)
      + if id in h.clients then Wakeups(next, bufferSize, h, ops[1..], id) else 0
  }

  function Notified<C(==), E(==)>(ops: seq<Op<C, E>>, id: C): nat
    decreases |ops|
  {
    if ops == [] then 0 else (if ops[0] == Notify(id) then 1 else 0) + Notified(ops[1..], id)
  }

  /** The client is notified just as often: what it was not notified of yet is on its way. */
  lemma {:induction false} WakeupsAreNotified<C, E>(next: Extents, bufferSize: nat, g: Gateway<C, E>,
                                                    ops: seq<Op<C, E>>, id: C)
    requires IsRun(next, bufferSize, g, ops) && id in g.clients
    ensures id in Run(next, bufferSize, g, ops).clients
    ensures Run(next, bufferSize, g, ops).clients[id].pending + Notified(ops, id)
            == g.clients[id].pending + Wakeups(next, bufferSize, g, ops, id)
    decreases |ops|
  {
    if ops != [] { WakeupsAreNotified(next, bufferSize, Step(next, bufferSize, g, ops[0]), ops[1..], id); }
  }
}
