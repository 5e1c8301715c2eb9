/** The gateway's cache of upstream channels, kept by name, and the cleaner which gives every
    entry a second chance.
 */
module ChannelCacheSpec {
  /** What createChannel() gave the entry: nothing, so far or for good, or a channel. */
  datatype Upstream = NoChannel | Channel(connected: bool)

  datatype Entry = Entry(name: string, upstream: Upstream, poke: bool, interested: set<nat>)

  /** All entries ever made, in order, and the cache: for each name the number of its entry.
      An entry which is out of the cache lives on while clients hold it. */
  datatype Cache = Cache(made: seq<Entry>, entries: map<string, nat>)

  datatype Op =
    | Lookup(name: string)
    | Connection(id: nat, connected: bool)
    | Dropped(id: nat)
    | Attach(id: nat, client: nat)
    | Detach(id: nat, client: nat)
    | Clean

  const EMPTY := Cache([], map[])

  ghost predicate WellFormed(c: Cache) {
    forall n :: n in c.entries ==> c.entries[n] < |c.made| && c.made[c.entries[n]].name == n
  }

  predicate Cached(c: Cache, id: nat) {
    id < |c.made| && c.made[id].name in c.entries && c.entries[c.made[id].name] == id
  }

  /** A channel reports to its entry, as long as the cache or a client holds that. */
  predicate Reports(c: Cache, id: nat) {
    id < |c.made| && c.made[id].upstream != NoChannel && (Cached(c, id) || c.made[id].interested != {})
  }

  predicate Wanted(e: Entry) {
    e.poke || e.interested != {}
  }

  /** The cache without the entries nobody wants. */
  function Kept(c: Cache): map<string, nat>
    requires WellFormed(c)
  {
    map n | n in c.entries && Wanted(c.made[c.entries[n]]) :: c.entries[n]
  }

  function Unpoked(c: Cache): (made: seq<Entry>)
    ensures |made| == |c.made|
    ensures forall i :: 0 <= i < |made|
              ==> made[i] == if Cached(c, i) then c.made[i].(poke := false) else c.made[i]
  {
    seq(|c.made|, i requires 0 <= i < |c.made| =>
      if Cached(c, i) then c.made[i].(poke := false) else c.made[i])
  }

  function Replaced(c: Cache, id: nat, e: Entry): (next: Cache)
    requires WellFormed(c) && id < |c.made| && e.name == c.made[id].name
    ensures WellFormed(next)
  {
    c.(made := c.made[id := e])
  }

  function LookedUpNow(c: Cache, n: string): (next: Cache)
    requires WellFormed(c)
    ensures WellFormed(next) && n in next.entries
  {
    if n !in c.entries then
      Cache(c.made + [Entry(n, NoChannel, true, {})], c.entries[n := |c.made|])
    else
      Replaced(c, c.entries[n], c.made[c.entries[n]].(poke := true))
  }

  function Step(c: Cache, op: Op): (next: Cache)
    requires WellFormed(c)
    ensures WellFormed(next)
  {
    match op
    case Lookup(n) => LookedUpNow(c, n)
    case Clean => Cache(Unpoked(c), Kept(c))
    case Connection(id, up) =>
      if |c.made| <= id then c else Replaced(c, id, c.made[id].(upstream := Channel(up)))
    case Dropped(id) =>
      if !Reports(c, id) then c
      else Replaced(c, id, c.made[id].(upstream := Channel(false))).(entries := c.entries - {c.made[id].name})
    case Attach(id, client) =>
      if |c.made| <= id then c
      else Replaced(c, id, c.made[id].(interested := c.made[id].interested + {client}))
    case Detach(id, client) =>
      if |c.made| <= id then c
      else Replaced(c, id, c.made[id].(interested := c.made[id].interested - {client}))
  }

  /** One step keeps the name, and what else is said of an entry, unless the step is about it. */
  lemma StepEntry(c: Cache, op: Op, id: nat)
    requires WellFormed(c) && id < |c.made|
    ensures id < |Step(c, op).made|
    ensures Step(c, op).made[id].name == c.made[id].name
    ensures c.made[id].interested == {} && (op.Attach? ==> op.id != id)
            ==> Step(c, op).made[id].interested == {}
    ensures (op.Connection? ==> op.id != id) && (op.Dropped? ==> op.id != id || c.made[id].upstream == NoChannel)
            ==> Step(c, op).made[id].upstream == c.made[id].upstream
  {
  }

  /** What takes a name out of the cache, what brings it in, and what its flag is then. */
  lemma StepName(c: Cache, op: Op, n: string)
    requires WellFormed(c)
    ensures n !in c.entries ==> (n in Step(c, op).entries <==> op == Lookup(n))
    ensures n in c.entries ==>
              (n !in Step(c, op).entries <==>
                || (op == Clean && !Wanted(c.made[c.entries[n]]))
                || (op.Dropped? && Reports(c, op.id) && c.made[op.id].name == n))
    ensures n in Step(c, op).entries ==>
              Step(c, op).entries[n] == if n in c.entries then c.entries[n] else |c.made|
    ensures n in Step(c, op).entries ==>
              (Step(c, op).made[Step(c, op).entries[n]].poke <==>
                op == Lookup(n) || (op != Clean && n in c.entries && c.made[c.entries[n]].poke))
  {}

  /** A name is found when its entry has a connected channel. */
  predicate Finds(c: Cache, n: string)
    requires WellFormed(c)
  {
    n in c.entries && c.made[c.entries[n]].upstream == Channel(true)
  }

  // ---------- The cleaner, one entry at a time ----------

  /** What the cleaner does with the entry of name n. */
  function Visited(c: Cache, n: string): (next: Cache)
    requires WellFormed(c) && n in c.entries
    ensures WellFormed(next)
  {
    var e := c.made[c.entries[n]];
    if Wanted(e) then Replaced(c, c.entries[n], e.(poke := false)) else c.(entries := c.entries - {n})
  }

  lemma VisitedCount(c: Cache, n: string)
    requires WellFormed(c) && n in c.entries
    ensures |Visited(c, n).entries| == |c.entries| - if n in Visited(c, n).entries then 0 else 1
  {}

  /** A cleaning which still has the names in `rest` to visit. */
  function Swept(c: Cache, rest: set<string>): (next: Cache)
    requires WellFormed(c)
    ensures WellFormed(next)
    ensures |next.made| == |c.made|
  {
    Cache(seq(|c.made|, i requires 0 <= i < |c.made| =>
                if Cached(c, i) && c.made[i].name !in rest then c.made[i].(poke := false) else c.made[i]),
          map n | n in c.entries && (n in rest || Wanted(c.made[c.entries[n]])) :: c.entries[n])
  }

  lemma SweptVisit(c: Cache, rest: set<string>, n: string)
    requires WellFormed(c) && rest <= c.entries.Keys && n in rest
    ensures Visited(Swept(c, rest), n) == Swept(c, rest - {n})
  {}

  lemma SweptEnd(c: Cache)
    requires WellFormed(c)
    ensures Swept(c, {}) == Step(c, Clean)
  {
    assert Swept(c, {}).made == Unpoked(c);
    assert Swept(c, {}).entries == Kept(c);
  }

  function VisitedAll(c: Cache, names: seq<string>): (next: Cache)
    requires WellFormed(c)
    ensures WellFormed(next)
  {
    if names == [] then c
    else
      var before := VisitedAll(c, names[..|names| - 1]);
      if names[|names| - 1] in before.entries then Visited(before, names[|names| - 1]) else before
  }

  /** How many entries the cleaner erases on the way. */
  function Dust(c: Cache, names: seq<string>): nat
    requires WellFormed(c)
  {
    if names == [] then 0
    else
      var before := VisitedAll(c, names[..|names| - 1]);
      var last := names[|names| - 1];
      var more := if last in before.entries && last !in VisitedAll(c, names).entries then 1 else 0;
      Dust(c, names[..|names| - 1]) + more
  }

  lemma VisitedSnoc(c: Cache, names: seq<string>, n: string)
    requires WellFormed(c) && n in VisitedAll(c, names).entries
    ensures VisitedAll(c, names + [n]) == Visited(VisitedAll(c, names), n)
    ensures Dust(c, names + [n])
         == Dust(c, names) + if n in Visited(VisitedAll(c, names), n).entries then 0 else 1
  {
    assert (names + [n])[..|names + [n]| - 1] == names;
  }

  /** The cleaner's next step. */
  lemma NextVisit(c: Cache, names: seq<string>, k: nat)
    requires WellFormed(c) && Lists(names, c) && k < |names|
    ensures var now := VisitedAll(c, names[..k]);
            && names[k] in now.entries
            && VisitedAll(c, names[..k + 1]) == Visited(now, names[k])
            && Dust(c, names[..k + 1])
               == Dust(c, names[..k]) + if names[k] in Visited(now, names[k]).entries then 0 else 1
  {
    VisitedKeepsRest(c, names, k, names[k]);
    VisitedSnoc(c, names[..k], names[k]);
    assert names[..k + 1] == names[..k] + [names[k]];
  }

  lemma {:induction false} DustIsWhatIsGone(c: Cache, names: seq<string>)
    requires WellFormed(c)
    ensures Dust(c, names) == |c.entries| - |VisitedAll(c, names).entries|
  {
    if names != [] {
      var before, last := VisitedAll(c, names[..|names| - 1]), names[|names| - 1];
      DustIsWhatIsGone(c, names[..|names| - 1]);
      if last in before.entries { VisitedCount(before, last); }
    }
  }

  /** No name comes twice. */
  predicate Once(names: seq<string>) {
    forall i, j :: 0 <= i < j < |names| ==> names[i] != names[j]
  }

  /** The order in which the cleaner comes by the names. */
  ghost predicate Lists(names: seq<string>, c: Cache) {
    Once(names) && forall n :: n in names <==> n in c.entries
  }

  /** An entry not visited yet is still in the cache. */
  lemma {:induction false} VisitedKeepsRest(c: Cache, names: seq<string>, k: nat, n: string)
    requires WellFormed(c) && Lists(names, c) && k <= |names| && n in names[k..]
    ensures n in VisitedAll(c, names[..k]).entries
  {
    if 0 < k {
      assert names[..k][..k - 1] == names[..k - 1];
      VisitedKeepsRest(c, names, k - 1, n);
    }
  }

  lemma {:induction false} VisitedIsSwept(c: Cache, names: seq<string>)
    requires WellFormed(c) && Once(names) && forall i :: 0 <= i < |names| ==> names[i] in c.entries
    ensures VisitedAll(c, names) == Swept(c, set n | n in c.entries && n !in names)
  {
    var rest := set n | n in c.entries && n !in names;
    if names == [] {
      assert Swept(c, rest).made == c.made;
      assert Swept(c, rest).entries == c.entries;
    } else {
      var before, last := names[..|names| - 1], names[|names| - 1];
      var more := set n | n in c.entries && n !in before;
      assert names == before + [last];
      assert rest == more - {last};
      VisitedIsSwept(c, before);
      SweptVisit(c, more, last);
    }
  }

  /** Visiting every entry once, in any order, and erasing on the way, is the same as a filter. */
  lemma VisitingAllCleans(c: Cache, names: seq<string>)
    requires WellFormed(c) && Lists(names, c)
    ensures VisitedAll(c, names) == Step(c, Clean)
    ensures Dust(c, names) == |c.entries| - |Step(c, Clean).entries|
  {
    DustIsWhatIsGone(c, names);
    var none := set n | n in c.entries && n !in names;
    assert none == {};
    VisitedIsSwept(c, names);
    SweptEnd(c);
  }

  // ---------- Runs ----------

  function Run(c: Cache, ops: seq<Op>): (end: Cache)
    requires WellFormed(c)
    ensures WellFormed(end)
  {
    if ops == [] then c else Step(Run(c, ops[..|ops| - 1]), ops[|ops| - 1])
  }

  /** Name n was looked up after the last cleaning. */
  predicate LookedUp(ops: seq<Op>, n: string) {
    if ops == [] || ops[|ops| - 1] == Clean then false
    else ops[|ops| - 1] == Lookup(n) || LookedUp(ops[..|ops| - 1], n)
  }

  function Cleanings(ops: seq<Op>): nat {
    if ops == [] then 0
    else Cleanings(ops[..|ops| - 1]) + if ops[|ops| - 1] == Clean then 1 else 0
  }

  /** The flag of a cached entry tells whether its name was looked up since the last cleaning. */
  lemma {:induction false} PokeMeansLookedUp(ops: seq<Op>, n: string)
    requires n in Run(EMPTY, ops).entries
    ensures Run(EMPTY, ops).made[Run(EMPTY, ops).entries[n]].poke <==> LookedUp(ops, n)
  {
    if ops != [] {
      var before := Run(EMPTY, ops[..|ops| - 1]);
      StepName(before, ops[|ops| - 1], n);
      if n in before.entries { PokeMeansLookedUp(ops[..|ops| - 1], n); }
      else { assert ops[|ops| - 1] == Lookup(n); }
    }
  }

  /** What was last reported of the channel of entry id, once there is one. */
  function LastReport(ops: seq<Op>, id: nat): Upstream {
    if ops == [] then NoChannel
    else
      var before, op := Run(EMPTY, ops[..|ops| - 1]), ops[|ops| - 1];
      if op.Connection? && op.id == id && id < |before.made| then Channel(op.connected)
      else if op == Dropped(id) && Reports(before, id) then Channel(false)
      else LastReport(ops[..|ops| - 1], id)
  }

  lemma StepUpstream(c: Cache, op: Op, id: nat)
    requires WellFormed(c) && id < |Step(c, op).made|
    ensures Step(c, op).made[id].upstream ==
            if op.Connection? && op.id == id then Channel(op.connected)
            else if op == Dropped(id) && Reports(c, id) then Channel(false)
            else if id < |c.made| then c.made[id].upstream
            else NoChannel
  {}

  lemma {:induction false} UpstreamIsLastReport(ops: seq<Op>, id: nat)
    ensures LastReport(ops, id)
            == if id < |Run(EMPTY, ops).made| then Run(EMPTY, ops).made[id].upstream else NoChannel
  {
    if ops != [] {
      UpstreamIsLastReport(ops[..|ops| - 1], id);
      if id < |Run(EMPTY, ops).made| { StepUpstream(Run(EMPTY, ops[..|ops| - 1]), ops[|ops| - 1], id); }
    }
  }

  /** After every run, a name is found exactly when it is cached and the last that was reported
      of its channel is that it is connected: a channel which connects still is not found. */
  lemma FoundIsExact(ops: seq<Op>, n: string)
    ensures var c := Run(EMPTY, ops);
            Finds(c, n) <==> n in c.entries && LastReport(ops, c.entries[n]) == Channel(true)
  {
    var c := Run(EMPTY, ops);
    if n in c.entries { UpstreamIsLastReport(ops, c.entries[n]); }
  }

  /** The client has joined entry id and not left it since. */
  predicate Joined(ops: seq<Op>, id: nat, client: nat) {
    ops != []
    && (var before, op := ops[..|ops| - 1], ops[|ops| - 1];
        if op == Attach(id, client) && id < |Run(EMPTY, before).made| then true
        else op != Detach(id, client) && Joined(before, id, client))
  }

  predicate Interests(c: Cache, id: nat, client: nat) {
    id < |c.made| && client in c.made[id].interested
  }

  lemma StepInterests(c: Cache, op: Op, id: nat, client: nat)
    requires WellFormed(c)
    ensures Interests(Step(c, op), id, client)
            <==> (op == Attach(id, client) && id < |c.made|)
                 || (op != Detach(id, client) && Interests(c, id, client))
  {}

  /** An entry has exactly the clients which have joined it and not left. */
  lemma {:induction false} InterestedIsJoined(ops: seq<Op>, id: nat, client: nat)
    ensures Joined(ops, id, client) <==> Interests(Run(EMPTY, ops), id, client)
  {
    if ops != [] {
      InterestedIsJoined(ops[..|ops| - 1], id, client);
      StepInterests(Run(EMPTY, ops[..|ops| - 1]), ops[|ops| - 1], id, client);
    }
  }

  lemma AnyIsJoined(ops: seq<Op>, id: nat)
    requires id < |Run(EMPTY, ops).made|
    ensures Run(EMPTY, ops).made[id].interested != {} <==> exists client :: Joined(ops, id, client)
  {
    var clients := Run(EMPTY, ops).made[id].interested;
    if clients != {} {
      var client :| client in clients;
      InterestedIsJoined(ops, id, client);
    }
    if client :| Joined(ops, id, client) { InterestedIsJoined(ops, id, client); }
  }

  /** In every run, a cleaning takes out exactly the entries whose clients have all left, and
      whose name was not looked up since the cleaning before it. */
  lemma CleaningIsExact(ops: seq<Op>, n: string)
    ensures var c := Run(EMPTY, ops);
            n in Step(c, Clean).entries
            <==> n in c.entries && (LookedUp(ops, n) || exists client :: Joined(ops, c.entries[n], client))
  {
    var c := Run(EMPTY, ops);
    if n in c.entries {
      PokeMeansLookedUp(ops, n);
      AnyIsJoined(ops, c.entries[n]);
    }
  }

  /** An entry with no clients whose name nobody looks up is out of the cache after two
      cleanings, whatever else happens, and its name is not in the cache either. */
  lemma {:induction false} GoneAfterTwoCleanings(c: Cache, ops: seq<Op>, id: nat)
    requires WellFormed(c) && Cached(c, id) && c.made[id].interested == {}
    requires forall k :: 0 <= k < |ops| ==> ops[k] != Lookup(c.made[id].name)
    requires forall k :: 0 <= k < |ops| && ops[k].Attach? ==> ops[k].id != id
    ensures 2 <= Cleanings(ops) ==> c.made[id].name !in Run(c, ops).entries
    ensures var end := Run(c, ops);
            && id < |end.made| && end.made[id].name == c.made[id].name && end.made[id].interested == {}
            && (c.made[id].name in end.entries ==> Cached(end, id))
            && (1 <= Cleanings(ops) && Cached(end, id) ==> !end.made[id].poke)
  {
    if ops != [] {
      GoneAfterTwoCleanings(c, ops[..|ops| - 1], id);
      var before := Run(c, ops[..|ops| - 1]);
      StepEntry(before, ops[|ops| - 1], id);
      StepName(before, ops[|ops| - 1], c.made[id].name);
    }
  }

  /** At every cleaning in the run, entry id is wanted, and no channel of its name drops. */
  predicate Held(c: Cache, ops: seq<Op>, id: nat)
    requires WellFormed(c)
  {
    ops == []
    || (var before, op := Run(c, ops[..|ops| - 1]), ops[|ops| - 1];
        && Held(c, ops[..|ops| - 1], id) && id < |before.made|
        && (op == Clean ==> Wanted(before.made[id]))
        && (op.Dropped? && Reports(before, op.id) ==> before.made[op.id].name != before.made[id].name))
  }

  /** An entry stays in the cache through a run exactly as long as it is wanted at each
      cleaning and no channel of its name drops. */
  lemma {:induction false} StaysExactlyWhileHeld(c: Cache, ops: seq<Op>, id: nat)
    requires WellFormed(c) && Cached(c, id)
    ensures id < |Run(c, ops).made| && Run(c, ops).made[id].name == c.made[id].name
    ensures Cached(Run(c, ops), id) <==> Held(c, ops, id)
  {
    if ops != [] {
      var before, op := Run(c, ops[..|ops| - 1]), ops[|ops| - 1];
      StaysExactlyWhileHeld(c, ops[..|ops| - 1], id);
      StepEntry(before, op, id);
      StepName(before, op, c.made[id].name);
      if !Cached(before, id) { OutStaysOut(before, op, id); }
    }
  }

  /** What left the cache does not come back: the name gets a new entry. */
  lemma OutStaysOut(c: Cache, op: Op, id: nat)
    requires WellFormed(c) && id < |c.made| && !Cached(c, id)
    ensures !Cached(Step(c, op), id)
  {}

  /** When createChannel() fails the entry stays without a channel, and as long as the entry
      is cached it hides the name: lookups find nothing and make no new entry. */
  lemma {:induction false} FailedCreationHidesName(c: Cache, ops: seq<Op>, id: nat)
    requires WellFormed(c) && Cached(c, id) && c.made[id].upstream == NoChannel
    requires forall k :: 0 <= k < |ops| && ops[k].Connection? ==> ops[k].id != id
    ensures id < |Run(c, ops).made| && Run(c, ops).made[id].upstream == NoChannel
    ensures Held(c, ops, id) ==> !Finds(Run(c, ops), c.made[id].name)
    ensures Held(c, ops, id) ==> Step(Run(c, ops), Lookup(c.made[id].name)).entries == Run(c, ops).entries
  {
    StaysExactlyWhileHeld(c, ops, id);
    if ops != [] {
      FailedCreationHidesName(c, ops[..|ops| - 1], id);
      StepEntry(Run(c, ops[..|ops| - 1]), ops[|ops| - 1], id);
    }
  }

  // ---------- Entries are dropped by name ----------

  /** When a channel drops, only its own entry leaves the cache, exactly when no other entry
      has taken its name. */
  lemma DropIsExact(c: Cache, id: nat)
    requires WellFormed(c) && Reports(c, id)
    ensures (forall other: nat :: other != id && Cached(c, other) ==> Cached(Step(c, Dropped(id)), other))
            <==> (c.made[id].name in c.entries ==> c.entries[c.made[id].name] == id)
  {
    var n := c.made[id].name;
    if n in c.entries && c.entries[n] != id {
      assert Cached(c, c.entries[n]) && !Cached(Step(c, Dropped(id)), c.entries[n]);
    }
  }

  lemma RunSnoc(c: Cache, ops: seq<Op>, op: Op)
    requires WellFormed(c)
    ensures Run(c, ops + [op]) == Step(Run(c, ops), op)
  {
    assert (ops + [op])[..|ops + [op]| - 1] == ops;
  }

  /** An entry out of the cache, which client 3 holds, and a connected one with client 7. */
  const REPLACED := Cache([Entry("x", Channel(false), true, {3}), Entry("x", Channel(true), true, {7})], map["x" := 1])

  /** And another can have: the channel reports that it is disconnected, the name is looked
      up again, and later the channel, which a client still holds, reports once more.  That
      takes a connected entry with a client out of the cache. */
  lemma LateDropTakesReplacement()
    ensures Run(EMPTY, [Lookup("x"), Connection(0, true), Attach(0, 3), Dropped(0),
                        Lookup("x"), Connection(1, true), Attach(1, 7)]) == REPLACED
    ensures Reports(REPLACED, 0) && Cached(REPLACED, 1) && Finds(REPLACED, "x")
    ensures "x" !in Step(REPLACED, Dropped(0)).entries
  {
    FirstIsDropped();
    var ops := [Lookup("x"), Connection(0, true), Attach(0, 3), Dropped(0)];
    var none: set<nat> := {};
    assert none + {7} == {7};
    var gone := Entry("x", Channel(false), true, {3});
    var c := Step(Cache([gone], map[]), Lookup("x"));
    assert c.made == [gone, Entry("x", NoChannel, true, {})];
    var d := Step(c, Connection(1, true));
    assert d.made == [gone, Entry("x", Channel(true), true, {})];
    assert Step(d, Attach(1, 7)).made == REPLACED.made && d.entries == REPLACED.entries;
    RunSnoc(EMPTY, ops, Lookup("x"));
    RunSnoc(EMPTY, ops + [Lookup("x")], Connection(1, true));
    RunSnoc(EMPTY, ops + [Lookup("x")] + [Connection(1, true)], Attach(1, 7));
    assert ops + [Lookup("x")] + [Connection(1, true)] + [Attach(1, 7)]
        == [Lookup("x"), Connection(0, true), Attach(0, 3), Dropped(0),
            Lookup("x"), Connection(1, true), Attach(1, 7)];
  }

  lemma FirstIsDropped()
    ensures Run(EMPTY, [Lookup("x"), Connection(0, true), Attach(0, 3), Dropped(0)])
            == Cache([Entry("x", Channel(false), true, {3})], map[])
  {
    var c := Step(EMPTY, Lookup("x"));
    assert c.made == [Entry("x", NoChannel, true, {})];
    var d := Step(c, Connection(0, true));
    assert d.made == [Entry("x", Channel(true), true, {})];
    var none: set<nat> := {};
    assert none + {3} == {3};
    var e := Step(d, Attach(0, 3));
    assert e.made == [Entry("x", Channel(true), true, {3})] && e.entries == map["x" := 0];
    assert Step(e, Dropped(0)).made == [Entry("x", Channel(false), true, {3})];
    assert Step(e, Dropped(0)).entries == map[];
    RunSnoc(EMPTY, [], Lookup("x"));
    RunSnoc(EMPTY, [Lookup("x")], Connection(0, true));
    RunSnoc(EMPTY, [Lookup("x"), Connection(0, true)], Attach(0, 3));
    RunSnoc(EMPTY, [Lookup("x"), Connection(0, true), Attach(0, 3)], Dropped(0));
    assert [] + [Lookup("x")] == [Lookup("x")];
    assert [Lookup("x")] + [Connection(0, true)] == [Lookup("x"), Connection(0, true)];
    assert [Lookup("x"), Connection(0, true)] + [Attach(0, 3)] == [Lookup("x"), Connection(0, true), Attach(0, 3)];
    assert [Lookup("x"), Connection(0, true), Attach(0, 3)] + [Dropped(0)]
        == [Lookup("x"), Connection(0, true), Attach(0, 3), Dropped(0)];
  }
}
