/** From the configuration of a group to its members and their trigger lists.

    Triggers are configured by name, members are sorted and then only those with a channel
    are kept, and the triggers end as indices among those.
 */
module GroupCompile {
  import opened FieldPath

  /** One field of the configuration; the fields of a group have distinct names.  A field
      without a channel only shapes the structure. */
  datatype Field = Field(name: string, channel: string, trigger: string, putorder: int)

  datatype Member = Member(name: string, channel: string, putorder: int, triggers: set<string>)

  /** A member of the finished group. */
  datatype Info = Info(name: string, channel: string, putorder: int, triggers: seq<nat>)

  // ---------- What a configuration means ----------

  ghost predicate DistinctNames(fields: seq<Field>) {
    forall i, j :: 0 <= i < j < |fields| ==> fields[i].name != fields[j].name
  }

  ghost function WithChannel(fields: seq<Field>): set<string> {
    set f | f in fields && f.channel != "" :: f.name
  }

  function SetOf(q: seq<string>): set<string> {
    if q == [] then {} else SetOf(q[..|q| - 1]) + {q[|q| - 1]}
  }

  function Targets(trigger: string): set<string> {
    SetOf(Split(trigger, ','))
  }

  ghost predicate AnyTriggers(fields: seq<Field>) {
    exists i :: 0 <= i < |fields| && fields[i].trigger != ""
  }

  /** The members which are posted on an event of a field: those it names, all for "*", or
      itself when no field of the group names any. */
  ghost function Declared(fields: seq<Field>, f: Field): set<string> {
    if !AnyTriggers(fields) then {f.name}
    else if f.trigger == "" then {}
    else Chosen(Targets(f.trigger), WithChannel(fields))
  }

  ghost function Chosen(targets: set<string>, channels: set<string>): set<string> {
    set t | t in channels && (t in targets || "*" in targets)
  }

  // ---------- Sorting ----------

  predicate Sorted(ms: seq<Member>) {
    forall i, j :: 0 <= i < j < |ms| ==> ms[i].putorder <= ms[j].putorder
  }

  method Insert(r: seq<Member>, m: Member) returns (q: seq<Member>)
    requires Sorted(r)
    ensures Sorted(q) && multiset(q) == multiset(r) + multiset{m}
  {
    var k := 0;
    while k < |r| && r[k].putorder <= m.putorder
      invariant 0 <= k <= |r|
      invariant forall j :: 0 <= j < k ==> r[j].putorder <= m.putorder
    {
      k := k + 1;
    }
    assert r == r[..k] + r[k..];
    q := r[..k] + [m] + r[k..];
  }

  /** All that is relied on of the library's sort: it need not be stable. */
  method SortMembers(members: seq<Member>) returns (r: seq<Member>)
    ensures Sorted(r) && multiset(r) == multiset(members)
  {
    r := [];
    for i := 0 to |members|
      invariant Sorted(r) && multiset(r) == multiset(members[..i])
    {
      r := Insert(r, members[i]);
      assert members[..i + 1] == members[..i] + [members[i]];
    }
    assert members[..|members|] == members;
  }

  // ---------- Gathering ----------

  /** The member which a field gives. */
  function AsMember(f: Field): Member {
    Member(f.name, f.channel, f.putorder, {})
  }

  /** The named triggers of a group, by source. */
  function TriggerMap(fields: seq<Field>): map<string, set<string>> {
    if fields == [] then map[]
    else
      var f := fields[|fields| - 1];
      var m := TriggerMap(fields[..|fields| - 1]);
      if f.trigger == "" then m else m[f.name := Targets(f.trigger)]
  }

  lemma {:induction false} TriggerMapAt(fields: seq<Field>)
    requires DistinctNames(fields)
    ensures forall s :: s in TriggerMap(fields) ==> exists i :: 0 <= i < |fields| && fields[i].name == s
    ensures forall i :: 0 <= i < |fields| ==>
              if fields[i].trigger == "" then fields[i].name !in TriggerMap(fields)
              else
                && fields[i].name in TriggerMap(fields)
                && TriggerMap(fields)[fields[i].name] == Targets(fields[i].trigger)
  {
    if fields != [] {
      var k := |fields| - 1;
      TriggerMapAt(fields[..k]);
      var m := TriggerMap(fields[..k]);
      forall s | s in TriggerMap(fields) ensures exists i :: 0 <= i < |fields| && fields[i].name == s {
        if s != fields[k].name {
          var i :| 0 <= i < k && fields[..k][i].name == s;
          assert fields[i].name == s;
        }
      }
      forall i | 0 <= i < k ensures fields[..k][i] == fields[i] && fields[i].name != fields[k].name {}
      assert fields[k].name !in m;
    }
  }

  method GatherTargets(trigger: string) returns (targets: set<string>)
    ensures targets == Targets(trigger)
  {
    targets := {};
    var sep := new Splitter(trigger, ',');
    ghost var all := Split(trigger, ',');
    ghost var done: seq<string> := [];
    var ok, target := sep.Snip();
    while ok
      invariant sep.Valid() && fresh(sep)
      invariant (if ok then done + [target] + sep.rest else done) == all
      invariant targets == SetOf(done)
      decreases |all| - |done|, ok
    {
      targets := targets + {target};
      SetOfSnoc(done, target);
      done := done + [target];
      ok, target := sep.Snip();
    }
  }

  lemma SetOfSnoc(q: seq<string>, t: string)
    ensures SetOf(q + [t]) == SetOf(q) + {t}
  {
    assert (q + [t])[..|q|] == q;
  }

  method Gather(fields: seq<Field>)
    returns (members: seq<Member>, triggers: map<string, set<string>>, hastriggers: bool)
    ensures |members| == |fields| && forall i :: 0 <= i < |fields| ==> members[i] == AsMember(fields[i])
    ensures triggers == TriggerMap(fields)
    ensures hastriggers <==> AnyTriggers(fields)
  {
    members, triggers, hastriggers := [], map[], false;
    for i := 0 to |fields|
      invariant |members| == i && forall k :: 0 <= k < i ==> members[k] == AsMember(fields[k])
      invariant triggers == TriggerMap(fields[..i])
      invariant hastriggers <==> exists k :: 0 <= k < i && fields[k].trigger != ""
    {
      var fld := fields[i];
      members := members + [AsMember(fld)];
      assert fields[..i + 1][..i] == fields[..i];
      if fld.trigger != "" {
        hastriggers := true;
        var targets := GatherTargets(fld.trigger);
        triggers := triggers[fld.name := targets];
      }
    }
    assert fields[..|fields|] == fields;
  }

  // ---------- Names and indices ----------

  ghost predicate DistinctMembers(ms: seq<Member>) {
    forall i, j :: 0 <= i < j < |ms| ==> ms[i].name != ms[j].name
  }

  ghost function Channels(ms: seq<Member>): set<string> {
    set m | m in ms && m.channel != "" :: m.name
  }

  ghost predicate Indexes(index: map<string, nat>, names: seq<string>) {
    && (forall i :: 0 <= i < |names| ==> names[i] in index && index[names[i]] == i)
    && (forall s :: s in index ==> index[s] < |names| && names[index[s]] == s)
  }

  function Names(ms: seq<Member>): (r: seq<string>)
    ensures |r| == |ms|
    ensures forall i :: 0 <= i < |ms| ==> r[i] == ms[i].name
  {
    seq(|ms|, i requires 0 <= i < |ms| => ms[i].name)
  }

  lemma {:induction false} CountsOnce(ms: seq<Member>, m: Member)
    requires DistinctMembers(ms)
    ensures multiset(ms)[m] <= 1
  {
    if ms != [] {
      var k := |ms| - 1;
      assert ms == ms[..k] + [ms[k]];
      CountsOnce(ms[..k], m);
      if m == ms[k] { assert m !in ms[..k]; }
    }
  }

  lemma CountsTwice(r: seq<Member>, i: nat, j: nat)
    requires i < j < |r| && r[i] == r[j]
    ensures 2 <= multiset(r)[r[i]]
  {
    assert r == r[..j] + r[j..];
    assert r[i] in r[..j] && r[i] in r[j..];
  }

  /** Sorting keeps names distinct. */
  lemma PermutedNames(ms: seq<Member>, r: seq<Member>)
    requires DistinctMembers(ms) && multiset(r) == multiset(ms)
    ensures DistinctMembers(r) && |r| == |ms| && Channels(r) == Channels(ms)
    ensures forall m :: m in r <==> m in ms
  {
    assert |multiset(r)| == |multiset(ms)|;
    assert forall m :: m in r <==> m in multiset(r);
    assert forall m :: m in ms <==> m in multiset(ms);
    forall i, j | 0 <= i < j < |r| ensures r[i].name != r[j].name {
      assert r[i] in ms && r[j] in ms;
      if r[i] == r[j] {
        CountsTwice(r, i, j);
        CountsOnce(ms, r[i]);
      }
    }
  }

  method BuildIndex(members: seq<Member>) returns (index: map<string, nat>)
    requires DistinctMembers(members)
    ensures Indexes(index, Names(members))
  {
    index := map[];
    for i := 0 to |members|
      invariant Indexes(index, Names(members[..i]))
    {
      index := index[members[i].name := i];
    }
    assert members[..|members|] == members;
  }

  // ---------- Resolving ----------

  /** The targets of one source, as names of members with a channel.  A target which is no
      field of the group, or has no channel, is reported and left out. */
  method ResolveTargets(members: seq<Member>, index: map<string, nat>, targets: set<string>)
    returns (triggers: set<string>)
    requires Indexes(index, Names(members))
    ensures triggers == Chosen(targets, Channels(members))
  {
    triggers := {};
    var todo := targets;
    while todo != {}
      invariant todo <= targets
      invariant triggers == Chosen(targets - todo, Channels(members))
      decreases todo
    {
      var target :| target in todo;
      if target == "*" {
        triggers := InsertAll(members, triggers);
      } else if target in index {
        assert members[index[target]].name == target;
        if members[index[target]].channel != "" {
          assert members[index[target]] in members;
          triggers := triggers + {target};
        } else {
          OnlyOne(members, index, target);
        }
      }
      todo := todo - {target};
    }
  }

  lemma OnlyOne(members: seq<Member>, index: map<string, nat>, target: string)
    requires Indexes(index, Names(members)) && target in index && members[index[target]].channel == ""
    ensures target !in Channels(members)
  {}

  method InsertAll(members: seq<Member>, triggers: set<string>) returns (r: set<string>)
    ensures r == triggers + Channels(members)
  {
    r := triggers;
    for i := 0 to |members|
      invariant r == triggers + Channels(members[..i])
    {
      assert members[..i + 1] == members[..i] + [members[i]];
      ChannelsSnoc(members[..i], members[i]);
      if members[i].channel != "" {
        r := r + {members[i].name};
      }
    }
    assert members[..|members|] == members;
  }

  lemma ChannelsSnoc(ms: seq<Member>, m: Member)
    ensures Channels(ms + [m]) == Channels(ms) + if m.channel != "" then {m.name} else {}
  {
    assert forall x :: x in ms + [m] <==> x in ms || x == m;
  }

  /** The triggers which resolution gives to a member. */
  ghost function Resolved(triggers: map<string, set<string>>, hastriggers: bool, channels: set<string>, m: Member)
    : set<string>
  {
    if hastriggers then (if m.name in triggers then Chosen(triggers[m.name], channels) else {})
    else if m.channel != "" then {m.name} else {}
  }

  /** resolveTriggers() for one group. */
  method Resolve(sorted: seq<Member>, index: map<string, nat>, triggers: map<string, set<string>>, hastriggers: bool)
    returns (members: seq<Member>)
    requires DistinctMembers(sorted) && Indexes(index, Names(sorted))
    requires forall i :: 0 <= i < |sorted| ==> sorted[i].triggers == {}
    requires forall s :: s in triggers ==> s in index
    ensures |members| == |sorted|
    ensures forall i :: 0 <= i < |sorted| ==>
              members[i] == sorted[i].(triggers := Resolved(triggers, hastriggers, Channels(sorted), sorted[i]))
  {
    if hastriggers {
      members := ResolveNamed(sorted, index, triggers);
    } else {
      members := sorted;
      for i := 0 to |sorted|
        invariant |members| == |sorted|
        invariant forall k :: 0 <= k < |sorted| ==>
                    members[k] ==
                    if k < i then sorted[k].(triggers := Resolved(triggers, false, Channels(sorted), sorted[k]))
                    else sorted[k]
      {
        if members[i].channel != "" {
          members := members[i := members[i].(triggers := members[i].triggers + {members[i].name})];
        }
      }
    }
  }

  /** Every source is a member: the program's error for a source which is none cannot occur. */
  method ResolveNamed(sorted: seq<Member>, index: map<string, nat>, triggers: map<string, set<string>>)
    returns (members: seq<Member>)
    requires DistinctMembers(sorted) && Indexes(index, Names(sorted))
    requires forall i :: 0 <= i < |sorted| ==> sorted[i].triggers == {}
    requires forall s :: s in triggers ==> s in index
    ensures |members| == |sorted|
    ensures forall i :: 0 <= i < |sorted| ==>
              members[i] == sorted[i].(triggers := Resolved(triggers, true, Channels(sorted), sorted[i]))
  {
    members := sorted;
    var todo := triggers.Keys;
    while todo != {}
      invariant todo <= triggers.Keys && |members| == |sorted|
      invariant forall i :: 0 <= i < |sorted| ==>
                  members[i] == if sorted[i].name in todo then sorted[i]
                                else sorted[i].(triggers := Resolved(triggers, true, Channels(sorted), sorted[i]))
      decreases todo
    {
      var src :| src in todo;
      assert src in index;
      var k := index[src];
      assert sorted[k].name == src;
      SameChannels(sorted, members);
      var targets := ResolveTargets(members, index, triggers[src]);
      members := members[k := members[k].(triggers := members[k].triggers + targets)];
      todo := todo - {src};
    }
  }

  lemma SameChannels(a: seq<Member>, b: seq<Member>)
    requires |a| == |b|
    requires forall i :: 0 <= i < |a| ==> a[i].name == b[i].name && a[i].channel == b[i].channel
    ensures Channels(a) == Channels(b) && Names(a) == Names(b)
  {}

  // ---------- Keeping the members with a channel ----------

  function Kept(ms: seq<Member>): seq<Member> {
    if ms == [] then []
    else if ms[|ms| - 1].channel != "" then Kept(ms[..|ms| - 1]) + [ms[|ms| - 1]]
    else Kept(ms[..|ms| - 1])
  }

  lemma {:induction false} KeptAre(ms: seq<Member>)
    ensures forall m :: m in Kept(ms) <==> m in ms && m.channel != ""
  {
    if ms != [] {
      var k := |ms| - 1;
      KeptAre(ms[..k]);
      forall m ensures m in Kept(ms) <==> m in ms && m.channel != "" {
        assert m in ms <==> m in ms[..k] || m == ms[k];
      }
    }
  }

  lemma {:induction false} KeptIsSorted(ms: seq<Member>)
    requires Sorted(ms)
    ensures Sorted(Kept(ms))
  {
    if ms != [] {
      var before := ms[..|ms| - 1];
      KeptIsSorted(before);
      KeptAre(before);
      forall i | 0 <= i < |Kept(before)| ensures Kept(before)[i].putorder <= ms[|ms| - 1].putorder {
        assert Kept(before)[i] in before;
      }
    }
  }

  lemma {:induction false} KeptIsDistinct(ms: seq<Member>)
    requires DistinctMembers(ms)
    ensures DistinctMembers(Kept(ms))
  {
    if ms != [] {
      var before := ms[..|ms| - 1];
      KeptIsDistinct(before);
      KeptAre(before);
      forall i | 0 <= i < |Kept(before)| ensures Kept(before)[i].name != ms[|ms| - 1].name {
        assert Kept(before)[i] in before;
      }
    }
  }

  lemma KeptMembers(ms: seq<Member>)
    ensures forall m :: m in Kept(ms) <==> m in ms && m.channel != ""
    ensures DistinctMembers(ms) ==> DistinctMembers(Kept(ms))
    ensures Sorted(ms) ==> Sorted(Kept(ms))
  {
    KeptAre(ms);
    if DistinctMembers(ms) { KeptIsDistinct(ms); }
    if Sorted(ms) { KeptIsSorted(ms); }
  }

  /** The names which a list of indices stands for. */
  ghost function NamesAt(names: seq<string>, indices: seq<nat>): set<string> {
    set i | 0 <= i < |indices| && indices[i] < |names| :: names[indices[i]]
  }

  /** A list of indices, all of them valid and none of them twice, stands for these names. */
  ghost predicate Denotes(names: seq<string>, indices: seq<nat>, s: set<string>) {
    && (forall i :: 0 <= i < |indices| ==> indices[i] < |names|)
    && (forall i, j :: 0 <= i < j < |indices| ==> indices[i] != indices[j])
    && NamesAt(names, indices) == s
  }

  lemma Denoting(names: seq<string>, indices: seq<nat>, s: set<string>)
    requires Denotes(names, indices, s)
    ensures indices != [] <==> s != {}
  {
    if indices != [] { assert names[indices[0]] in NamesAt(names, indices); }
  }

  lemma DenotesSnoc(names: seq<string>, indices: seq<nat>, s: set<string>, k: nat)
    requires Denotes(names, indices, s) && k < |names| && names[k] !in s
    ensures Denotes(names, indices + [k], s + {names[k]})
  {
    var r := indices + [k];
    forall i | 0 <= i < |indices| ensures r[i] == indices[i] && r[i] != k {
      assert names[indices[i]] in NamesAt(names, indices);
    }
    forall t ensures t in NamesAt(names, r) <==> t in s || t == names[k] {
      if t == names[k] { assert r[|indices|] == k; }
      if t in s {
        var i :| 0 <= i < |indices| && indices[i] < |names| && names[indices[i]] == t;
        assert names[r[i]] == t;
      }
    }
  }

  /** The indices of the triggers of one member.  Every name is found: the program's
      exception for a name which is not cannot occur. */
  method IndexTriggers(index: map<string, nat>, ghost names: seq<string>, triggers: set<string>) returns (r: seq<nat>)
    requires Indexes(index, names) && forall t :: t in triggers ==> t in index
    ensures Denotes(names, r, triggers)
  {
    r := [];
    var todo := triggers;
    while todo != {}
      invariant todo <= triggers
      invariant Denotes(names, r, triggers - todo)
      decreases todo
    {
      var t :| t in todo;
      assert t in index;
      DenotesSnoc(names, r, triggers - todo, index[t]);
      assert triggers - (todo - {t}) == (triggers - todo) + {t};
      r := r + [index[t]];
      todo := todo - {t};
    }
  }

  function InfoNames(infos: seq<Info>): (r: seq<string>)
    ensures |r| == |infos|
    ensures forall i :: 0 <= i < |infos| ==> r[i] == infos[i].name
  {
    seq(|infos|, i requires 0 <= i < |infos| => infos[i].name)
  }

  function Bare(m: Member): Info {
    Info(m.name, m.channel, m.putorder, [])
  }

  /** The first pass over the members: those with a channel are kept, and numbered anew. */
  method CompactMembers(members: seq<Member>) returns (infos: seq<Info>, index: map<string, nat>)
    requires DistinctMembers(members)
    ensures |infos| == |Kept(members)|
    ensures forall j :: 0 <= j < |infos| ==> infos[j] == Bare(Kept(members)[j])
    ensures Indexes(index, Names(Kept(members)))
  {
    infos, index := [], map[];
    for i := 0 to |members|
      invariant |infos| == |Kept(members[..i])|
      invariant forall j :: 0 <= j < |infos| ==> infos[j] == Bare(Kept(members[..i])[j])
      invariant Indexes(index, Names(Kept(members[..i])))
    {
      assert members[..i + 1][..i] == members[..i];
      if members[i].channel != "" {
        KeptIsNew(members, i);
        index := index[members[i].name := |infos|];
        infos := infos + [Bare(members[i])];
      }
    }
    assert members[..|members|] == members;
  }

  lemma KeptIsNew(members: seq<Member>, i: nat)
    requires DistinctMembers(members) && i < |members|
    ensures forall j :: 0 <= j < |Kept(members[..i])| ==> Kept(members[..i])[j].name != members[i].name
  {
    var front := members[..i];
    KeptMembers(front);
    forall j | 0 <= j < |Kept(front)| ensures Kept(front)[j].name != members[i].name {
      assert Kept(front)[j] in front;
    }
  }

  /** The second pass: the trigger names of each member become indices. */
  method FillTriggers(members: seq<Member>, bare: seq<Info>, index: map<string, nat>) returns (infos: seq<Info>)
    requires |bare| == |Kept(members)| && Indexes(index, Names(Kept(members)))
    requires forall i :: 0 <= i < |members| && members[i].channel != "" ==>
               forall t :: t in members[i].triggers ==> t in index
    ensures |infos| == |bare|
    ensures forall j :: 0 <= j < |infos| ==>
              && infos[j].(triggers := bare[j].triggers) == bare[j]
              && Denotes(Names(Kept(members)), infos[j].triggers, Kept(members)[j].triggers)
  {
    infos := bare;
    ghost var names := Names(Kept(members));
    var J := 0;
    for i := 0 to |members|
      invariant J == |Kept(members[..i])| && |infos| == |bare|
      invariant forall j :: 0 <= j < |infos| ==> infos[j].(triggers := bare[j].triggers) == bare[j]
      invariant Kept(members[..i]) <= Kept(members)
      invariant forall j :: 0 <= j < J ==> Denotes(names, infos[j].triggers, Kept(members)[j].triggers)
    {
      KeptPrefix(members, i);
      if members[i].channel != "" {
        var triggers := IndexTriggers(index, names, members[i].triggers);
        infos := infos[J := infos[J].(triggers := triggers)];
        J := J + 1;
      }
    }
    assert members[..|members|] == members;
  }

  lemma {:induction false} KeptGrows(members: seq<Member>, i: nat)
    requires i <= |members|
    ensures Kept(members[..i]) <= Kept(members)
    decreases |members| - i
  {
    if i == |members| {
      assert members[..i] == members;
    } else {
      assert members[..i + 1][..i] == members[..i];
      KeptGrows(members, i + 1);
    }
  }

  lemma KeptPrefix(members: seq<Member>, i: nat)
    requires i < |members|
    ensures Kept(members[..i + 1]) == Kept(members[..i]) + if members[i].channel != "" then [members[i]] else []
    ensures Kept(members[..i + 1]) <= Kept(members)
  {
    assert members[..i + 1][..i] == members[..i];
    KeptGrows(members, i + 1);
  }

  // ---------- The whole compilation ----------

  /** `m` is what a field of the configuration gives, triggers aside. */
  ghost predicate From(fields: seq<Field>, m: Member, k: nat) {
    k < |fields| && fields[k].name == m.name && fields[k].channel == m.channel && fields[k].putorder == m.putorder
  }

  /** The finished group has just the fields with a channel, ordered by putorder; and the
      trigger list of each stands for the fields with a channel which it declares. */
  ghost predicate Compiled(fields: seq<Field>, infos: seq<Info>) {
    && (forall i, j :: 0 <= i < j < |infos| ==>
          infos[i].name != infos[j].name && infos[i].putorder <= infos[j].putorder)
    && (set n | n in InfoNames(infos)) == WithChannel(fields)
    && forall j :: 0 <= j < |infos| ==>
         exists k :: 0 <= k < |fields|
           && fields[k].name == infos[j].name && fields[k].channel == infos[j].channel != ""
           && fields[k].putorder == infos[j].putorder
           && Denotes(InfoNames(infos), infos[j].triggers, Declared(fields, fields[k]))
  }

  lemma GatheredMembers(fields: seq<Field>, members: seq<Member>)
    requires DistinctNames(fields)
    requires |members| == |fields| && forall i :: 0 <= i < |fields| ==> members[i] == AsMember(fields[i])
    ensures DistinctMembers(members) && Channels(members) == WithChannel(fields)
    ensures forall m :: m in members ==> m.triggers == {} && exists k :: From(fields, m, k)
  {
    forall m | m in members ensures m.triggers == {} && exists k :: From(fields, m, k) {
      var i :| 0 <= i < |members| && members[i] == m;
      assert From(fields, m, i);
    }
    forall s ensures s in Channels(members) <==> s in WithChannel(fields) {
      if s in WithChannel(fields) {
        var i :| 0 <= i < |fields| && fields[i].channel != "" && fields[i].name == s;
        assert members[i] in members;
      }
      if s in Channels(members) {
        var i :| 0 <= i < |members| && members[i].channel != "" && members[i].name == s;
        assert fields[i] in fields;
      }
    }
  }

  /** What resolution gives a member with a channel is what its field declares. */
  lemma ResolvedIsDeclared(fields: seq<Field>, m: Member, k: nat)
    requires DistinctNames(fields) && From(fields, m, k) && m.channel != ""
    ensures Resolved(TriggerMap(fields), AnyTriggers(fields), WithChannel(fields), m) == Declared(fields, fields[k])
    ensures Declared(fields, fields[k]) <= WithChannel(fields)
  {
    TriggerMapAt(fields);
    assert fields[k] in fields;
  }

  lemma SourcesAreMembers(fields: seq<Field>, members: seq<Member>, sorted: seq<Member>, index: map<string, nat>)
    requires DistinctNames(fields)
    requires |members| == |fields| && forall i :: 0 <= i < |fields| ==> members[i] == AsMember(fields[i])
    requires (forall m :: m in sorted <==> m in members) && Indexes(index, Names(sorted))
    ensures forall s :: s in TriggerMap(fields) ==> s in index
  {}

  lemma ChannelsAreKept(ms: seq<Member>, index: map<string, nat>, t: string)
    requires Indexes(index, Names(Kept(ms))) && t in Channels(ms)
    ensures t in index
  {
    KeptMembers(ms);
    var m :| m in ms && m.channel != "" && m.name == t;
    var j :| 0 <= j < |Kept(ms)| && Kept(ms)[j] == m;
    assert Names(Kept(ms))[j] == t;
  }

  lemma KeptNames(ms: seq<Member>, names: seq<string>)
    requires names == Names(Kept(ms))
    ensures (set n | n in names) == Channels(ms)
  {
    KeptMembers(ms);
    forall n ensures n in names <==> n in Channels(ms) {
      if n in names {
        var j :| 0 <= j < |names| && names[j] == n;
        assert Kept(ms)[j] in ms;
      }
      if n in Channels(ms) {
        var m :| m in ms && m.channel != "" && m.name == n;
        var j :| 0 <= j < |Kept(ms)| && Kept(ms)[j] == m;
        assert names[j] == n;
      }
    }
  }

  /** The members after resolution, in terms of the configuration. */
  ghost predicate ResolvedFrom(fields: seq<Field>, ms: seq<Member>) {
    && DistinctMembers(ms) && Sorted(ms) && Channels(ms) == WithChannel(fields)
    && forall i :: 0 <= i < |ms| ==> ResolvedMember(fields, ms[i])
  }

  ghost predicate ResolvedMember(fields: seq<Field>, m: Member) {
    && (exists k :: From(fields, m, k))
    && m.triggers == Resolved(TriggerMap(fields), AnyTriggers(fields), WithChannel(fields), m)
  }

  lemma TriggersAreChannels(fields: seq<Field>, ms: seq<Member>, i: nat)
    requires DistinctNames(fields) && ResolvedFrom(fields, ms) && i < |ms| && ms[i].channel != ""
    ensures ms[i].triggers <= Channels(ms)
  {}

  lemma Finished(fields: seq<Field>, ms: seq<Member>, infos: seq<Info>)
    requires DistinctNames(fields) && ResolvedFrom(fields, ms)
    requires |infos| == |Kept(ms)|
    requires forall j :: 0 <= j < |infos| ==>
               && infos[j].(triggers := []) == Bare(Kept(ms)[j])
               && Denotes(Names(Kept(ms)), infos[j].triggers, Kept(ms)[j].triggers)
    ensures Compiled(fields, infos)
  {
    var kept, names := Kept(ms), InfoNames(infos);
    KeptMembers(ms);
    assert forall j :: 0 <= j < |infos| ==> infos[j].(triggers := []).name == kept[j].name;
    assert names == Names(kept);
    KeptNames(ms, names);
    forall j | 0 <= j < |infos|
      ensures exists k :: 0 <= k < |fields|
                && fields[k].name == infos[j].name && fields[k].channel == infos[j].channel != ""
                && fields[k].putorder == infos[j].putorder
                && Denotes(names, infos[j].triggers, Declared(fields, fields[k]))
    {
      assert infos[j].(triggers := []) == Bare(kept[j]);
      assert kept[j] in ms && kept[j].channel != "";
      var i :| 0 <= i < |ms| && ms[i] == kept[j];
      var k :| From(fields, ms[i], k);
      ResolvedIsDeclared(fields, ms[i], k);
    }
    forall i, j | 0 <= i < j < |infos|
      ensures infos[i].name != infos[j].name && infos[i].putorder <= infos[j].putorder
    {
      assert infos[i].(triggers := []) == Bare(kept[i]) && infos[j].(triggers := []) == Bare(kept[j]);
    }
  }

  lemma ResolvedFields(fields: seq<Field>, sorted: seq<Member>, resolved: seq<Member>)
    requires DistinctMembers(sorted) && Sorted(sorted) && Channels(sorted) == WithChannel(fields)
    requires forall m :: m in sorted ==> exists k :: From(fields, m, k)
    requires |resolved| == |sorted|
    requires forall i :: 0 <= i < |sorted| ==>
               resolved[i] == sorted[i].(triggers :=
                 Resolved(TriggerMap(fields), AnyTriggers(fields), Channels(sorted), sorted[i]))
    ensures ResolvedFrom(fields, resolved)
  {
    SameChannels(sorted, resolved);
    forall i | 0 <= i < |resolved| ensures ResolvedMember(fields, resolved[i]) {
      assert sorted[i] in sorted;
      var k :| From(fields, sorted[i], k);
      assert From(fields, resolved[i], k);
    }
  }

  /** The processor: gather, sort by putorder, rebuild the index, resolve triggers. */
  method Process(fields: seq<Field>) returns (resolved: seq<Member>)
    requires DistinctNames(fields)
    ensures ResolvedFrom(fields, resolved)
  {
    var members, triggers, hastriggers := Gather(fields);
    GatheredMembers(fields, members);
    var sorted := SortMembers(members);
    PermutedNames(members, sorted);
    var index := BuildIndex(sorted);
    SourcesAreMembers(fields, members, sorted, index);
    assert forall i :: 0 <= i < |sorted| ==> sorted[i] in members;
    resolved := Resolve(sorted, index, triggers, hastriggers);
    ResolvedFields(fields, sorted, resolved);
  }

  /** Compilation of one group: the members without a channel are dropped after resolution. */
  method Compile(fields: seq<Field>) returns (infos: seq<Info>)
    requires DistinctNames(fields)
    ensures Compiled(fields, infos)
  {
    var resolved := Process(fields);
    var bare, numbers := CompactMembers(resolved);
    forall i, t | 0 <= i < |resolved| && resolved[i].channel != "" && t in resolved[i].triggers ensures t in numbers {
      TriggersAreChannels(fields, resolved, i);
      ChannelsAreKept(resolved, numbers, t);
    }
    infos := FillTriggers(resolved, bare, numbers);
    Finished(fields, resolved, infos);
  }
}
