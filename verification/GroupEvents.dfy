/** A compiled group and its database events: what the first subscriber has to wait for. */
module GroupEvents {
  import opened GroupCompile
  import G = GroupSpec

  /** A member's values cause events if it has triggers; its properties always do. */
  function HasValues(infos: seq<Info>): seq<bool> {
    seq(|infos|, i requires 0 <= i < |infos| => infos[i].triggers != [])
  }

  /** The fields on whose events the configuration asks for anything to be posted. */
  ghost function Sources(fields: seq<Field>): set<string> {
    set f | f in fields && f.channel != "" && Declared(fields, f) != {} :: f.name
  }

  ghost predicate SameSources(ms: seq<G.Member>, infos: seq<Info>) {
    |ms| == |infos| && forall i :: 0 <= i < |ms| ==> (ms[i].hasValue <==> infos[i].triggers != [])
  }

  lemma StepKeepsSources(infos: seq<Info>, g: G.Group, op: G.Op)
    requires SameSources(g.members, infos)
    ensures SameSources(G.Step(g, op).members, infos)
  {
    if op.Add? {
      assert G.Step(g, op).members == if G.Empty(g) then G.ResetAll(g.members) else g.members;
    } else if !op.Event? {
      assert G.Step(g, op).members == g.members;
    }
  }

  lemma {:induction false} RunKeepsSources(infos: seq<Info>, g: G.Group, ops: seq<G.Op>)
    requires G.IsRun(g, ops) && SameSources(g.members, infos)
    ensures SameSources(G.Run(g, ops).members, infos)
  {
    if ops != [] {
      var before := ops[..|ops| - 1];
      RunKeepsSources(infos, g, before);
      StepKeepsSources(infos, G.Run(g, before), ops[|before|]);
    }
  }

  ghost predicate DistinctInfos(infos: seq<Info>) {
    forall i, j :: 0 <= i < j < |infos| ==> infos[i].name != infos[j].name
  }

  ghost function Named(infos: seq<Info>): set<string> {
    set i | 0 <= i < |infos| :: infos[i].name
  }

  ghost function Triggering(infos: seq<Info>): set<string> {
    set i | 0 <= i < |infos| && infos[i].triggers != [] :: infos[i].name
  }

  lemma NamedByLast(infos: seq<Info>)
    requires infos != [] && DistinctInfos(infos)
    ensures |Named(infos)| == |Named(infos[..|infos| - 1])| + 1
  {
    var k := |infos| - 1;
    assert forall i :: 0 <= i < k ==> infos[..k][i] == infos[i];
    assert Named(infos) == Named(infos[..k]) + {infos[k].name};
  }

  lemma TriggeringByLast(infos: seq<Info>)
    requires infos != [] && DistinctInfos(infos)
    ensures var k := |infos| - 1;
            |Triggering(infos)| == |Triggering(infos[..k])| + if infos[k].triggers != [] then 1 else 0
  {
    var k := |infos| - 1;
    assert forall i :: 0 <= i < k ==> infos[..k][i] == infos[i];
    assert Triggering(infos) == Triggering(infos[..k]) + if infos[k].triggers != [] then {infos[k].name} else {};
  }

  /** The first events to come are counted once for each member, and once more for each which
      has triggers. */
  lemma {:induction false} CountsByName(ms: seq<G.Member>, infos: seq<Info>)
    requires SameSources(ms, infos) && DistinctInfos(infos)
    ensures G.Unseen(G.ResetAll(ms)) == |Named(infos)| + |Triggering(infos)|
  {
    if ms == [] {
      assert Named(infos) == {} && Triggering(infos) == {};
    } else {
      var k := |ms| - 1;
      CountsByName(ms[..k], infos[..k]);
      assert G.ResetAll(ms)[..k] == G.ResetAll(ms[..k]);
      NamedByLast(infos);
      TriggeringByLast(infos);
    }
  }

  lemma CompiledSources(fields: seq<Field>, infos: seq<Info>)
    requires DistinctNames(fields) && Compiled(fields, infos)
    ensures DistinctInfos(infos) && Named(infos) == WithChannel(fields) && Triggering(infos) == Sources(fields)
  {
    assert Named(infos) == set n | n in InfoNames(infos);
    forall n ensures n in Triggering(infos) <==> n in Sources(fields) {
      if n in Triggering(infos) || n in Sources(fields) {
        assert n in Named(infos);
        var j :| 0 <= j < |infos| && infos[j].name == n;
        SourceOf(fields, infos, j);
      }
    }
  }

  lemma SourceOf(fields: seq<Field>, infos: seq<Info>, j: nat)
    requires DistinctNames(fields) && Compiled(fields, infos) && j < |infos|
    ensures infos[j].name in Sources(fields) <==> infos[j].triggers != []
  {
    var info := infos[j];
    var k :| 0 <= k < |fields|
             && fields[k].name == info.name && fields[k].channel == info.channel != ""
             && fields[k].putorder == info.putorder
             && Denotes(InfoNames(infos), info.triggers, Declared(fields, fields[k]));
    Denoting(InfoNames(infos), infos[j].triggers, Declared(fields, fields[k]));
    assert fields[k] in fields;
    forall f | f in fields && f.name == fields[k].name ensures f == fields[k] {
      var i :| 0 <= i < |fields| && fields[i] == f;
      assert i == k;
    }
  }

  /** Whenever addMonitor() finds nobody subscribed, it sets out to wait for one event for
      each field with a channel, and for one more for each of these which the configuration
      has anything posted for. */
  lemma AddAwaitsConfigured(fields: seq<Field>, infos: seq<Info>, ops: seq<G.Op>, mon: nat)
    requires DistinctNames(fields) && Compiled(fields, infos)
    requires G.IsRun(G.Initial(HasValues(infos)), ops)
    requires var g := G.Run(G.Initial(HasValues(infos)), ops); g.interested == {} && g.adding == {}
    ensures G.Added(G.Run(G.Initial(HasValues(infos)), ops), mon).waits
            == |WithChannel(fields)| + |Sources(fields)|
  {
    var g := G.Run(G.Initial(HasValues(infos)), ops);
    RunKeepsSources(infos, G.Initial(HasValues(infos)), ops);
    CompiledSources(fields, infos);
    CountsByName(g.members, infos);
  }
}
