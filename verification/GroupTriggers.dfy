/** What the trigger texts of a configuration come to in the compiled group, case by case. */
module GroupTriggers {
  import opened FieldPath
  import opened GroupCompile

  lemma {:induction false} InSetOf(q: seq<string>, t: string)
    ensures t in SetOf(q) <==> t in q
  {
    if q != [] { InSetOf(q[..|q| - 1], t); }
  }

  /** Names without a comma, put together with commas, are the targets. */
  lemma TargetsOfNames(names: seq<string>)
    requires names != [] && Free(names, ',')
    ensures forall t :: t in Targets(Join(names, ',')) <==> t in names
  {
    SplitJoin(names, ',');
    forall t ensures t in Targets(Join(names, ',')) <==> t in names { InSetOf(names, t); }
  }

  lemma DeclaredIs(fields: seq<Field>, infos: seq<Info>, j: nat, k: nat)
    requires DistinctNames(fields) && Compiled(fields, infos)
    requires j < |infos| && k < |fields| && fields[k].name == infos[j].name
    ensures Denotes(InfoNames(infos), infos[j].triggers, Declared(fields, fields[k]))
    ensures infos[j].channel == fields[k].channel
  {
    var info := infos[j];
    var h :| 0 <= h < |fields|
             && fields[h].name == info.name && fields[h].channel == info.channel != ""
             && fields[h].putorder == info.putorder
             && Denotes(InfoNames(infos), info.triggers, Declared(fields, fields[h]));
    assert h == k;
  }

  /** An index is in the list just when its name is among those the list stands for. */
  lemma IndexDenoted(infos: seq<Info>, indices: seq<nat>, s: set<string>, i: nat)
    requires forall a, b :: 0 <= a < b < |infos| ==> infos[a].name != infos[b].name
    requires Denotes(InfoNames(infos), indices, s) && i < |infos|
    ensures i in indices <==> infos[i].name in s
  {
    var names := InfoNames(infos);
    if i in indices {
      var a :| 0 <= a < |indices| && indices[a] == i;
      assert names[indices[a]] in NamesAt(names, indices);
    }
    if infos[i].name in s {
      var a :| 0 <= a < |indices| && indices[a] < |names| && names[indices[a]] == infos[i].name;
      assert indices[a] == i;
    }
  }

  lemma Listed(fields: seq<Field>, infos: seq<Info>, i: nat)
    requires Compiled(fields, infos) && i < |infos|
    ensures infos[i].name in WithChannel(fields)
  {
    assert InfoNames(infos)[i] in InfoNames(infos);
  }

  lemma Differ(q: seq<nat>, a: nat, b: nat)
    requires a < b < |q| && forall i, k :: 0 <= i < k < |q| ==> q[i] != q[k]
    ensures q[a] != q[b]
  {}

  /** In a group in which no field names any target, each member triggers itself and no other. */
  lemma SelfByDefault(fields: seq<Field>, infos: seq<Info>, j: nat)
    requires DistinctNames(fields) && Compiled(fields, infos) && j < |infos|
    requires forall f :: f in fields ==> f.trigger == ""
    ensures infos[j].triggers == [j]
  {
    Listed(fields, infos, j);
    var f :| f in fields && f.name == infos[j].name;
    var k :| 0 <= k < |fields| && fields[k] == f;
    DeclaredIs(fields, infos, j, k);
    var t := infos[j].triggers;
    IndexDenoted(infos, t, {f.name}, j);
    forall i | 0 <= i < |t| ensures t[i] == j {
      IndexDenoted(infos, t, {f.name}, t[i]);
    }
    if 1 < |t| { Differ(t, 0, 1); }
    assert t[0] == j;
  }

  /** In a group in which some field does, one which does not triggers nothing. */
  lemma NoneBesideOthers(fields: seq<Field>, infos: seq<Info>, j: nat, k: nat)
    requires DistinctNames(fields) && Compiled(fields, infos)
    requires j < |infos| && k < |fields| && fields[k].name == infos[j].name && fields[k].trigger == ""
    requires exists f :: f in fields && f.trigger != ""
    ensures infos[j].triggers == []
  {
    var f :| f in fields && f.trigger != "";
    var h :| 0 <= h < |fields| && fields[h] == f;
    assert AnyTriggers(fields);
    DeclaredIs(fields, infos, j, k);
    Denoting(InfoNames(infos), infos[j].triggers, {});
  }

  /** A field which names targets triggers exactly the members it names, or with "*" all. */
  lemma NamedOrAll(fields: seq<Field>, infos: seq<Info>, j: nat, k: nat, names: seq<string>, i: nat)
    requires DistinctNames(fields) && Compiled(fields, infos)
    requires j < |infos| && k < |fields| && fields[k].name == infos[j].name
    requires names != [] && Free(names, ',') && fields[k].trigger == Join(names, ',') != ""
    requires i < |infos|
    ensures i in infos[j].triggers <==> infos[i].name in names || "*" in names
  {
    assert AnyTriggers(fields);
    TargetsOfNames(names);
    DeclaredIs(fields, infos, j, k);
    IndexDenoted(infos, infos[j].triggers, Declared(fields, fields[k]), i);
    Listed(fields, infos, i);
  }
}
