/** The channel cache, its entries, and the cleaner's loop. */
module ChannelCache {
  import opened ChannelCacheSpec

  class ChannelCacheEntry {
    const channelName: string
    ghost const id: nat
    var channel: Upstream
    var dropPoke: bool
    var interested: set<nat>

    ghost function Look(): Entry
      reads this
    {
      Entry(channelName, channel, dropPoke, interested)
    }

    constructor (name: string, ghost number: nat)
      ensures Look() == Entry(name, NoChannel, true, {}) && id == number
    {
      channelName, id := name, number;
      channel, dropPoke, interested := NoChannel, true, {};
    }
  }

  class ChannelCache {
    var entries: map<string, ChannelCacheEntry>
    var cleanerRuns: nat
    var cleanerDust: nat
    /** Every entry ever made, and the value of the whole. */
    ghost var made: seq<ChannelCacheEntry>
    ghost var value: Cache

    ghost predicate Valid()
      reads this, made
    {
      && WellFormed(value)
      && |value.made| == |made|
      && (forall i :: 0 <= i < |made| ==> made[i].id == i && value.made[i] == made[i].Look())
      && value.entries.Keys == entries.Keys
      && (forall n :: n in entries ==> made[value.entries[n]] == entries[n])
    }

    constructor ()
      ensures Valid() && value == EMPTY && cleanerRuns == 0 && cleanerDust == 0
    {
      entries, cleanerRuns, cleanerDust, made, value := map[], 0, 0, [], EMPTY;
    }

    /** The first request for a name. */
    method Insert(newName: string)
      requires Valid() && newName !in entries
      modifies this`entries, this`made, this`value
      ensures Valid() && value == LookedUpNow(old(value), newName)
    {
      var ent := new ChannelCacheEntry(newName, |made|);
      value := LookedUpNow(value, newName);
      entries := entries[newName := ent];
      made := made + [ent];
    }

    /** lookup() up to the call of createChannel(), which follows when `create` is set; it is
        only after that call that a new entry may turn out to be connected. */
    method Lookup(newName: string) returns (ret: ChannelCacheEntry?, create: bool)
      requires Valid()
      modifies this`entries, this`made, this`value, made
      ensures Valid() && value == Step(old(value), Op.Lookup(newName))
      ensures create <==> newName !in old(entries)
      ensures ret != null <==> Finds(old(value), newName)
      ensures ret != null ==> newName in entries && ret == entries[newName]
      ensures ret != null <==> newName in old(entries) && old(entries)[newName].channel == Channel(true)
    {
      ret, create := null, newName !in entries;
      if create {
        Insert(newName);
      } else {
        var it := entries[newName];
        if it.channel == Channel(true) {
          ret := it;
          it.dropPoke := true;
        } else {
          it.dropPoke := true;
        }
        value := LookedUpNow(value, newName);
      }
    }

    /** lookup() after createChannel(), which gives no channel, or one which is connected, or
        one which is not yet.  Without a channel it throws, given here as false. */
    method FinishLookup(ent: ChannelCacheEntry, channel: Upstream) returns (ok: bool, ret: ChannelCacheEntry?)
      requires Valid() && ent in made
      modifies this`value, ent`channel
      ensures Valid() && (ok <==> channel != NoChannel)
      ensures value == if ok then Step(old(value), Connection(ent.id, channel.connected)) else old(value)
      ensures ret == if channel == Channel(true) then ent else null
    {
      ok, ret := channel != NoChannel, null;
      if ok {
        SetConnection(ent, channel.connected);
        if channel.connected { ret := ent; }
      }
    }

    /** The channel of the entry is known, or has connected. */
    method SetConnection(ent: ChannelCacheEntry, connected: bool)
      requires Valid() && ent in made
      modifies this`value, ent`channel
      ensures Valid() && value == Step(old(value), Connection(ent.id, connected))
    {
      ent.channel := Channel(connected);
      value := Step(value, Connection(ent.id, connected));
    }

    /** channelStateChange() with DISCONNECTED or DESTROYED, from the entry's own channel.  An
        entry which nobody holds any more is gone, and takes no notice. */
    method Drop(ent: ChannelCacheEntry)
      requires Valid() && ent in made && ent.channel != NoChannel
      modifies this`entries, this`value, ent`channel
      ensures Valid() && value == Step(old(value), Dropped(ent.id))
    {
      var held := (ent.channelName in entries && entries[ent.channelName] == ent) || ent.interested != {};
      if !held {
        assert !Cached(value, ent.id);
        return;
      }
      ent.channel := Channel(false);
      entries := entries - {ent.channelName};
      value := Step(value, Dropped(ent.id));
    }

    /** createChannel() of the server side: the client joins the entry. */
    method AddClient(ent: ChannelCacheEntry, client: nat)
      requires Valid() && ent in made
      modifies this`value, ent`interested
      ensures Valid() && value == Step(old(value), Attach(ent.id, client))
    {
      ent.interested := ent.interested + {client};
      value := Step(value, Attach(ent.id, client));
    }

    method RemoveClient(ent: ChannelCacheEntry, client: nat)
      requires Valid() && ent in made
      modifies this`value, ent`interested
      ensures Valid() && value == Step(old(value), Detach(ent.id, client))
    {
      ent.interested := ent.interested - {client};
      value := Step(value, Detach(ent.id, client));
    }

    /** What the cleaner does with one entry. */
    method Visit(second: ChannelCacheEntry)
      requires Valid() && second.channelName in entries && entries[second.channelName] == second
      modifies this`entries, this`value, this`cleanerDust, second`dropPoke
      ensures Valid() && value == Visited(old(value), second.channelName)
      ensures cleanerDust == old(cleanerDust) + if second.channelName in entries then 0 else 1
      ensures old(entries).Keys - {second.channelName} <= entries.Keys
    {
      value := Visited(value, second.channelName);
      if !second.dropPoke && second.interested == {} {
        entries := entries - {second.channelName};
        cleanerDust := cleanerDust + 1;
      } else {
        second.dropPoke := false;
      }
    }

    /** The cleaner visits the entries once each, in the order of their names, and erases on
        the way. */
    method Expire(names: seq<string>)
      requires Valid() && Lists(names, value)
      modifies this`entries, this`value, this`cleanerRuns, this`cleanerDust, made
      ensures Valid() && value == Step(old(value), Clean)
      ensures cleanerRuns == old(cleanerRuns) + 1
      ensures cleanerDust == old(cleanerDust) + |old(value).entries| - |value.entries|
    {
      cleanerRuns := cleanerRuns + 1;
      ghost var pre := value;
      for cur := 0 to |names|
        invariant Valid() && cleanerRuns == old(cleanerRuns) + 1
        invariant value == VisitedAll(pre, names[..cur])
        invariant cleanerDust == old(cleanerDust) + Dust(pre, names[..cur])
      {
        NextVisit(pre, names, cur);
        Visit(entries[names[cur]]);
      }
      assert names[..|names|] == names;
      VisitingAllCleans(pre, names);
    }
  }
}
