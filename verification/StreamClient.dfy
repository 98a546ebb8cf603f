/** The client object: commands update its dictionaries in place. */
module StreamClient {
  import opened Prelude
  import opened StreamStore

  class InMemoryStreamClient {
    var streams: map<string, seq<Entry>>
    var groups: map<GroupKey, Group>
    var sequence: nat

    function Contents(): Store
      reads this
    {
      Store(streams, groups, sequence)
    }

    /** Every group's cursor lies within its stream. */
    ghost predicate Valid()
      reads this
    {
      CursorsInRange(Contents())
    }

    constructor ()
      ensures Valid() && Contents() == EMPTY_STORE
    {
      streams, groups, sequence := map[], map[], 0;
    }

    method XAdd(name: string, fields: map<string, string>) returns (id: Id)
      requires Valid()
      modifies this
      ensures Valid()
      ensures Contents() == Added(old(Contents()), name, fields)
      ensures id == sequence == old(sequence) + 1
    {
      sequence := sequence + 1;
      id := sequence;
      if name !in streams {
        streams := streams[name := []];
      }
      streams := streams[name := streams[name] + [Entry(id, fields)]];
    }

    method XGroupCreate(name: string, groupname: string, fromTail: bool, mkstream: bool) returns (raised: bool)
      requires Valid()
      modifies this
      ensures Valid()
      ensures raised <==> GroupKey(name, groupname) in old(groups) || (!mkstream && name !in old(streams))
      ensures Contents() == Created(old(Contents()), GroupKey(name, groupname), fromTail, mkstream)
    {
      var key := GroupKey(name, groupname);
      if key in groups {
        return true;
      }
      if mkstream {
        if name !in streams {
          streams := streams[name := []];
        }
      } else if name !in streams {
        return true;
      }
      assert streams == old(streams)[name := old(Contents()).Entries(name)];
      var cursor := if fromTail then |streams[name]| else 0;
      groups := groups[key := Group(cursor, map[])];
      return false;
    }

    method XReadGroup(groupname: string, consumer: string, names: seq<string>, count: Option<int>, readAt: Id -> real)
      returns (raised: bool, result: seq<(string, seq<Entry>)>)
      requires Valid()
      modifies this
      ensures Valid()
      ensures var outcome := ReadAll(old(Contents()), groupname, consumer, names, count, readAt);
              && Contents() == outcome.store
              && raised == outcome.raised
              && (!raised ==> result == outcome.batches)
    {
      result := [];
      for i := 0 to |names|
        invariant Valid()
        invariant ReadAll(old(Contents()), groupname, consumer, names[..i], count, readAt)
                    == ReadOutcome(Contents(), result, false)
      {
        assert names[..i + 1][..i] == names[..i];
        var key := GroupKey(names[i], groupname);
        if key !in groups {
          RaisedStays(old(Contents()), groupname, consumer, names, count, readAt, i + 1);
          return true, [];
        }
        var batch := DeliverNext(key, consumer, count, readAt);
        if batch != [] {
          result := result + [(names[i], batch)];
        }
      }
      assert names[..|names|] == names;
      return false, result;
    }

    /** One stream: take the batch, advance the cursor, and add one pending entry for each delivered one. */
    method DeliverNext(key: GroupKey, consumer: string, count: Option<int>, readAt: Id -> real) returns (batch: seq<Entry>)
      requires Valid() && key in groups
      modifies this`groups
      ensures batch == BatchOf(old(Contents()), key, count)
      ensures Contents() == ReadOne(old(Contents()), key, consumer, count, readAt)
    {
      var entries := if key.stream in streams then streams[key.stream] else [];
      var group := groups[key];
      ghost var store := Contents();
      assert store.Entries(key.stream) == entries && store.groups[key] == group;
      batch := Batch(entries, group.cursor, count);
      groups := groups[key := Group(group.cursor + |batch|, group.pending)];
      MarkPending(key, consumer, batch, readAt);
      assert groups == store.groups[key := GroupAfterRead(store, key, consumer, count, readAt)];
    }

    /** The inner loop of a read. */
    method MarkPending(key: GroupKey, consumer: string, batch: seq<Entry>, readAt: Id -> real)
      requires key in groups
      modifies this`groups
      ensures groups == old(groups)[key := old(groups)[key].(pending :=
                          HandOut(old(groups)[key].pending, batch, consumer, readAt))]
    {
      var group := groups[key];
      for i := 0 to |batch|
        invariant groups == old(groups)[key := group.(pending := HandOut(group.pending, batch[..i], consumer, readAt))]
      {
        assert batch[..i + 1][..i] == batch[..i];
        var id := batch[i].id;
        groups := groups[key := group.(pending := groups[key].pending[id := Pending(consumer, readAt(id), 1)])];
      }
      assert batch[..|batch|] == batch;
    }

    method XAck(name: string, groupname: string, ids: seq<Id>) returns (n: nat)
      requires Valid()
      modifies this
      ensures Valid()
      ensures Contents() == Acked(old(Contents()), GroupKey(name, groupname), ids)
      ensures n == if GroupKey(name, groupname) in old(groups)
                   then |old(groups)[GroupKey(name, groupname)].pending.Keys * Named(ids)| else 0
    {
      var key := GroupKey(name, groupname);
      if key !in groups {
        return 0;
      }
      n := 0;
      ghost var before := groups[key];
      for i := 0 to |ids|
        invariant key in groups
        invariant groups == old(groups)[key := before.(pending := AckLeft(before.pending, ids[..i]))]
        invariant n == AckCount(before.pending, ids[..i])
        invariant streams == old(streams) && sequence == old(sequence)
      {
        assert ids[..i + 1][..i] == ids[..i];
        var group := groups[key];
        if ids[i] in group.pending {
          groups := groups[key := group.(pending := group.pending - {ids[i]})];
          n := n + 1;
        } else {
          assert group.pending - {ids[i]} == group.pending;
        }
      }
      assert ids[..|ids|] == ids;
      AckCountsPending(before.pending, ids);
    }

    method XClaim(name: string, groupname: string, consumer: string, minIdle: int, ids: seq<Id>, now: real)
      returns (claimed: seq<Entry>)
      requires Valid()
      modifies this
      ensures Valid()
      ensures Contents() == Claimed(old(Contents()), GroupKey(name, groupname), consumer, minIdle, ids, now)
      ensures claimed == Payloads(old(Contents()).Entries(name),
                                  TakenBy(old(Contents()), GroupKey(name, groupname), consumer, minIdle, ids, now))
    {
      var key := GroupKey(name, groupname);
      if key !in groups {
        return [];
      }
      var byId := ById(Contents().Entries(name));
      claimed := [];
      ghost var before := groups[key];
      ghost var entries := Contents().Entries(name);
      for i := 0 to |ids|
        invariant key in groups
        invariant groups == old(groups)[key := before.(pending := ClaimHeld(before.pending, ids[..i], consumer, minIdle, now))]
        invariant claimed == Payloads(entries, Taken(before.pending, ids[..i], consumer, minIdle, now))
        invariant streams == old(streams) && sequence == old(sequence)
      {
        assert ids[..i + 1][..i] == ids[..i];
        var group := groups[key];
        var id := ids[i];
        if Claimable(group.pending, id, minIdle, now) {
          var taken := group.pending[id].(consumer := consumer, deliveredAt := now,
                                          timesDelivered := group.pending[id].timesDelivered + 1);
          groups := groups[key := group.(pending := group.pending[id := taken])];
          ghost var earlier := Taken(before.pending, ids[..i], consumer, minIdle, now);
          assert (earlier + [id])[..|earlier|] == earlier;
          if id in byId {
            claimed := claimed + [Entry(id, byId[id])];
          }
        }
      }
      assert ids[..|ids|] == ids;
    }
  }

  /** Once a read has raised, the streams after the missing group do not matter. */
  lemma {:induction false} RaisedStays(
    store: Store, group: string, consumer: string, names: seq<string>, count: Option<int>, readAt: Id -> real, i: nat)
    requires CursorsInRange(store) && i <= |names|
    requires ReadAll(store, group, consumer, names[..i], count, readAt).raised
    ensures ReadAll(store, group, consumer, names, count, readAt) == ReadAll(store, group, consumer, names[..i], count, readAt)
    decreases |names| - i
  {
    if i == |names| {
      assert names[..i] == names;
    } else {
      assert names[..i + 1][..i] == names[..i];
      RaisedStays(store, group, consumer, names, count, readAt, i + 1);
    }
  }
}
