/** The contents of the in-memory stream client, and what each command does to them. */
module StreamStore {
  import opened Prelude

  /** The id "<n>-0" of the n-th entry ever added, by its n. */
  type Id = nat

  datatype Entry = Entry(id: Id, fields: map<string, string>)

  datatype Pending = Pending(consumer: string, deliveredAt: real, timesDelivered: nat)

  datatype Group = Group(cursor: nat, pending: map<Id, Pending>)

  datatype GroupKey = GroupKey(stream: string, group: string)

  datatype Store = Store(streams: map<string, seq<Entry>>, groups: map<GroupKey, Group>, sequence: nat) {
    /** self._streams.get(name, []) */
    function Entries(name: string): seq<Entry> {
      if name in streams then streams[name] else []
    }
  }

  const EMPTY_STORE := Store(map[], map[], 0)

  // ---------------------------------------------------------------- xadd, xgroup_create

  function Added(store: Store, name: string, fields: map<string, string>): Store {
    var entry := Entry(store.sequence + 1, fields);
    Store(store.streams[name := store.Entries(name) + [entry]], store.groups, store.sequence + 1)
  }

  /** BUSYGROUP for a group that exists, NOGROUP for a stream that does not. */
  predicate CreateRefused(store: Store, key: GroupKey, mkstream: bool) {
    key in store.groups || (!mkstream && key.stream !in store.streams)
  }

  function Created(store: Store, key: GroupKey, fromTail: bool, mkstream: bool): Store {
    if CreateRefused(store, key, mkstream) then store
    else
      var entries := store.Entries(key.stream);
      Store(store.streams[key.stream := entries],
            store.groups[key := Group(if fromTail then |entries| else 0, map[])],
            store.sequence)
  }

  /** A group that is not there is created exactly if its stream exists or may be made; one that is there
      is left alone. Creating it keeps every stream's entries and every other group, and makes no stream
      but its own. */
  lemma CreatedExactly(store: Store, key: GroupKey, fromTail: bool, mkstream: bool)
    ensures var after := Created(store, key, fromTail, mkstream);
            && (key in store.groups ==> after == store)
            && (key !in store.groups ==> (key in after.groups <==> mkstream || key.stream in store.streams))
            && (key in after.groups ==> key.stream in after.streams || key in store.groups)
            && (key !in after.groups ==> after == store)
            && (forall name :: name in after.streams <==>
                  name in store.streams || (name == key.stream && key in after.groups && key !in store.groups))
            && (forall name :: after.Entries(name) == store.Entries(name))
            && (forall k :: k != key ==> (k in after.groups <==> k in store.groups))
            && (forall k :: k != key && k in store.groups ==> after.groups[k] == store.groups[k])
            && after.sequence == store.sequence
  {
  }

  // ---------------------------------------------------------------- xreadgroup

  /** entries[start:stop], where a negative stop counts from the end. */
  function Slice(entries: seq<Entry>, start: nat, stop: int): (r: seq<Entry>)
    requires start <= |entries|
    ensures |r| <= |entries| - start
  {
    var last := if stop < 0 then stop + |entries| else if stop > |entries| then |entries| else stop;
    if start < last then entries[start..last] else []
  }

  /** What one read takes from a stream; `count or len(entries)` also reads a count of 0 as no limit. */
  function Batch(entries: seq<Entry>, cursor: nat, count: Option<int>): (r: seq<Entry>)
    requires cursor <= |entries|
    ensures |r| <= |entries| - cursor
  {
    var limit := if count.None? || count.value == 0 then |entries| else count.value;
    Slice(entries, cursor, cursor + limit)
  }

  /** A batch is the stretch of the stream from the cursor on. */
  lemma BatchIsNext(entries: seq<Entry>, cursor: nat, count: Option<int>) returns (to: nat)
    requires cursor <= |entries|
    ensures cursor <= to <= |entries| && to == cursor + |Batch(entries, cursor, count)|
    ensures Batch(entries, cursor, count) == entries[cursor..to]
  {
    to := cursor + |Batch(entries, cursor, count)|;
  }

  /** How much a read takes: everything without a limit or with a limit of 0, at most the limit
      otherwise. A negative count is a slice bound, so it takes nothing, or, where cursor and count
      together are still negative, stops that far from the end. */
  lemma BatchTakes(entries: seq<Entry>, cursor: nat, count: Option<int>)
    requires cursor <= |entries|
    ensures var batch, left := Batch(entries, cursor, count), |entries| - cursor;
            && (count == None || count == Some(0) ==> batch == entries[cursor..])
            && (count.Some? && count.value > 0 ==> |batch| == if count.value < left then count.value else left)
            && (count.Some? && count.value < 0 && cursor + count.value >= 0 ==> batch == [])
            && (count.Some? && cursor + count.value < 0 ==>
                  |batch| == if |entries| + count.value > 0 then |entries| + count.value else 0)
  {
  }

  /** Every cursor lies within its stream. */
  ghost predicate CursorsInRange(store: Store) {
    forall key :: key in store.groups ==> store.groups[key].cursor <= |store.Entries(key.stream)|
  }

  /** Delivered entries become pending for the consumer. `readAt` gives the clock when an entry is handed out. */
  function HandOut(pending: map<Id, Pending>, batch: seq<Entry>, consumer: string, readAt: Id -> real): map<Id, Pending> {
    if batch == [] then pending
    else
      var id := batch[|batch| - 1].id;
      HandOut(pending, batch[..|batch| - 1], consumer, readAt)[id := Pending(consumer, readAt(id), 1)]
  }

  ghost predicate Readable(store: Store, key: GroupKey) {
    key in store.groups && store.groups[key].cursor <= |store.Entries(key.stream)|
  }

  ghost function BatchOf(store: Store, key: GroupKey, count: Option<int>): seq<Entry>
    requires Readable(store, key)
  {
    Batch(store.Entries(key.stream), store.groups[key].cursor, count)
  }

  ghost function GroupAfterRead(
    store: Store, key: GroupKey, consumer: string, count: Option<int>, readAt: Id -> real): Group
    requires Readable(store, key)
  {
    var group, batch := store.groups[key], BatchOf(store, key, count);
    Group(group.cursor + |batch|, HandOut(group.pending, batch, consumer, readAt))
  }

  ghost function ReadOne(
    store: Store, key: GroupKey, consumer: string, count: Option<int>, readAt: Id -> real): (after: Store)
    requires CursorsInRange(store) && key in store.groups
    ensures CursorsInRange(after) && after.groups.Keys == store.groups.Keys
  {
    store.(groups := store.groups[key := GroupAfterRead(store, key, consumer, count, readAt)])
  }

  datatype ReadOutcome = ReadOutcome(store: Store, batches: seq<(string, seq<Entry>)>, raised: bool)

  /** One more stream of a read: a missing group raises, and what was read before stays read. */
  ghost function ReadNext(
    before: ReadOutcome, key: GroupKey, consumer: string, count: Option<int>, readAt: Id -> real): (r: ReadOutcome)
    requires CursorsInRange(before.store)
    ensures CursorsInRange(r.store)
  {
    if before.raised then before
    else if key !in before.store.groups then before.(raised := true)
    else
      var batch := BatchOf(before.store, key, count);
      ReadOutcome(ReadOne(before.store, key, consumer, count, readAt),
                  if batch == [] then before.batches else before.batches + [(key.stream, batch)],
                  false)
  }

  /** The streams of one read, one after another. */
  ghost function ReadAll(
    store: Store, group: string, consumer: string, names: seq<string>, count: Option<int>, readAt: Id -> real):
    (r: ReadOutcome)
    requires CursorsInRange(store)
    ensures CursorsInRange(r.store)
  {
    if names == [] then ReadOutcome(store, [], false)
    else
      ReadNext(ReadAll(store, group, consumer, names[..|names| - 1], count, readAt),
               GroupKey(names[|names| - 1], group), consumer, count, readAt)
  }

  // ---------------------------------------------------------------- xack

  /** What is left pending after popping the ids one by one. */
  function AckLeft(pending: map<Id, Pending>, ids: seq<Id>): map<Id, Pending> {
    if ids == [] then pending else AckLeft(pending, ids[..|ids| - 1]) - {ids[|ids| - 1]}
  }

  /** How many of the pops found something. */
  function AckCount(pending: map<Id, Pending>, ids: seq<Id>): nat {
    if ids == [] then 0
    else
      AckCount(pending, ids[..|ids| - 1]) +
      if ids[|ids| - 1] in AckLeft(pending, ids[..|ids| - 1]) then 1 else 0
  }

  function Acked(store: Store, key: GroupKey, ids: seq<Id>): Store {
    if key !in store.groups then store
    else
      var group := store.groups[key];
      store.(groups := store.groups[key := group.(pending := AckLeft(group.pending, ids))])
  }

  /** The ids that occur in a list. */
  ghost function Named(ids: seq<Id>): (r: set<Id>)
    ensures forall id :: id in r <==> id in ids
  {
    set id | id in ids
  }

  /** Acknowledging removes exactly the named ids ... */
  lemma {:induction false} AckRemovesNamed(pending: map<Id, Pending>, ids: seq<Id>)
    ensures AckLeft(pending, ids) == pending - Named(ids)
  {
    if ids == [] {
      assert pending - Named(ids) == pending;
    } else {
      var front, id := ids[..|ids| - 1], ids[|ids| - 1];
      AckRemovesNamed(pending, front);
      assert Named(ids) == Named(front) + {id} by { assert ids == front + [id]; }
      assert pending - (Named(front) + {id}) == (pending - Named(front)) - {id};
    }
  }

  /** ... and counts the ones that were pending, each once. */
  lemma {:induction false} AckCountsPending(pending: map<Id, Pending>, ids: seq<Id>)
    ensures AckCount(pending, ids) == |pending.Keys * Named(ids)|
  {
    if ids == [] {
      assert pending.Keys * Named(ids) == {};
    } else {
      var front, id := ids[..|ids| - 1], ids[|ids| - 1];
      AckCountsPending(pending, front);
      StillPending(pending, front, id);
      NamedOneMore(pending.Keys, Named(front), id);
      NamedSplit(ids);
    }
  }

  lemma StillPending(pending: map<Id, Pending>, ids: seq<Id>, id: Id)
    ensures id in AckLeft(pending, ids) <==> id in pending.Keys && id !in Named(ids)
  {
    AckRemovesNamed(pending, ids);
  }

  lemma NamedSplit(ids: seq<Id>)
    requires ids != []
    ensures Named(ids) == Named(ids[..|ids| - 1]) + {ids[|ids| - 1]}
  {
    assert ids == ids[..|ids| - 1] + [ids[|ids| - 1]];
  }

  lemma NamedOneMore(keys: set<Id>, named: set<Id>, id: Id)
    ensures |keys * (named + {id})| == |keys * named| + if id in keys && id !in named then 1 else 0
  {
    if id in keys && id !in named {
      assert keys * (named + {id}) == keys * named + {id};
    } else {
      assert keys * (named + {id}) == keys * named;
    }
  }

  // ---------------------------------------------------------------- xclaim

  predicate Claimable(pending: map<Id, Pending>, id: Id, minIdle: int, now: real) {
    id in pending && now - pending[id].deliveredAt >= minIdle as real
  }

  /** What is pending after claiming the ids one by one. */
  function ClaimHeld(pending: map<Id, Pending>, ids: seq<Id>, consumer: string, minIdle: int, now: real): map<Id, Pending> {
    if ids == [] then pending
    else
      var held, id := ClaimHeld(pending, ids[..|ids| - 1], consumer, minIdle, now), ids[|ids| - 1];
      if Claimable(held, id, minIdle, now) then held[id := Pending(consumer, now, held[id].timesDelivered + 1)] else held
  }

  /** The ids taken over, in the order asked for; one asked for twice may be taken twice. */
  function Taken(pending: map<Id, Pending>, ids: seq<Id>, consumer: string, minIdle: int, now: real): seq<Id> {
    if ids == [] then []
    else
      var front, id := ids[..|ids| - 1], ids[|ids| - 1];
      var taken := Taken(pending, front, consumer, minIdle, now);
      if Claimable(ClaimHeld(pending, front, consumer, minIdle, now), id, minIdle, now) then taken + [id] else taken
  }

  function Claimed(store: Store, key: GroupKey, consumer: string, minIdle: int, ids: seq<Id>, now: real): Store {
    if key !in store.groups then store
    else
      var group := store.groups[key];
      store.(groups := store.groups[key := group.(pending := ClaimHeld(group.pending, ids, consumer, minIdle, now))])
  }

  /** dict(entries) */
  function ById(entries: seq<Entry>): map<Id, map<string, string>> {
    if entries == [] then map[]
    else ById(entries[..|entries| - 1])[entries[|entries| - 1].id := entries[|entries| - 1].fields]
  }

  /** The entries of the claimed ids, for the ids the stream holds. */
  function Payloads(entries: seq<Entry>, ids: seq<Id>): seq<Entry> {
    if ids == [] then []
    else
      var front := Payloads(entries, ids[..|ids| - 1]);
      var id := ids[|ids| - 1];
      if id in ById(entries) then front + [Entry(id, ById(entries)[id])] else front
  }

  function TakenBy(store: Store, key: GroupKey, consumer: string, minIdle: int, ids: seq<Id>, now: real): seq<Id> {
    if key in store.groups then Taken(store.groups[key].pending, ids, consumer, minIdle, now) else []
  }
}
