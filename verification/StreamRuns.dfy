/** What holds over every run of stream commands. */
module StreamRuns {
  import opened Prelude
  import opened StreamStore

  datatype Command =
    | Add(name: string, fields: map<string, string>)
    | Create(key: GroupKey, fromTail: bool, mkstream: bool)
    | Read(group: string, consumer: string, names: seq<string>, count: Option<int>, readAt: Id -> real)
    | Ack(key: GroupKey, ids: seq<Id>)
    | Claim(key: GroupKey, consumer: string, minIdle: int, ids: seq<Id>, now: real)

  /** A store with its history, per group: where it started, what was acknowledged, what was claimed
      and how often, and what reads returned; `lost` are the groups that were handed entries by a read
      that then raised and returned nothing. */
  datatype Track = Track(
    store: Store,
    starts: map<GroupKey, nat>,
    acked: map<GroupKey, set<Id>>,
    claims: map<GroupKey, multiset<Id>>,
    returned: map<GroupKey, seq<Entry>>,
    lost: set<GroupKey>)

  const INITIAL := Track(EMPTY_STORE, map[], map[], map[], map[], {})

  // ---------------------------------------------------------------- histories

  /** The entries the batches of one read hold for one stream. */
  function Flatten(batches: seq<(string, seq<Entry>)>, name: string): seq<Entry> {
    if batches == [] then []
    else
      var last := batches[|batches| - 1];
      Flatten(batches[..|batches| - 1], name) + if last.0 == name then last.1 else []
  }

  ghost function ReadOutcomeOf(store: Store, c: Command): ReadOutcome
    requires c.Read? && CursorsInRange(store)
  {
    ReadAll(store, c.group, c.consumer, c.names, c.count, c.readAt)
  }

  /** The groups of one name that batches hold entries for. */
  ghost function HandedBy(keys: set<GroupKey>, group: string, batches: seq<(string, seq<Entry>)>): set<GroupKey> {
    set key | key in keys && key.group == group && Flatten(batches, key.stream) != []
  }

  ghost function Advance(t: Track, c: Command): Track
    requires CursorsInRange(t.store)
  {
    match c
    case Add(name, fields) => t.(store := Added(t.store, name, fields))
    case Create(key, fromTail, mkstream) =>
      if CreateRefused(t.store, key, mkstream) then t
      else
        var store := Created(t.store, key, fromTail, mkstream);
        Track(store, t.starts[key := store.groups[key].cursor], t.acked[key := {}], t.claims[key := multiset{}],
              t.returned[key := []], t.lost - {key})
    case Read(group, _, _, _, _) =>
      var outcome := ReadOutcomeOf(t.store, c);
      t.(store := outcome.store,
         returned := if outcome.raised then t.returned
                     else map key | key in t.returned ::
                            t.returned[key] + if key.group == group then Flatten(outcome.batches, key.stream) else [],
         lost := if outcome.raised then t.lost + HandedBy(t.store.groups.Keys, group, outcome.batches) else t.lost)
    case Ack(key, ids) =>
      t.(store := Acked(t.store, key, ids),
         acked := if key in t.store.groups && key in t.acked
                  then t.acked[key := t.acked[key] + t.store.groups[key].pending.Keys * Named(ids)] else t.acked)
    case Claim(key, consumer, minIdle, ids, now) =>
      t.(store := Claimed(t.store, key, consumer, minIdle, ids, now),
         claims := if key in t.claims
                   then t.claims[key := t.claims[key] + multiset(TakenBy(t.store, key, consumer, minIdle, ids, now))]
                   else t.claims)
  }

  // ---------------------------------------------------------------- the invariant

  /** Ids are positive, none exceeds the counter, and no two entries anywhere share one. */
  ghost predicate UniqueIds(store: Store) {
    && (forall name, i :: name in store.streams && 0 <= i < |store.streams[name]| ==>
          1 <= store.streams[name][i].id <= store.sequence)
    && (forall a, i, b, j :: a in store.streams && b in store.streams
          && 0 <= i < |store.streams[a]| && 0 <= j < |store.streams[b]|
          && store.streams[a][i].id == store.streams[b][j].id
          ==> a == b && i == j)
  }

  ghost predicate DistinctIds(entries: seq<Entry>) {
    forall i, j :: 0 <= i < j < |entries| ==> entries[i].id != entries[j].id
  }

  lemma StreamIdsDistinct(store: Store, name: string)
    requires UniqueIds(store)
    ensures DistinctIds(store.Entries(name))
  {
  }

  ghost function IdsOf(entries: seq<Entry>): (r: set<Id>)
    ensures forall id :: id in r <==> exists e :: e in entries && e.id == id
  {
    set e | e in entries :: e.id
  }

  /** The group's history accounts for all it was handed: the ids delivered since its start split into
      pending and acknowledged, none is both, and each pending entry was delivered once more than it
      was claimed. */
  ghost predicate Accounted(entries: seq<Entry>, group: Group, start: nat, acked: set<Id>, claims: multiset<Id>) {
    && start <= group.cursor <= |entries|
    && Split(group.pending, acked, claims, IdsOf(entries[start..group.cursor]))
  }

  ghost predicate Split(pending: map<Id, Pending>, acked: set<Id>, claims: multiset<Id>, delivered: set<Id>) {
    && pending.Keys !! acked
    && pending.Keys + acked == delivered
    && (forall id :: id in pending ==> pending[id].timesDelivered == 1 + claims[id])
    && (forall id :: id !in delivered ==> claims[id] == 0)
  }

  /** The group's part of the invariant. What the reads returned is the stream from the group's start to
      its cursor, in order, exactly for the groups that lost nothing to a read that raised; the others
      were returned less. */
  ghost predicate GroupInv(t: Track, key: GroupKey) {
    && key in t.store.groups && key in t.starts && key in t.acked && key in t.claims && key in t.returned
    && var entries, group := t.store.Entries(key.stream), t.store.groups[key];
       && Accounted(entries, group, t.starts[key], t.acked[key], t.claims[key])
       && (key !in t.lost ==> t.returned[key] == entries[t.starts[key]..group.cursor])
       && (key in t.lost ==> |t.returned[key]| < group.cursor - t.starts[key])
  }

  ghost predicate HistoryKeys(t: Track) {
    t.starts.Keys == t.acked.Keys == t.claims.Keys == t.returned.Keys == t.store.groups.Keys
  }

  ghost predicate Inv(t: Track) {
    && UniqueIds(t.store)
    && HistoryKeys(t)
    && forall key :: key in t.store.groups ==> GroupInv(t, key)
  }

  lemma InvGivesRange(t: Track)
    requires Inv(t)
    ensures CursorsInRange(t.store)
  {
    forall key | key in t.store.groups ensures t.store.groups[key].cursor <= |t.store.Entries(key.stream)| {
      assert GroupInv(t, key);
    }
  }

  // ---------------------------------------------------------------- commands on one group

  /** Delivered entries, and only they, become pending for the reader, delivered once. */
  lemma {:induction false} HandOutContents(
    pending: map<Id, Pending>, batch: seq<Entry>, consumer: string, readAt: Id -> real)
    ensures var r := HandOut(pending, batch, consumer, readAt);
            && r.Keys == pending.Keys + IdsOf(batch)
            && (forall id :: id in IdsOf(batch) ==> r[id] == Pending(consumer, readAt(id), 1))
            && (forall id :: id in pending && id !in IdsOf(batch) ==> r[id] == pending[id])
  {
    if batch != [] {
      var front := batch[..|batch| - 1];
      HandOutContents(pending, front, consumer, readAt);
      assert batch == front + [batch[|batch| - 1]];
      assert IdsOf(batch) == IdsOf(front) + {batch[|batch| - 1].id};
    }
  }

  /** A claim changes no key; each taking adds one delivery and stamps the entry with the time, and
      only what was idle long enough is taken. */
  lemma {:induction false} ClaimContents(
    pending: map<Id, Pending>, ids: seq<Id>, consumer: string, minIdle: int, now: real)
    ensures var held := ClaimHeld(pending, ids, consumer, minIdle, now);
            var taken := multiset(Taken(pending, ids, consumer, minIdle, now));
            && held.Keys == pending.Keys
            && (forall id :: id in pending ==> held[id].timesDelivered == pending[id].timesDelivered + taken[id])
            && (forall id :: id in pending ==> held[id].deliveredAt == if taken[id] > 0 then now else pending[id].deliveredAt)
            && (forall id :: taken[id] > 0 ==> id in pending && now - pending[id].deliveredAt >= minIdle as real)
  {
    if ids != [] {
      ClaimContents(pending, ids[..|ids| - 1], consumer, minIdle, now);
    }
  }

  /** A claim takes exactly the ids asked for that are pending and have been idle long enough. */
  lemma {:induction false} ClaimTakesExactly(
    pending: map<Id, Pending>, ids: seq<Id>, consumer: string, minIdle: int, now: real, id: Id)
    ensures id in Taken(pending, ids, consumer, minIdle, now) <==>
              id in ids && id in pending && now - pending[id].deliveredAt >= minIdle as real
    ensures id !in Taken(pending, ids, consumer, minIdle, now) ==>
              var held := ClaimHeld(pending, ids, consumer, minIdle, now);
              (id in held <==> id in pending) && (id in held ==> held[id] == pending[id])
  {
    if ids != [] {
      var front, last := ids[..|ids| - 1], ids[|ids| - 1];
      ClaimTakesExactly(pending, front, consumer, minIdle, now, id);
      assert ids == front + [last];
      if id in Taken(pending, front, consumer, minIdle, now) {
        assert id in Taken(pending, ids, consumer, minIdle, now);
      }
    }
  }

  /** What a claim takes becomes the claiming consumer's, and nothing else changes hands. */
  lemma {:induction false} ClaimChangesHands(
    pending: map<Id, Pending>, ids: seq<Id>, consumer: string, minIdle: int, now: real, id: Id)
    requires id in pending
    ensures var held := ClaimHeld(pending, ids, consumer, minIdle, now);
            id in held && held[id].consumer ==
              if id in Taken(pending, ids, consumer, minIdle, now) then consumer else pending[id].consumer
  {
    if ids != [] {
      ClaimChangesHands(pending, ids[..|ids| - 1], consumer, minIdle, now, id);
    }
  }

  lemma SliceIds(entries: seq<Entry>, a: nat, b: nat, c: nat)
    requires a <= b <= c <= |entries|
    ensures IdsOf(entries[a..c]) == IdsOf(entries[a..b]) + IdsOf(entries[b..c])
    ensures DistinctIds(entries) ==> IdsOf(entries[a..b]) !! IdsOf(entries[b..c])
  {
    assert entries[a..c] == entries[a..b] + entries[b..c];
    if DistinctIds(entries) {
      forall d, e | d in entries[a..b] && e in entries[b..c] ensures d.id != e.id {
        var i :| 0 <= i < b - a && entries[a..b][i] == d;
        var j :| 0 <= j < c - b && entries[b..c][j] == e;
        assert entries[a + i] == d && entries[b + j] == e;
      }
    }
  }

  /** `grown` is `pending` with the ids of `more` as new entries, delivered once. */
  ghost predicate GrownBy(pending: map<Id, Pending>, grown: map<Id, Pending>, more: set<Id>) {
    && grown.Keys == pending.Keys + more
    && (forall id :: id in more ==> grown[id].timesDelivered == 1)
    && (forall id :: id in pending && id !in more ==> grown[id] == pending[id])
  }

  lemma SplitGrows(
    pending: map<Id, Pending>, grown: map<Id, Pending>, acked: set<Id>, claims: multiset<Id>, delivered: set<Id>, more: set<Id>)
    requires Split(pending, acked, claims, delivered) && GrownBy(pending, grown, more) && delivered !! more
    ensures Split(grown, acked, claims, delivered + more)
  {
    forall id | id in more ensures id !in pending && id !in acked && claims[id] == 0 {
      assert id !in delivered;
    }
  }

  lemma HandOutGrows(pending: map<Id, Pending>, batch: seq<Entry>, consumer: string, readAt: Id -> real)
    ensures GrownBy(pending, HandOut(pending, batch, consumer, readAt), IdsOf(batch))
  {
    HandOutContents(pending, batch, consumer, readAt);
  }

  lemma ReadAccounts(
    entries: seq<Entry>, before: Group, after: Group, start: nat, acked: set<Id>, claims: multiset<Id>,
    handed: seq<Entry>, consumer: string, readAt: Id -> real)
    requires DistinctIds(entries) && Accounted(entries, before, start, acked, claims)
    requires HandedOver(entries, before, after, handed, consumer, readAt)
    ensures Accounted(entries, after, start, acked, claims)
  {
    HandOutGrows(before.pending, handed, consumer, readAt);
    SliceIds(entries, start, before.cursor, after.cursor);
    SplitGrows(before.pending, after.pending, acked, claims, IdsOf(entries[start..before.cursor]), IdsOf(handed));
  }

  lemma AckAccounts(entries: seq<Entry>, group: Group, start: nat, acked: set<Id>, claims: multiset<Id>, ids: seq<Id>)
    requires Accounted(entries, group, start, acked, claims)
    ensures Accounted(entries, group.(pending := AckLeft(group.pending, ids)), start,
                      acked + group.pending.Keys * Named(ids), claims)
  {
    AckRemovesNamed(group.pending, ids);
  }

  lemma ClaimAccounts(
    entries: seq<Entry>, group: Group, start: nat, acked: set<Id>, claims: multiset<Id>,
    ids: seq<Id>, consumer: string, minIdle: int, now: real)
    requires Accounted(entries, group, start, acked, claims)
    ensures Accounted(entries, group.(pending := ClaimHeld(group.pending, ids, consumer, minIdle, now)), start, acked,
                      claims + multiset(Taken(group.pending, ids, consumer, minIdle, now)))
  {
    ClaimContents(group.pending, ids, consumer, minIdle, now);
  }

  // ---------------------------------------------------------------- reads of several streams

  /** From one state of a group to another, exactly the entries between the cursors were handed out. */
  ghost predicate HandedOver(
    entries: seq<Entry>, before: Group, after: Group, handed: seq<Entry>, consumer: string, readAt: Id -> real)
  {
    && before.cursor <= after.cursor <= |entries|
    && handed == entries[before.cursor..after.cursor]
    && after.pending == HandOut(before.pending, handed, consumer, readAt)
  }

  lemma {:induction false} HandOutTwice(
    pending: map<Id, Pending>, first: seq<Entry>, second: seq<Entry>, consumer: string, readAt: Id -> real)
    ensures HandOut(HandOut(pending, first, consumer, readAt), second, consumer, readAt)
         == HandOut(pending, first + second, consumer, readAt)
  {
    if second == [] {
      assert first + second == first;
    } else {
      HandOutTwice(pending, first, second[..|second| - 1], consumer, readAt);
      assert (first + second)[..|first + second| - 1] == first + second[..|second| - 1];
    }
  }

  lemma HandedOverOnward(
    entries: seq<Entry>, before: Group, mid: Group, to: nat, handed: seq<Entry>, consumer: string, readAt: Id -> real)
    requires HandedOver(entries, before, mid, handed, consumer, readAt) && mid.cursor <= to <= |entries|
    ensures HandedOver(entries, before, Group(to, HandOut(mid.pending, entries[mid.cursor..to], consumer, readAt)),
                       handed + entries[mid.cursor..to], consumer, readAt)
  {
    HandOutTwice(before.pending, handed, entries[mid.cursor..to], consumer, readAt);
    SlicesJoin(entries, before.cursor, mid.cursor, to);
  }

  lemma SlicesJoin(entries: seq<Entry>, from: nat, mid: nat, to: nat)
    requires from <= mid <= to <= |entries|
    ensures entries[from..mid] + entries[mid..to] == entries[from..to]
  {
  }

  lemma FlattenOneMore(batches: seq<(string, seq<Entry>)>, stream: string, batch: seq<Entry>, name: string)
    ensures Flatten(batches + [(stream, batch)], name) == Flatten(batches, name) + if stream == name then batch else []
  {
    assert (batches + [(stream, batch)])[..|batches|] == batches;
  }

  /** One read, seen from one group, raised or not: a group of another name is left alone, and of its
      own the batches hold what was handed out. */
  ghost predicate ReadEffect(
    store: Store, outcome: ReadOutcome, group: string, consumer: string, readAt: Id -> real, key: GroupKey)
  {
    key in store.groups ==>
      && key in outcome.store.groups
      && if key.group != group then outcome.store.groups[key] == store.groups[key]
         else HandedOver(store.Entries(key.stream), store.groups[key], outcome.store.groups[key],
                         Flatten(outcome.batches, key.stream), consumer, readAt)
  }

  lemma ReadNextOnGroup(
    before: ReadOutcome, next: GroupKey, consumer: string, count: Option<int>, readAt: Id -> real, key: GroupKey)
    requires CursorsInRange(before.store) && key in before.store.groups
    ensures var after, read := ReadNext(before, next, consumer, count, readAt), !before.raised && next == key;
            && key in after.store.groups
            && after.store.groups[key] == (if read then GroupAfterRead(before.store, key, consumer, count, readAt)
                                           else before.store.groups[key])
            && (next.group == key.group ==>
                  Flatten(after.batches, key.stream) ==
                    Flatten(before.batches, key.stream) + if read then BatchOf(before.store, key, count) else [])
  {
    if !before.raised && next in before.store.groups {
      FlattenOneMore(before.batches, next.stream, BatchOf(before.store, next, count), key.stream);
    }
  }

  lemma ReadHandsOver(
    store: Store, key: GroupKey, first: Group, handed: seq<Entry>, consumer: string, count: Option<int>, readAt: Id -> real)
    requires Readable(store, key)
    requires HandedOver(store.Entries(key.stream), first, store.groups[key], handed, consumer, readAt)
    ensures HandedOver(store.Entries(key.stream), first, GroupAfterRead(store, key, consumer, count, readAt),
                       handed + BatchOf(store, key, count), consumer, readAt)
  {
    var entries, mid := store.Entries(key.stream), store.groups[key];
    var to := BatchIsNext(entries, mid.cursor, count);
    HandedOverOnward(entries, first, mid, to, handed, consumer, readAt);
  }

  lemma ReadNextEffect(
    store: Store, before: ReadOutcome, group: string, name: string, consumer: string, count: Option<int>,
    readAt: Id -> real, key: GroupKey)
    requires CursorsInRange(before.store) && before.store.streams == store.streams
    requires ReadEffect(store, before, group, consumer, readAt, key)
    ensures ReadEffect(store, ReadNext(before, GroupKey(name, group), consumer, count, readAt), group, consumer, readAt, key)
  {
    if key in store.groups {
      ReadNextOnGroup(before, GroupKey(name, group), consumer, count, readAt, key);
      if !before.raised && key == GroupKey(name, group) {
        ReadHandsOver(before.store, key, store.groups[key], Flatten(before.batches, name), consumer, count, readAt);
      }
    }
  }

  lemma {:induction false} ReadKeepsStreams(
    store: Store, group: string, consumer: string, names: seq<string>, count: Option<int>, readAt: Id -> real)
    requires CursorsInRange(store)
    ensures var after := ReadAll(store, group, consumer, names, count, readAt).store;
            after.streams == store.streams && after.sequence == store.sequence && after.groups.Keys == store.groups.Keys
  {
    if names != [] {
      ReadKeepsStreams(store, group, consumer, names[..|names| - 1], count, readAt);
    }
  }

  lemma {:induction false} ReadEffectHolds(
    store: Store, group: string, consumer: string, names: seq<string>, count: Option<int>, readAt: Id -> real, key: GroupKey)
    requires CursorsInRange(store)
    ensures ReadEffect(store, ReadAll(store, group, consumer, names, count, readAt), group, consumer, readAt, key)
  {
    if names != [] {
      var front := names[..|names| - 1];
      ReadEffectHolds(store, group, consumer, front, count, readAt, key);
      ReadKeepsStreams(store, group, consumer, front, count, readAt);
      ReadNextEffect(store, ReadAll(store, group, consumer, front, count, readAt), group, names[|names| - 1],
                     consumer, count, readAt, key);
    }
  }

  // ---------------------------------------------------------------- the invariant is kept

  lemma AddKeepsIds(store: Store, name: string, fields: map<string, string>)
    requires UniqueIds(store)
    ensures UniqueIds(Added(store, name, fields))
  {
    var after := Added(store, name, fields);
    forall a, i | a in after.streams && 0 <= i < |after.streams[a]|
      ensures 1 <= after.streams[a][i].id <= after.sequence
      ensures after.streams[a][i].id == after.sequence <==> a == name && i == |store.Entries(name)|
      ensures !(a == name && i == |store.Entries(name)|) ==>
                a in store.streams && i < |store.streams[a]| && after.streams[a][i] == store.streams[a][i]
    {
    }
  }

  lemma AdvanceKeepsIds(t: Track, c: Command)
    requires CursorsInRange(t.store) && UniqueIds(t.store)
    ensures UniqueIds(Advance(t, c).store)
    ensures forall name :: t.store.Entries(name) <= Advance(t, c).store.Entries(name)
  {
    match c
    case Add(name, fields) => AddKeepsIds(t.store, name, fields);
    case Read(group, consumer, names, count, readAt) => ReadKeepsStreams(t.store, group, consumer, names, count, readAt);
    case Create(_, _, _) => CreateKeepsIds(t, c);
    case _ =>
  }

  lemma CreateKeepsIds(t: Track, c: Command)
    requires CursorsInRange(t.store) && UniqueIds(t.store) && c.Create?
    ensures UniqueIds(Advance(t, c).store)
    ensures forall name :: t.store.Entries(name) == Advance(t, c).store.Entries(name)
  {
  }

  lemma AddKeepsGroup(t: Track, name: string, fields: map<string, string>, key: GroupKey)
    requires CursorsInRange(t.store) && GroupInv(t, key)
    ensures GroupInv(Advance(t, Add(name, fields)), key)
  {
    var before, after := t.store.Entries(key.stream), Advance(t, Add(name, fields)).store.Entries(key.stream);
    assert after[t.starts[key]..t.store.groups[key].cursor] == before[t.starts[key]..t.store.groups[key].cursor];
  }

  lemma ReadKeepsGroup(t: Track, c: Command, key: GroupKey)
    requires CursorsInRange(t.store) && UniqueIds(t.store) && GroupInv(t, key) && c.Read?
    ensures GroupInv(Advance(t, c), key)
  {
    var r, outcome := Advance(t, c), ReadOutcomeOf(t.store, c);
    assert r.store == outcome.store && r.starts == t.starts && r.acked == t.acked && r.claims == t.claims;
    ReadKeepsStreams(t.store, c.group, c.consumer, c.names, c.count, c.readAt);
    ReadEffectHolds(t.store, c.group, c.consumer, c.names, c.count, c.readAt, key);
    var entries, handed := t.store.Entries(key.stream), Flatten(outcome.batches, key.stream);
    if key.group == c.group {
      StreamIdsDistinct(t.store, key.stream);
      ReadAccounts(entries, t.store.groups[key], r.store.groups[key], t.starts[key], t.acked[key], t.claims[key],
                   handed, c.consumer, c.readAt);
      ReadKeepsReturned(t, c, key);
    }
  }

  /** What a read adds to what was returned to one of its groups, or to what is lost. */
  lemma ReadKeepsReturned(t: Track, c: Command, key: GroupKey)
    requires CursorsInRange(t.store) && GroupInv(t, key) && c.Read? && key.group == c.group
    requires key in ReadOutcomeOf(t.store, c).store.groups
    requires HandedOver(t.store.Entries(key.stream), t.store.groups[key], ReadOutcomeOf(t.store, c).store.groups[key],
                        Flatten(ReadOutcomeOf(t.store, c).batches, key.stream), c.consumer, c.readAt)
    ensures var r, entries := Advance(t, c), t.store.Entries(key.stream);
            && key in r.returned && key in r.store.groups
            && t.starts[key] <= r.store.groups[key].cursor <= |entries|
            && (key !in r.lost ==> r.returned[key] == entries[t.starts[key]..r.store.groups[key].cursor])
            && (key in r.lost ==> |r.returned[key]| < r.store.groups[key].cursor - t.starts[key])
  {
    var entries, outcome := t.store.Entries(key.stream), ReadOutcomeOf(t.store, c);
    SlicesJoin(entries, t.starts[key], t.store.groups[key].cursor, outcome.store.groups[key].cursor);
    assert key in HandedBy(t.store.groups.Keys, c.group, outcome.batches) <==> Flatten(outcome.batches, key.stream) != [];
  }

  lemma AckKeepsGroup(t: Track, c: Command, key: GroupKey)
    requires CursorsInRange(t.store) && GroupInv(t, key) && c.Ack?
    ensures GroupInv(Advance(t, c), key)
  {
    AckAccounts(t.store.Entries(key.stream), t.store.groups[key], t.starts[key], t.acked[key], t.claims[key], c.ids);
  }

  lemma ClaimKeepsGroup(t: Track, c: Command, key: GroupKey)
    requires CursorsInRange(t.store) && GroupInv(t, key) && c.Claim?
    ensures GroupInv(Advance(t, c), key)
  {
    var r := Advance(t, c);
    assert r.starts == t.starts && r.acked == t.acked && r.returned == t.returned && r.lost == t.lost;
    assert r.store.Entries(key.stream) == t.store.Entries(key.stream);
    if key == c.key {
      ClaimAccounts(t.store.Entries(key.stream), t.store.groups[key], t.starts[key], t.acked[key], t.claims[key],
                    c.ids, c.consumer, c.minIdle, c.now);
    }
  }

  lemma CreateKeepsGroup(t: Track, c: Command, key: GroupKey)
    requires CursorsInRange(t.store) && c.Create? && !CreateRefused(t.store, c.key, c.mkstream)
    requires key == c.key || GroupInv(t, key)
    ensures GroupInv(Advance(t, c), key)
  {
    var after := Advance(t, c);
    assert after.store.Entries(key.stream) == t.store.Entries(key.stream);
    if key == c.key {
      var cursor := after.store.groups[key].cursor;
      assert after.store.Entries(key.stream)[cursor..cursor] == [];
    }
  }

  lemma AdvanceKeepsGroup(t: Track, c: Command, key: GroupKey)
    requires CursorsInRange(t.store) && UniqueIds(t.store) && GroupInv(t, key)
    ensures GroupInv(Advance(t, c), key)
  {
    match c
    case Add(name, fields) => AddKeepsGroup(t, name, fields, key);
    case Create(_, _, mkstream) => if !CreateRefused(t.store, c.key, mkstream) { CreateKeepsGroup(t, c, key); }
    case Read(_, _, _, _, _) => ReadKeepsGroup(t, c, key);
    case Ack(_, _) => AckKeepsGroup(t, c, key);
    case Claim(_, _, _, _, _) => ClaimKeepsGroup(t, c, key);
  }

  lemma CreateKeepsKeys(t: Track, c: Command)
    requires CursorsInRange(t.store) && HistoryKeys(t) && c.Create? && !CreateRefused(t.store, c.key, c.mkstream)
    ensures HistoryKeys(Advance(t, c)) && Advance(t, c).store.groups.Keys == t.store.groups.Keys + {c.key}
  {
    var after := Advance(t, c);
    OneMoreKey(t.store.groups, c.key, after.store.groups[c.key]);
    OneMoreKey(t.starts, c.key, after.starts[c.key]);
    OneMoreKey(t.acked, c.key, {});
    OneMoreKey(t.claims, c.key, multiset{});
    OneMoreKey(t.returned, c.key, []);
  }

  lemma OneMoreKey<V>(m: map<GroupKey, V>, key: GroupKey, value: V)
    ensures m[key := value].Keys == m.Keys + {key}
  {
  }

  lemma ReadKeepsKeys(t: Track, c: Command)
    requires CursorsInRange(t.store) && HistoryKeys(t) && c.Read?
    ensures HistoryKeys(Advance(t, c)) && Advance(t, c).store.groups.Keys == t.store.groups.Keys
  {
    ReadKeepsStreams(t.store, c.group, c.consumer, c.names, c.count, c.readAt);
    assert Advance(t, c).returned.Keys == t.returned.Keys;
  }

  lemma AckKeepsKeys(t: Track, c: Command)
    requires CursorsInRange(t.store) && HistoryKeys(t) && c.Ack?
    ensures HistoryKeys(Advance(t, c)) && Advance(t, c).store.groups.Keys == t.store.groups.Keys
  {
    if c.key in t.store.groups {
      assert t.store.groups.Keys + {c.key} == t.store.groups.Keys;
    }
  }

  lemma ClaimKeepsKeys(t: Track, c: Command)
    requires CursorsInRange(t.store) && HistoryKeys(t) && c.Claim?
    ensures HistoryKeys(Advance(t, c)) && Advance(t, c).store.groups.Keys == t.store.groups.Keys
  {
    if c.key in t.store.groups {
      assert t.store.groups.Keys + {c.key} == t.store.groups.Keys;
    }
  }

  lemma AdvanceKeepsKeys(t: Track, c: Command)
    requires CursorsInRange(t.store) && HistoryKeys(t)
    requires c.Create? ==> CreateRefused(t.store, c.key, c.mkstream)
    ensures HistoryKeys(Advance(t, c)) && Advance(t, c).store.groups.Keys == t.store.groups.Keys
  {
    match c
    case Read(_, _, _, _, _) => ReadKeepsKeys(t, c);
    case Ack(_, _) => AckKeepsKeys(t, c);
    case Claim(_, _, _, _, _) => ClaimKeepsKeys(t, c);
    case _ =>
  }

  lemma AdvanceKeeps(t: Track, c: Command)
    requires Inv(t)
    ensures CursorsInRange(t.store) && Inv(Advance(t, c))
  {
    InvGivesRange(t);
    AdvanceKeepsIds(t, c);
    if c.Create? && !CreateRefused(t.store, c.key, c.mkstream) {
      CreateKeepsKeys(t, c);
    } else {
      AdvanceKeepsKeys(t, c);
    }
    forall key | key in Advance(t, c).store.groups ensures GroupInv(Advance(t, c), key) {
      if key in t.store.groups {
        AdvanceKeepsGroup(t, c, key);
      } else {
        CreateKeepsGroup(t, c, key);
      }
    }
  }

  // ---------------------------------------------------------------- runs

  /** The track after a run of commands. */
  ghost function Play(t: Track, commands: seq<Command>): Track
    requires Inv(t)
    decreases |commands|
  {
    if commands == [] then t
    else
      AdvanceKeeps(t, commands[0]);
      Play(Advance(t, commands[0]), commands[1..])
  }

  /** No run breaks the invariant. */
  lemma {:induction false} PlayKeeps(t: Track, commands: seq<Command>)
    requires Inv(t)
    ensures Inv(Play(t, commands)) && CursorsInRange(Play(t, commands).store)
    decreases |commands|
  {
    if commands == [] {
      InvGivesRange(t);
    } else {
      AdvanceKeeps(t, commands[0]);
      PlayKeeps(Advance(t, commands[0]), commands[1..]);
    }
  }

  /** Whatever is done to an empty client, every group's deliveries stay accounted for. */
  lemma EveryRunIsAccounted(commands: seq<Command>, key: GroupKey)
    ensures Inv(INITIAL)
    ensures UniqueIds(Play(INITIAL, commands).store)
    ensures key in Play(INITIAL, commands).store.groups ==> GroupInv(Play(INITIAL, commands), key)
    ensures var r := Play(INITIAL, commands);
            key in r.store.groups && key !in r.lost ==>
              && key in r.returned && key in r.starts
              && r.starts[key] <= r.store.groups[key].cursor <= |r.store.Entries(key.stream)|
              && r.returned[key] == r.store.Entries(key.stream)[r.starts[key]..r.store.groups[key].cursor]
  {
    PlayKeeps(INITIAL, commands);
  }

  /** Streams only ever grow at their end. */
  lemma {:induction false} StreamsAreAppendOnly(t: Track, commands: seq<Command>, name: string)
    requires Inv(t)
    ensures t.store.Entries(name) <= Play(t, commands).store.Entries(name)
    decreases |commands|
  {
    if commands != [] {
      AdvanceKeeps(t, commands[0]);
      AdvanceKeepsIds(t, commands[0]);
      StreamsAreAppendOnly(Advance(t, commands[0]), commands[1..], name);
    }
  }

  /** The ids a command hands to a consumer of one group, whether or not the call then returns them. */
  ghost function Handed(t: Track, c: Command, key: GroupKey): set<Id>
    requires CursorsInRange(t.store)
  {
    match c
    case Read(group, _, _, _, _) =>
      if key.group == group then IdsOf(Flatten(ReadOutcomeOf(t.store, c).batches, key.stream)) else {}
    case Claim(k, consumer, minIdle, ids, now) =>
      if k == key then Named(TakenBy(t.store, key, consumer, minIdle, ids, now)) else {}
    case _ => {}
  }

  lemma AdvanceKeepsAcked(t: Track, c: Command, key: GroupKey, id: Id)
    requires Inv(t) && key in t.acked && id in t.acked[key]
    ensures CursorsInRange(t.store) && key in Advance(t, c).acked && id in Advance(t, c).acked[key]
  {
    InvGivesRange(t);
  }

  lemma {:induction false} AckedStaysAcked(t: Track, commands: seq<Command>, key: GroupKey, id: Id)
    requires Inv(t) && key in t.acked && id in t.acked[key]
    ensures var r := Play(t, commands); key in r.acked && id in r.acked[key]
    decreases |commands|
  {
    if commands != [] {
      AdvanceKeeps(t, commands[0]);
      AdvanceKeepsAcked(t, commands[0], key, id);
      AckedStaysAcked(Advance(t, commands[0]), commands[1..], key, id);
    }
  }

  lemma AckedIsNotHanded(t: Track, c: Command, key: GroupKey, id: Id)
    requires Inv(t) && CursorsInRange(t.store) && key in t.acked && id in t.acked[key]
    ensures id !in Handed(t, c, key)
  {
    assert GroupInv(t, key);
    match c
    case Read(group, consumer, names, count, readAt) =>
      ReadEffectHolds(t.store, group, consumer, names, count, readAt, key);
      StreamIdsDistinct(t.store, key.stream);
      SliceIds(t.store.Entries(key.stream), t.starts[key], t.store.groups[key].cursor,
               ReadOutcomeOf(t.store, c).store.groups[key].cursor);
    case Claim(_, consumer, minIdle, ids, now) =>
      TakenWasClaimable(t.store.groups[key].pending, ids, consumer, minIdle, now, id);
    case _ =>
  }

  lemma TakenWasClaimable(pending: map<Id, Pending>, ids: seq<Id>, consumer: string, minIdle: int, now: real, id: Id)
    ensures id in Named(Taken(pending, ids, consumer, minIdle, now)) ==> Claimable(pending, id, minIdle, now)
  {
    ClaimContents(pending, ids, consumer, minIdle, now);
    var taken: multiset<Id> := multiset(Taken(pending, ids, consumer, minIdle, now));
    assert id in taken <==> id in Named(Taken(pending, ids, consumer, minIdle, now));
  }

  /** Once acknowledged, an entry is never delivered or claimed in its group again, after any run. */
  lemma AckedIsNeverHandedAgain(t: Track, commands: seq<Command>, next: Command, key: GroupKey, id: Id)
    requires Inv(t) && key in t.acked && id in t.acked[key]
    ensures CursorsInRange(Play(t, commands).store) && id !in Handed(Play(t, commands), next, key)
  {
    AckedStaysAcked(t, commands, key, id);
    PlayKeeps(t, commands);
    AckedIsNotHanded(Play(t, commands), next, key, id);
  }

  // ---------------------------------------------------------------- claims

  /** No command of the run reads a clock earlier than `time`. */
  ghost predicate NotBefore(commands: seq<Command>, time: real) {
    forall c :: c in commands ==>
      && (c.Claim? ==> c.now >= time)
      && (c.Read? ==> forall id :: c.readAt(id) >= time)
  }

  /** The entry was not handed out before `time`, or is no longer pending. */
  ghost predicate HandedSince(store: Store, key: GroupKey, id: Id, time: real) {
    key in store.groups && (id in store.groups[key].pending ==> store.groups[key].pending[id].deliveredAt >= time)
  }

  lemma ReadKeepsRecency(t: Track, c: Command, key: GroupKey, id: Id, time: real)
    requires CursorsInRange(t.store) && c.Read? && HandedSince(t.store, key, id, time) && forall x :: c.readAt(x) >= time
    ensures HandedSince(Advance(t, c).store, key, id, time)
  {
    ReadEffectHolds(t.store, c.group, c.consumer, c.names, c.count, c.readAt, key);
    HandOutContents(t.store.groups[key].pending, Flatten(ReadOutcomeOf(t.store, c).batches, key.stream), c.consumer, c.readAt);
  }

  lemma ClaimKeepsRecency(t: Track, c: Command, key: GroupKey, id: Id, time: real)
    requires CursorsInRange(t.store) && c.Claim? && HandedSince(t.store, key, id, time) && c.now >= time
    ensures HandedSince(Advance(t, c).store, key, id, time)
  {
    if c.key == key { ClaimContents(t.store.groups[key].pending, c.ids, c.consumer, c.minIdle, c.now); }
  }

  lemma AckKeepsRecency(t: Track, c: Command, key: GroupKey, id: Id, time: real)
    requires CursorsInRange(t.store) && c.Ack? && HandedSince(t.store, key, id, time)
    ensures HandedSince(Advance(t, c).store, key, id, time)
  {
    if c.key == key { AckRemovesNamed(t.store.groups[key].pending, c.ids); }
  }

  lemma AdvanceKeepsRecency(t: Track, c: Command, key: GroupKey, id: Id, time: real)
    requires Inv(t) && HandedSince(t.store, key, id, time) && NotBefore([c], time)
    ensures CursorsInRange(t.store) && HandedSince(Advance(t, c).store, key, id, time)
  {
    InvGivesRange(t);
    assert c in [c];
    match c
    case Read(_, _, _, _, _) => ReadKeepsRecency(t, c, key, id, time);
    case Claim(_, _, _, _, _) => ClaimKeepsRecency(t, c, key, id, time);
    case Ack(_, _) => AckKeepsRecency(t, c, key, id, time);
    case _ =>
  }

  lemma {:induction false} RecencyLasts(t: Track, commands: seq<Command>, key: GroupKey, id: Id, time: real)
    requires Inv(t) && HandedSince(t.store, key, id, time) && NotBefore(commands, time)
    ensures HandedSince(Play(t, commands).store, key, id, time)
    decreases |commands|
  {
    if commands != [] {
      AdvanceKeeps(t, commands[0]);
      AdvanceKeepsRecency(t, commands[0], key, id, time);
      RecencyLasts(Advance(t, commands[0]), commands[1..], key, id, time);
    }
  }

  /** Ids that the stream holds all get their entry, in the order asked for. */
  lemma {:induction false} PayloadsComplete(entries: seq<Entry>, ids: seq<Id>)
    requires forall id :: id in ids ==> id in ById(entries) && Entry(id, ById(entries)[id]) in entries
    ensures |Payloads(entries, ids)| == |ids|
    ensures forall i :: 0 <= i < |ids| ==> Payloads(entries, ids)[i].id == ids[i] && Payloads(entries, ids)[i] in entries
  {
    if ids != [] {
      PayloadsComplete(entries, ids[..|ids| - 1]);
      assert ids[|ids| - 1] in ids;
    }
  }

  /** Whatever a claim takes, the call returns: every pending entry is in its stream. */
  lemma TakenEntriesAreReturned(t: Track, key: GroupKey, taken: seq<Id>)
    requires Inv(t) && key in t.store.groups && forall id :: id in taken ==> id in t.store.groups[key].pending
    ensures var returned := Payloads(t.store.Entries(key.stream), taken);
            && |returned| == |taken|
            && forall i :: 0 <= i < |taken| ==> returned[i].id == taken[i] && returned[i] in t.store.Entries(key.stream)
  {
    var entries := t.store.Entries(key.stream);
    forall id | id in taken ensures id in ById(entries) && Entry(id, ById(entries)[id]) in entries {
      PendingIsInStream(t, key, id);
      ByIdFinds(entries, id);
    }
    PayloadsComplete(entries, taken);
  }

  lemma PendingIsInStream(t: Track, key: GroupKey, id: Id)
    requires Inv(t) && key in t.store.groups && id in t.store.groups[key].pending
    ensures exists e :: e in t.store.Entries(key.stream) && e.id == id
  {
    assert GroupInv(t, key);
    var entries, start, cursor := t.store.Entries(key.stream), t.starts[key], t.store.groups[key].cursor;
    assert id in IdsOf(entries[start..cursor]);
    var e :| e in entries[start..cursor] && e.id == id;
    assert e in entries;
  }

  lemma {:induction false} ByIdFinds(entries: seq<Entry>, id: Id)
    ensures id in ById(entries) <==> exists e :: e in entries && e.id == id
    ensures id in ById(entries) ==> Entry(id, ById(entries)[id]) in entries
  {
    if entries != [] {
      var front, last := entries[..|entries| - 1], entries[|entries| - 1];
      ByIdFinds(front, id);
      assert entries == front + [last];
    }
  }

  /** Every entry delivered in a group and not acknowledged there can be claimed once it has been idle
      long enough, and the claim returns it. */
  lemma DeliveredCanBeClaimed(t: Track, key: GroupKey, consumer: string, minIdle: int, id: Id, now: real)
    requires Inv(t) && key in t.store.groups && key in t.acked && key in t.starts
    requires t.starts[key] <= t.store.groups[key].cursor <= |t.store.Entries(key.stream)|
    requires id in IdsOf(t.store.Entries(key.stream)[t.starts[key]..t.store.groups[key].cursor]) && id !in t.acked[key]
    ensures id in t.store.groups[key].pending
    ensures now - t.store.groups[key].pending[id].deliveredAt >= minIdle as real ==>
              var taken := TakenBy(t.store, key, consumer, minIdle, [id], now);
              taken == [id] && |Payloads(t.store.Entries(key.stream), taken)| == 1
  {
    assert GroupInv(t, key);
    var pending := t.store.groups[key].pending;
    assert id in pending.Keys + t.acked[key];
    if now - pending[id].deliveredAt >= minIdle as real {
      assert [id][..0] == [];
      assert Taken(pending, [id], consumer, minIdle, now) == [id];
      TakenEntriesAreReturned(t, key, [id]);
    }
  }

  /** One winner per idle window: after a claim takes an entry at some time, and whatever happens in
      between, no later claim takes it before it has been idle for that claim's own minimum. */
  lemma OneWinnerPerIdleWindow(t: Track, first: Command, between: seq<Command>, second: Command, id: Id)
    requires Inv(t) && first.Claim? && second.Claim? && first.key == second.key
    requires CursorsInRange(t.store) && id in Handed(t, first, first.key)
    requires NotBefore(between, first.now)
    requires second.now - first.now < second.minIdle as real
    ensures Inv(Advance(t, first))
    ensures var later := Play(Advance(t, first), between);
            CursorsInRange(later.store) && id !in Handed(later, second, second.key)
  {
    AdvanceKeeps(t, first);
    ClaimStamps(t, first, id);
    RecencyLasts(Advance(t, first), between, first.key, id, first.now);
    PlayKeeps(Advance(t, first), between);
    TooEarlyToClaim(Play(Advance(t, first), between), second, id, first.now);
  }

  lemma TooEarlyToClaim(t: Track, c: Command, id: Id, since: real)
    requires CursorsInRange(t.store) && c.Claim? && HandedSince(t.store, c.key, id, since)
    requires c.now - since < c.minIdle as real
    ensures id !in Handed(t, c, c.key)
  {
    TakenWasClaimable(t.store.groups[c.key].pending, c.ids, c.consumer, c.minIdle, c.now, id);
  }

  lemma ClaimStamps(t: Track, c: Command, id: Id)
    requires CursorsInRange(t.store) && c.Claim? && id in Handed(t, c, c.key)
    ensures HandedSince(Advance(t, c).store, c.key, id, c.now)
  {
    var pending := t.store.groups[c.key].pending;
    ClaimContents(pending, c.ids, c.consumer, c.minIdle, c.now);
    var taken: multiset<Id> := multiset(Taken(pending, c.ids, c.consumer, c.minIdle, c.now));
    assert id in taken;
  }

  // ---------------------------------------------------------------- isolation and loss

  /** Whether a command is addressed to a group. */
  predicate Addresses(c: Command, key: GroupKey) {
    match c
    case Add(_, _) => false
    case Create(k, _, _) => k == key
    case Read(group, _, names, _, _) => key.group == group && key.stream in names
    case Ack(k, _) => k == key
    case Claim(k, _, _, _, _) => k == key
  }

  lemma {:induction false} ReadLeavesOthers(
    store: Store, group: string, consumer: string, names: seq<string>, count: Option<int>, readAt: Id -> real, key: GroupKey)
    requires CursorsInRange(store) && key in store.groups && !(key.group == group && key.stream in names)
    ensures var r := ReadAll(store, group, consumer, names, count, readAt).store;
            key in r.groups && r.groups[key] == store.groups[key]
  {
    if names != [] {
      assert names == names[..|names| - 1] + [names[|names| - 1]];
      ReadLeavesOthers(store, group, consumer, names[..|names| - 1], count, readAt, key);
    }
  }

  /** A command leaves every group it is not addressed to exactly as it was. */
  lemma OtherGroupsUntouched(t: Track, c: Command, key: GroupKey)
    requires CursorsInRange(t.store) && key in t.store.groups && !Addresses(c, key)
    ensures var r := Advance(t, c).store; key in r.groups && r.groups[key] == t.store.groups[key]
  {
    if c.Read? {
      ReadLeavesOthers(t.store, c.group, c.consumer, c.names, c.count, c.readAt, key);
    }
  }

  /** A read raises exactly when the group is missing on one of its streams. */
  lemma {:induction false} ReadRaisesExactly(
    store: Store, group: string, consumer: string, names: seq<string>, count: Option<int>, readAt: Id -> real)
    requires CursorsInRange(store)
    ensures ReadAll(store, group, consumer, names, count, readAt).raised <==>
              exists name :: name in names && GroupKey(name, group) !in store.groups
  {
    if names != [] {
      var front, last := names[..|names| - 1], names[|names| - 1];
      ReadRaisesExactly(store, group, consumer, front, count, readAt);
      ReadKeepsStreams(store, group, consumer, front, count, readAt);
      assert names == front + [last];
    }
  }

  /** The first stream of the list on which the group is missing. */
  ghost predicate FirstMissing(store: Store, group: string, names: seq<string>, j: int) {
    && 0 <= j < |names| && GroupKey(names[j], group) !in store.groups
    && forall k :: 0 <= k < j ==> GroupKey(names[k], group) in store.groups
  }

  /** A read stops there: streams after it do not matter. */
  lemma {:induction false} ReadStopsAtMissing(
    store: Store, group: string, consumer: string, names: seq<string>, count: Option<int>, readAt: Id -> real, j: int)
    requires CursorsInRange(store) && FirstMissing(store, group, names, j)
    ensures ReadAll(store, group, consumer, names, count, readAt)
         == ReadAll(store, group, consumer, names[..j], count, readAt).(raised := true)
  {
    var front := names[..|names| - 1];
    assert front[..if j < |front| then j else |front|] == names[..j];
    ReadKeepsStreams(store, group, consumer, front, count, readAt);
    if j < |names| - 1 {
      ReadStopsAtMissing(store, group, consumer, front, count, readAt, j);
    }
  }

  /** While no group is missing, a read moves a group exactly when it lists its stream and the group
      had something to read there. */
  lemma {:induction false} ReadMovesExactly(
    store: Store, group: string, consumer: string, names: seq<string>, count: Option<int>, readAt: Id -> real, key: GroupKey)
    requires CursorsInRange(store) && key in store.groups && key.group == group
    requires forall name :: name in names ==> GroupKey(name, group) in store.groups
    ensures var after := ReadAll(store, group, consumer, names, count, readAt);
            && !after.raised && key in after.store.groups
            && if key.stream in names && BatchOf(store, key, count) != []
               then store.groups[key].cursor < after.store.groups[key].cursor
               else after.store.groups[key] == store.groups[key]
  {
    if names != [] {
      var front, last := names[..|names| - 1], names[|names| - 1];
      assert names == front + [last];
      ReadMovesExactly(store, group, consumer, front, count, readAt, key);
      ReadKeepsStreams(store, group, consumer, front, count, readAt);
      ReadNextOnGroup(ReadAll(store, group, consumer, front, count, readAt), GroupKey(last, group), consumer, count, readAt, key);
    }
  }

  /** Before the call: the group is missing on some stream, and this stream comes before the first such
      and has something to read. */
  ghost predicate WillStrand(store: Store, group: string, names: seq<string>, count: Option<int>, stream: string)
    requires CursorsInRange(store)
  {
    exists j :: FirstMissing(store, group, names, j) && stream in names[..j] && HasUnread(store, GroupKey(stream, group), count)
  }

  ghost predicate HasUnread(store: Store, key: GroupKey, count: Option<int>) {
    Readable(store, key) && BatchOf(store, key, count) != []
  }

  /** After the call: it raised, although the stream's entries were handed out. */
  ghost predicate Stranded(store: Store, outcome: ReadOutcome, key: GroupKey) {
    && outcome.raised && key in store.groups && key in outcome.store.groups
    && store.groups[key].cursor < outcome.store.groups[key].cursor
  }

  /** Exactly which streams a read strands entries of, for every list of streams. */
  lemma StrandsExactly(
    store: Store, group: string, consumer: string, names: seq<string>, count: Option<int>, readAt: Id -> real, stream: string)
    requires CursorsInRange(store)
    ensures Stranded(store, ReadAll(store, group, consumer, names, count, readAt), GroupKey(stream, group))
        <==> WillStrand(store, group, names, count, stream)
  {
    var key := GroupKey(stream, group);
    ReadRaisesExactly(store, group, consumer, names, count, readAt);
    if name :| name in names && GroupKey(name, group) !in store.groups {
      var j := FirstMissingOf(store, group, names);
      ReadStopsAtMissing(store, group, consumer, names, count, readAt, j);
      if key in store.groups {
        ReadMovesExactly(store, group, consumer, names[..j], count, readAt, key);
      }
      forall k | FirstMissing(store, group, names, k) ensures k == j {
      }
    }
  }

  /** What is stranded is pending for the consumer that never received it. */
  lemma StrandedArePending(
    store: Store, group: string, consumer: string, names: seq<string>, count: Option<int>, readAt: Id -> real, stream: string)
    requires CursorsInRange(store)
    requires Stranded(store, ReadAll(store, group, consumer, names, count, readAt), GroupKey(stream, group))
    ensures var key := GroupKey(stream, group);
            var before, after := store.groups[key], ReadAll(store, group, consumer, names, count, readAt).store.groups[key];
            && after.cursor <= |store.Entries(stream)|
            && forall id :: id in IdsOf(store.Entries(stream)[before.cursor..after.cursor]) ==>
                 id in after.pending && after.pending[id].consumer == consumer
  {
    var key := GroupKey(stream, group);
    var outcome := ReadAll(store, group, consumer, names, count, readAt);
    ReadEffectHolds(store, group, consumer, names, count, readAt, key);
    HandOutContents(store.groups[key].pending, Flatten(outcome.batches, stream), consumer, readAt);
  }

  lemma {:induction false} FirstMissingOf(store: Store, group: string, names: seq<string>) returns (j: int)
    requires exists name :: name in names && GroupKey(name, group) !in store.groups
    ensures FirstMissing(store, group, names, j)
  {
    var front, last := names[..|names| - 1], names[|names| - 1];
    assert names == front + [last];
    if name :| name in front && GroupKey(name, group) !in store.groups {
      j := FirstMissingOf(store, group, front);
    } else {
      j := |names| - 1;
      forall k | 0 <= k < j ensures GroupKey(names[k], group) in store.groups {
        assert names[k] in front;
      }
    }
  }

  /** So a read strands something exactly when the group is missing on some stream, present on all
      earlier ones, and has something to read on one of those. */
  lemma ReadStrandsExactly(
    store: Store, group: string, consumer: string, names: seq<string>, count: Option<int>, readAt: Id -> real)
    requires CursorsInRange(store)
    ensures (exists stream :: Stranded(store, ReadAll(store, group, consumer, names, count, readAt), GroupKey(stream, group)))
        <==> (exists i, j :: 0 <= i < j && FirstMissing(store, group, names, j) && HasUnread(store, GroupKey(names[i], group), count))
  {
    var outcome := ReadAll(store, group, consumer, names, count, readAt);
    if stream :| Stranded(store, outcome, GroupKey(stream, group)) {
      StrandsExactly(store, group, consumer, names, count, readAt, stream);
      var j :| FirstMissing(store, group, names, j) && stream in names[..j];
      var i :| 0 <= i < j && names[..j][i] == stream;
      assert names[i] == stream;
    }
    if i, j :| 0 <= i < j && FirstMissing(store, group, names, j) && HasUnread(store, GroupKey(names[i], group), count) {
      StrandsExactly(store, group, consumer, names, count, readAt, names[i]);
      assert names[..j][i] == names[i];
      assert Stranded(store, outcome, GroupKey(names[i], group));
    }
  }

  /** A command adds to the groups that lost entries exactly those a raising read strands entries of. */
  lemma LostExactly(t: Track, c: Command, key: GroupKey)
    requires Inv(t) && key in t.store.groups
    ensures CursorsInRange(t.store)
    ensures key in Advance(t, c).lost <==>
              key in t.lost ||
              (c.Read? && key.group == c.group && WillStrand(t.store, c.group, c.names, c.count, key.stream))
  {
    InvGivesRange(t);
    if c.Read? && key.group == c.group {
      StrandsExactly(t.store, c.group, c.consumer, c.names, c.count, c.readAt, key.stream);
      ReadEffectHolds(t.store, c.group, c.consumer, c.names, c.count, c.readAt, key);
    }
  }

  /** A read that raises at a missing group has already advanced the streams before it: their entries
      are pending for a consumer that never received them. */
  lemma RaisingReadStrandsEntries(
    store: Store, group: string, consumer: string, present: string, missing: string, count: Option<int>, readAt: Id -> real)
    requires CursorsInRange(store)
    requires GroupKey(present, group) in store.groups && GroupKey(missing, group) !in store.groups
    ensures var key := GroupKey(present, group);
            var outcome := ReadAll(store, group, consumer, [present, missing], count, readAt);
            && outcome.raised && key in outcome.store.groups
            && outcome.store.groups[key].cursor == store.groups[key].cursor + |BatchOf(store, key, count)|
            && IdsOf(BatchOf(store, key, count)) <= outcome.store.groups[key].pending.Keys
  {
    var key := GroupKey(present, group);
    assert [present, missing][..1] == [present] && [present][..0] == [];
    assert ReadAll(store, group, consumer, [], count, readAt) == ReadOutcome(store, [], false);
    HandOutContents(store.groups[key].pending, BatchOf(store, key, count), consumer, readAt);
  }

  // ---------------------------------------------------------------- from add to acknowledgement

  /** A new group sees what was already in its stream if it starts at the head, and none of it if it
      starts at the tail. */
  lemma NewGroupSees(store: Store, key: GroupKey, fromTail: bool, mkstream: bool)
    requires key !in store.groups && (mkstream || key.stream in store.streams)
    ensures var after := Created(store, key, fromTail, mkstream);
            && Readable(after, key) && after.groups[key].pending == map[]
            && BatchOf(after, key, None) == if fromTail then [] else store.Entries(key.stream)
  {
    BatchTakes(store.Entries(key.stream), if fromTail then |store.Entries(key.stream)| else 0, None);
  }

  /** A group that has read all there is gets an added entry with its next read, and only that; once
      the entry is acknowledged, the group is as before, one entry further on. */
  lemma AddReadAckRoundTrip(
    t: Track, key: GroupKey, fields: map<string, string>, consumer: string, readAt: Id -> real)
    requires Inv(t) && key in t.store.groups
    requires t.store.groups[key].cursor == |t.store.Entries(key.stream)|
    ensures var added, before := Added(t.store, key.stream, fields), t.store.groups[key];
            && CursorsInRange(added)
            && var read := ReadAll(added, key.group, consumer, [key.stream], None, readAt);
               && !read.raised
               && read.batches == [(key.stream, [Entry(added.sequence, fields)])]
               && var acked := Acked(read.store, key, [added.sequence]);
                  key in acked.groups && acked.groups[key] == Group(before.cursor + 1, before.pending)
  {
    var added, before := Added(t.store, key.stream, fields), t.store.groups[key];
    InvGivesRange(t);
    var id, entry := added.sequence, Entry(added.sequence, fields);
    AddedIsNext(t.store, key, fields);
    NewIdIsNotPending(t, key);
    OneStreamRead(added, key, consumer, readAt);
    HandOutThenAck(before.pending, entry, consumer, readAt);
  }

  lemma AddedIsNext(store: Store, key: GroupKey, fields: map<string, string>)
    requires CursorsInRange(store) && key in store.groups && store.groups[key].cursor == |store.Entries(key.stream)|
    ensures var added := Added(store, key.stream, fields);
            && CursorsInRange(added) && added.groups == store.groups
            && BatchOf(added, key, None) == [Entry(added.sequence, fields)]
  {
    var added := Added(store, key.stream, fields);
    BatchTakes(added.Entries(key.stream), store.groups[key].cursor, None);
  }

  lemma HandOutThenAck(pending: map<Id, Pending>, entry: Entry, consumer: string, readAt: Id -> real)
    requires entry.id !in pending
    ensures AckLeft(HandOut(pending, [entry], consumer, readAt), [entry.id]) == pending
  {
    assert [entry][..0] == [] && [entry.id][..0] == [];
    assert HandOut(pending, [entry], consumer, readAt) == pending[entry.id := Pending(consumer, readAt(entry.id), 1)];
  }

  lemma OneStreamRead(store: Store, key: GroupKey, consumer: string, readAt: Id -> real)
    requires CursorsInRange(store) && key in store.groups && BatchOf(store, key, None) != []
    ensures ReadAll(store, key.group, consumer, [key.stream], None, readAt)
         == ReadOutcome(ReadOne(store, key, consumer, None, readAt), [(key.stream, BatchOf(store, key, None))], false)
  {
    assert [key.stream][..0] == [];
    assert ReadAll(store, key.group, consumer, [], None, readAt) == ReadOutcome(store, [], false);
  }

  lemma NewIdIsNotPending(t: Track, key: GroupKey)
    requires Inv(t) && key in t.store.groups
    ensures t.store.sequence + 1 !in t.store.groups[key].pending
  {
    assert GroupInv(t, key);
    var entries := t.store.Entries(key.stream);
    forall e | e in entries[t.starts[key]..t.store.groups[key].cursor] ensures e.id <= t.store.sequence {
      assert e in entries;
    }
  }
}
