/**
 `MySQLSaver`: the methods that read and write the shared tables, each one transaction.

 Every saver object, in whichever process, refers to the same `Database`.  A method works on its own
 copy of the tables and publishes it at the commit, so a raised conflict leaves the database alone.
*/
module CheckpointSaver {
  import opened Options
  import opened Ordering
  import opened CheckpointTables

  class Database {
    var checkpoints: map<CheckpointKey, CheckpointRow>
    var blobs: map<BlobKey, Typed>
    var writes: map<WriteKey, WriteRow>

    function Contents(): Tables
      reads this
    {
      Tables(checkpoints, blobs, writes)
    }

    constructor ()
      ensures Contents() == EMPTY_TABLES
    {
      checkpoints, blobs, writes := map[], map[], map[];
    }
  }

  /** Selection made by `list`: thread, namespace and id when given, and ids below `before`. */
  datatype Query = Query(thread: Option<string>, ns: Option<string>, id: Option<string>, before: Option<string>)

  predicate Matches(query: Query, key: CheckpointKey) {
    && (query.thread.Some? ==> key.thread == query.thread.value)
    && (query.ns.Some? ==> key.ns == query.ns.value)
    && (query.id.Some? ==> key.id == query.id.value)
    && (query.before.Some? ==> TextLe(key.id, query.before.value) && key.id != query.before.value)
  }

  /** `metadata.get(name) == expected` for every entry of the filter. */
  predicate Passes(metadata: Metadata, filter: map<string, Option<string>>) {
    forall name | name in filter ::
      (if name in metadata.entries then metadata.entries[name] else None) == filter[name]
  }

  /** The rows a query fetches: all that match, ids descending, rows with equal ids in any order. */
  ghost predicate Fetched(keys: seq<CheckpointKey>, db: Tables, query: Query) {
    && (forall k :: k in keys <==> k in db.checkpoints && Matches(query, k))
    && (forall i, j :: 0 <= i < j < |keys| ==> TextLe(keys[j].id, keys[i].id) && keys[i] != keys[j])
  }

  /** The fetched rows that pass the filter, in the order fetched. */
  ghost function Kept(s: Serde, db: Tables, keys: seq<CheckpointKey>, filter: map<string, Option<string>>): seq<Snapshot>
    requires forall k :: k in keys ==> k in db.checkpoints
  {
    if keys == [] then []
    else
      var last := keys[|keys| - 1];
      Kept(s, db, keys[..|keys| - 1], filter) +
      (if Passes(s.loadMetadata(db.checkpoints[last].metadata), filter) then [SnapshotOf(s, db, last)] else [])
  }

  /** What `list` yields.  The limit is looked at after a row has been yielded, so it is never below one. */
  ghost function Limited<T>(rows: seq<T>, limit: Option<int>): seq<T> {
    if limit.None? then rows
    else
      var cap := if limit.value < 1 then 1 else limit.value;
      if |rows| <= cap then rows else rows[..cap]
  }

  class MySQLSaver {
    const serde: Serde
    const reserved: map<string, int>
    const database: Database

    constructor (serde: Serde, reserved: map<string, int>, database: Database)
      ensures this.serde == serde && this.reserved == reserved && this.database == database
    {
      this.serde, this.reserved, this.database := serde, reserved, database;
    }

    /** Returns the saved configuration, or `None` for `CheckpointConflictError`. */
    method Put(req: PutRequest) returns (saved: Option<CheckpointKey>)
      modifies database
      ensures saved.Some? <==> CheckpointTables.Put(serde, old(database.Contents()), req).Some?
      ensures saved.Some? ==> saved.value == KeyOf(req)
      ensures saved.Some? ==> database.Contents() == CheckpointTables.Put(serde, old(database.Contents()), req).value
      ensures saved.None? ==> database.Contents() == old(database.Contents())
    {
      var key, row := KeyOf(req), RowOf(serde, req);
      var checkpoints := database.checkpoints;
      if key !in checkpoints {
        checkpoints := checkpoints[key := row];
      } else if checkpoints[key] != row {
        return None;
      }
      var blobs := database.blobs;
      for i := 0 to |req.newVersions|
        invariant InsertBlobs(serde, database.blobs, req, i) == Some(blobs)
        invariant database.Contents() == old(database.Contents())
      {
        var channel, version := req.newVersions[i].0, req.newVersions[i].1;
        var blobKey := BlobKey(req.thread, req.ns, channel, version.text);
        var blob := if channel in req.values then serde.dumpValue(req.values[channel]) else Typed("empty", []);
        if blobKey !in blobs {
          blobs := blobs[blobKey := blob];
        } else if blobs[blobKey] != blob {
          ConflictPersists(serde, database.blobs, req, i + 1, |req.newVersions|);
          return None;
        }
      }
      database.checkpoints, database.blobs := checkpoints, blobs;
      return Some(key);
    }

    method PutWrites(req: WritesRequest) returns (ok: bool)
      modifies database
      ensures ok <==> CheckpointTables.PutWrites(serde, reserved, old(database.Contents()), req).Some?
      ensures ok ==> database.Contents() == CheckpointTables.PutWrites(serde, reserved, old(database.Contents()), req).value
      ensures !ok ==> database.Contents() == old(database.Contents())
    {
      var writes := database.writes;
      for index := 0 to |req.writes|
        invariant InsertWrites(serde, reserved, database.writes, req, index) == Some(writes)
        invariant database.Contents() == old(database.Contents())
      {
        var channel := req.writes[index].0;
        var writeIndex := if channel in reserved then reserved[channel] else index;
        if writeIndex < 0 {
          writeIndex := index;
        }
        var key := WriteKey(req.task, writeIndex);
        var row := WriteRow(channel, serde.dumpValue(req.writes[index].1), req.path);
        if key !in writes {
          writes := writes[key := row];
        } else if writes[key] != row {
          WriteConflictPersists(serde, reserved, database.writes, req, index + 1, |req.writes|);
          return false;
        }
      }
      database.writes := writes;
      return true;
    }

    method DeleteThread(thread: string)
      modifies database
      ensures database.Contents() == CheckpointTables.DeleteThread(old(database.Contents()), thread)
    {
      database.checkpoints := map k | k in database.checkpoints && k.thread != thread :: database.checkpoints[k];
      database.writes := map k | k in database.writes && k.task.thread != thread :: database.writes[k];
      database.blobs := map k | k in database.blobs && k.thread != thread :: database.blobs[k];
    }

    method LoadValues(thread: string, ns: string, versions: map<string, Version>) returns (values: map<string, Value>)
      ensures values == CheckpointTables.LoadValues(serde, database.blobs, thread, ns, versions)
    {
      values := map[];
      var rest := versions.Keys;
      assert versions - rest == map[] && versions - {} == versions;
      hide CheckpointTables.LoadValues;
      LoadsNothing(serde, database.blobs, thread, ns);
      while rest != {}
        invariant rest <= versions.Keys
        invariant values == CheckpointTables.LoadValues(serde, database.blobs, thread, ns, versions - rest)
      {
        var channel :| channel in rest;
        var key := BlobKey(thread, ns, channel, versions[channel].text);
        LoadsOneMore(serde, database.blobs, thread, ns, versions, rest, channel);
        if key in database.blobs && database.blobs[key].kind != "empty" {
          values := values[channel := serde.loadValue(database.blobs[key])];
        }
        rest := rest - {channel};
      }
    }

    /** `SELECT ... FROM writes ... ORDER BY task_id, write_idx` */
    method SelectPending(key: CheckpointKey) returns (pending: seq<PendingWrite>)
      ensures pending == Pending(serde, database.writes, key)
    {
      var slots := OrderBySlot(Slots(database.writes, key));
      pending := Decode(serde, database.writes, key, slots);
    }

    method TupleFromRow(key: CheckpointKey) returns (found: Snapshot)
      requires key in database.checkpoints
      ensures found == SnapshotOf(serde, database.Contents(), key)
    {
      var row := database.checkpoints[key];
      var checkpoint := serde.loadCheckpoint(row.checkpoint);
      var pending := SelectPending(key);
      var values := LoadValues(key.thread, key.ns, checkpoint.versions);
      found := Snapshot(key, checkpoint, values, serde.loadMetadata(row.metadata), ParentKey(key, row.parent), pending);
    }

    /** With an id, that checkpoint; without one (or with an empty one), the greatest id of the namespace. */
    method GetTuple(thread: string, ns: string, id: Option<string>) returns (found: Option<Snapshot>)
      ensures id.Some? && id.value != "" ==>
        && (found.Some? <==> CheckpointKey(thread, ns, id.value) in database.checkpoints)
        && (found.Some? ==> found.value.key == CheckpointKey(thread, ns, id.value))
      ensures id.None? || id.value == "" ==>
        && (found.Some? <==> exists k :: k in database.checkpoints && k.thread == thread && k.ns == ns)
        && (found.Some? ==>
              && found.value.key.thread == thread && found.value.key.ns == ns
              && forall k :: k in database.checkpoints && k.thread == thread && k.ns == ns ==> TextLe(k.id, found.value.key.id))
      ensures found.Some? ==>
        found.value.key in database.checkpoints && found.value == SnapshotOf(serde, database.Contents(), found.value.key)
    {
      if id.Some? && id.value != "" {
        var key := CheckpointKey(thread, ns, id.value);
        if key !in database.checkpoints {
          return None;
        }
        var tuple := TupleFromRow(key);
        return Some(tuple);
      }
      var stored := set k | k in database.checkpoints && k.thread == thread && k.ns == ns;
      assert forall k :: k in database.checkpoints && k.thread == thread && k.ns == ns ==> k in stored;
      if stored == {} {
        return None;
      }
      DescendingOrder();
      HasLeast(stored, Descending);
      var key :| key in stored && forall other :: other in stored ==> Descending(key, other);
      var tuple := TupleFromRow(key);
      return Some(tuple);
    }

    /** Yields the first rows, in the order the database delivered them, that pass the filter. */
    method List(query: Query, filter: map<string, Option<string>>, limit: Option<int>)
      returns (rows: seq<Snapshot>, fetched: seq<CheckpointKey>)
      ensures Fetched(fetched, database.Contents(), query)
      ensures rows == Limited(Kept(serde, database.Contents(), fetched, filter), limit)
      ensures limit.Some? ==>
        (|rows| <= limit.value <==>
           limit.value >= 1 || (limit.value == 0 && Kept(serde, database.Contents(), fetched, filter) == []))
    {
      fetched := Fetch(query);
      if limit.Some? { LimitHoldsExactlyWhen(Kept(serde, database.Contents(), fetched, filter), limit.value); }
      hide Kept, Limited, TextLe, Matches, Passes;
      rows := YieldRows(fetched, filter, limit);
    }

    /** The loop over the fetched rows. */
    method YieldRows(fetched: seq<CheckpointKey>, filter: map<string, Option<string>>, limit: Option<int>) returns (rows: seq<Snapshot>)
      requires forall k :: k in fetched ==> k in database.checkpoints
      ensures rows == Limited(Kept(serde, database.Contents(), fetched, filter), limit)
    {
      rows := [];
      ghost var db := database.Contents();
      assert db.checkpoints == database.checkpoints;
      YieldsBounds(serde, db, fetched, filter, limit);
      hide Yields, Kept, Limited, Passes, SnapshotOf;
      for i := 0 to |fetched|
        invariant Yields(serde, db, fetched, filter, limit, i, rows)
      {
        var value := TupleFromRow(fetched[i]);
        YieldsMore(serde, db, fetched, filter, limit, i, rows);
        if !Passes(value.metadata, filter) {
          continue;
        }
        rows := rows + [value];
        if limit.Some? && |rows| >= limit.value {
          return;
        }
      }
    }

    /** `SELECT ... ORDER BY checkpoint_id DESC` */
    method Fetch(query: Query) returns (fetched: seq<CheckpointKey>)
      ensures Fetched(fetched, database.Contents(), query)
    {
      DescendingOrder();
      var rest := set k | k in database.checkpoints && Matches(query, k);
      ghost var all := rest;
      fetched := [];
      while rest != {}
        invariant rest <= all
        invariant forall k :: k in fetched <==> k in all && k !in rest
        invariant forall i, j :: 0 <= i < j < |fetched| ==> TextLe(fetched[j].id, fetched[i].id) && fetched[i] != fetched[j]
        invariant forall i, k :: 0 <= i < |fetched| && k in rest ==> TextLe(k.id, fetched[i].id)
      {
        HasLeast(rest, Descending);
        var key :| key in rest && forall other :: other in rest ==> Descending(key, other);
        assert key !in fetched;
        fetched := fetched + [key];
        rest := rest - {key};
      }
    }
  }

  /** The rows yielded from the first i fetched, short of the limit. */
  ghost predicate Yields(s: Serde, db: Tables, fetched: seq<CheckpointKey>, filter: map<string, Option<string>>, limit: Option<int>,
                         i: nat, rows: seq<Snapshot>)
    requires forall k :: k in fetched ==> k in db.checkpoints
  {
    i <= |fetched| && rows == Kept(s, db, fetched[..i], filter) && (rows == [] || limit.None? || |rows| < limit.value)
  }

  lemma YieldsBounds(s: Serde, db: Tables, fetched: seq<CheckpointKey>, filter: map<string, Option<string>>, limit: Option<int>)
    requires forall k :: k in fetched ==> k in db.checkpoints
    ensures Yields(s, db, fetched, filter, limit, 0, [])
    ensures forall rows :: Yields(s, db, fetched, filter, limit, |fetched|, rows) ==> rows == Limited(Kept(s, db, fetched, filter), limit)
  {
    hide SnapshotOf, Passes;
    assert fetched[..0] == [] && fetched[..|fetched|] == fetched;
  }

  lemma YieldsMore(s: Serde, db: Tables, fetched: seq<CheckpointKey>, filter: map<string, Option<string>>, limit: Option<int>,
                   i: nat, rows: seq<Snapshot>)
    requires forall k :: k in fetched ==> k in db.checkpoints
    requires i < |fetched| && Yields(s, db, fetched, filter, limit, i, rows)
    ensures
      var row := SnapshotOf(s, db, fetched[i]);
      var more := rows + [row];
      if !Passes(row.metadata, filter) then Yields(s, db, fetched, filter, limit, i + 1, rows)
      else if limit.Some? && |more| >= limit.value then more == Limited(Kept(s, db, fetched, filter), limit)
      else Yields(s, db, fetched, filter, limit, i + 1, more)
  {
    KeptStep(s, db, fetched, filter, i);
    var row := SnapshotOf(s, db, fetched[i]);
    hide Kept, SnapshotOf, Passes, Limited;
    assert rows + [] == rows;
    if Passes(row.metadata, filter) && limit.Some? && |rows + [row]| >= limit.value {
      KeptGrows(s, db, fetched, filter, i + 1);
      LimitReached(rows + [row], Kept(s, db, fetched, filter), limit.value);
    }
  }

  lemma LoadsNothing(s: Serde, blobs: map<BlobKey, Typed>, thread: string, ns: string)
    ensures CheckpointTables.LoadValues(s, blobs, thread, ns, map[]) == map[]
  {
  }

  /** Loading one channel more. */
  lemma LoadsOneMore(s: Serde, blobs: map<BlobKey, Typed>, thread: string, ns: string, versions: map<string, Version>,
                     rest: set<string>, channel: string)
    requires rest <= versions.Keys && channel in rest
    ensures
      var key, before := BlobKey(thread, ns, channel, versions[channel].text), CheckpointTables.LoadValues(s, blobs, thread, ns, versions - rest);
      CheckpointTables.LoadValues(s, blobs, thread, ns, versions - (rest - {channel})) ==
        if key in blobs && blobs[key].kind != "empty" then before[channel := s.loadValue(blobs[key])] else before
  {
  }

  /** The slots listed so far, followed by the rest in order, are all slots in order. */
  ghost predicate Listing(slots: seq<Slot>, rest: set<Slot>, all: set<Slot>)
    requires TotalPreorder(SlotLe)
  {
    slots + Enumerate(rest, SlotLe) == Enumerate(all, SlotLe)
  }

  lemma ListsOneMore(slots: seq<Slot>, rest: set<Slot>, all: set<Slot>, least: Slot)
    requires TotalOrder(SlotLe) && Listing(slots, rest, all)
    requires least in rest && forall other :: other in rest ==> SlotLe(least, other)
    ensures Listing(slots + [least], rest - {least}, all)
  {
    EnumerateUnfolds(rest, least);
    Regroup(slots, least, Enumerate(rest - {least}, SlotLe));
    hide SlotLe, Enumerate, TotalOrder;
  }

  lemma Regroup<T>(a: seq<T>, x: T, b: seq<T>)
    ensures a + ([x] + b) == a + [x] + b
  {
  }

  lemma ListsAll(slots: seq<Slot>, all: set<Slot>)
    requires TotalPreorder(SlotLe) && (Listing(slots, {}, all) || slots == [])
    ensures Listing(slots, {}, all) ==> slots == Enumerate(all, SlotLe)
    ensures slots == [] ==> Listing([], all, all)
  {
    hide SlotLe;
    assert Enumerate({}, SlotLe) == [];
    assert slots + [] == slots;
  }

  /** `ORDER BY task_id, write_idx` */
  method OrderBySlot(all: set<Slot>) returns (slots: seq<Slot>)
    ensures TotalOrder(SlotLe) && slots == Enumerate(all, SlotLe)
  {
    SlotOrder();
    assert TotalPreorder(SlotLe);
    hide *;
    slots := [];
    ListsAll(slots, all);
    var rest := all;
    while rest != {}
      invariant Listing(slots, rest, all)
    {
      var least := LeastSlot(rest);
      ListsOneMore(slots, rest, all, least);
      slots := slots + [least];
      rest := rest - {least};
    }
    ListsAll(slots, all);
  }

  method LeastSlot(slots: set<Slot>) returns (least: Slot)
    requires slots != {} && TotalOrder(SlotLe)
    ensures least in slots && forall other :: other in slots ==> SlotLe(least, other)
  {
    HasLeast(slots, SlotLe);
    least :| least in slots && forall other :: other in slots ==> SlotLe(least, other);
  }

  predicate Descending(a: CheckpointKey, b: CheckpointKey) {
    TextLe(b.id, a.id)
  }

  lemma DescendingOrder()
    ensures TotalPreorder(Descending)
  {
    TextOrder();
  }

  /** A conflict stops the loop: no later row can undo it. */
  lemma {:induction false} ConflictPersists(s: Serde, blobs: map<BlobKey, Typed>, req: PutRequest, i: nat, n: nat)
    requires i <= n <= |req.newVersions| && InsertBlobs(s, blobs, req, i).None?
    ensures InsertBlobs(s, blobs, req, n).None?
  {
    if i < n {
      ConflictPersists(s, blobs, req, i, n - 1);
    }
  }

  lemma {:induction false} WriteConflictPersists(s: Serde, reserved: map<string, int>, writes: map<WriteKey, WriteRow>,
                                                 req: WritesRequest, i: nat, n: nat)
    requires i <= n <= |req.writes| && InsertWrites(s, reserved, writes, req, i).None?
    ensures InsertWrites(s, reserved, writes, req, n).None?
  {
    if i < n {
      WriteConflictPersists(s, reserved, writes, req, i, n - 1);
    }
  }

  lemma EnumerateUnfolds(slots: set<Slot>, least: Slot)
    requires least in slots && forall other :: other in slots ==> SlotLe(least, other)
    requires TotalOrder(SlotLe)
    ensures Enumerate(slots, SlotLe) == [least] + Enumerate(slots - {least}, SlotLe)
  {
    ConsEnumerates(least, Enumerate(slots - {least}, SlotLe), slots, SlotLe);
    EnumerationUnique(Enumerate(slots, SlotLe), [least] + Enumerate(slots - {least}, SlotLe), slots, SlotLe);
  }

  lemma LimitReached<T>(rows: seq<T>, all: seq<T>, limit: int)
    requires rows != [] && rows <= all && limit <= |rows| && (|rows| == 1 || |rows| - 1 < limit)
    ensures rows == Limited(all, Some(limit))
  {
  }

  lemma KeptStep(s: Serde, db: Tables, keys: seq<CheckpointKey>, filter: map<string, Option<string>>, i: nat)
    requires i < |keys| && forall k :: k in keys ==> k in db.checkpoints
    ensures Kept(s, db, keys[..i + 1], filter) ==
      Kept(s, db, keys[..i], filter) +
      (if Passes(SnapshotOf(s, db, keys[i]).metadata, filter) then [SnapshotOf(s, db, keys[i])] else [])
  {
    assert keys[..i + 1][..i] == keys[..i];
  }

  lemma {:induction false} KeptGrows(s: Serde, db: Tables, keys: seq<CheckpointKey>, filter: map<string, Option<string>>, i: nat)
    requires i <= |keys| && forall k :: k in keys ==> k in db.checkpoints
    ensures Kept(s, db, keys[..i], filter) <= Kept(s, db, keys, filter)
  {
    if i == |keys| {
      assert keys[..i] == keys;
    } else {
      KeptGrows(s, db, keys[..|keys| - 1], filter, i);
      assert keys[..|keys| - 1][..i] == keys[..i];
    }
  }

  /** A key the arguments of `list` ask for, argument by argument. */
  ghost predicate AskedFor(s: Serde, db: Tables, query: Query, filter: map<string, Option<string>>, k: CheckpointKey)
    requires k in db.checkpoints
  {
    var entries := s.loadMetadata(db.checkpoints[k].metadata).entries;
    && query.thread in {None, Some(k.thread)} && query.ns in {None, Some(k.ns)} && query.id in {None, Some(k.id)}
    && (query.before.Some? ==> !TextLe(query.before.value, k.id))
    && forall name :: name in filter ==> if filter[name].Some? then name in entries && entries[name] == filter[name]
                                         else name in entries ==> entries[name] == None
  }

  /** Without a limit `list` yields each checkpoint asked for once, later ids first. */
  lemma {:induction false} KeptMeans(s: Serde, db: Tables, keys: seq<CheckpointKey>, query: Query, filter: map<string, Option<string>>)
    requires Fetched(keys, db, query)
    ensures
      var kept := Kept(s, db, keys, filter);
      && (forall k :: k in db.checkpoints && AskedFor(s, db, query, filter, k) ==> SnapshotOf(s, db, k) in kept)
      && (forall x :: x in kept ==>
            x.key in db.checkpoints && AskedFor(s, db, query, filter, x.key) && x == SnapshotOf(s, db, x.key))
      && forall i, j :: 0 <= i < j < |kept| ==> TextLe(kept[j].key.id, kept[i].key.id) && kept[i].key != kept[j].key
  {
    TextOrder();
    KeptFrom(s, db, keys, filter);
    hide TextLe, TotalOrder, Kept, SnapshotOf;
    forall k | k in db.checkpoints ensures AskedFor(s, db, query, filter, k) <==> k in keys && Passes(s.loadMetadata(db.checkpoints[k].metadata), filter) {
      AskedForExactly(s, db, query, filter, k);
    }
  }

  lemma AskedForExactly(s: Serde, db: Tables, query: Query, filter: map<string, Option<string>>, k: CheckpointKey)
    requires k in db.checkpoints
    ensures AskedFor(s, db, query, filter, k) <==> Matches(query, k) && Passes(s.loadMetadata(db.checkpoints[k].metadata), filter)
  {
    TextOrder();
    hide TextLe;
  }

  /** The rows kept are those of the keys that pass, in the order of the keys. */
  ghost predicate KeptRows(s: Serde, db: Tables, keys: seq<CheckpointKey>, filter: map<string, Option<string>>, kept: seq<Snapshot>)
    requires forall k :: k in keys ==> k in db.checkpoints
  {
    && (forall k :: k in keys && Passes(s.loadMetadata(db.checkpoints[k].metadata), filter) ==> SnapshotOf(s, db, k) in kept)
    && (forall x :: x in kept ==>
          x.key in keys && Passes(s.loadMetadata(db.checkpoints[x.key].metadata), filter) && x == SnapshotOf(s, db, x.key))
    && DescendingRows(kept)
  }

  ghost predicate DescendingRows(kept: seq<Snapshot>) {
    forall i, j :: 0 <= i < j < |kept| ==> TextLe(kept[j].key.id, kept[i].key.id) && kept[i].key != kept[j].key
  }

  lemma DescendingMore(kept: seq<Snapshot>, row: Snapshot)
    requires DescendingRows(kept) && forall x :: x in kept ==> TextLe(row.key.id, x.key.id) && x.key != row.key
    ensures DescendingRows(kept + [row])
  {
    hide TextLe;
    forall i | 0 <= i < |kept| ensures kept[i] in kept {}
  }

  lemma {:induction false} KeptFrom(s: Serde, db: Tables, keys: seq<CheckpointKey>, filter: map<string, Option<string>>)
    requires forall k :: k in keys ==> k in db.checkpoints
    requires Descends(keys)
    ensures KeptRows(s, db, keys, filter, Kept(s, db, keys, filter))
  {
    if keys != [] {
      var front, last := keys[..|keys| - 1], keys[|keys| - 1];
      assert keys == front + [last];
      LastIsLowest(front, last);
      hide KeptRows, Passes, TextLe, SnapshotOf, Descends;
      KeptFrom(s, db, front, filter);
      if Passes(s.loadMetadata(db.checkpoints[last].metadata), filter) {
        KeptAdds(s, db, front, last, filter, Kept(s, db, front, filter));
      } else {
        KeptSkips(s, db, front, last, filter, Kept(s, db, front, filter));
        assert Kept(s, db, front, filter) + [] == Kept(s, db, front, filter);
      }
    }
  }

  ghost predicate Descends(keys: seq<CheckpointKey>) {
    forall i, j :: 0 <= i < j < |keys| ==> TextLe(keys[j].id, keys[i].id) && keys[i] != keys[j]
  }

  lemma LastIsLowest(front: seq<CheckpointKey>, last: CheckpointKey)
    requires Descends(front + [last])
    ensures Descends(front) && forall k :: k in front ==> TextLe(last.id, k.id) && k != last
  {
    hide TextLe;
    var keys := front + [last];
    forall k | k in front ensures TextLe(last.id, k.id) && k != last {
      var i :| 0 <= i < |front| && front[i] == k;
      assert keys[i] == k && keys[|front|] == last;
    }
    forall i, j | 0 <= i < j < |front| ensures TextLe(front[j].id, front[i].id) && front[i] != front[j] {
      assert keys[i] == front[i] && keys[j] == front[j];
    }
  }

  lemma KeptSkips(s: Serde, db: Tables, front: seq<CheckpointKey>, last: CheckpointKey, filter: map<string, Option<string>>, kept: seq<Snapshot>)
    requires last in db.checkpoints && (forall k :: k in front ==> k in db.checkpoints) && KeptRows(s, db, front, filter, kept)
    requires !Passes(s.loadMetadata(db.checkpoints[last].metadata), filter)
    ensures KeptRows(s, db, front + [last], filter, kept)
  {
    hide Passes, TextLe, SnapshotOf;
  }

  lemma KeptAdds(s: Serde, db: Tables, front: seq<CheckpointKey>, last: CheckpointKey, filter: map<string, Option<string>>, kept: seq<Snapshot>)
    requires last in db.checkpoints && (forall k :: k in front ==> k in db.checkpoints) && KeptRows(s, db, front, filter, kept)
    requires Passes(s.loadMetadata(db.checkpoints[last].metadata), filter) && forall k :: k in front ==> TextLe(last.id, k.id) && k != last
    ensures KeptRows(s, db, front + [last], filter, kept + [SnapshotOf(s, db, last)])
  {
    var row := SnapshotOf(s, db, last);
    assert row.key == last;
    hide Passes, TextLe, SnapshotOf, DescendingRows;
    DescendingMore(kept, row);
    var all, more := front + [last], kept + [row];
    forall k | k in all && Passes(s.loadMetadata(db.checkpoints[k].metadata), filter) ensures SnapshotOf(s, db, k) in more {
      if k != last { assert SnapshotOf(s, db, k) in kept; }
    }
    forall x | x in more ensures x.key in all && Passes(s.loadMetadata(db.checkpoints[x.key].metadata), filter) && x == SnapshotOf(s, db, x.key) {
      if x in kept { assert x.key in front; }
    }
  }

  /**
   `list` yields no more rows than its limit exactly for a positive limit, or for a limit of zero with
   nothing to yield.
  */
  lemma LimitHoldsExactlyWhen<T>(rows: seq<T>, limit: int)
    ensures |Limited(rows, Some(limit))| <= limit <==> limit >= 1 || (limit == 0 && rows == [])
    ensures rows != [] && limit < 1 ==> Limited(rows, Some(limit)) == [rows[0]]
    ensures Limited(rows, Some(limit)) <= rows
  {
  }
}
