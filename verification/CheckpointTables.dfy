/**
 The three checkpoint tables of `MySQLSaver` and the meaning of each transaction on them.

 A transaction is a function from the tables to either new tables or `None`, where `None` stands
 for `CheckpointConflictError`: the connection is closed without a commit, so nothing is stored.
*/
module CheckpointTables {
  import opened Options
  import opened Ordering

  /******* What callers hand over *******/

  /** A channel version; `text` is what `str(version)` gives and what the blob table is keyed by. */
  datatype Version = Version(raw: int, text: string)

  datatype Value = Value(content: string)

  /** A checkpoint after `channel_values` has been popped; `rest` is every other field. */
  datatype Stripped = Stripped(id: string, versions: map<string, Version>, rest: string)

  datatype Metadata = Metadata(entries: map<string, Option<string>>)

  datatype PutRequest = PutRequest(
    thread: string, ns: string, parent: Option<string>,
    checkpoint: Stripped, values: map<string, Value>, metadata: Metadata,
    newVersions: seq<(string, Version)>)

  datatype TaskKey = TaskKey(thread: string, ns: string, id: string, task: string)

  datatype WritesRequest = WritesRequest(task: TaskKey, path: string, writes: seq<(string, Value)>)

  /******* Serialisation *******/

  datatype Typed = Typed(kind: string, blob: seq<int>)

  /** The serializer, left abstract. */
  datatype Serde = Serde(
    dumpValue: Value -> Typed, loadValue: Typed -> Value,
    dumpCheckpoint: Stripped -> Typed, loadCheckpoint: Typed -> Stripped,
    dumpMetadata: Metadata -> Typed, loadMetadata: Typed -> Metadata)

  /** All that is assumed of it: loading undoes dumping, and no value dumps to the kind "empty". */
  ghost predicate Faithful(s: Serde) {
    && (forall v :: s.loadValue(s.dumpValue(v)) == v && s.dumpValue(v).kind != "empty")
    && (forall c :: s.loadCheckpoint(s.dumpCheckpoint(c)) == c)
    && (forall m :: s.loadMetadata(s.dumpMetadata(m)) == m)
  }

  /******* Tables *******/

  datatype CheckpointKey = CheckpointKey(thread: string, ns: string, id: string)
  datatype CheckpointRow = CheckpointRow(checkpoint: Typed, metadata: Typed, parent: Option<string>)
  datatype BlobKey = BlobKey(thread: string, ns: string, channel: string, version: string)
  datatype WriteKey = WriteKey(task: TaskKey, index: int)
  datatype WriteRow = WriteRow(channel: string, value: Typed, path: string)

  datatype Tables = Tables(
    checkpoints: map<CheckpointKey, CheckpointRow>,
    blobs: map<BlobKey, Typed>,
    writes: map<WriteKey, WriteRow>)

  const EMPTY_TABLES := Tables(map[], map[], map[])

  /** `INSERT ... ON DUPLICATE KEY`, then `_assert_immutable_row` when the key was taken. */
  function InsertOrVerify<K, V(==)>(table: map<K, V>, key: K, row: V): Option<map<K, V>> {
    if key !in table then Some(table[key := row])
    else if table[key] == row then Some(table)
    else None
  }

  /******* put *******/

  function KeyOf(req: PutRequest): CheckpointKey {
    CheckpointKey(req.thread, req.ns, req.checkpoint.id)
  }

  function RowOf(s: Serde, req: PutRequest): CheckpointRow {
    CheckpointRow(s.dumpCheckpoint(req.checkpoint), s.dumpMetadata(req.metadata), req.parent)
  }

  function BlobKeyOf(req: PutRequest, i: nat): BlobKey
    requires i < |req.newVersions|
  {
    BlobKey(req.thread, req.ns, req.newVersions[i].0, req.newVersions[i].1.text)
  }

  function BlobFor(s: Serde, values: map<string, Value>, channel: string): Typed {
    if channel in values then s.dumpValue(values[channel]) else Typed("empty", [])
  }

  /** The blob table after the first n entries of `new_versions`. */
  function InsertBlobs(s: Serde, blobs: map<BlobKey, Typed>, req: PutRequest, n: nat): Option<map<BlobKey, Typed>>
    requires n <= |req.newVersions|
  {
    if n == 0 then Some(blobs)
    else
      var before := InsertBlobs(s, blobs, req, n - 1);
      if before.None? then None
      else InsertOrVerify(before.value, BlobKeyOf(req, n - 1), BlobFor(s, req.values, req.newVersions[n - 1].0))
  }

  function Put(s: Serde, db: Tables, req: PutRequest): Option<Tables> {
    var checkpoints := InsertOrVerify(db.checkpoints, KeyOf(req), RowOf(s, req));
    var blobs := InsertBlobs(s, db.blobs, req, |req.newVersions|);
    if checkpoints.None? || blobs.None? then None
    else Some(db.(checkpoints := checkpoints.value, blobs := blobs.value))
  }

  /******* put_writes *******/

  /** `WRITES_IDX_MAP.get(channel, index)`, with a negative reserved index falling back to position. */
  function WriteIndex(reserved: map<string, int>, channel: string, index: nat): int {
    if channel in reserved && reserved[channel] >= 0 then reserved[channel] else index
  }

  function WriteRowOf(s: Serde, req: WritesRequest, i: nat): WriteRow
    requires i < |req.writes|
  {
    WriteRow(req.writes[i].0, s.dumpValue(req.writes[i].1), req.path)
  }

  function WriteKeyOf(reserved: map<string, int>, req: WritesRequest, i: nat): WriteKey
    requires i < |req.writes|
  {
    WriteKey(req.task, WriteIndex(reserved, req.writes[i].0, i))
  }

  /** The write table after the first n writes. */
  function InsertWrites(s: Serde, reserved: map<string, int>, writes: map<WriteKey, WriteRow>,
                        req: WritesRequest, n: nat): Option<map<WriteKey, WriteRow>>
    requires n <= |req.writes|
  {
    if n == 0 then Some(writes)
    else
      var before := InsertWrites(s, reserved, writes, req, n - 1);
      if before.None? then None
      else InsertOrVerify(before.value, WriteKeyOf(reserved, req, n - 1), WriteRowOf(s, req, n - 1))
  }

  function PutWrites(s: Serde, reserved: map<string, int>, db: Tables, req: WritesRequest): Option<Tables> {
    var writes := InsertWrites(s, reserved, db.writes, req, |req.writes|);
    if writes.None? then None else Some(db.(writes := writes.value))
  }

  /******* delete_thread *******/

  function DeleteThread(db: Tables, thread: string): Tables {
    Tables(
      map k | k in db.checkpoints && k.thread != thread :: db.checkpoints[k],
      map k | k in db.blobs && k.thread != thread :: db.blobs[k],
      map k | k in db.writes && k.task.thread != thread :: db.writes[k])
  }

  /******* Reading back *******/

  datatype PendingWrite = PendingWrite(task: string, channel: string, value: Value)

  datatype Snapshot = Snapshot(
    key: CheckpointKey, checkpoint: Stripped, values: map<string, Value>,
    metadata: Metadata, parent: Option<CheckpointKey>, pending: seq<PendingWrite>)

  /** `_load_values`: a missing row and an "empty" row both leave the channel out. */
  function LoadValues(s: Serde, blobs: map<BlobKey, Typed>, thread: string, ns: string,
                      versions: map<string, Version>): map<string, Value>
  {
    map c | c in versions
          && BlobKey(thread, ns, c, versions[c].text) in blobs
          && blobs[BlobKey(thread, ns, c, versions[c].text)].kind != "empty"
        :: s.loadValue(blobs[BlobKey(thread, ns, c, versions[c].text)])
  }

  function StoredCheckpoint(s: Serde, db: Tables, key: CheckpointKey): Stripped
    requires key in db.checkpoints
  {
    s.loadCheckpoint(db.checkpoints[key].checkpoint)
  }

  function StoredValues(s: Serde, db: Tables, key: CheckpointKey): map<string, Value>
    requires key in db.checkpoints
  {
    LoadValues(s, db.blobs, key.thread, key.ns, StoredCheckpoint(s, db, key).versions)
  }

  /** `(task_id, write_idx)`, the order pending writes are read in. */
  datatype Slot = Slot(task: string, index: int)

  predicate SlotLe(a: Slot, b: Slot) {
    if a.task == b.task then a.index <= b.index else TextLe(a.task, b.task)
  }

  lemma SlotOrder()
    ensures TotalOrder(SlotLe)
  {
    TextOrder();
    forall a, b ensures SlotLe(a, b) || SlotLe(b, a) {}
    forall a, b, c | SlotLe(a, b) && SlotLe(b, c) ensures SlotLe(a, c) {
      assert TextLe(a.task, a.task) && TextLe(a.task, c.task);
    }
    forall a, b | SlotLe(a, b) && SlotLe(b, a) ensures a == b {}
  }

  function Slots(writes: map<WriteKey, WriteRow>, key: CheckpointKey): set<Slot> {
    set k | k in writes && k.task == TaskKey(key.thread, key.ns, key.id, k.task.task)
      :: Slot(k.task.task, k.index)
  }

  function SlotKey(key: CheckpointKey, slot: Slot): WriteKey {
    WriteKey(TaskKey(key.thread, key.ns, key.id, slot.task), slot.index)
  }

  function Decode(s: Serde, writes: map<WriteKey, WriteRow>, key: CheckpointKey, slots: seq<Slot>): seq<PendingWrite>
    requires forall slot :: slot in slots ==> SlotKey(key, slot) in writes
  {
    seq(|slots|, i requires 0 <= i < |slots| =>
      PendingWrite(slots[i].task, writes[SlotKey(key, slots[i])].channel,
                   s.loadValue(writes[SlotKey(key, slots[i])].value)))
  }

  /** The pending writes of a checkpoint, ordered by task and index. */
  ghost function Pending(s: Serde, writes: map<WriteKey, WriteRow>, key: CheckpointKey): seq<PendingWrite> {
    SlotOrder();
    Decode(s, writes, key, Enumerate(Slots(writes, key), SlotLe))
  }

  function ParentKey(key: CheckpointKey, parent: Option<string>): Option<CheckpointKey> {
    if parent.None? || parent.value == "" then None
    else Some(CheckpointKey(key.thread, key.ns, parent.value))
  }

  /** `_tuple_from_row` */
  ghost function SnapshotOf(s: Serde, db: Tables, key: CheckpointKey): Snapshot
    requires key in db.checkpoints
  {
    Snapshot(
      key, StoredCheckpoint(s, db, key), StoredValues(s, db, key),
      s.loadMetadata(db.checkpoints[key].metadata), ParentKey(key, db.checkpoints[key].parent),
      Pending(s, db.writes, key))
  }

  /******* Growth: what every successful insertion keeps *******/

  ghost predicate Within<K, V>(a: map<K, V>, b: map<K, V>) {
    forall k :: k in a ==> k in b && b[k] == a[k]
  }

  ghost predicate Grows(a: Tables, b: Tables) {
    Within(a.checkpoints, b.checkpoints) && Within(a.blobs, b.blobs) && Within(a.writes, b.writes)
  }

  /** The blobs after a successful insertion: all old rows, and each requested row, and no other. */
  lemma {:induction false} InsertBlobsEffect(s: Serde, blobs: map<BlobKey, Typed>, req: PutRequest, n: nat)
    requires n <= |req.newVersions| && InsertBlobs(s, blobs, req, n).Some?
    ensures
      var after := InsertBlobs(s, blobs, req, n).value;
      && Within(blobs, after)
      && (forall i :: 0 <= i < n ==> BlobKeyOf(req, i) in after && after[BlobKeyOf(req, i)] == BlobFor(s, req.values, req.newVersions[i].0))
      && (forall k :: k in after ==> k in blobs || exists i :: 0 <= i < n && k == BlobKeyOf(req, i))
  {
    if n > 0 {
      InsertBlobsEffect(s, blobs, req, n - 1);
    }
  }

  lemma {:induction false} InsertWritesEffect(s: Serde, reserved: map<string, int>, writes: map<WriteKey, WriteRow>,
                                              req: WritesRequest, n: nat)
    requires n <= |req.writes| && InsertWrites(s, reserved, writes, req, n).Some?
    ensures
      var after := InsertWrites(s, reserved, writes, req, n).value;
      && Within(writes, after)
      && (forall i :: 0 <= i < n ==> WriteKeyOf(reserved, req, i) in after && after[WriteKeyOf(reserved, req, i)] == WriteRowOf(s, req, i))
      && (forall k :: k in after ==> k in writes || exists i :: 0 <= i < n && k == WriteKeyOf(reserved, req, i))
  {
    if n > 0 {
      InsertWritesEffect(s, reserved, writes, req, n - 1);
    }
  }

  /** Rows that are already there and equal are verified, not inserted. */
  lemma {:induction false} InsertBlobsAgain(s: Serde, blobs: map<BlobKey, Typed>, req: PutRequest, n: nat)
    requires n <= |req.newVersions|
    requires forall i :: 0 <= i < n ==> BlobKeyOf(req, i) in blobs && blobs[BlobKeyOf(req, i)] == BlobFor(s, req.values, req.newVersions[i].0)
    ensures InsertBlobs(s, blobs, req, n) == Some(blobs)
  {
    if n > 0 {
      InsertBlobsAgain(s, blobs, req, n - 1);
    }
  }

  lemma {:induction false} InsertWritesAgain(s: Serde, reserved: map<string, int>, writes: map<WriteKey, WriteRow>,
                                             req: WritesRequest, n: nat)
    requires n <= |req.writes|
    requires forall i :: 0 <= i < n ==> WriteKeyOf(reserved, req, i) in writes && writes[WriteKeyOf(reserved, req, i)] == WriteRowOf(s, req, i)
    ensures InsertWrites(s, reserved, writes, req, n) == Some(writes)
  {
    if n > 0 {
      InsertWritesAgain(s, reserved, writes, req, n - 1);
    }
  }

  /** A successful `put` keeps every row of all three tables. */
  lemma PutGrows(s: Serde, db: Tables, req: PutRequest)
    requires Put(s, db, req).Some?
    ensures Grows(db, Put(s, db, req).value)
    ensures Put(s, db, req).value.writes == db.writes
  {
    InsertBlobsEffect(s, db.blobs, req, |req.newVersions|);
  }

  lemma PutWritesGrows(s: Serde, reserved: map<string, int>, db: Tables, req: WritesRequest)
    requires PutWrites(s, reserved, db, req).Some?
    ensures Grows(db, PutWrites(s, reserved, db, req).value)
    ensures PutWrites(s, reserved, db, req).value == db.(writes := PutWrites(s, reserved, db, req).value.writes)
  {
    InsertWritesEffect(s, reserved, db.writes, req, |req.writes|);
  }
}
