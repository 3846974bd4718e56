/**
 Properties of whole runs of the checkpoint database.

 A run is any sequence of transactions, issued by any number of processes in any order; a
 transaction that raises a conflict leaves the tables as they were.
*/
module CheckpointRuns {
  import opened Options
  import opened CheckpointTables

  datatype Op =
    | PutOp(put: PutRequest)
    | WritesOp(writes: WritesRequest)
    | DeleteOp(thread: string)

  function Apply(s: Serde, reserved: map<string, int>, db: Tables, op: Op): Tables {
    match op
    case PutOp(req) => (var after := Put(s, db, req); if after.Some? then after.value else db)
    case WritesOp(req) => (var after := PutWrites(s, reserved, db, req); if after.Some? then after.value else db)
    case DeleteOp(thread) => DeleteThread(db, thread)
  }

  function Run(s: Serde, reserved: map<string, int>, db: Tables, ops: seq<Op>): Tables {
    if ops == [] then db
    else Apply(s, reserved, Run(s, reserved, db, ops[..|ops| - 1]), ops[|ops| - 1])
  }

  ghost predicate Deletes(ops: seq<Op>, thread: string) {
    DeleteOp(thread) in ops
  }

  lemma {:induction false} RunSplit(s: Serde, reserved: map<string, int>, db: Tables, ops: seq<Op>, i: nat)
    requires i <= |ops|
    ensures Run(s, reserved, db, ops) == Run(s, reserved, Run(s, reserved, db, ops[..i]), ops[i..])
  {
    if i == |ops| {
      assert ops[..i] == ops && ops[i..] == [];
    } else {
      var front := ops[..|ops| - 1];
      RunSplit(s, reserved, db, front, i);
      assert front[..i] == ops[..i];
      assert ops[i..][..|ops[i..]| - 1] == front[i..];
    }
  }

  /******* Rows never change, and only a delete of their own thread removes them *******/

  /** Every row of the thread is still there, with the same content. */
  ghost predicate Keeps(a: Tables, b: Tables, thread: string) {
    && (forall k :: k in a.checkpoints && k.thread == thread ==> k in b.checkpoints && b.checkpoints[k] == a.checkpoints[k])
    && (forall k :: k in a.blobs && k.thread == thread ==> k in b.blobs && b.blobs[k] == a.blobs[k])
    && (forall k :: k in a.writes && k.task.thread == thread ==> k in b.writes && b.writes[k] == a.writes[k])
  }

  lemma ApplyKeeps(s: Serde, reserved: map<string, int>, db: Tables, op: Op, thread: string)
    requires op != DeleteOp(thread)
    ensures Keeps(db, Apply(s, reserved, db, op), thread)
  {
    match op
    case PutOp(req) => if Put(s, db, req).Some? { PutGrows(s, db, req); }
    case WritesOp(req) => if PutWrites(s, reserved, db, req).Some? { PutWritesGrows(s, reserved, db, req); }
    case DeleteOp(_) =>
  }

  /** Any interleaving of calls keeps every row of a thread that is not deleted meanwhile. */
  lemma {:induction false} RowsNeverChange(s: Serde, reserved: map<string, int>, db: Tables, ops: seq<Op>, thread: string)
    requires !Deletes(ops, thread)
    ensures Keeps(db, Run(s, reserved, db, ops), thread)
  {
    if ops != [] {
      RowsNeverChange(s, reserved, db, ops[..|ops| - 1], thread);
      ApplyKeeps(s, reserved, Run(s, reserved, db, ops[..|ops| - 1]), ops[|ops| - 1], thread);
    }
  }

  /** A delete removes the rows of its thread and no other row. */
  lemma DeleteRemovesExactlyTheThread(s: Serde, reserved: map<string, int>, db: Tables, thread: string)
    ensures
      var after := Apply(s, reserved, db, DeleteOp(thread));
      && (forall k :: k in after.checkpoints ==> k.thread != thread)
      && (forall k :: k in after.blobs ==> k.thread != thread)
      && (forall k :: k in after.writes ==> k.task.thread != thread)
      && Grows(after, db)
      && (forall other :: other != thread ==> Keeps(db, after, other))
  {
  }

  /******* Replays *******/

  /** Repeating a successful `put` later, before the thread is deleted, succeeds and stores nothing. */
  lemma PutReplay(s: Serde, reserved: map<string, int>, db: Tables, req: PutRequest, ops: seq<Op>)
    requires Put(s, db, req).Some? && !Deletes(ops, req.thread)
    ensures
      var later := Run(s, reserved, Put(s, db, req).value, ops);
      Put(s, later, req) == Some(later)
  {
    var after := Put(s, db, req).value;
    var later := Run(s, reserved, after, ops);
    InsertBlobsEffect(s, db.blobs, req, |req.newVersions|);
    RowsNeverChange(s, reserved, after, ops, req.thread);
    InsertBlobsAgain(s, later.blobs, req, |req.newVersions|);
  }

  lemma PutWritesReplay(s: Serde, reserved: map<string, int>, db: Tables, req: WritesRequest, ops: seq<Op>)
    requires PutWrites(s, reserved, db, req).Some? && !Deletes(ops, req.task.thread)
    ensures
      var later := Run(s, reserved, PutWrites(s, reserved, db, req).value, ops);
      PutWrites(s, reserved, later, req) == Some(later)
  {
    var after := PutWrites(s, reserved, db, req).value;
    var later := Run(s, reserved, after, ops);
    InsertWritesEffect(s, reserved, db.writes, req, |req.writes|);
    RowsNeverChange(s, reserved, after, ops, req.task.thread);
    InsertWritesAgain(s, reserved, later.writes, req, |req.writes|);
  }

  /******* Delta storage rebuilds every snapshot *******/

  /** `new_versions` names the channel at the version the checkpoint gives it. */
  ghost predicate Covered(req: PutRequest, channel: string)
    requires channel in req.checkpoint.versions
  {
    exists i :: 0 <= i < |req.newVersions| && req.newVersions[i] == (channel, req.checkpoint.versions[channel])
  }

  ghost predicate SameAt(a: map<string, Value>, b: map<string, Value>, channel: string) {
    (channel in a <==> channel in b) && (channel in a ==> a[channel] == b[channel])
  }

  /** The stored parent has the channel at the same version, and the put repeats the parent's value. */
  ghost predicate Inherited(s: Serde, db: Tables, req: PutRequest, channel: string)
    requires channel in req.checkpoint.versions
  {
    req.parent.Some? &&
    var parent := CheckpointKey(req.thread, req.ns, req.parent.value);
    parent in db.checkpoints &&
    var versions := StoredCheckpoint(s, db, parent).versions;
    && channel in versions && versions[channel] == req.checkpoint.versions[channel]
    && SameAt(req.values, StoredValues(s, db, parent), channel)
  }

  /** What LangGraph guarantees of a `put`: each channel is either covered or unchanged. */
  ghost predicate Disciplined(s: Serde, db: Tables, req: PutRequest) {
    && req.values.Keys <= req.checkpoint.versions.Keys
    && forall c :: c in req.checkpoint.versions ==> Covered(req, c) || Inherited(s, db, req, c)
  }

  /** The i-th call is a `put` that succeeds. */
  ghost predicate Stores(s: Serde, reserved: map<string, int>, ops: seq<Op>, i: nat)
    requires i < |ops|
  {
    ops[i].PutOp? && Put(s, Run(s, reserved, EMPTY_TABLES, ops[..i]), ops[i].put).Some?
  }

  ghost predicate DisciplinedRun(s: Serde, reserved: map<string, int>, ops: seq<Op>) {
    forall i :: 0 <= i < |ops| && Stores(s, reserved, ops, i)
      ==> Disciplined(s, Run(s, reserved, EMPTY_TABLES, ops[..i]), ops[i].put)
  }

  lemma PrefixDisciplined(s: Serde, reserved: map<string, int>, ops: seq<Op>, n: nat)
    requires DisciplinedRun(s, reserved, ops) && n <= |ops|
    ensures DisciplinedRun(s, reserved, ops[..n])
  {
    var front := ops[..n];
    forall i | 0 <= i < n && Stores(s, reserved, front, i)
      ensures Disciplined(s, Run(s, reserved, EMPTY_TABLES, front[..i]), front[i].put)
    {
      assert front[..i] == ops[..i];
      assert Stores(s, reserved, ops, i);
    }
  }

  /** What each stored checkpoint was put with. */
  ghost function Journal(s: Serde, reserved: map<string, int>, ops: seq<Op>): map<CheckpointKey, map<string, Value>> {
    if ops == [] then map[]
    else
      var before := Journal(s, reserved, ops[..|ops| - 1]);
      match ops[|ops| - 1]
      case PutOp(req) =>
        if Put(s, Run(s, reserved, EMPTY_TABLES, ops[..|ops| - 1]), req).Some? then before[KeyOf(req) := req.values] else before
      case WritesOp(_) => before
      case DeleteOp(thread) => map k | k in before && k.thread != thread :: before[k]
  }

  /** Every versioned channel of a stored checkpoint has the blob row of its journalled value. */
  ghost predicate BlobsBacked(s: Serde, db: Tables, key: CheckpointKey, values: map<string, Value>)
    requires key in db.checkpoints
  {
    var versions := StoredCheckpoint(s, db, key).versions;
    && values.Keys <= versions.Keys
    && forall c :: c in versions ==>
         && BlobKey(key.thread, key.ns, c, versions[c].text) in db.blobs
         && db.blobs[BlobKey(key.thread, key.ns, c, versions[c].text)] == BlobFor(s, values, c)
  }

  ghost predicate Backed(s: Serde, db: Tables, journal: map<CheckpointKey, map<string, Value>>) {
    && journal.Keys == db.checkpoints.Keys
    && forall key :: key in db.checkpoints ==> BlobsBacked(s, db, key, journal[key])
  }

  lemma BackedRebuilds(s: Serde, db: Tables, key: CheckpointKey, values: map<string, Value>)
    requires Faithful(s) && key in db.checkpoints && BlobsBacked(s, db, key, values)
    ensures StoredValues(s, db, key) == values
  {
    var loaded := StoredValues(s, db, key);
    forall c ensures SameAt(loaded, values, c) {
      if c in StoredCheckpoint(s, db, key).versions && c in values {
        assert s.loadValue(s.dumpValue(values[c])) == values[c];
      }
    }
    assert loaded.Keys == values.Keys by {
      forall c ensures c in loaded <==> c in values { assert SameAt(loaded, values, c); }
    }
    assert forall c :: c in values ==> SameAt(loaded, values, c);
  }

  /** After a disciplined `put`, the checkpoint it wrote is backed. */
  lemma PutBacksItself(s: Serde, db: Tables, req: PutRequest, journal: map<CheckpointKey, map<string, Value>>)
    requires Faithful(s) && Backed(s, db, journal) && Disciplined(s, db, req) && Put(s, db, req).Some?
    ensures KeyOf(req) in Put(s, db, req).value.checkpoints
    ensures StoredCheckpoint(s, Put(s, db, req).value, KeyOf(req)) == req.checkpoint
    ensures BlobsBacked(s, Put(s, db, req).value, KeyOf(req), req.values)
  {
    var after := Put(s, db, req).value;
    InsertBlobsEffect(s, db.blobs, req, |req.newVersions|);
    assert s.loadCheckpoint(s.dumpCheckpoint(req.checkpoint)) == req.checkpoint;
    var versions := req.checkpoint.versions;
    forall c | c in versions
      ensures BlobKey(req.thread, req.ns, c, versions[c].text) in after.blobs
      ensures after.blobs[BlobKey(req.thread, req.ns, c, versions[c].text)] == BlobFor(s, req.values, c)
    {
      if Covered(req, c) {
        var i :| 0 <= i < |req.newVersions| && req.newVersions[i] == (c, versions[c]);
        assert BlobKeyOf(req, i) == BlobKey(req.thread, req.ns, c, versions[c].text);
      } else {
        assert Inherited(s, db, req, c);
        var parent := CheckpointKey(req.thread, req.ns, req.parent.value);
        BackedRebuilds(s, db, parent, journal[parent]);
        assert SameAt(req.values, journal[parent], c);
      }
    }
  }

  lemma GrowthKeepsBacked(s: Serde, a: Tables, b: Tables, key: CheckpointKey, values: map<string, Value>)
    requires key in a.checkpoints && BlobsBacked(s, a, key, values) && Keeps(a, b, key.thread)
    ensures key in b.checkpoints && BlobsBacked(s, b, key, values)
  {
  }

  /** The inductive invariant of the delta encoding: the journal is backed after every run. */
  lemma {:induction false} JournalBacked(s: Serde, reserved: map<string, int>, ops: seq<Op>)
    requires Faithful(s) && DisciplinedRun(s, reserved, ops)
    ensures Backed(s, Run(s, reserved, EMPTY_TABLES, ops), Journal(s, reserved, ops))
  {
    if ops != [] {
      var front, op := ops[..|ops| - 1], ops[|ops| - 1];
      hide *;
      assert front + [op] == ops;
      PrefixDisciplined(s, reserved, ops, |ops| - 1);
      JournalBacked(s, reserved, front);
      StepBacked(s, reserved, front, op);
    }
  }

  lemma StepBacked(s: Serde, reserved: map<string, int>, front: seq<Op>, op: Op)
    requires Faithful(s) && DisciplinedRun(s, reserved, front + [op])
    requires Backed(s, Run(s, reserved, EMPTY_TABLES, front), Journal(s, reserved, front))
    ensures Backed(s, Run(s, reserved, EMPTY_TABLES, front + [op]), Journal(s, reserved, front + [op]))
  {
    var ops := front + [op];
    assert ops[..|ops| - 1] == front;
    var db, journal := Run(s, reserved, EMPTY_TABLES, front), Journal(s, reserved, front);
    var after, journal' := Run(s, reserved, EMPTY_TABLES, ops), Journal(s, reserved, ops);
    match op
    case PutOp(req) =>
      if Put(s, db, req).Some? {
        assert Stores(s, reserved, ops, |front|);
        PutBacksItself(s, db, req, journal);
        forall key | key in after.checkpoints ensures BlobsBacked(s, after, key, journal'[key]) {
          ApplyKeeps(s, reserved, db, op, key.thread);
          if key != KeyOf(req) {
            assert key in db.checkpoints;
            GrowthKeepsBacked(s, db, after, key, journal[key]);
          }
        }
      }
    case WritesOp(req) =>
      forall key | key in after.checkpoints ensures BlobsBacked(s, after, key, journal'[key]) {
        if PutWrites(s, reserved, db, req).Some? { PutWritesGrows(s, reserved, db, req); }
        assert key in db.checkpoints;
      }
      if PutWrites(s, reserved, db, req).Some? { PutWritesGrows(s, reserved, db, req); }
    case DeleteOp(thread) =>
      forall key | key in after.checkpoints ensures BlobsBacked(s, after, key, journal'[key]) {
        ApplyKeeps(s, reserved, db, op, key.thread);
        GrowthKeepsBacked(s, db, after, key, journal[key]);
      }
  }

  /** The i-th call stored this checkpoint and no later call deleted its thread. */
  ghost predicate PutAt(s: Serde, reserved: map<string, int>, ops: seq<Op>, i: nat, key: CheckpointKey)
    requires i < |ops|
  {
    Stores(s, reserved, ops, i) && KeyOf(ops[i].put) == key && !Deletes(ops[i + 1..], key.thread)
  }

  /** Conversely, everything stored was put by some call that nothing deleted since. */
  lemma {:induction false} StoredWasPut(s: Serde, reserved: map<string, int>, ops: seq<Op>, key: CheckpointKey) returns (i: nat)
    requires key in Run(s, reserved, EMPTY_TABLES, ops).checkpoints
    ensures i < |ops| && PutAt(s, reserved, ops, i, key)
  {
    var front, op := ops[..|ops| - 1], ops[|ops| - 1];
    var db := Run(s, reserved, EMPTY_TABLES, front);
    if op.PutOp? && KeyOf(op.put) == key && Put(s, db, op.put).Some? {
      i := |ops| - 1;
      assert ops[|ops|..] == [];
    } else {
      ArrivedEarlier(s, reserved, db, op, key);
      hide Run, Apply, KeyOf, Put;
      i := StoredWasPut(s, reserved, front, key);
      assert front[..i] == ops[..i] && ops[i + 1..] == front[i + 1..] + [op];
    }
  }

  lemma ArrivedEarlier(s: Serde, reserved: map<string, int>, db: Tables, op: Op, key: CheckpointKey)
    requires key in Apply(s, reserved, db, op).checkpoints
    requires !(op.PutOp? && KeyOf(op.put) == key && Put(s, db, op.put).Some?)
    ensures key in db.checkpoints && op != DeleteOp(key.thread)
  {
    if op.WritesOp? && PutWrites(s, reserved, db, op.writes).Some? { PutWritesGrows(s, reserved, db, op.writes); }
  }
}
