/**
 Reading snapshots back: exactly when a `put` can be read back at once, exactly when it stays readable
 whatever happens later, and why the puts LangGraph makes stay readable.
*/
module CheckpointSnapshots {
  import opened Options
  import opened Ordering
  import opened CheckpointTables
  import opened CheckpointRuns
  import Saver = CheckpointSaver

  /** `new_versions` names the channel at the version text the checkpoint gives it. */
  ghost predicate Named(req: PutRequest, channel: string)
    requires channel in req.checkpoint.versions
  {
    exists i :: 0 <= i < |req.newVersions|
                && req.newVersions[i].0 == channel && req.newVersions[i].1.text == req.checkpoint.versions[channel].text
  }

  function BlobOf(req: PutRequest, channel: string): BlobKey
    requires channel in req.checkpoint.versions
  {
    BlobKey(req.thread, req.ns, channel, req.checkpoint.versions[channel].text)
  }

  /** The blob table already loads the channel's value, or its absence. */
  ghost predicate Loads(s: Serde, blobs: map<BlobKey, Typed>, req: PutRequest, channel: string)
    requires channel in req.checkpoint.versions
  {
    var key := BlobOf(req, channel);
    if channel in req.values
    then key in blobs && blobs[key].kind != "empty" && s.loadValue(blobs[key]) == req.values[channel]
    else key in blobs ==> blobs[key].kind == "empty"
  }

  /** Every value has a version, and each versioned channel is named or already loads the same. */
  ghost predicate ReadableNow(s: Serde, blobs: map<BlobKey, Typed>, req: PutRequest) {
    && req.values.Keys <= req.checkpoint.versions.Keys
    && forall c :: c in req.checkpoint.versions ==> Named(req, c) || Loads(s, blobs, req, c)
  }

  /** The same, with a stored row behind each channel that is not named. */
  ghost predicate ReadableForever(s: Serde, blobs: map<BlobKey, Typed>, req: PutRequest) {
    && ReadableNow(s, blobs, req)
    && forall c :: c in req.checkpoint.versions ==> Named(req, c) || BlobOf(req, c) in blobs
  }

  /******* At once *******/

  /** What a successful put leaves in its row and its blobs. */
  lemma PutStores(s: Serde, db: Tables, req: PutRequest)
    requires Faithful(s) && Put(s, db, req).Some?
    ensures
      var after, key := Put(s, db, req).value, KeyOf(req);
      && key in after.checkpoints && after.checkpoints[key] == RowOf(s, req) && StoredCheckpoint(s, after, key) == req.checkpoint
      && (forall c :: c in req.checkpoint.versions && Named(req, c) ==>
            BlobOf(req, c) in after.blobs && after.blobs[BlobOf(req, c)] == BlobFor(s, req.values, c))
      && (forall c :: c in req.checkpoint.versions && !Named(req, c) ==>
            && (BlobOf(req, c) in after.blobs <==> BlobOf(req, c) in db.blobs)
            && (BlobOf(req, c) in db.blobs ==> after.blobs[BlobOf(req, c)] == db.blobs[BlobOf(req, c)]))
  {
    InsertBlobsEffect(s, db.blobs, req, |req.newVersions|);
    assert s.loadCheckpoint(s.dumpCheckpoint(req.checkpoint)) == req.checkpoint;
    var after := Put(s, db, req).value;
    forall c | c in req.checkpoint.versions && Named(req, c)
      ensures BlobOf(req, c) in after.blobs && after.blobs[BlobOf(req, c)] == BlobFor(s, req.values, c)
    {
      var i :| 0 <= i < |req.newVersions| && req.newVersions[i].0 == c && req.newVersions[i].1.text == req.checkpoint.versions[c].text;
      assert BlobKeyOf(req, i) == BlobOf(req, c);
    }
  }

  /** A named channel loads its own value after the put. */
  lemma NamedLoads(s: Serde, blobs: map<BlobKey, Typed>, req: PutRequest, channel: string)
    requires Faithful(s) && channel in req.checkpoint.versions
    requires BlobOf(req, channel) in blobs && blobs[BlobOf(req, channel)] == BlobFor(s, req.values, channel)
    ensures Loads(s, blobs, req, channel)
  {
    if channel in req.values {
      assert s.loadValue(s.dumpValue(req.values[channel])) == req.values[channel];
    }
  }

  /** Loading gives back the values exactly when each of them is versioned and each channel loads its own. */
  lemma LoadedExactlyWhen(s: Serde, db: Tables, req: PutRequest)
    requires KeyOf(req) in db.checkpoints && StoredCheckpoint(s, db, KeyOf(req)) == req.checkpoint
    ensures StoredValues(s, db, KeyOf(req)) == req.values <==>
      && req.values.Keys <= req.checkpoint.versions.Keys
      && forall c :: c in req.checkpoint.versions ==> Loads(s, db.blobs, req, c)
  {
    var loaded, versions := StoredValues(s, db, KeyOf(req)), req.checkpoint.versions;
    forall c | c in versions ensures Loads(s, db.blobs, req, c) <==> SameAt(loaded, req.values, c) {}
    if req.values.Keys <= versions.Keys && forall c :: c in versions ==> Loads(s, db.blobs, req, c) {
      assert loaded.Keys == req.values.Keys by {
        forall c ensures c in loaded <==> c in req.values {
          if c in versions { assert Loads(s, db.blobs, req, c) && SameAt(loaded, req.values, c); }
        }
      }
      forall c | c in req.values ensures loaded[c] == req.values[c] { assert SameAt(loaded, req.values, c); }
    }
    if loaded == req.values {
      forall c | c in versions ensures Loads(s, db.blobs, req, c) { assert SameAt(loaded, req.values, c); }
    }
  }

  lemma LoadsAfterPut(s: Serde, db: Tables, req: PutRequest, channel: string)
    requires Faithful(s) && Put(s, db, req).Some? && channel in req.checkpoint.versions
    ensures Loads(s, Put(s, db, req).value.blobs, req, channel) <==> Named(req, channel) || Loads(s, db.blobs, req, channel)
  {
    PutStores(s, db, req);
    hide Put, Named;
    if Named(req, channel) { NamedLoads(s, Put(s, db, req).value.blobs, req, channel); }
  }

  /** A successful put reads back at once exactly when its request was readable. */
  lemma ReadsBackExactlyWhen(s: Serde, db: Tables, req: PutRequest)
    requires Faithful(s) && Put(s, db, req).Some?
    ensures KeyOf(req) in Put(s, db, req).value.checkpoints
    ensures StoredValues(s, Put(s, db, req).value, KeyOf(req)) == req.values <==> ReadableNow(s, db.blobs, req)
  {
    PutStores(s, db, req);
    var after := Put(s, db, req).value;
    LoadedExactlyWhen(s, after, req);
    forall c | c in req.checkpoint.versions ensures Loads(s, after.blobs, req, c) <==> Named(req, c) || Loads(s, db.blobs, req, c) {
      LoadsAfterPut(s, db, req, c);
    }
    hide Put, Named, Loads, StoredValues, StoredCheckpoint;
  }

  /** Without coverage the promise fails at once: a changed channel left out of `new_versions` is lost. */
  lemma UncoveredChannelIsLost(s: Serde)
    requires Faithful(s)
    ensures exists req: PutRequest ::
      && Put(s, EMPTY_TABLES, req).Some? && "signal" in req.values && !ReadableNow(s, EMPTY_TABLES.blobs, req)
      && StoredValues(s, Put(s, EMPTY_TABLES, req).value, KeyOf(req)) != req.values
  {
    var checkpoint := Stripped("1", map["signal" := Version(1, "1")], "");
    var req := PutRequest("t", "", None, checkpoint, map["signal" := Value("7")], Metadata(map[]), []);
    assert InsertBlobs(s, EMPTY_TABLES.blobs, req, 0) == Some(map[]);
    assert !Named(req, "signal") && !Loads(s, map[], req, "signal");
    ReadsBackExactlyWhen(s, EMPTY_TABLES, req);
  }

  /******* Forever *******/

  ghost predicate ReadsBackIn(s: Serde, db: Tables, req: PutRequest) {
    KeyOf(req) in db.checkpoints && StoredValues(s, db, KeyOf(req)) == req.values
  }

  /** Rows that keep standing behind every channel keep loading the same. */
  lemma ReadableStays(s: Serde, db: Tables, req: PutRequest, later: Tables)
    requires Faithful(s) && Put(s, db, req).Some? && ReadableForever(s, db.blobs, req)
    requires Keeps(Put(s, db, req).value, later, req.thread)
    ensures ReadsBackIn(s, later, req) && later.checkpoints[KeyOf(req)] == RowOf(s, req)
    ensures forall c :: c in req.checkpoint.versions ==> BlobOf(req, c) in later.blobs && Loads(s, later.blobs, req, c)
  {
    PutStores(s, db, req);
    var after := Put(s, db, req).value;
    assert KeyOf(req).thread == req.thread;
    forall c | c in req.checkpoint.versions ensures BlobOf(req, c) in later.blobs && Loads(s, later.blobs, req, c) {
      LoadsAfterPut(s, db, req, c);
      assert BlobOf(req, c).thread == req.thread;
    }
    hide Put, Named, Loads;
    LoadedExactlyWhen(s, later, req);
  }

  /** Repeating a put with another value for a channel nothing was stored for. */
  function Filler(req: PutRequest, channel: string): PutRequest
    requires channel in req.checkpoint.versions
  {
    req.(values := map[channel := Value("")], newVersions := [(channel, req.checkpoint.versions[channel])])
  }

  lemma FillerSpoils(s: Serde, reserved: map<string, int>, db: Tables, req: PutRequest, channel: string)
    requires Faithful(s) && KeyOf(req) in db.checkpoints && db.checkpoints[KeyOf(req)] == RowOf(s, req)
    requires channel in req.checkpoint.versions && channel !in req.values && BlobOf(req, channel) !in db.blobs
    ensures !ReadsBackIn(s, Run(s, reserved, db, [PutOp(Filler(req, channel))]), req)
  {
    var filler := Filler(req, channel);
    assert InsertBlobs(s, db.blobs, filler, 0) == Some(db.blobs);
    assert BlobKeyOf(filler, 0) == BlobOf(req, channel);
    assert Put(s, db, filler).Some?;
    PutStores(s, db, filler);
    assert Named(filler, channel) by { assert filler.newVersions[0].0 == channel; }
    NamedLoads(s, Put(s, db, filler).value.blobs, filler, channel);
    var ops := [PutOp(filler)];
    assert ops[..|ops| - 1] == [];
    assert Run(s, reserved, db, ops) == Put(s, db, filler).value;
    assert channel in StoredValues(s, Put(s, db, filler).value, KeyOf(req));
  }

  /**
   A successful put reads back after every possible continuation, by any number of processes, exactly
   when its request was readable with a row behind every channel.
  */
  lemma ReadsBackForeverExactlyWhen(s: Serde, reserved: map<string, int>, db: Tables, req: PutRequest)
    requires Faithful(s) && Put(s, db, req).Some?
    ensures ReadableForever(s, db.blobs, req) <==>
      forall ops :: !Deletes(ops, req.thread) ==> ReadsBackIn(s, Run(s, reserved, Put(s, db, req).value, ops), req)
  {
    var after := Put(s, db, req).value;
    if ReadableForever(s, db.blobs, req) {
      forall ops | !Deletes(ops, req.thread) ensures ReadsBackIn(s, Run(s, reserved, after, ops), req) {
        RowsNeverChange(s, reserved, after, ops, req.thread);
        ReadableStays(s, db, req, Run(s, reserved, after, ops));
      }
    } else if ReadableNow(s, db.blobs, req) {
      PutStores(s, db, req);
      var c :| c in req.checkpoint.versions && !Named(req, c) && BlobOf(req, c) !in db.blobs;
      FillerSpoils(s, reserved, after, req, c);
      assert !Deletes([PutOp(Filler(req, c))], req.thread);
    } else {
      ReadsBackExactlyWhen(s, db, req);
      assert !Deletes([], req.thread) && Run(s, reserved, after, []) == after;
    }
  }

  /******* The puts of a run *******/

  /** Call j stored the parent of call i, and its thread was not deleted in between. */
  ghost predicate ParentOf(s: Serde, reserved: map<string, int>, ops: seq<Op>, j: nat, i: nat)
    requires j < i < |ops| && ops[i].PutOp?
  {
    && Stores(s, reserved, ops, j)
    && ops[j].put.thread == ops[i].put.thread && ops[j].put.ns == ops[i].put.ns
    && ops[i].put.parent == Some(ops[j].put.checkpoint.id)
    && !Deletes(ops[j + 1..i], ops[i].put.thread)
  }

  /** The channel has the version and the value, or the absence of one, it had in the other request. */
  ghost predicate Unchanged(old_: PutRequest, req: PutRequest, channel: string)
    requires channel in req.checkpoint.versions
  {
    && channel in old_.checkpoint.versions && old_.checkpoint.versions[channel].text == req.checkpoint.versions[channel].text
    && SameAt(old_.values, req.values, channel)
  }

  /**
   What LangGraph guarantees of a put: values are versioned, and each channel is named in
   `new_versions` or unchanged from a parent put for which the same holds.
  */
  ghost predicate Grounded(s: Serde, reserved: map<string, int>, ops: seq<Op>, i: nat)
    requires i < |ops|
    decreases i
  {
    && Stores(s, reserved, ops, i)
    && ops[i].put.values.Keys <= ops[i].put.checkpoint.versions.Keys
    && forall c :: c in ops[i].put.checkpoint.versions ==> Named(ops[i].put, c) || FromParent(s, reserved, ops, i, c)
  }

  ghost predicate FromParent(s: Serde, reserved: map<string, int>, ops: seq<Op>, i: nat, channel: string)
    requires i < |ops| && ops[i].PutOp? && channel in ops[i].put.checkpoint.versions
    decreases i, 0
  {
    exists j: nat :: j < i && ParentOf(s, reserved, ops, j, i) && Unchanged(ops[j].put, ops[i].put, channel) && Grounded(s, reserved, ops, j)
  }

  lemma StoredAt(s: Serde, reserved: map<string, int>, ops: seq<Op>, i: nat)
    requires i < |ops| && Stores(s, reserved, ops, i)
    ensures
      var before, req := Run(s, reserved, EMPTY_TABLES, ops[..i]), ops[i].put;
      && Put(s, before, req).Some? && Run(s, reserved, EMPTY_TABLES, ops[..i + 1]) == Put(s, before, req).value
  {
    assert ops[..i + 1][..i] == ops[..i];
  }

  /** The tables at a later point still hold every row of an undeleted thread. */
  lemma KeptUntil(s: Serde, reserved: map<string, int>, ops: seq<Op>, i: nat, n: nat, thread: string)
    requires i <= n <= |ops| && !Deletes(ops[i..n], thread)
    ensures Keeps(Run(s, reserved, EMPTY_TABLES, ops[..i]), Run(s, reserved, EMPTY_TABLES, ops[..n]), thread)
  {
    assert ops[..n][..i] == ops[..i] && ops[..n][i..] == ops[i..n];
    hide Run, Keeps;
    RunSplit(s, reserved, EMPTY_TABLES, ops[..n], i);
    RowsNeverChange(s, reserved, Run(s, reserved, EMPTY_TABLES, ops[..i]), ops[i..n], thread);
  }

  /** A channel unchanged from a readable parent is readable, with the parent's row behind it. */
  lemma InheritedIsReadable(s: Serde, reserved: map<string, int>, ops: seq<Op>, j: nat, i: nat, channel: string)
    requires Faithful(s) && j < i < |ops| && ops[i].PutOp? && ParentOf(s, reserved, ops, j, i)
    requires channel in ops[i].put.checkpoint.versions && Unchanged(ops[j].put, ops[i].put, channel)
    requires ReadableForever(s, Run(s, reserved, EMPTY_TABLES, ops[..j]).blobs, ops[j].put)
    ensures
      var db := Run(s, reserved, EMPTY_TABLES, ops[..i]);
      BlobOf(ops[i].put, channel) in db.blobs && Loads(s, db.blobs, ops[i].put, channel)
  {
    var parent, req := ops[j].put, ops[i].put;
    StoredAt(s, reserved, ops, j);
    KeptUntil(s, reserved, ops, j + 1, i, req.thread);
    ReadableStays(s, Run(s, reserved, EMPTY_TABLES, ops[..j]), parent, Run(s, reserved, EMPTY_TABLES, ops[..i]));
    assert BlobOf(parent, channel) == BlobOf(req, channel);
    hide Run, ReadableForever, Stores;
  }

  lemma {:induction false} GroundedIsReadable(s: Serde, reserved: map<string, int>, ops: seq<Op>, i: nat)
    requires Faithful(s) && i < |ops| && Grounded(s, reserved, ops, i)
    ensures ReadableForever(s, Run(s, reserved, EMPTY_TABLES, ops[..i]).blobs, ops[i].put)
    decreases i
  {
    var db, req := Run(s, reserved, EMPTY_TABLES, ops[..i]), ops[i].put;
    forall c | c in req.checkpoint.versions && !Named(req, c) ensures BlobOf(req, c) in db.blobs && Loads(s, db.blobs, req, c) {
      var j: nat :| j < i && ParentOf(s, reserved, ops, j, i) && Unchanged(ops[j].put, req, c) && Grounded(s, reserved, ops, j);
      GroundedIsReadable(s, reserved, ops, j);
      InheritedIsReadable(s, reserved, ops, j, i, c);
    }
    hide Named, Loads, Run;
  }

  /**
   Whatever happens later -- further puts, forks, writes, deletes of other threads, by any process --
   a checkpoint whose put and unchanged ancestors kept LangGraph's guarantee reads back whole.  What
   other puts do does not matter.
  */
  lemma SnapshotsRebuild(s: Serde, reserved: map<string, int>, ops: seq<Op>, i: nat)
    requires Faithful(s) && i < |ops| && Grounded(s, reserved, ops, i)
    requires !Deletes(ops[i + 1..], ops[i].put.thread)
    ensures
      var db := Run(s, reserved, EMPTY_TABLES, ops);
      var key := KeyOf(ops[i].put);
      && key in db.checkpoints
      && SnapshotOf(s, db, key).values == ops[i].put.values
      && SnapshotOf(s, db, key).checkpoint == ops[i].put.checkpoint
      && SnapshotOf(s, db, key).metadata == ops[i].put.metadata
      && SnapshotOf(s, db, key).parent == (if ops[i].put.parent.None? || ops[i].put.parent.value == "" then None
                                           else Some(CheckpointKey(ops[i].put.thread, ops[i].put.ns, ops[i].put.parent.value)))
  {
    var req := ops[i].put;
    StoredAt(s, reserved, ops, i);
    GroundedIsReadable(s, reserved, ops, i);
    assert ops[i + 1..|ops|] == ops[i + 1..] && ops[..|ops|] == ops;
    KeptUntil(s, reserved, ops, i + 1, |ops|, req.thread);
    ReadableStays(s, Run(s, reserved, EMPTY_TABLES, ops[..i]), req, Run(s, reserved, EMPTY_TABLES, ops));
    hide Run, Grounded, ReadableForever;
    assert s.loadCheckpoint(s.dumpCheckpoint(req.checkpoint)) == req.checkpoint;
    assert s.loadMetadata(s.dumpMetadata(req.metadata)) == req.metadata;
  }

  /** The condition on a whole run grounds each of its puts. */
  lemma {:induction false} DisciplinedIsGrounded(s: Serde, reserved: map<string, int>, ops: seq<Op>, i: nat)
    requires Faithful(s) && DisciplinedRun(s, reserved, ops) && i < |ops| && Stores(s, reserved, ops, i)
    ensures Grounded(s, reserved, ops, i)
    decreases |ops|, i
  {
    var db, req := Run(s, reserved, EMPTY_TABLES, ops[..i]), ops[i].put;
    assert Disciplined(s, db, req);
    forall c | c in req.checkpoint.versions && !Named(req, c) ensures FromParent(s, reserved, ops, i, c) {
      assert !Covered(req, c);
      assert Inherited(s, db, req, c);
      InheritedIsGrounded(s, reserved, ops, i, c);
    }
    hide Run, Named, Inherited, Covered;
  }

  /** The parent a channel is inherited from was put earlier, and by then grounded. */
  lemma InheritedIsGrounded(s: Serde, reserved: map<string, int>, ops: seq<Op>, i: nat, channel: string)
    requires Faithful(s) && DisciplinedRun(s, reserved, ops) && i < |ops| && Stores(s, reserved, ops, i)
    requires channel in ops[i].put.checkpoint.versions
    requires Inherited(s, Run(s, reserved, EMPTY_TABLES, ops[..i]), ops[i].put, channel)
    ensures FromParent(s, reserved, ops, i, channel)
    decreases |ops|, i, 0
  {
    hide Run, Grounded, DisciplinedRun, StoredValues, StoredCheckpoint, Put, Covered, Pending, ParentKey;
    var req, front := ops[i].put, ops[..i];
    var parent := CheckpointKey(req.thread, req.ns, req.parent.value);
    var j := StoredWasPut(s, reserved, front, parent);
    assert front[..j] == ops[..j] && front[j + 1..] == ops[j + 1..i] && front[j] == ops[j];
    PrefixDisciplined(s, reserved, ops, i);
    DisciplinedIsGrounded(s, reserved, front, j);
    SnapshotsRebuild(s, reserved, front, j);
    assert Stores(s, reserved, ops, j);
    DisciplinedIsGrounded(s, reserved, ops, j);
    assert ParentOf(s, reserved, ops, j, i) && Unchanged(ops[j].put, req, channel);
  }

  /** In a disciplined run every stored checkpoint reads back as what the journal says it was put with. */
  lemma JournalReadsBack(s: Serde, reserved: map<string, int>, ops: seq<Op>, key: CheckpointKey)
    requires Faithful(s) && DisciplinedRun(s, reserved, ops)
    ensures key in Journal(s, reserved, ops) <==> key in Run(s, reserved, EMPTY_TABLES, ops).checkpoints
    ensures key in Journal(s, reserved, ops) ==>
      StoredValues(s, Run(s, reserved, EMPTY_TABLES, ops), key) == Journal(s, reserved, ops)[key]
  {
    JournalBacked(s, reserved, ops);
    var db := Run(s, reserved, EMPTY_TABLES, ops);
    hide Run, Journal, BlobsBacked, StoredValues;
    if key in db.checkpoints { BackedRebuilds(s, db, key, Journal(s, reserved, ops)[key]); }
  }

  /** In every reachable database, each checkpoint goes back to a put, and reads back as that put when it was grounded. */
  lemma ReachableSnapshots(s: Serde, reserved: map<string, int>, ops: seq<Op>, key: CheckpointKey) returns (i: nat)
    requires Faithful(s) && key in Run(s, reserved, EMPTY_TABLES, ops).checkpoints
    ensures i < |ops| && PutAt(s, reserved, ops, i, key)
    ensures Grounded(s, reserved, ops, i) ==> StoredValues(s, Run(s, reserved, EMPTY_TABLES, ops), key) == ops[i].put.values
  {
    i := StoredWasPut(s, reserved, ops, key);
    if Grounded(s, reserved, ops, i) { SnapshotsRebuild(s, reserved, ops, i); }
    hide Run, Grounded;
  }

  /******* Through the saver *******/

  /**
   The configuration a `put` returns leads `get_tuple` back to that checkpoint, with its own content,
   except for an empty id while the namespace holds another checkpoint.
  */
  method PutThenGet(saver: Saver.MySQLSaver, req: PutRequest) returns (saved: Option<CheckpointKey>, found: Option<Snapshot>)
    requires Faithful(saver.serde)
    modifies saver.database
    ensures saved.Some? ==>
      && found.Some? && saved.value == CheckpointKey(req.thread, req.ns, req.checkpoint.id)
      && (found.value.key == saved.value <==>
            || req.checkpoint.id != ""
            || forall k :: k in saver.database.checkpoints && k.thread == req.thread && k.ns == req.ns ==> k.id == "")
      && (found.value.key == saved.value ==>
            && found.value.checkpoint == req.checkpoint && found.value.metadata == req.metadata
            && found.value.parent == (if req.parent.None? || req.parent.value == "" then None
                                      else Some(CheckpointKey(req.thread, req.ns, req.parent.value)))
            && (found.value.values == req.values <==> ReadableNow(saver.serde, old(saver.database.Contents()).blobs, req)))
  {
    ghost var db := saver.database.Contents();
    saved := saver.Put(req);
    if saved.None? { return None, None; }
    PutStores(saver.serde, db, req);
    ReadsBackExactlyWhen(saver.serde, db, req);
    hide ReadableNow, Pending, StoredValues;
    assert saved.value in saver.database.checkpoints;
    found := saver.GetTuple(saved.value.thread, saved.value.ns, Some(saved.value.id));
    if saved.value.id == "" {
      EmptyFirst();
    }
    assert saver.serde.loadMetadata(saver.serde.dumpMetadata(req.metadata)) == req.metadata;
  }

  lemma EmptyFirst()
    ensures forall id :: TextLe(id, "") <==> id == ""
  {
  }
}
