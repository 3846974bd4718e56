/**
 Task writes: what `put_writes` stores for a task and how `get_tuple` returns it.

 `WRITES_IDX_MAP` holds only negative reserved indexes, so every write is filed under its position.
*/
module CheckpointWrites {
  import opened Options
  import opened Ordering
  import opened CheckpointTables
  import opened CheckpointRuns

  ghost predicate AllNegative(reserved: map<string, int>) {
    forall c :: c in reserved ==> reserved[c] < 0
  }

  /** The rows stored for the task are exactly `rows`, at indexes 0, 1, 2, ... */
  ghost predicate Holds(writes: map<WriteKey, WriteRow>, task: TaskKey, rows: seq<WriteRow>) {
    forall i: int ::
      && (WriteKey(task, i) in writes <==> 0 <= i < |rows|)
      && (0 <= i < |rows| ==> writes[WriteKey(task, i)] == rows[i])
  }

  function Requested(s: Serde, req: WritesRequest): (rows: seq<WriteRow>)
    ensures |rows| == |req.writes|
  {
    seq(|req.writes|, i requires 0 <= i < |req.writes| => WriteRowOf(s, req, i))
  }

  /** The two sequences agree as far as both go. */
  ghost predicate Agree(a: seq<WriteRow>, b: seq<WriteRow>) {
    forall i :: 0 <= i < |a| && i < |b| ==> a[i] == b[i]
  }

  function Longer<T>(a: seq<T>, b: seq<T>): seq<T> {
    if |a| < |b| then b else a
  }

  ghost predicate OthersUntouched(a: map<WriteKey, WriteRow>, b: map<WriteKey, WriteRow>, task: TaskKey) {
    forall k: WriteKey :: k.task != task ==> (k in b <==> k in a) && (k in a ==> b[k] == a[k])
  }

  lemma AppendHolds(writes: map<WriteKey, WriteRow>, task: TaskKey, rows: seq<WriteRow>, row: WriteRow)
    requires Holds(writes, task, rows)
    ensures WriteKey(task, |rows|) !in writes
    ensures Holds(writes[WriteKey(task, |rows|) := row], task, rows + [row])
  {
  }

  /** One more row against the stored sequence. */
  lemma AgreeStep(stored: seq<WriteRow>, rows: seq<WriteRow>, n: nat)
    requires 0 < n <= |rows|
    ensures Agree(stored, rows[..n]) <==> Agree(stored, rows[..n - 1]) && (n - 1 < |stored| ==> stored[n - 1] == rows[n - 1])
    ensures Agree(stored, rows[..n]) ==> Longer(stored, rows[..n]) == (if n <= |stored| then stored else rows[..n])
    ensures Agree(stored, rows[..n - 1]) ==> Longer(stored, rows[..n - 1]) == (if n <= |stored| then stored else rows[..n - 1])
  {
    assert rows[..n] == rows[..n - 1] + [rows[n - 1]];
    if |stored| == n - 1 && Agree(stored, rows[..n - 1]) { assert stored == rows[..n - 1]; }
    if |stored| == n && Agree(stored, rows[..n]) { assert stored == rows[..n]; }
  }

  lemma InsertStep(writes: map<WriteKey, WriteRow>, task: TaskKey, held: seq<WriteRow>, row: WriteRow, i: nat)
    requires Holds(writes, task, held) && i <= |held|
    ensures i < |held| ==> InsertOrVerify(writes, WriteKey(task, i), row) == if held[i] == row then Some(writes) else None
    ensures i == |held| ==>
      && InsertOrVerify(writes, WriteKey(task, i), row) == Some(writes[WriteKey(task, i) := row])
      && Holds(writes[WriteKey(task, i) := row], task, held + [row])
  {
    if i == |held| { AppendHolds(writes, task, held, row); }
  }

  /** After n rows: accepted exactly when they agree with `stored`, and then the longer is held. */
  ghost predicate Accepted(writes: map<WriteKey, WriteRow>, after: Option<map<WriteKey, WriteRow>>, task: TaskKey,
                           stored: seq<WriteRow>, rows: seq<WriteRow>)
  {
    && (after.Some? <==> Agree(stored, rows))
    && (after.Some? ==> Holds(after.value, task, Longer(stored, rows)) && OthersUntouched(writes, after.value, task))
  }

  lemma AcceptStep(writes: map<WriteKey, WriteRow>, before: map<WriteKey, WriteRow>, task: TaskKey,
                   stored: seq<WriteRow>, rows: seq<WriteRow>, n: nat)
    requires 0 < n <= |rows| && Accepted(writes, Some(before), task, stored, rows[..n - 1])
    ensures Accepted(writes, InsertOrVerify(before, WriteKey(task, n - 1), rows[n - 1]), task, stored, rows[..n])
  {
    AgreeStep(stored, rows, n);
    assert rows[..n] == rows[..n - 1] + [rows[n - 1]];
    InsertStep(before, task, Longer(stored, rows[..n - 1]), rows[n - 1], n - 1);
  }

  lemma {:induction false} InsertWritesExact(s: Serde, reserved: map<string, int>, writes: map<WriteKey, WriteRow>,
                                             req: WritesRequest, stored: seq<WriteRow>, n: nat)
    requires AllNegative(reserved) && Holds(writes, req.task, stored) && n <= |req.writes|
    ensures Accepted(writes, InsertWrites(s, reserved, writes, req, n), req.task, stored, Requested(s, req)[..n])
  {
    if n == 0 {
      assert Requested(s, req)[..0] == [];
    } else {
      InsertWritesExact(s, reserved, writes, req, stored, n - 1);
      var before := InsertWrites(s, reserved, writes, req, n - 1);
      if before.Some? {
        AcceptStep(writes, before.value, req.task, stored, Requested(s, req), n);
        assert WriteKeyOf(reserved, req, n - 1) == WriteKey(req.task, n - 1);
      } else {
        AgreeStep(stored, Requested(s, req), n);
      }
    }
  }

  /**
   `put_writes` succeeds exactly when the new and the stored sequences agree on their common
   prefix (channel, value and task path); the task then holds the longer of the two and every other
   task holds what it held.
  */
  lemma PutWritesExact(s: Serde, reserved: map<string, int>, db: Tables, req: WritesRequest, stored: seq<WriteRow>)
    requires AllNegative(reserved) && Holds(db.writes, req.task, stored)
    ensures PutWrites(s, reserved, db, req).Some? <==> Agree(stored, Requested(s, req))
    ensures PutWrites(s, reserved, db, req).Some? ==>
      && Holds(PutWrites(s, reserved, db, req).value.writes, req.task, Longer(stored, Requested(s, req)))
      && forall task, rows :: task != req.task && Holds(db.writes, task, rows)
           ==> Holds(PutWrites(s, reserved, db, req).value.writes, task, rows)
  {
    InsertWritesExact(s, reserved, db.writes, req, stored, |req.writes|);
    assert Requested(s, req)[..|req.writes|] == Requested(s, req);
    if PutWrites(s, reserved, db, req).Some? {
      var after := PutWrites(s, reserved, db, req).value;
      forall task, rows | task != req.task && Holds(db.writes, task, rows)
        ensures Holds(after.writes, task, rows)
      {
        assert forall i: int :: WriteKey(task, i).task != req.task;
      }
    }
  }

  /** In every reachable database each task's writes are filed at 0, 1, 2, ... without a hole. */
  lemma {:induction false} WritesAreContiguous(s: Serde, reserved: map<string, int>, ops: seq<Op>, task: TaskKey) returns (rows: seq<WriteRow>)
    requires AllNegative(reserved)
    ensures Holds(Run(s, reserved, EMPTY_TABLES, ops).writes, task, rows)
  {
    if ops == [] {
      rows := [];
    } else {
      var front, op := ops[..|ops| - 1], ops[|ops| - 1];
      var db := Run(s, reserved, EMPTY_TABLES, front);
      rows := WritesAreContiguous(s, reserved, front, task);
      match op
      case PutOp(req) => if Put(s, db, req).Some? { PutGrows(s, db, req); }
      case WritesOp(req) =>
        var stored := WritesAreContiguous(s, reserved, front, req.task);
        PutWritesExact(s, reserved, db, req, stored);
        if PutWrites(s, reserved, db, req).Some? && req.task == task {
          rows := Longer(stored, Requested(s, req));
        }
      case DeleteOp(thread) =>
        if task.thread == thread { rows := []; }
    }
  }

  /******* Reading order *******/

  function OfTask(pending: seq<PendingWrite>, task: string): seq<PendingWrite> {
    if pending == [] then []
    else OfTask(pending[..|pending| - 1], task) +
         (if pending[|pending| - 1].task == task then [pending[|pending| - 1]] else [])
  }

  /** What the stored rows of a task say, in the form `get_tuple` returns them. */
  function Read(s: Serde, task: string, rows: seq<WriteRow>): seq<PendingWrite> {
    seq(|rows|, i requires 0 <= i < |rows| => PendingWrite(task, rows[i].channel, s.loadValue(rows[i].value)))
  }

  function SlotsOfTask(slots: seq<Slot>, task: string): seq<Slot> {
    if slots == [] then []
    else SlotsOfTask(slots[..|slots| - 1], task) +
         (if slots[|slots| - 1].task == task then [slots[|slots| - 1]] else [])
  }

  lemma {:induction false} SlotsOfTaskMembers(slots: seq<Slot>, task: string)
    ensures forall x :: x in SlotsOfTask(slots, task) <==> x in slots && x.task == task
    ensures |SlotsOfTask(slots, task)| <= |slots|
  {
    if slots != [] {
      SlotsOfTaskMembers(slots[..|slots| - 1], task);
      assert slots == slots[..|slots| - 1] + [slots[|slots| - 1]];
    }
  }

  lemma {:induction false} SlotsOfTaskAscend(slots: seq<Slot>, task: string)
    requires forall i, j :: 0 <= i < j < |slots| ==> SlotLe(slots[i], slots[j]) && slots[i] != slots[j]
    ensures
      var mine := SlotsOfTask(slots, task);
      forall i, j :: 0 <= i < j < |mine| ==> SlotLe(mine[i], mine[j]) && mine[i] != mine[j]
  {
    if slots != [] {
      var front, last := slots[..|slots| - 1], slots[|slots| - 1];
      SlotsOfTaskAscend(front, task);
      SlotsOfTaskMembers(front, task);
      var mine := SlotsOfTask(front, task);
      forall i | 0 <= i < |mine| ensures SlotLe(mine[i], last) && mine[i] != last {
        assert mine[i] in front;
        var k :| 0 <= k < |front| && front[k] == mine[i];
        assert slots[k] == mine[i];
      }
    }
  }

  lemma {:induction false} DecodeOfTask(s: Serde, writes: map<WriteKey, WriteRow>, key: CheckpointKey, slots: seq<Slot>, task: string)
    requires forall slot :: slot in slots ==> SlotKey(key, slot) in writes
    ensures forall slot :: slot in SlotsOfTask(slots, task) ==> SlotKey(key, slot) in writes
    ensures OfTask(Decode(s, writes, key, slots), task) == Decode(s, writes, key, SlotsOfTask(slots, task))
  {
    SlotsOfTaskMembers(slots, task);
    if slots != [] {
      var front, last := slots[..|slots| - 1], slots[|slots| - 1];
      forall slot | slot in front ensures SlotKey(key, slot) in writes { assert slot in slots; }
      DecodeOfTask(s, writes, key, front, task);
      var all := Decode(s, writes, key, slots);
      assert all[..|all| - 1] == Decode(s, writes, key, front);
      assert last in slots;
    }
  }

  /** `get_tuple` returns each task's pending writes in the order the task issued them. */
  lemma PendingInIssueOrder(s: Serde, writes: map<WriteKey, WriteRow>, key: CheckpointKey, task: string, rows: seq<WriteRow>)
    requires Holds(writes, TaskKey(key.thread, key.ns, key.id, task), rows)
    ensures OfTask(Pending(s, writes, key), task) == Read(s, task, rows)
  {
    SlotOrder();
    var all := Enumerate(Slots(writes, key), SlotLe);
    DecodeOfTask(s, writes, key, all, task);
    SelectedSlots(writes, key, task);
    ExpectedSlots(writes, key, task, rows);
    EnumerationUnique(SlotsOfTask(all, task), Positions(task, |rows|), TaskSlots(writes, key, task), SlotLe);
    assert Decode(s, writes, key, Positions(task, |rows|)) == Read(s, task, rows);
  }

  ghost function TaskSlots(writes: map<WriteKey, WriteRow>, key: CheckpointKey, task: string): set<Slot> {
    set slot | slot in Slots(writes, key) && slot.task == task
  }

  function Positions(task: string, n: nat): seq<Slot> {
    seq(n, i => Slot(task, i))
  }

  lemma SelectedSlots(writes: map<WriteKey, WriteRow>, key: CheckpointKey, task: string)
    requires TotalOrder(SlotLe)
    ensures Enumerates(SlotsOfTask(Enumerate(Slots(writes, key), SlotLe), task), TaskSlots(writes, key, task), SlotLe)
  {
    var all := Enumerate(Slots(writes, key), SlotLe);
    SlotsOfTaskAscend(all, task);
    SlotsOfTaskMembers(all, task);
  }

  lemma ExpectedSlots(writes: map<WriteKey, WriteRow>, key: CheckpointKey, task: string, rows: seq<WriteRow>)
    requires Holds(writes, TaskKey(key.thread, key.ns, key.id, task), rows)
    ensures Enumerates(Positions(task, |rows|), TaskSlots(writes, key, task), SlotLe)
    ensures forall slot :: slot in Positions(task, |rows|) ==> SlotKey(key, slot) in writes
  {
    var expected := Positions(task, |rows|);
    var tk := TaskKey(key.thread, key.ns, key.id, task);
    forall slot ensures slot in expected <==> slot in TaskSlots(writes, key, task) {
      if slot in expected {
        assert WriteKey(tk, slot.index) in writes;
      }
      if slot in TaskSlots(writes, key, task) {
        assert WriteKey(tk, slot.index) in writes;
        assert expected[slot.index] == slot;
      }
    }
  }

  /**
   The pending writes of the task are the longer of the stored and the requested sequence; those just
   issued come back whole, their values decoded to what was written.
  */
  lemma WritesRoundTrip(s: Serde, reserved: map<string, int>, db: Tables, req: WritesRequest, stored: seq<WriteRow>)
    requires Faithful(s) && AllNegative(reserved) && Holds(db.writes, req.task, stored)
    requires PutWrites(s, reserved, db, req).Some?
    ensures
      var key := CheckpointKey(req.task.thread, req.task.ns, req.task.id);
      var pending := OfTask(Pending(s, PutWrites(s, reserved, db, req).value.writes, key), req.task.task);
      && pending == Read(s, req.task.task, Longer(stored, Requested(s, req)))
      && |pending| >= |req.writes|
      && forall i :: 0 <= i < |req.writes| ==> pending[i] == PendingWrite(req.task.task, req.writes[i].0, req.writes[i].1)
  {
    PutWritesExact(s, reserved, db, req, stored);
    var key := CheckpointKey(req.task.thread, req.task.ns, req.task.id);
    var rows := Longer(stored, Requested(s, req));
    PendingInIssueOrder(s, PutWrites(s, reserved, db, req).value.writes, key, req.task.task, rows);
    forall i | 0 <= i < |req.writes|
      ensures rows[i].channel == req.writes[i].0 && s.loadValue(rows[i].value) == req.writes[i].1
    {
      assert rows[i] == Requested(s, req)[i];
      assert s.loadValue(s.dumpValue(req.writes[i].1)) == req.writes[i].1;
    }
  }

  /******* Any reserved indexes *******/

  /** Where the i-th write of a request is filed: at the index reserved for its channel, or at its position. */
  ghost predicate FiledAt(reserved: map<string, int>, req: WritesRequest, i: nat, index: int)
    requires i < |req.writes|
  {
    var channel := req.writes[i].0;
    if channel in reserved && 0 <= reserved[channel] then index == reserved[channel] else index == i
  }

  /** Whatever indexes are reserved: after a successful call every write is in its place, and nothing else is new. */
  lemma PutWritesFiles(s: Serde, reserved: map<string, int>, db: Tables, req: WritesRequest)
    requires PutWrites(s, reserved, db, req).Some?
    ensures
      var after := PutWrites(s, reserved, db, req).value;
      && after.checkpoints == db.checkpoints && after.blobs == db.blobs
      && (forall i, index :: 0 <= i < |req.writes| && FiledAt(reserved, req, i, index) ==>
            && WriteKey(req.task, index) in after.writes
            && after.writes[WriteKey(req.task, index)] == WriteRow(req.writes[i].0, s.dumpValue(req.writes[i].1), req.path))
      && (forall k :: k in db.writes ==> k in after.writes && after.writes[k] == db.writes[k])
      && forall k :: k in after.writes && k !in db.writes ==>
           k.task == req.task && exists i :: 0 <= i < |req.writes| && FiledAt(reserved, req, i, k.index)
  {
    InsertWritesEffect(s, reserved, db.writes, req, |req.writes|);
    var after := PutWrites(s, reserved, db, req).value;
    forall i, index | 0 <= i < |req.writes| && FiledAt(reserved, req, i, index)
      ensures WriteKey(req.task, index) in after.writes
      ensures after.writes[WriteKey(req.task, index)] == WriteRow(req.writes[i].0, s.dumpValue(req.writes[i].1), req.path)
    {
      assert WriteKeyOf(reserved, req, i) == WriteKey(req.task, index);
    }
    forall k | k in after.writes && k !in db.writes
      ensures k.task == req.task && exists i :: 0 <= i < |req.writes| && FiledAt(reserved, req, i, k.index)
    {
      var i :| 0 <= i < |req.writes| && k == WriteKeyOf(reserved, req, i);
      assert FiledAt(reserved, req, i, k.index);
    }
  }

  /** All pending writes of a checkpoint, task after task in the order of their ids and by index within a task. */
  lemma PendingMeans(s: Serde, writes: map<WriteKey, WriteRow>, key: CheckpointKey) returns (slots: seq<Slot>)
    ensures |slots| == |Pending(s, writes, key)|
    ensures forall i :: 0 <= i < |slots| ==>
      var k := WriteKey(TaskKey(key.thread, key.ns, key.id, slots[i].task), slots[i].index);
      && k in writes
      && Pending(s, writes, key)[i] == PendingWrite(slots[i].task, writes[k].channel, s.loadValue(writes[k].value))
    ensures forall k :: k in writes && k.task.thread == key.thread && k.task.ns == key.ns && k.task.id == key.id ==>
      Slot(k.task.task, k.index) in slots
    ensures forall i, j :: 0 <= i < j < |slots| ==>
      if slots[i].task == slots[j].task then slots[i].index < slots[j].index else TextLe(slots[i].task, slots[j].task)
  {
    SlotOrder();
    slots := Enumerate(Slots(writes, key), SlotLe);
    hide Enumerate;
    forall k | k in writes && k.task.thread == key.thread && k.task.ns == key.ns && k.task.id == key.id
      ensures Slot(k.task.task, k.index) in slots
    {
      assert k.task == TaskKey(key.thread, key.ns, key.id, k.task.task);
      assert Slot(k.task.task, k.index) in Slots(writes, key);
    }
    forall i | 0 <= i < |slots| ensures SlotKey(key, slots[i]) in writes { assert slots[i] in Slots(writes, key); }
  }
}
