/** The Windows agent's persisted task ledger: an in-memory task map, an
    idempotency index and the snapshot file they are rebuilt from. */
module TaskLedger {
  import opened Wrappers
  import opened Text
  import opened StableJson

  datatype Status = Received | Acked | Running | Recovering | ResultPending | Succeeded | Failed | Rejected

  predicate Terminal(status: Status) {
    status == Succeeded || status == Failed || status == Rejected
  }

  datatype TaskResult = TaskResult(success: bool, errorCode: string, errorMessage: string, detail: Value)

  datatype Record = Record(
    taskId: string, key: string, runId: string, stepId: string, payloadHash: string,
    status: Status, leaseId: string, result: Option<TaskResult>, reported: bool, note: string)

  datatype Envelope = Envelope(id: string, work: TaskWork)

  /** What a snapshot write does: it replaces the file and says so, replaces the
      file and still reports an error, or leaves the old file in place. */
  datatype WriteOutcome = Saved | SavedThenError | Lost

  datatype Ledger = Ledger(tasks: map<string, Record>, index: map<string, string>, file: seq<Record>)

  const EMPTY := Ledger(map[], map[], [])

  // ------------------------------------------------- snapshot and reload

  /** The records of the task map in ascending task id order. */
  function Snapshot(tasks: map<string, Record>): seq<Record> {
    var ids := SortedKeys(tasks.Keys);
    seq(|ids|, i requires 0 <= i < |ids| => tasks[ids[i]])
  }

  function Persist(l: Ledger, w: WriteOutcome): Ledger {
    if w == Lost then l else l.(file := Snapshot(l.tasks))
  }

  const RESTART_NOTE := "agent restart detected"

  /** A restart turns unfinished work into recovering work. */
  function RecoverRecord(r: Record): Record {
    if !Terminal(r.status) && r.status != ResultPending
    then r.(status := Recovering, note := RESTART_NOTE) else r
  }

  function LoadTasks(file: seq<Record>): map<string, Record> {
    if file == [] then map[]
    else var r := file[|file| - 1]; LoadTasks(file[..|file| - 1])[r.taskId := RecoverRecord(r)]
  }

  function LoadIndex(file: seq<Record>): map<string, string> {
    if file == [] then map[]
    else var r := file[|file| - 1]; LoadIndex(file[..|file| - 1])[r.key := r.taskId]
  }

  function Reload(file: seq<Record>): Ledger {
    Ledger(LoadTasks(file), LoadIndex(file), file)
  }

  /** The task map a snapshot stands for. */
  ghost function OnDisk(file: seq<Record>): map<string, Record> {
    if file == [] then map[]
    else var r := file[|file| - 1]; OnDisk(file[..|file| - 1])[r.taskId := r]
  }

  // ------------------------------------------------------ ledger invariant

  /** The index and the task map are exact inverses of one another. */
  ghost predicate IndexAgrees(tasks: map<string, Record>, index: map<string, string>) {
    && (forall id :: id in tasks ==> tasks[id].taskId == id && tasks[id].key in index && index[tasks[id].key] == id)
    && (forall k :: k in index ==> index[k] in tasks && tasks[index[k]].key == k)
  }

  /** Every record is filed under its own id and no two share a key. */
  ghost predicate WellKeyed(tasks: map<string, Record>) {
    && (forall id :: id in tasks ==> tasks[id].taskId == id)
    && (forall a, b :: a in tasks && b in tasks && tasks[a].key == tasks[b].key ==> a == b)
  }

  /** A snapshot lists no task id and no key twice. */
  ghost predicate FileOk(file: seq<Record>) {
    forall i, j :: 0 <= i < j < |file| ==> file[i].taskId != file[j].taskId && file[i].key != file[j].key
  }

  ghost predicate LedgerOk(l: Ledger) {
    IndexAgrees(l.tasks, l.index) && FileOk(l.file)
  }

  lemma {:induction false} LoadedAt(file: seq<Record>, i: nat)
    requires FileOk(file) && i < |file|
    ensures file[i].taskId in OnDisk(file) && OnDisk(file)[file[i].taskId] == file[i]
    ensures file[i].taskId in LoadTasks(file) && LoadTasks(file)[file[i].taskId] == RecoverRecord(file[i])
    ensures file[i].key in LoadIndex(file) && LoadIndex(file)[file[i].key] == file[i].taskId
  {
    if i < |file| - 1 {
      LoadedAt(file[..|file| - 1], i);
    }
  }

  lemma {:induction false} TaskIsListed(file: seq<Record>, id: string) returns (i: nat)
    requires id in OnDisk(file) || id in LoadTasks(file)
    ensures i < |file| && file[i].taskId == id
  {
    i := |file| - 1;
    if file[i].taskId != id {
      i := TaskIsListed(file[..|file| - 1], id);
    }
  }

  lemma {:induction false} KeyIsListed(file: seq<Record>, k: string) returns (i: nat)
    requires k in LoadIndex(file)
    ensures i < |file| && file[i].key == k
  {
    i := |file| - 1;
    if file[i].key != k {
      i := KeyIsListed(file[..|file| - 1], k);
    }
  }

  lemma SnapshotAt(tasks: map<string, Record>, id: string) returns (i: nat)
    requires id in tasks
    ensures i < |Snapshot(tasks)| && Snapshot(tasks)[i] == tasks[id]
  {
    var ids := SortedKeys(tasks.Keys);
    assert id in ids;
    i :| 0 <= i < |ids| && ids[i] == id;
  }

  lemma SnapshotOk(tasks: map<string, Record>)
    requires WellKeyed(tasks)
    ensures FileOk(Snapshot(tasks))
    ensures forall i :: 0 <= i < |Snapshot(tasks)| ==> var r := Snapshot(tasks)[i]; r.taskId in tasks && tasks[r.taskId] == r
  {
    var ids, file := SortedKeys(tasks.Keys), Snapshot(tasks);
    forall i | 0 <= i < |file| ensures file[i].taskId == ids[i] && ids[i] in tasks && tasks[ids[i]] == file[i] {
      assert ids[i] in ids;
    }
  }

  /** Writing a snapshot and reading it back loses nothing. */
  lemma SnapshotRoundTrip(tasks: map<string, Record>)
    requires WellKeyed(tasks)
    ensures FileOk(Snapshot(tasks)) && OnDisk(Snapshot(tasks)) == tasks
  {
    var file := Snapshot(tasks);
    SnapshotOk(tasks);
    hide *;
    forall id | id in tasks ensures id in OnDisk(file) && OnDisk(file)[id] == tasks[id] {
      var i := SnapshotAt(tasks, id);
      LoadedAt(file, i);
      assert tasks[id].taskId == id;
    }
    forall id | id in OnDisk(file) ensures id in tasks {
      var i := TaskIsListed(file, id);
    }
  }

  /** Rebuilding from a good snapshot gives its tasks, marked as recovering where
      unfinished, and an index that is again their exact inverse. */
  lemma ReloadExact(file: seq<Record>)
    requires FileOk(file)
    ensures LedgerOk(Reload(file))
    ensures LoadTasks(file) == map id | id in OnDisk(file) :: RecoverRecord(OnDisk(file)[id])
  {
    var disk, tasks, index := OnDisk(file), LoadTasks(file), LoadIndex(file);
    forall id | id in disk || id in tasks
      ensures id in disk && id in tasks && tasks[id] == RecoverRecord(disk[id])
           && tasks[id].taskId == id && tasks[id].key in index && index[tasks[id].key] == id
    {
      var i := TaskIsListed(file, id);
      LoadedAt(file, i);
    }
    forall k | k in index ensures index[k] in tasks && tasks[index[k]].key == k {
      var i := KeyIsListed(file, k);
      LoadedAt(file, i);
    }
  }

  lemma IndexAgreesKeys(tasks: map<string, Record>, index: map<string, string>)
    requires IndexAgrees(tasks, index)
    ensures WellKeyed(tasks)
  {
  }

  lemma IndexFound(l: Ledger)
    requires IndexAgrees(l.tasks, l.index)
    ensures forall k :: k in l.index ==> l.index[k] in l.tasks
  {
  }

  /** A write keeps the ledger good, and puts the task map on disk unless lost. */
  lemma PersistExact(l: Ledger, w: WriteOutcome)
    requires LedgerOk(l)
    ensures LedgerOk(Persist(l, w))
    ensures OnDisk(Persist(l, w).file) == if w == Lost then OnDisk(l.file) else l.tasks
  {
    IndexAgreesKeys(l.tasks, l.index);
    SnapshotRoundTrip(l.tasks);
  }

  // ---------------------------------------------------------- operations

  datatype AcceptOutcome = Accepted(record: Record) | KeyConflict | AcceptWriteFailed

  function NewRecord(hash: string -> string, env: Envelope): Record {
    Record(env.id, env.work.key, env.work.runId, env.work.stepId, Fingerprint(hash, env.work),
           Received, "", None, false, "")
  }

  /** Known id first, then known key, then a new record. */
  function Accept(hash: string -> string, l: Ledger, env: Envelope, w: WriteOutcome): (Ledger, AcceptOutcome)
    requires forall k :: k in l.index ==> l.index[k] in l.tasks
  {
    if env.id in l.tasks then (l, Accepted(l.tasks[env.id]))
    else if env.work.key in l.index then
      var existing := l.tasks[l.index[env.work.key]];
      (l, if existing.payloadHash != Fingerprint(hash, env.work) then KeyConflict else Accepted(existing))
    else
      var r := NewRecord(hash, env);
      var grown := l.(tasks := l.tasks[env.id := r], index := l.index[env.work.key := env.id]);
      (Persist(grown, w), if w == Saved then Accepted(r) else AcceptWriteFailed)
  }

  function Patch(l: Ledger, id: string, r: Record, w: WriteOutcome): Ledger {
    Persist(l.(tasks := l.tasks[id := r]), w)
  }

  function AckedRecord(r: Record, lease: string): Record {
    r.(status := Acked, leaseId := lease, note := "")
  }

  function RunningRecord(r: Record): Record {
    r.(status := Running, note := "")
  }

  function StagedRecord(r: Record, lease: string, result: TaskResult, note: string): Record {
    r.(status := ResultPending, reported := false, result := Some(result), leaseId := lease, note := note)
  }

  function ReportedRecord(r: Record, success: bool): Record {
    r.(reported := true, note := "", status := if success then Succeeded else Failed)
  }

  function Discard(l: Ledger, id: string, w: WriteOutcome): Ledger {
    if id !in l.tasks then l
    else
      var key := l.tasks[id].key;
      var index := if key in l.index && l.index[key] == id then l.index - {key} else l.index;
      Persist(l.(tasks := l.tasks - {id}, index := index), w)
  }

  lemma AcceptKeeps(hash: string -> string, l: Ledger, env: Envelope, w: WriteOutcome)
    requires LedgerOk(l)
    ensures LedgerOk(Accept(hash, l, env, w).0)
  {
    if env.id !in l.tasks && env.work.key !in l.index {
      var r := NewRecord(hash, env);
      PersistExact(l.(tasks := l.tasks[env.id := r], index := l.index[env.work.key := env.id]), w);
    }
  }

  lemma PatchKeeps(l: Ledger, id: string, r: Record, w: WriteOutcome)
    requires LedgerOk(l) && id in l.tasks && r.taskId == id && r.key == l.tasks[id].key
    ensures LedgerOk(Patch(l, id, r, w))
    ensures OnDisk(Patch(l, id, r, w).file) == if w == Lost then OnDisk(l.file) else l.tasks[id := r]
  {
    PersistExact(l.(tasks := l.tasks[id := r]), w);
  }

  lemma DiscardKeeps(l: Ledger, id: string, w: WriteOutcome)
    requires LedgerOk(l) && id in l.tasks
    ensures LedgerOk(Discard(l, id, w))
    ensures OnDisk(Discard(l, id, w).file) == if w == Lost then OnDisk(l.file) else l.tasks - {id}
  {
    var key := l.tasks[id].key;
    PersistExact(l.(tasks := l.tasks - {id}, index := l.index - {key}), w);
  }

  /** A reused key is refused exactly when the work differs in some field. */
  lemma KeyConflictExact(hash: string -> string, l: Ledger, first: TaskWork, env: Envelope, w: WriteOutcome)
    requires CollisionFree(hash) && LedgerOk(l)
    requires WellFormed(Obj(first.payload)) && WellFormed(Obj(env.work.payload))
    requires env.id !in l.tasks && env.work.key in l.index
    requires l.tasks[l.index[env.work.key]].payloadHash == Fingerprint(hash, first)
    ensures Accept(hash, l, env, w).1 == KeyConflict <==> first != env.work
    ensures Accept(hash, l, env, w).0 == l
  {
    FingerprintExact(hash, first, env.work);
  }

  /** An envelope with a new id and key opens a fresh record in memory, whatever
      the write does, and is taken on exactly when the write is saved. */
  lemma NewTaskAccepted(hash: string -> string, l: Ledger, env: Envelope, w: WriteOutcome)
    requires LedgerOk(l) && env.id !in l.tasks && env.work.key !in l.index
    ensures var (l', outcome) := Accept(hash, l, env, w);
            && l'.tasks.Keys == l.tasks.Keys + {env.id} && l'.tasks - {env.id} == l.tasks && l'.index == l.index[env.work.key := env.id]
            && (outcome.Accepted? <==> w == Saved) && (outcome.Accepted? ==> outcome.record == l'.tasks[env.id]) && outcome != KeyConflict
            && var r := l'.tasks[env.id];
               && r.taskId == env.id && r.key == env.work.key && r.runId == env.work.runId && r.stepId == env.work.stepId
               && r.payloadHash == hash(Print(WorkValue(env.work)))
               && r.status == Received && r.leaseId == "" && r.result.None? && !r.reported
  {
    hide Print, WorkValue, Snapshot, OnDisk;
  }

  /** After an envelope was taken in, another id under the same key is refused
      exactly when its work differs, and is answered with the first record else. */
  lemma SecondUnderKey(hash: string -> string, l: Ledger, env: Envelope, w: WriteOutcome, again: Envelope, w': WriteOutcome)
    requires CollisionFree(hash) && LedgerOk(l) && WellFormed(Obj(env.work.payload)) && WellFormed(Obj(again.work.payload))
    requires env.id !in l.tasks && env.work.key !in l.index
    requires again.id !in l.tasks && again.id != env.id && again.work.key == env.work.key
    ensures LedgerOk(Accept(hash, l, env, w).0)
    ensures var first := Accept(hash, l, env, w).0; var (after, outcome) := Accept(hash, first, again, w');
            && after == first && (outcome == KeyConflict <==> again.work != env.work)
            && (outcome != KeyConflict ==> outcome == Accepted(first.tasks[env.id]))
  {
    hide WellFormed, Fingerprint, CollisionFree, OnDisk, FileOk, Snapshot;
    AcceptKeeps(hash, l, env, w);
    KeyConflictExact(hash, Accept(hash, l, env, w).0, env.work, again, w');
  }

  // ---------------------------------------------------------- the class

  class LocalTaskLedger {
    var tasks: map<string, Record>
    var index: map<string, string>
    var file: seq<Record>

    ghost function View(): Ledger
      reads this
    {
      Ledger(tasks, index, file)
    }

    /** loadLocalTaskLedger: rebuild both maps from the snapshot records. */
    constructor (snapshot: seq<Record>)
      ensures View() == Reload(snapshot)
    {
      var loaded: map<string, Record> := map[];
      var keys: map<string, string> := map[];
      for i := 0 to |snapshot|
        invariant loaded == LoadTasks(snapshot[..i]) && keys == LoadIndex(snapshot[..i])
      {
        var task := snapshot[i];
        assert snapshot[..i + 1][..i] == snapshot[..i];
        if !Terminal(task.status) && task.status != ResultPending {
          task := task.(status := Recovering, note := RESTART_NOTE);
        }
        loaded := loaded[task.taskId := task];
        keys := keys[task.key := task.taskId];
      }
      assert snapshot[..|snapshot|] == snapshot;
      tasks, index, file := loaded, keys, snapshot;
    }

    method WriteSnapshot(w: WriteOutcome) returns (ok: bool)
      modifies this
      ensures View() == Persist(old(View()), w) && ok == (w == Saved)
    {
      if w != Lost { file := Snapshot(tasks); }
      ok := w == Saved;
    }

    method AcceptTask(hash: string -> string, env: Envelope, w: WriteOutcome) returns (outcome: AcceptOutcome)
      requires LedgerOk(View())
      modifies this
      ensures LedgerOk(View())
      ensures (View(), outcome) == Accept(hash, old(View()), env, w)
    {
      AcceptKeeps(hash, View(), env, w);
      var fingerprint := Fingerprint(hash, env.work);
      if env.id in tasks {
        return Accepted(tasks[env.id]);
      }
      if env.work.key in index {
        var existing := tasks[index[env.work.key]];
        if existing.payloadHash != fingerprint { return KeyConflict; }
        return Accepted(existing);
      }
      var r := Record(env.id, env.work.key, env.work.runId, env.work.stepId, fingerprint, Received, "", None, false, "");
      tasks := tasks[env.id := r];
      index := index[env.work.key := env.id];
      var ok := WriteSnapshot(w);
      outcome := if ok then Accepted(r) else AcceptWriteFailed;
    }

    /** patch: memory changes first, then the snapshot is written. */
    method PatchTask(id: string, r: Record, w: WriteOutcome) returns (ok: bool)
      requires LedgerOk(View()) && id in tasks && r.taskId == id && r.key == tasks[id].key
      modifies this
      ensures LedgerOk(View()) && View() == Patch(old(View()), id, r, w) && ok == (w == Saved)
    {
      PatchKeeps(View(), id, r, w);
      tasks := tasks[id := r];
      ok := WriteSnapshot(w);
    }

    method MarkAcked(id: string, lease: string, w: WriteOutcome) returns (ok: bool)
      requires LedgerOk(View())
      modifies this
      ensures LedgerOk(View()) && ok == (id in old(tasks) && w == Saved)
      ensures View() == if id in old(tasks) then Patch(old(View()), id, AckedRecord(old(tasks)[id], lease), w) else old(View())
    {
      if id !in tasks { return false; }
      ok := PatchTask(id, AckedRecord(tasks[id], lease), w);
    }

    method MarkRunning(id: string, w: WriteOutcome) returns (ok: bool)
      requires LedgerOk(View())
      modifies this
      ensures LedgerOk(View()) && ok == (id in old(tasks) && w == Saved)
      ensures View() == if id in old(tasks) then Patch(old(View()), id, RunningRecord(old(tasks)[id]), w) else old(View())
    {
      if id !in tasks { return false; }
      ok := PatchTask(id, RunningRecord(tasks[id]), w);
    }

    method StageResult(id: string, lease: string, result: TaskResult, note: string, w: WriteOutcome) returns (ok: bool)
      requires LedgerOk(View())
      modifies this
      ensures LedgerOk(View()) && ok == (id in old(tasks) && w == Saved)
      ensures View() == if id in old(tasks) then Patch(old(View()), id, StagedRecord(old(tasks)[id], lease, result, note), w) else old(View())
    {
      if id !in tasks { return false; }
      ok := PatchTask(id, StagedRecord(tasks[id], lease, result, note), w);
    }

    method MarkReported(id: string, success: bool, w: WriteOutcome) returns (ok: bool)
      requires LedgerOk(View())
      modifies this
      ensures LedgerOk(View()) && ok == (id in old(tasks) && w == Saved)
      ensures View() == if id in old(tasks) then Patch(old(View()), id, ReportedRecord(old(tasks)[id], success), w) else old(View())
    {
      if id !in tasks { return false; }
      ok := PatchTask(id, ReportedRecord(tasks[id], success), w);
    }

    method DiscardTask(id: string, w: WriteOutcome) returns (ok: bool)
      requires LedgerOk(View())
      modifies this
      ensures LedgerOk(View()) && View() == Discard(old(View()), id, w)
      ensures ok == (id !in old(tasks) || w == Saved)
    {
      if id !in tasks { return true; }
      DiscardKeeps(View(), id, w);
      var key := tasks[id].key;
      tasks := tasks - {id};
      if key in index && index[key] == id { index := index - {key}; }
      ok := WriteSnapshot(w);
    }
  }
}
