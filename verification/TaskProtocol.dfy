/** The task protocol of the Windows agent as a machine of single effects. A
    crash may come between any two effects; every snapshot write, remote reply
    and execution result is chosen by the environment. */
module TaskProtocol {
  import opened Wrappers
  import opened StableJson
  import opened TaskLedger

  // --------------------------------------------------------------- machine

  datatype Request = Request(taskId: string, leaseId: string, result: TaskResult)

  function RequestOf(r: Record): Request
    requires r.result.Some?
  {
    Request(r.taskId, r.leaseId, r.result.value)
  }

  /** What an observer of the agent sees. An execution carries the key its record
      is filed under and the key of the envelope that triggered it. */
  datatype Observation =
    | Executed(id: string, key: string, envKey: string)
    | Submitted(request: Request)
    | Discarded(id: string, key: string)

  datatype SubmitError = Transport | Refused(statusCode: int, errorCode: string, reason: string)

  /** isDiscardableTaskResultError. */
  predicate IsDiscardable(e: SubmitError) {
    e.Refused? && (e.statusCode == 404 || e.statusCode == 410 ||
                   (e.errorCode == "RESOURCE_VERSION_CONFLICT" && e.reason == "AGENT_V2_LATE_RECEIPT_REJECTED"))
  }

  datatype AckReply = AckFailed | OtherLease | Granted

  datatype Event =
    | Deliver(env: Envelope, w: WriteOutcome)
    | Ack(clock: string, ack: AckReply)
    | Write(w: WriteOutcome)
    | Begin
    | Finish(result: TaskResult)
    | Submit(reply: Option<SubmitError>)
    | Recover(id: string)
    | Crash

  /** The effect the agent performs next. */
  datatype Control =
    | Idle
    | Acking(env: Envelope)
    | MarkingAcked(env: Envelope, lease: string)
    | MarkingRunning(env: Envelope, lease: string)
    | Ready(env: Envelope, lease: string)
    | Executing(env: Envelope, lease: string)
    | Staging(id: string, lease: string, result: TaskResult, note: string)
    | Submitting(record: Record)
    | Discarding(record: Record)
    | Reporting(record: Record)

  datatype State = State(ledger: Ledger, pc: Control, log: seq<Observation>)

  const INIT := State(EMPTY, Idle, [])

  /** newLeaseID; `clock` stands for the printed nanoseconds. */
  function NewLeaseId(id: string, clock: string): (lease: string)
    ensures lease != ""
  {
    "lease_" + (seq(|id|, i requires 0 <= i < |id| => if id[i] == '-' then '_' else id[i])) + "_" + clock
  }

  /** Two leases for one task are different whenever the clock readings are. */
  lemma LeaseDistinct(id: string, clock: string, clock': string)
    requires NewLeaseId(id, clock) == NewLeaseId(id, clock')
    ensures clock == clock'
  {
    var n := |"lease_"| + |id| + 1;
    assert NewLeaseId(id, clock)[n..] == clock && NewLeaseId(id, clock')[n..] == clock';
  }

  function RecoveryIncomplete(note: string, id: string): TaskResult {
    TaskResult(false, "RECOVERY_INCOMPLETE",
               "Agent restart detected before task completion; automatic replay is not safe",
               Obj(map["recoveryNote" := Str(note), "taskId" := Str(id)]))
  }

  /** What processTask does next with the record that accept returned. */
  function Dispatch(env: Envelope, r: Record): Control {
    if r.result.Some? && !r.reported then Submitting(r)
    else if Terminal(r.status) && r.reported then Idle
    else if r.status == Recovering && r.leaseId != "" then
      Staging(env.id, r.leaseId, RecoveryIncomplete(r.note, env.id), RECOVERY_NOTE)
    else Acking(env)
  }

  const RECOVERY_NOTE := "recovery failure staged"
  const STAGE_NOTE := "result staged before control plane submit"

  /** One effect, or None where the event does not fit the control point. */
  function Step(hash: string -> string, s: State, e: Event): Option<State>
    requires forall k :: k in s.ledger.index ==> s.ledger.index[k] in s.ledger.tasks
  {
    if e.Crash? then Some(State(Reload(s.ledger.file), Idle, s.log))
    else if e.Write? then (if Writing(s.pc) then Some(StepWrite(s, e.w)) else None)
    else match s.pc
    case Idle => StepIdle(hash, s, e)
    case Acking(env) =>
      if !e.Ack? then None
      else Some(s.(pc := if e.ack == Granted then MarkingAcked(env, NewLeaseId(env.id, e.clock)) else Idle))
    case Ready(env, lease) =>
      if !e.Begin? then None
      else if env.id !in s.ledger.tasks then None
      else Some(s.(pc := Executing(env, lease), log := s.log + [Executed(env.id, s.ledger.tasks[env.id].key, env.work.key)]))
    case Executing(env, lease) =>
      if !e.Finish? then None else Some(s.(pc := Staging(env.id, lease, e.result, STAGE_NOTE)))
    case Submitting(r) =>
      if !e.Submit? || r.result.None? then None
      else
        var next := if e.reply.None? then Reporting(r) else if IsDiscardable(e.reply.value) then Discarding(r) else Idle;
        Some(s.(pc := next, log := s.log + [Submitted(RequestOf(r))]))
    case _ => None
  }

  predicate Writing(pc: Control) {
    pc.MarkingAcked? || pc.MarkingRunning? || pc.Staging? || pc.Discarding? || pc.Reporting?
  }

  function StepIdle(hash: string -> string, s: State, e: Event): Option<State>
    requires forall k :: k in s.ledger.index ==> s.ledger.index[k] in s.ledger.tasks
  {
    if e.Deliver? then
      var (l, outcome) := Accept(hash, s.ledger, e.env, e.w);
      Some(s.(ledger := l, pc := if outcome.Accepted? then Dispatch(e.env, outcome.record) else Idle))
    else if e.Recover? then
      if e.id in s.ledger.tasks && s.ledger.tasks[e.id].result.Some? && !s.ledger.tasks[e.id].reported
      then Some(s.(pc := Submitting(s.ledger.tasks[e.id]))) else None
    else None
  }

  /** The ledger writes. A missing task is an error and ends the round. */
  function StepWrite(s: State, w: WriteOutcome): State {
    var l := s.ledger;
    match s.pc
    case MarkingAcked(env, lease) =>
      if env.id !in l.tasks then s.(pc := Idle)
      else s.(ledger := Patch(l, env.id, AckedRecord(l.tasks[env.id], lease), w),
              pc := if w == Saved then MarkingRunning(env, lease) else Idle)
    case MarkingRunning(env, lease) =>
      if env.id !in l.tasks then s.(pc := Idle)
      else s.(ledger := Patch(l, env.id, RunningRecord(l.tasks[env.id]), w),
              pc := if w == Saved then Ready(env, lease) else Idle)
    case Staging(id, lease, result, note) =>
      if id !in l.tasks then s.(pc := Idle)
      else
        var r := StagedRecord(l.tasks[id], lease, result, note);
        s.(ledger := Patch(l, id, r, w), pc := if w == Saved then Submitting(r) else Idle)
    case Discarding(r) =>
      s.(ledger := Discard(l, r.taskId, w), pc := Idle, log := s.log + [Discarded(r.taskId, r.key)])
    case Reporting(r) =>
      if r.taskId !in l.tasks || r.result.None? then s.(pc := Idle)
      else s.(ledger := Patch(l, r.taskId, ReportedRecord(l.tasks[r.taskId], r.result.value.success), w), pc := Idle)
    case _ => s
  }

  // --------------------------------------------------------- observations

  /** Executions of a task id since it was last discarded. */
  function Executions(log: seq<Observation>, id: string): nat {
    if log == [] then 0
    else
      var last := log[|log| - 1];
      if last.Discarded? && last.id == id then 0
      else Executions(log[..|log| - 1], id) + (if last.Executed? && last.id == id then 1 else 0)
  }

  /** Executions under a filed key since a record with that key was last discarded. */
  function KeyExecutions(log: seq<Observation>, key: string): nat {
    if log == [] then 0
    else
      var last := log[|log| - 1];
      if last.Discarded? && last.key == key then 0
      else KeyExecutions(log[..|log| - 1], key) + (if last.Executed? && last.key == key then 1 else 0)
  }

  /** Results submitted for a task id since it was last discarded. */
  function Submissions(log: seq<Observation>, id: string): set<Request> {
    if log == [] then {}
    else
      var last := log[|log| - 1];
      if last.Discarded? && last.id == id then {}
      else Submissions(log[..|log| - 1], id) + (if last.Submitted? && last.request.taskId == id then {last.request} else {})
  }

  lemma LogStep(log: seq<Observation>, o: Observation, id: string, key: string)
    ensures Executions(log + [o], id) ==
            if o.Discarded? && o.id == id then 0 else Executions(log, id) + (if o.Executed? && o.id == id then 1 else 0)
    ensures KeyExecutions(log + [o], key) ==
            if o.Discarded? && o.key == key then 0 else KeyExecutions(log, key) + (if o.Executed? && o.key == key then 1 else 0)
    ensures Submissions(log + [o], id) ==
            if o.Discarded? && o.id == id then {}
            else Submissions(log, id) + (if o.Submitted? && o.request.taskId == id then {o.request} else {})
  {
    assert (log + [o])[..|log|] == log;
  }

  // ------------------------------------------------------------ invariant

  /** The state as seen by the proof: the snapshot file read as a task map. */
  ghost function Disk(s: State): map<string, Record> {
    OnDisk(s.ledger.file)
  }

  /** The shapes a record can take in memory or on disk. */
  ghost predicate RecordOk(r: Record) {
    && (r.result.Some? <==> r.status == ResultPending || r.status == Succeeded || r.status == Failed)
    && (r.reported <==> r.status == Succeeded || r.status == Failed)
    && r.status != Rejected
    && (r.status == Succeeded ==> r.result.value.success)
    && (r.status == Failed ==> !r.result.value.success)
  }

  ghost predicate RecordsOk(tasks: map<string, Record>) {
    forall id :: id in tasks ==> RecordOk(tasks[id])
  }

  /** A record that survives a restart as one that never leads to execution. */
  ghost predicate Guarded(r: Record) {
    r.result.Some? || r.leaseId != ""
  }

  /** A record that processTask never takes to an acknowledgement. */
  ghost predicate Blocks(r: Record) {
    r.result.Some? || (r.status == Recovering && r.leaseId != "")
  }

  /** The agent has started or finished executing the id but not staged its result. */
  ghost predicate Busy(pc: Control, id: string) {
    (pc.Executing? && pc.env.id == id) || (pc.Staging? && pc.id == id)
  }

  /** What holds at each control point about the task in hand. */
  ghost predicate ControlOk(tasks: map<string, Record>, disk: map<string, Record>, pc: Control, log: seq<Observation>) {
    match pc
    case Idle => true
    case Acking(env) => env.id in tasks ==> !Blocks(tasks[env.id])
    case MarkingAcked(env, lease) => lease != "" && (env.id in tasks ==> !Blocks(tasks[env.id]))
    case MarkingRunning(env, lease) => lease != "" && env.id in tasks && tasks[env.id].status == Acked && tasks[env.id].leaseId == lease
    case Ready(env, lease) =>
      && env.id in tasks && tasks[env.id].status == Running && tasks[env.id].leaseId == lease && lease != ""
      && env.id in disk && disk[env.id] == tasks[env.id]
    case Executing(env, lease) =>
      && env.id in tasks && tasks[env.id].result.None? && tasks[env.id].status == Running && tasks[env.id].leaseId == lease && lease != ""
      && env.id in disk && disk[env.id] == tasks[env.id]
    case Staging(id, lease, result, note) => id in tasks ==> tasks[id].result.None? && tasks[id].leaseId != ""
    case Submitting(r) => InHand(tasks, r)
    case Discarding(r) => InHand(tasks, r)
    case Reporting(r) => InHand(tasks, r) && RequestOf(r) in Submissions(log, r.taskId)
  }

  ghost predicate InHand(tasks: map<string, Record>, r: Record) {
    r.taskId in tasks && tasks[r.taskId] == r && r.result.Some? && !r.reported
  }

  /** An executed id stays guarded in memory and on disk, under the same key. */
  ghost predicate ExecutedOk(tasks: map<string, Record>, disk: map<string, Record>, pc: Control, log: seq<Observation>, id: string) {
    && Executions(log, id) <= 1
    && (Executions(log, id) == 1 ==>
          && id in tasks && Guarded(tasks[id]) && (Blocks(tasks[id]) || Busy(pc, id))
          && id in disk && Guarded(disk[id]) && disk[id].key == tasks[id].key)
  }

  ghost predicate KeyOk(index: map<string, string>, log: seq<Observation>, key: string) {
    && KeyExecutions(log, key) <= 1
    && (KeyExecutions(log, key) == 1 ==> key in index && Executions(log, index[key]) == 1)
  }

  /** A reported record was submitted, and disk is never ahead of memory. */
  ghost predicate ReportedOk(tasks: map<string, Record>, disk: map<string, Record>, log: seq<Observation>, id: string) {
    && (id in tasks && tasks[id].reported && tasks[id].result.Some? ==> RequestOf(tasks[id]) in Submissions(log, id))
    && (id in disk && disk[id].reported && disk[id].result.Some? ==>
          RequestOf(disk[id]) in Submissions(log, id) && id in tasks && tasks[id].reported)
  }

  /** Everything in the invariant but the control point. */
  ghost predicate DataOk(tasks: map<string, Record>, index: map<string, string>, disk: map<string, Record>, pc: Control, log: seq<Observation>) {
    && RecordsOk(tasks) && RecordsOk(disk)
    && (forall id :: ExecutedOk(tasks, disk, pc, log, id))
    && (forall key :: KeyOk(index, log, key))
    && (forall id :: ReportedOk(tasks, disk, log, id))
  }

  ghost predicate Inv(s: State) {
    && LedgerOk(s.ledger)
    && DataOk(s.ledger.tasks, s.ledger.index, Disk(s), s.pc, s.log)
    && ControlOk(s.ledger.tasks, Disk(s), s.pc, s.log)
  }

  // ------------------------------------------------- every step keeps it

  /** One record changes in memory, and the whole task map may reach the disk. */
  lemma PatchData(tasks: map<string, Record>, index: map<string, string>, disk: map<string, Record>, pc: Control,
                  log: seq<Observation>, id: string, r: Record, disk': map<string, Record>, pc': Control)
    requires DataOk(tasks, index, disk, pc, log) && id in tasks && !tasks[id].reported
    requires RecordOk(r) && r.key == tasks[id].key
    requires Executions(log, id) == 1 ==> Blocks(r)
    requires r.reported ==> RequestOf(r) in Submissions(log, id)
    requires forall x :: Busy(pc, x) ==> x == id
    requires disk' == disk || disk' == tasks[id := r]
    ensures DataOk(tasks[id := r], index, disk', pc', log)
  {
    var tasks' := tasks[id := r];
    forall x ensures ExecutedOk(tasks', disk', pc', log, x) {
      assert ExecutedOk(tasks, disk, pc, log, x);
    }
    forall x ensures ReportedOk(tasks', disk', log, x) {
      assert ReportedOk(tasks, disk, log, x);
    }
  }

  /** A restart reads the disk back. */
  lemma CrashData(tasks: map<string, Record>, index: map<string, string>, disk: map<string, Record>, pc: Control,
                  log: seq<Observation>, tasks': map<string, Record>, index': map<string, string>)
    requires DataOk(tasks, index, disk, pc, log) && IndexAgrees(tasks, index) && IndexAgrees(tasks', index')
    requires tasks' == map id | id in disk :: RecoverRecord(disk[id])
    ensures DataOk(tasks', index', disk, Idle, log)
  {
    forall x ensures ExecutedOk(tasks', disk, Idle, log, x) && (x in tasks' ==> RecordOk(tasks'[x])) {
      assert ExecutedOk(tasks, disk, pc, log, x);
    }
    forall x ensures ReportedOk(tasks', disk, log, x) {
      assert ReportedOk(tasks, disk, log, x);
    }
    forall key ensures KeyOk(index', log, key) {
      assert KeyOk(index, log, key);
      if KeyExecutions(log, key) == 1 {
        var id := index[key];
        assert ExecutedOk(tasks, disk, pc, log, id);
        assert tasks[id].key == key && tasks'[id].key == key;
        assert index'[key] == id;
      }
    }
  }

  /** A record under a new id and a new key. */
  lemma GrowData(tasks: map<string, Record>, index: map<string, string>, disk: map<string, Record>,
                 log: seq<Observation>, r: Record, disk': map<string, Record>)
    requires DataOk(tasks, index, disk, Idle, log) && r.taskId !in tasks && r.key !in index
    requires RecordOk(r) && !r.reported
    requires disk' == disk || disk' == tasks[r.taskId := r]
    ensures DataOk(tasks[r.taskId := r], index[r.key := r.taskId], disk', Idle, log)
  {
    var tasks', index' := tasks[r.taskId := r], index[r.key := r.taskId];
    forall x ensures ExecutedOk(tasks', disk', Idle, log, x) {
      assert ExecutedOk(tasks, disk, Idle, log, x);
    }
    forall x ensures ReportedOk(tasks', disk', log, x) {
      assert ReportedOk(tasks, disk, log, x);
    }
    forall key ensures KeyOk(index', log, key) {
      assert KeyOk(index, log, key);
    }
  }

  lemma MoveData(tasks: map<string, Record>, index: map<string, string>, disk: map<string, Record>, pc: Control,
                 log: seq<Observation>, pc': Control)
    requires DataOk(tasks, index, disk, pc, log)
    requires forall id :: Busy(pc, id) && id in tasks ==> Busy(pc', id)
    ensures DataOk(tasks, index, disk, pc', log)
  {
    forall x ensures ExecutedOk(tasks, disk, pc', log, x) {
      assert ExecutedOk(tasks, disk, pc, log, x);
    }
  }

  lemma BeginData(tasks: map<string, Record>, index: map<string, string>, disk: map<string, Record>, pc: Control, log: seq<Observation>)
    requires DataOk(tasks, index, disk, pc, log) && IndexAgrees(tasks, index)
    requires pc.Ready? && ControlOk(tasks, disk, pc, log)
    ensures DataOk(tasks, index, disk, Executing(pc.env, pc.lease), log + [Executed(pc.env.id, tasks[pc.env.id].key, pc.env.work.key)])
  {
    var id := pc.env.id;
    var key := tasks[id].key;
    var o, pc' := Executed(id, key, pc.env.work.key), Executing(pc.env, pc.lease);
    assert ExecutedOk(tasks, disk, pc, log, id) && KeyOk(index, log, key);
    forall x ensures ExecutedOk(tasks, disk, pc', log + [o], x) {
      assert ExecutedOk(tasks, disk, pc, log, x);
      LogStep(log, o, x, key);
    }
    forall x ensures ReportedOk(tasks, disk, log + [o], x) {
      assert ReportedOk(tasks, disk, log, x);
      LogStep(log, o, x, key);
    }
    forall k ensures KeyOk(index, log + [o], k) {
      assert KeyOk(index, log, k);
      LogStep(log, o, if k in index then index[k] else id, k);
    }
  }

  lemma SubmitData(tasks: map<string, Record>, index: map<string, string>, disk: map<string, Record>, pc: Control,
                   log: seq<Observation>, r: Record, pc': Control)
    requires DataOk(tasks, index, disk, pc, log) && pc == Submitting(r) && r.result.Some?
    ensures DataOk(tasks, index, disk, pc', log + [Submitted(RequestOf(r))])
  {
    var o := Submitted(RequestOf(r));
    forall x ensures ExecutedOk(tasks, disk, pc', log + [o], x) {
      assert ExecutedOk(tasks, disk, pc, log, x);
      LogStep(log, o, x, "");
    }
    forall x ensures ReportedOk(tasks, disk, log + [o], x) {
      assert ReportedOk(tasks, disk, log, x);
      LogStep(log, o, x, "");
    }
    forall k ensures KeyOk(index, log + [o], k) {
      assert KeyOk(index, log, k);
      LogStep(log, o, if k in index then index[k] else "", k);
    }
  }

  lemma DiscardData(tasks: map<string, Record>, index: map<string, string>, disk: map<string, Record>, pc: Control,
                    log: seq<Observation>, r: Record, disk': map<string, Record>)
    requires DataOk(tasks, index, disk, pc, log) && IndexAgrees(tasks, index) && pc == Discarding(r) && InHand(tasks, r)
    requires disk' == disk || disk' == tasks - {r.taskId}
    ensures DataOk(tasks - {r.taskId}, index - {r.key}, disk', Idle, log + [Discarded(r.taskId, r.key)])
  {
    var o := Discarded(r.taskId, r.key);
    var tasks', index' := tasks - {r.taskId}, index - {r.key};
    forall x ensures ExecutedOk(tasks', disk', Idle, log + [o], x) {
      assert ExecutedOk(tasks, disk, pc, log, x);
      LogStep(log, o, x, r.key);
    }
    forall x ensures ReportedOk(tasks', disk', log + [o], x) {
      assert ReportedOk(tasks, disk, log, x);
      LogStep(log, o, x, r.key);
    }
    forall k ensures KeyOk(index', log + [o], k) {
      assert KeyOk(index, log, k);
      LogStep(log, o, if k in index then index[k] else "", k);
    }
  }

  /** Accepting alone keeps the invariant, and the record it returns is filed. */
  lemma AcceptInv(hash: string -> string, s: State, env: Envelope, w: WriteOutcome)
    requires Inv(s) && s.pc == Idle
    ensures var (l', outcome) := Accept(hash, s.ledger, env, w);
            && Inv(s.(ledger := l'))
            && (outcome.Accepted? ==>
                  && outcome.record.taskId in l'.tasks && l'.tasks[outcome.record.taskId] == outcome.record
                  && (env.id in l'.tasks ==> l'.tasks[env.id] == outcome.record))
  {
    var l := s.ledger;
    var (l', outcome) := Accept(hash, l, env, w);
    AcceptKeeps(hash, l, env, w);
    if env.id !in l.tasks && env.work.key !in l.index {
      var r := NewRecord(hash, env);
      var grown := l.(tasks := l.tasks[env.id := r], index := l.index[env.work.key := env.id]);
      assert LedgerOk(grown);
      PersistExact(grown, w);
      GrowData(l.tasks, l.index, Disk(s), s.log, r, OnDisk(l'.file));
    }
  }

  lemma DeliverInv(hash: string -> string, s: State, env: Envelope, w: WriteOutcome)
    requires Inv(s) && s.pc == Idle
    ensures Inv(StepIdle(hash, s, Deliver(env, w)).value)
  {
    AcceptInv(hash, s, env, w);
    var (l', outcome) := Accept(hash, s.ledger, env, w);
    hide Accept, OnDisk, DataOk, Dispatch;
    if outcome.Accepted? {
      DispatchOk(l'.tasks, l'.index, OnDisk(l'.file), s.log, env, outcome.record);
    }
  }

  lemma DispatchOk(tasks: map<string, Record>, index: map<string, string>, disk: map<string, Record>, log: seq<Observation>,
                   env: Envelope, r: Record)
    requires DataOk(tasks, index, disk, Idle, log)
    requires r.taskId in tasks && tasks[r.taskId] == r && (env.id in tasks ==> tasks[env.id] == r)
    ensures DataOk(tasks, index, disk, Dispatch(env, r), log) && ControlOk(tasks, disk, Dispatch(env, r), log)
  {
    assert RecordOk(r);
    MoveData(tasks, index, disk, Idle, log, Dispatch(env, r));
  }

  lemma PatchInv(s: State, id: string, r: Record, w: WriteOutcome, pc: Control)
    requires Inv(s) && id in s.ledger.tasks && !s.ledger.tasks[id].reported
    requires RecordOk(r) && r.taskId == id && r.key == s.ledger.tasks[id].key
    requires Executions(s.log, id) == 1 ==> Blocks(r)
    requires r.reported ==> RequestOf(r) in Submissions(s.log, id)
    requires forall x :: Busy(s.pc, x) ==> x == id
    requires ControlOk(s.ledger.tasks[id := r], if w == Lost then Disk(s) else s.ledger.tasks[id := r], pc, s.log)
    ensures Inv(s.(ledger := Patch(s.ledger, id, r, w), pc := pc))
  {
    var l' := Patch(s.ledger, id, r, w);
    PatchKeeps(s.ledger, id, r, w);
    PatchData(s.ledger.tasks, s.ledger.index, Disk(s), s.pc, s.log, id, r, OnDisk(l'.file), pc);
  }

  lemma WriteInv(s: State, w: WriteOutcome)
    requires Inv(s)
    ensures Inv(StepWrite(s, w))
  {
    hide Inv, OnDisk, Snapshot, Executions, KeyExecutions, Submissions, Persist;
    var l, pc' := s.ledger, StepWrite(s, w).pc;
    InvControl(s);
    match s.pc
    case MarkingAcked(env, lease) =>
      if env.id in l.tasks {
        InvRecord(s, env.id);
        PatchInv(s, env.id, AckedRecord(l.tasks[env.id], lease), w, pc');
      } else {
        MoveInv(s, Idle);
      }
    case MarkingRunning(env, lease) =>
      InvRecord(s, env.id);
      PatchInv(s, env.id, RunningRecord(l.tasks[env.id]), w, pc');
    case Staging(id, lease, result, note) =>
      if id in l.tasks {
        InvRecord(s, id);
        PatchInv(s, id, StagedRecord(l.tasks[id], lease, result, note), w, pc');
      } else {
        MoveInv(s, Idle);
      }
    case Discarding(r) => DropInv(s, w);
    case Reporting(r) =>
      InvRecord(s, r.taskId);
      PatchInv(s, r.taskId, ReportedRecord(r, r.result.value.success), w, Idle);
    case _ =>
  }

  lemma DropInv(s: State, w: WriteOutcome)
    requires Inv(s) && s.pc.Discarding?
    ensures Inv(StepWrite(s, w))
  {
    hide OnDisk, Snapshot, Executions, KeyExecutions, Submissions, FileOk;
    var l, r := s.ledger, s.pc.record;
    DiscardKeeps(l, r.taskId, w);
    DiscardData(l.tasks, l.index, Disk(s), s.pc, s.log, r, OnDisk(Discard(l, r.taskId, w).file));
  }

  lemma CrashInv(hash: string -> string, s: State)
    requires Inv(s)
    ensures Inv(Step(hash, s, Crash).value)
  {
    var l, l' := s.ledger, Reload(s.ledger.file);
    ReloadExact(l.file);
    CrashData(l.tasks, l.index, Disk(s), s.pc, s.log, l'.tasks, l'.index);
  }

  lemma MoveInv(s: State, pc: Control)
    requires Inv(s) && ControlOk(s.ledger.tasks, Disk(s), pc, s.log)
    requires forall id :: Busy(s.pc, id) && id in s.ledger.tasks ==> Busy(pc, id)
    ensures Inv(s.(pc := pc))
  {
    MoveData(s.ledger.tasks, s.ledger.index, Disk(s), s.pc, s.log, pc);
  }

  lemma BeginInv(hash: string -> string, s: State)
    requires Inv(s) && s.pc.Ready?
    ensures Inv(Step(hash, s, Begin).value)
  {
    assert RecordOk(s.ledger.tasks[s.pc.env.id]);
    BeginData(s.ledger.tasks, s.ledger.index, Disk(s), s.pc, s.log);
  }

  lemma SubmitInv(hash: string -> string, s: State, reply: Option<SubmitError>)
    requires Inv(s) && s.pc.Submitting?
    ensures Inv(Step(hash, s, Submit(reply)).value)
  {
    var r, s' := s.pc.record, Step(hash, s, Submit(reply)).value;
    SubmitData(s.ledger.tasks, s.ledger.index, Disk(s), s.pc, s.log, r, s'.pc);
    LogStep(s.log, Submitted(RequestOf(r)), r.taskId, "");
  }

  /** Every effect, in every order, keeps the invariant. */
  lemma StepInv(hash: string -> string, s: State, e: Event)
    requires Inv(s) && Step(hash, s, e).Some?
    ensures Inv(Step(hash, s, e).value)
  {
    hide DataOk, LedgerOk, OnDisk, StepWrite, Executions, Submissions, Accept;
    if e.Crash? {
      CrashInv(hash, s);
    } else if e.Write? {
      WriteInv(s, e.w);
    } else if s.pc.Idle? && e.Deliver? {
      DeliverInv(hash, s, e.env, e.w);
    } else if s.pc.Ready? {
      BeginInv(hash, s);
    } else if s.pc.Submitting? {
      SubmitInv(hash, s, e.reply);
    } else {
      assert IndexAgrees(s.ledger.tasks, s.ledger.index) by { LedgerIndex(s); }
      MoveInv(s, Step(hash, s, e).value.pc);
    }
  }

  lemma LedgerIndex(s: State)
    requires Inv(s)
    ensures IndexAgrees(s.ledger.tasks, s.ledger.index)
  {
  }

  /** What Inv says about the control point, about one record, and about the disk. */
  lemma InvControl(s: State)
    requires Inv(s)
    ensures ControlOk(s.ledger.tasks, Disk(s), s.pc, s.log)
  {
    hide OnDisk;
  }

  lemma InvRecord(s: State, id: string)
    requires Inv(s) && id in s.ledger.tasks
    ensures RecordOk(s.ledger.tasks[id]) && s.ledger.tasks[id].taskId == id
    ensures ExecutedOk(s.ledger.tasks, Disk(s), s.pc, s.log, id)
  {
    hide OnDisk;
  }

  lemma InvDisk(s: State)
    requires Inv(s)
    ensures RecordsOk(Disk(s)) && FileOk(s.ledger.file) && LedgerOk(s.ledger)
  {
    hide OnDisk;
  }

  lemma FiledUnder(s: State)
    requires Inv(s)
    ensures forall id :: id in s.ledger.tasks ==> s.ledger.tasks[id].taskId == id
  {
    hide OnDisk;
  }

  // ---------------------------------------------------------------- runs

  lemma InitInv()
    ensures Inv(INIT)
  {
  }

  /** The state after a sequence of effects, or None where one does not fit. */
  ghost function Run(hash: string -> string, s: State, events: seq<Event>): (r: Option<State>)
    requires Inv(s)
    ensures r.Some? ==> Inv(r.value)
    decreases |events|
  {
    if events == [] then Some(s)
    else
      var next := Step(hash, s, events[0]);
      if next.None? then None else
      StepInv(hash, s, events[0]);
      Run(hash, next.value, events[1..])
  }

  lemma RunNothing(hash: string -> string, s: State)
    requires Inv(s)
    ensures Run(hash, s, []) == Some(s)
  {
  }

  lemma {:induction false} RunConcat(hash: string -> string, s: State, a: seq<Event>, b: seq<Event>)
    requires Inv(s) && Run(hash, s, a).Some?
    ensures Run(hash, s, a + b) == Run(hash, Run(hash, s, a).value, b)
    decreases |a|
  {
    if a == [] {
      assert a + b == b;
    } else {
      StepInv(hash, s, a[0]);
      RunConcat(hash, Step(hash, s, a[0]).value, a[1..], b);
      assert (a + b)[1..] == a[1..] + b;
    }
  }

  /** The state that the agent reaches from an empty ledger. */
  ghost function Reached(hash: string -> string, events: seq<Event>): (r: Option<State>)
    ensures r.Some? ==> Inv(r.value)
  {
    InitInv();
    Run(hash, INIT, events)
  }

  /** Over every run a task id, and every key a task is filed under, is executed
      at most once until discarded; and the index is exact in memory and after a
      restart. */
  lemma AtMostOnce(hash: string -> string, events: seq<Event>, id: string, key: string)
    requires Reached(hash, events).Some?
    ensures var s := Reached(hash, events).value;
            && Executions(s.log, id) <= 1
            && KeyExecutions(s.log, key) <= 1
            && IndexAgrees(s.ledger.tasks, s.ledger.index)
            && IndexAgrees(LoadTasks(s.ledger.file), LoadIndex(s.ledger.file))
  {
    var s := Reached(hash, events).value;
    assert ExecutedOk(s.ledger.tasks, Disk(s), s.pc, s.log, id);
    assert KeyOk(s.ledger.index, s.log, key);
    ReloadExact(s.ledger.file);
  }

  /** A task held as succeeded or failed was reported with that very outcome. */
  lemma FinalStatusAgrees(hash: string -> string, events: seq<Event>, id: string)
    requires Reached(hash, events).Some?
    requires id in Reached(hash, events).value.ledger.tasks
    requires Terminal(Reached(hash, events).value.ledger.tasks[id].status)
    ensures var s := Reached(hash, events).value; var r := s.ledger.tasks[id];
            && r.reported && r.result.Some?
            && r.result.value.success == (r.status == Succeeded)
            && RequestOf(r) in Submissions(s.log, id)
  {
    var s := Reached(hash, events).value;
    assert RecordOk(s.ledger.tasks[id]);
    assert ReportedOk(s.ledger.tasks, Disk(s), s.log, id);
  }
}
