/** Where the records, the results and the discards of a run come from. */
module TaskOrigins {
  import opened Wrappers
  import opened StableJson
  import opened TaskLedger
  import opened TaskProtocol
  import opened TaskResults

  /** What the environment has told the agent so far: envelopes delivered, results
      with which executions of a task finished, and refusals of a task's result. */
  datatype History = History(delivered: set<Envelope>, finished: set<(string, TaskResult)>, refused: set<(string, SubmitError)>)

  const NOTHING := History({}, {}, {})

  function Noted(h: History, s: State, e: Event): History {
    h.(delivered := if e.Deliver? then h.delivered + {e.env} else h.delivered,
       finished := if s.pc.Executing? && e.Finish? then h.finished + {(s.pc.env.id, e.result)} else h.finished,
       refused := if s.pc.Submitting? && e.Submit? && e.reply.Some? then h.refused + {(s.pc.record.taskId, e.reply.value)} else h.refused)
  }

  ghost function Chronicle(hash: string -> string, s: State, h: History, events: seq<Event>): History
    requires Inv(s)
    decreases |events|
  {
    LedgerIndex(s);
    if events == [] || Step(hash, s, events[0]).None? then h
    else
      StepInv(hash, s, events[0]);
      Chronicle(hash, Step(hash, s, events[0]).value, Noted(h, s, events[0]), events[1..])
  }

  // ------------------------------------------------------------ invariant

  /** The record was opened by a delivered envelope and still describes its work. */
  ghost predicate FromDelivery(hash: string -> string, r: Record, h: History) {
    exists env :: env in h.delivered && env.id == r.taskId && env.work.key == r.key && env.work.runId == r.runId
                  && env.work.stepId == r.stepId && r.payloadHash == hash(Print(WorkValue(env.work)))
  }

  /** An execution of the task finished with this result, or a restart cut it off. */
  predicate FromExecution(id: string, result: TaskResult, h: History) {
    (id, result) in h.finished || result == Recovery(id)
  }

  /** The control plane no longer wants the task's result: it does not know the
      task, has removed it, or takes the result to be too late. */
  predicate Gone(e: SubmitError) {
    && e.Refused?
    && (e.statusCode == 404 || e.statusCode == 410
        || (e.errorCode == "RESOURCE_VERSION_CONFLICT" && e.reason == "AGENT_V2_LATE_RECEIPT_REJECTED"))
  }

  ghost predicate FromRefusal(id: string, h: History) {
    exists e :: (id, e) in h.refused && Gone(e)
  }

  ghost predicate RecordFrom(hash: string -> string, r: Record, h: History) {
    FromDelivery(hash, r, h) && (r.result.Some? ==> FromExecution(r.taskId, r.result.value, h))
  }

  ghost predicate RecordsFrom(hash: string -> string, tasks: map<string, Record>, h: History) {
    forall id :: id in tasks ==> RecordFrom(hash, tasks[id], h)
  }

  ghost predicate ControlFrom(pc: Control, h: History) {
    (pc.Staging? ==> FromExecution(pc.id, pc.result, h)) && (pc.Discarding? ==> FromRefusal(pc.record.taskId, h))
  }

  ghost predicate ObservationFrom(o: Observation, h: History) {
    && (o.Submitted? ==> FromExecution(o.request.taskId, o.request.result, h))
    && (o.Discarded? ==> FromRefusal(o.id, h))
  }

  ghost predicate LogFrom(log: seq<Observation>, h: History) {
    forall i :: 0 <= i < |log| ==> ObservationFrom(log[i], h)
  }

  ghost predicate Origins(hash: string -> string, s: State, h: History) {
    && RecordsFrom(hash, s.ledger.tasks, h) && RecordsFrom(hash, Disk(s), h)
    && ControlFrom(s.pc, h) && LogFrom(s.log, h) && NotesOk(s.ledger.tasks)
  }

  // ------------------------------------------------- every step keeps it

  /** What was known stays known. */
  lemma MoreKnown(hash: string -> string, s: State, h: History, h': History)
    requires Origins(hash, s, h) && h.delivered <= h'.delivered && h.finished <= h'.finished && h.refused <= h'.refused
    ensures Origins(hash, s, h')
  {
    hide Disk, Gone, Recovery, NotesOk;
    forall r | RecordFrom(hash, r, h) ensures RecordFrom(hash, r, h') { MoreKnownRecord(hash, r, h, h'); }
    forall i | 0 <= i < |s.log| ensures ObservationFrom(s.log[i], h') { assert ObservationFrom(s.log[i], h); }
  }

  lemma MoreKnownRecord(hash: string -> string, r: Record, h: History, h': History)
    requires RecordFrom(hash, r, h) && h.delivered <= h'.delivered && h.finished <= h'.finished
    ensures RecordFrom(hash, r, h')
  {
    hide Print, WorkValue, Recovery;
  }

  /** A record that changes neither what it describes nor its result. */
  lemma SameWork(hash: string -> string, r: Record, r': Record, h: History)
    requires RecordFrom(hash, r, h)
    requires r'.taskId == r.taskId && r'.key == r.key && r'.runId == r.runId && r'.stepId == r.stepId && r'.payloadHash == r.payloadHash
    requires r'.result.Some? ==> FromExecution(r'.taskId, r'.result.value, h)
    ensures RecordFrom(hash, r', h)
  {
    hide Print, WorkValue, Recovery;
  }

  lemma PatchOrigins(hash: string -> string, s: State, id: string, r: Record, w: WriteOutcome, pc: Control, h: History)
    requires Inv(s) && Origins(hash, s, h) && id in s.ledger.tasks && r.taskId == id && r.key == s.ledger.tasks[id].key
    requires RecordFrom(hash, r, h) && ControlFrom(pc, h) && r.status != Recovering
    ensures Origins(hash, s.(ledger := Patch(s.ledger, id, r, w), pc := pc), h)
  {
    hide Inv, RecordFrom, OnDisk, LedgerOk, Snapshot, NotesOk, ControlFrom, LogFrom;
    InvDisk(s);
    PatchKeeps(s.ledger, id, r, w);
    SameNotes(s.ledger.tasks, id, r);
  }

  lemma WriteOrigins(hash: string -> string, s: State, w: WriteOutcome, h: History)
    requires Inv(s) && Origins(hash, s, h)
    ensures Origins(hash, StepWrite(s, w), h)
  {
    hide Inv, OnDisk, Snapshot, RecordFrom, Persist, FromExecution, FromRefusal, LogFrom, NotesOk;
    var l, s' := s.ledger, StepWrite(s, w);
    InvControl(s);
    FiledUnder(s);
    match s.pc
    case MarkingAcked(env, lease) =>
      if env.id in l.tasks {
        KeptResult(hash, l.tasks[env.id], AckedRecord(l.tasks[env.id], lease), h);
        PatchOrigins(hash, s, env.id, AckedRecord(l.tasks[env.id], lease), w, s'.pc, h);
      }
    case MarkingRunning(env, lease) =>
      KeptResult(hash, l.tasks[env.id], RunningRecord(l.tasks[env.id]), h);
      PatchOrigins(hash, s, env.id, RunningRecord(l.tasks[env.id]), w, s'.pc, h);
    case Staging(id, lease, result, note) =>
      if id in l.tasks {
        SameWork(hash, l.tasks[id], StagedRecord(l.tasks[id], lease, result, note), h);
        PatchOrigins(hash, s, id, StagedRecord(l.tasks[id], lease, result, note), w, s'.pc, h);
      }
    case Discarding(r) => DropOrigins(hash, s, w, h);
    case Reporting(r) =>
      KeptResult(hash, r, ReportedRecord(r, r.result.value.success), h);
      PatchOrigins(hash, s, r.taskId, ReportedRecord(r, r.result.value.success), w, Idle, h);
    case _ =>
  }

  lemma KeptResult(hash: string -> string, r: Record, r': Record, h: History)
    requires RecordFrom(hash, r, h) && r'.result == r.result
    requires r'.taskId == r.taskId && r'.key == r.key && r'.runId == r.runId && r'.stepId == r.stepId && r'.payloadHash == r.payloadHash
    ensures RecordFrom(hash, r', h)
  {
    SameWork(hash, r, r', h);
  }

  lemma DropOrigins(hash: string -> string, s: State, w: WriteOutcome, h: History)
    requires Inv(s) && Origins(hash, s, h) && s.pc.Discarding?
    ensures Origins(hash, StepWrite(s, w), h)
  {
    hide Inv, OnDisk, Snapshot, RecordFrom, LedgerOk, FromExecution, FromRefusal;
    var r, s' := s.pc.record, StepWrite(s, w);
    InvControl(s);
    InvDisk(s);
    DiscardKeeps(s.ledger, r.taskId, w);
    assert s'.ledger.tasks == s.ledger.tasks - {r.taskId};
    forall i | 0 <= i < |s'.log| ensures ObservationFrom(s'.log[i], h) {
      if i < |s.log| { assert ObservationFrom(s.log[i], h); }
    }
  }

  lemma CrashOrigins(hash: string -> string, s: State, h: History)
    requires Inv(s) && Origins(hash, s, h)
    ensures Origins(hash, Step(hash, s, Crash).value, h)
  {
    hide Inv, OnDisk, LoadTasks, LoadIndex, RecordFrom, LedgerOk, FileOk, LogFrom;
    LedgerIndex(s);
    InvDisk(s);
    ReloadExact(s.ledger.file);
    var s' := Step(hash, s, Crash).value;
    forall id | id in s'.ledger.tasks ensures RecordFrom(hash, s'.ledger.tasks[id], h) {
      KeptResult(hash, Disk(s)[id], s'.ledger.tasks[id], h);
    }
    assert RecordsOk(Disk(s));
  }

  lemma NewOrigin(hash: string -> string, env: Envelope, h: History)
    requires env in h.delivered
    ensures RecordFrom(hash, NewRecord(hash, env), h)
  {
  }

  lemma DeliverOrigins(hash: string -> string, s: State, env: Envelope, w: WriteOutcome, h: History)
    requires Inv(s) && Origins(hash, s, h) && s.pc.Idle? && env in h.delivered
    ensures Origins(hash, StepIdle(hash, s, Deliver(env, w)).value, h)
  {
    hide Inv, OnDisk, Snapshot, RecordFrom, Persist, FileOk, LogFrom, Fingerprint, RecoveryIncomplete;
    LedgerIndex(s);
    InvDisk(s);
    AcceptInv(hash, s, env, w);
    NewOrigin(hash, env, h);
    if env.id !in s.ledger.tasks && env.work.key !in s.ledger.index { AcceptDisk(hash, s.ledger, env, w); }
  }

  lemma SubmitOrigins(hash: string -> string, s: State, reply: Option<SubmitError>, h: History)
    requires Inv(s) && Origins(hash, s, h) && s.pc.Submitting?
    requires reply.Some? ==> (s.pc.record.taskId, reply.value) in h.refused
    ensures Origins(hash, Step(hash, s, Submit(reply)).value, h)
  {
    hide Inv, OnDisk, FromExecution, FromDelivery;
    LedgerIndex(s);
    InvControl(s);
    var r, s' := s.pc.record, Step(hash, s, Submit(reply)).value;
    assert RecordFrom(hash, r, h);
    forall i | 0 <= i < |s'.log| ensures ObservationFrom(s'.log[i], h) {
      if i < |s.log| { assert ObservationFrom(s.log[i], h); }
    }
    assert s'.pc.Discarding? ==> Gone(reply.value);
  }

  lemma BeginOrigins(hash: string -> string, s: State, h: History)
    requires Inv(s) && Origins(hash, s, h) && s.pc.Ready?
    ensures Origins(hash, Step(hash, s, Begin).value, h)
  {
    hide Inv, OnDisk, RecordFrom, FromExecution, FromRefusal;
    LedgerIndex(s);
    InvControl(s);
    var s' := Step(hash, s, Begin).value;
    forall i | 0 <= i < |s'.log| ensures ObservationFrom(s'.log[i], h) {
      if i < |s.log| { assert ObservationFrom(s.log[i], h); }
    }
  }

  lemma StepOrigins(hash: string -> string, s: State, e: Event, h: History)
    requires Inv(s) && Origins(hash, s, h)
    ensures IndexAgrees(s.ledger.tasks, s.ledger.index)
    ensures Step(hash, s, e).Some? ==> Origins(hash, Step(hash, s, e).value, Noted(h, s, e))
  {
    hide Inv, OnDisk, StepWrite, Accept, RecordsFrom, LogFrom, NotesOk, Recovery, STAGE_NOTE;
    LedgerIndex(s);
    var h' := Noted(h, s, e);
    MoreKnown(hash, s, h, h');
    if Step(hash, s, e).Some? {
      if e.Crash? {
        CrashOrigins(hash, s, h');
      } else if e.Write? {
        WriteOrigins(hash, s, e.w, h');
      } else if e.Deliver? {
        DeliverOrigins(hash, s, e.env, e.w, h');
      } else if e.Submit? {
        SubmitOrigins(hash, s, e.reply, h');
      } else if e.Begin? {
        BeginOrigins(hash, s, h');
      }
    }
  }

  lemma {:induction false} RunOrigins(hash: string -> string, s: State, h: History, events: seq<Event>)
    requires Inv(s) && Origins(hash, s, h) && Run(hash, s, events).Some?
    ensures Origins(hash, Run(hash, s, events).value, Chronicle(hash, s, h, events))
    decreases |events|
  {
    hide Inv, Step, Origins, Noted;
    LedgerIndex(s);
    if events != [] {
      StepOrigins(hash, s, events[0], h);
      StepInv(hash, s, events[0]);
      RunOrigins(hash, Step(hash, s, events[0]).value, Noted(h, s, events[0]), events[1..]);
    }
  }

  // ----------------------------------------------------------- over runs

  /** What the environment told the agent in a run from the empty ledger. */
  ghost function Told(hash: string -> string, events: seq<Event>): History {
    InitInv();
    Chronicle(hash, INIT, NOTHING, events)
  }

  /** Nothing is noted that is not among the events. */
  lemma {:induction false} ChronicleSound(hash: string -> string, s: State, h: History, events: seq<Event>)
    requires Inv(s)
    ensures forall env :: env in Chronicle(hash, s, h, events).delivered ==>
              env in h.delivered || exists i :: 0 <= i < |events| && events[i].Deliver? && events[i].env == env
    ensures forall p :: p in Chronicle(hash, s, h, events).finished ==>
              p in h.finished || exists i :: 0 <= i < |events| && events[i] == Finish(p.1)
    ensures forall p :: p in Chronicle(hash, s, h, events).refused ==>
              p in h.refused || exists i :: 0 <= i < |events| && events[i] == Submit(Some(p.1))
    decreases |events|
  {
    hide Inv, Step;
    LedgerIndex(s);
    if events != [] && Step(hash, s, events[0]).Some? {
      StepInv(hash, s, events[0]);
      ChronicleSound(hash, Step(hash, s, events[0]).value, Noted(h, s, events[0]), events[1..]);
      forall i | 0 <= i < |events| - 1 ensures events[1..][i] == events[i + 1] {}
    }
  }

  lemma InitOrigins(hash: string -> string)
    ensures Origins(hash, INIT, NOTHING)
  {
  }

  lemma ReachedOrigins(hash: string -> string, events: seq<Event>)
    requires Reached(hash, events).Some?
    ensures Origins(hash, Reached(hash, events).value, Told(hash, events))
  {
    hide Inv, Run, Origins, Chronicle;
    InitInv();
    InitOrigins(hash);
    RunOrigins(hash, INIT, NOTHING, events);
  }

  /** A task that a restart cut off is never reported as a success. */
  lemma RecoveryFails(id: string)
    ensures !Recovery(id).success && Recovery(id).errorCode == "RECOVERY_INCOMPLETE"
    ensures Recovery(id).detail == Obj(map["recoveryNote" := Str("agent restart detected"), "taskId" := Str(id)])
  {
  }

  /** Over every run: a submitted result is one with which an execution of that
      very task finished, or the failure that a restart leaves; so a success was
      always the outcome of an execution. */
  lemma SubmittedFromExecution(hash: string -> string, events: seq<Event>, q: Request)
    requires Reached(hash, events).Some? && Submitted(q) in Reached(hash, events).value.log
    ensures (q.taskId, q.result) in Told(hash, events).finished || q.result == Recovery(q.taskId)
    ensures q.result.success || q.result.errorCode != "RECOVERY_INCOMPLETE" ==>
              (q.taskId, q.result) in Told(hash, events).finished && exists i :: 0 <= i < |events| && events[i] == Finish(q.result)
  {
    InitInv();
    ReachedOrigins(hash, events);
    ChronicleSound(hash, INIT, NOTHING, events);
    RecoveryFails(q.taskId);
    var log := Reached(hash, events).value.log;
    var i :| 0 <= i < |log| && log[i] == Submitted(q);
    hide Reached, Told, Recovery, Inv;
    assert ObservationFrom(log[i], Told(hash, events));
  }

  /** Over every run: a task is discarded only after the control plane refused its
      result as gone or late. */
  lemma DiscardedWhenGone(hash: string -> string, events: seq<Event>, id: string, key: string)
    requires Reached(hash, events).Some? && Discarded(id, key) in Reached(hash, events).value.log
    ensures exists e :: (id, e) in Told(hash, events).refused && Gone(e)
  {
    ReachedOrigins(hash, events);
    var log := Reached(hash, events).value.log;
    var i :| 0 <= i < |log| && log[i] == Discarded(id, key);
    hide Reached, Told, Gone;
    assert ObservationFrom(log[i], Told(hash, events));
  }

  /** And a refusal as gone or late is always followed by the discard. */
  lemma GoneIsDiscarded(hash: string -> string, s: State, e: SubmitError)
    requires Inv(s) && s.pc.Submitting?
    ensures IndexAgrees(s.ledger.tasks, s.ledger.index)
    ensures var next := Step(hash, s, Submit(Some(e)));
            next.Some? && next.value.pc == (if Gone(e) then Discarding(s.pc.record) else Idle)
  {
    hide Inv, OnDisk;
    LedgerIndex(s);
    InvControl(s);
  }

  ghost predicate DeliveredIn(events: seq<Event>, env: Envelope) {
    exists i :: 0 <= i < |events| && events[i].Deliver? && events[i].env == env
  }

  /** Over every run: each record, in memory and on disk, was opened by a delivered
      envelope of its id and holds that envelope's key, run, step and fingerprint. */
  lemma RecordFromDelivery(hash: string -> string, events: seq<Event>, id: string) returns (env: Envelope)
    requires Reached(hash, events).Some? && id in Reached(hash, events).value.ledger.tasks
    ensures DeliveredIn(events, env) && env.id == id
    ensures var r := Reached(hash, events).value.ledger.tasks[id];
            && r.key == env.work.key && r.runId == env.work.runId && r.stepId == env.work.stepId
            && r.payloadHash == Fingerprint(hash, env.work)
  {
    InitInv();
    ReachedOrigins(hash, events);
    ChronicleSound(hash, INIT, NOTHING, events);
    var s, h := Reached(hash, events).value, Told(hash, events);
    FiledUnder(s);
    hide Reached, Inv, Chronicle, Print, WorkValue;
    assert RecordFrom(hash, s.ledger.tasks[id], h);
    env :| env in h.delivered && env.id == id && env.work.key == s.ledger.tasks[id].key && env.work.runId == s.ledger.tasks[id].runId
           && env.work.stepId == s.ledger.tasks[id].stepId && s.ledger.tasks[id].payloadHash == hash(Print(WorkValue(env.work)));
  }

  /** Over every run: an envelope with a new id and a key in use is refused exactly
      when its work differs from the work that was delivered for that key. */
  lemma ConflictOverRuns(hash: string -> string, events: seq<Event>, again: Envelope, w: WriteOutcome) returns (env: Envelope)
    requires CollisionFree(hash) && Reached(hash, events).Some?
    requires var l := Reached(hash, events).value.ledger; again.id !in l.tasks && again.work.key in l.index
    requires WellFormed(Obj(again.work.payload))
    requires forall i :: 0 <= i < |events| && events[i].Deliver? ==> WellFormed(Obj(events[i].env.work.payload))
    ensures DeliveredIn(events, env) && env.work.key == again.work.key
    ensures IndexAgrees(Reached(hash, events).value.ledger.tasks, Reached(hash, events).value.ledger.index)
    ensures var l := Reached(hash, events).value.ledger; var outcome := Accept(hash, l, again, w).1;
            && env.id == l.index[again.work.key]
            && (outcome == KeyConflict <==> again.work != env.work)
            && (outcome != KeyConflict ==> outcome == Accepted(l.tasks[env.id]))
  {
    var s := Reached(hash, events).value;
    LedgerIndex(s);
    InvDisk(s);
    env := RecordFromDelivery(hash, events, s.ledger.index[again.work.key]);
    hide Reached, Inv, Fingerprint, OnDisk, FileOk;
    KeyConflictExact(hash, s.ledger, env.work, again, w);
  }
}
