/** Which results the agent submits for a task over a whole run. */
module TaskResults {
  import opened Wrappers
  import opened TaskLedger
  import opened TaskProtocol

  /** What a task that was cut off by a restart is reported with. */
  function Recovery(id: string): TaskResult {
    RecoveryIncomplete(RESTART_NOTE, id)
  }

  /** The request a record stands for: its result, or what it would be reported
      with after a restart. */
  function Pledge(r: Record): Request {
    if r.result.Some? then RequestOf(r) else Request(r.taskId, r.leaseId, Recovery(r.taskId))
  }

  /** Losing the write of this staged result can change what is submitted. */
  predicate Harmful(s: State, e: Event) {
    s.pc.Staging? && e == Write(Lost) && s.pc.result != Recovery(s.pc.id)
  }

  /** No staged result other than a recovery failure is lost along the run. */
  ghost predicate StagesSaved(hash: string -> string, s: State, events: seq<Event>)
    requires Inv(s)
    decreases |events|
  {
    events == [] ||
    (&& !Harmful(s, events[0])
     && var next := Step(hash, s, events[0]);
        next.None? || (StepInv(hash, s, events[0]); StagesSaved(hash, next.value, events[1..])))
  }

  // ------------------------------------------------------------ invariant

  /** A record that is never executed again stands for the same request in memory
      and on disk, and nothing else was ever submitted. */
  ghost predicate ResultOk(tasks: map<string, Record>, disk: map<string, Record>, log: seq<Observation>, id: string) {
    && (id in tasks && Blocks(tasks[id]) ==> id in disk && Guarded(disk[id]) && Pledge(disk[id]) == Pledge(tasks[id]))
    && (forall q :: q in Submissions(log, id) ==> id in tasks && Blocks(tasks[id]) && q == Pledge(tasks[id]))
  }

  /** A result about to be staged: losing it leaves a recovery failure under the
      same lease, and a task already reported as such is staged as such again. */
  ghost predicate StagingOk(tasks: map<string, Record>, disk: map<string, Record>, pc: Control) {
    pc.Staging? && pc.id in tasks ==>
      && pc.lease == tasks[pc.id].leaseId
      && pc.id in disk && Guarded(disk[pc.id]) && Pledge(disk[pc.id]) == Request(pc.id, pc.lease, Recovery(pc.id))
      && (Blocks(tasks[pc.id]) ==> pc.result == Recovery(pc.id))
  }

  ghost predicate NotesOk(tasks: map<string, Record>) {
    forall id :: id in tasks && tasks[id].status == Recovering ==> tasks[id].note == RESTART_NOTE
  }

  ghost predicate ResultsOk(s: State) {
    && (forall id :: ResultOk(s.ledger.tasks, Disk(s), s.log, id))
    && StagingOk(s.ledger.tasks, Disk(s), s.pc)
    && NotesOk(s.ledger.tasks)
  }

  // ------------------------------------------------- every step keeps it

  lemma PatchResult(tasks: map<string, Record>, disk: map<string, Record>, log: seq<Observation>,
                    id: string, r: Record, disk': map<string, Record>, x: string)
    requires ResultOk(tasks, disk, log, x) && id in tasks
    requires disk' == tasks[id := r] || (disk' == disk && (Blocks(r) ==> id in disk && Guarded(disk[id]) && Pledge(disk[id]) == Pledge(r)))
    requires Blocks(tasks[id]) ==> Blocks(r) && Pledge(r) == Pledge(tasks[id])
    ensures ResultOk(tasks[id := r], disk', log, x)
  {
    hide Pledge, Submissions;
  }

  lemma SameNotes(tasks: map<string, Record>, id: string, r: Record)
    requires NotesOk(tasks) && r.status != Recovering
    ensures NotesOk(tasks[id := r])
  {
  }

  lemma PatchResults(s: State, id: string, r: Record, w: WriteOutcome, pc: Control)
    requires Inv(s) && ResultsOk(s) && id in s.ledger.tasks && r.taskId == id && r.key == s.ledger.tasks[id].key
    requires !pc.Staging? && r.status != Recovering
    requires Blocks(s.ledger.tasks[id]) ==> Blocks(r) && Pledge(r) == Pledge(s.ledger.tasks[id])
    requires w == Lost && Blocks(r) ==> id in Disk(s) && Guarded(Disk(s)[id]) && Pledge(Disk(s)[id]) == Pledge(r)
    ensures ResultsOk(s.(ledger := Patch(s.ledger, id, r, w), pc := pc))
  {
    hide Inv, ResultOk, Pledge, OnDisk, LedgerOk, Snapshot, Blocks, Guarded, NotesOk;
    InvDisk(s);
    PatchKeeps(s.ledger, id, r, w);
    var s' := s.(ledger := Patch(s.ledger, id, r, w), pc := pc);
    assert s'.ledger.tasks == s.ledger.tasks[id := r];
    SameNotes(s.ledger.tasks, id, r);
    forall x ensures ResultOk(s'.ledger.tasks, Disk(s'), s'.log, x) {
      PatchResult(s.ledger.tasks, Disk(s), s.log, id, r, Disk(s'), x);
    }
  }

  lemma StageResults(s: State, w: WriteOutcome)
    requires Inv(s) && ResultsOk(s) && s.pc.Staging? && !Harmful(s, Write(w))
    ensures ResultsOk(StepWrite(s, w))
  {
    hide Inv, OnDisk, Snapshot, ResultOk, Recovery, Persist, NotesOk;
    var id, lease, result, note := s.pc.id, s.pc.lease, s.pc.result, s.pc.note;
    InvControl(s);
    if id in s.ledger.tasks {
      InvRecord(s, id);
      PatchResults(s, id, StagedRecord(s.ledger.tasks[id], lease, result, note), w, StepWrite(s, w).pc);
    }
  }

  lemma DiscardResults(s: State, w: WriteOutcome)
    requires Inv(s) && ResultsOk(s) && s.pc.Discarding?
    ensures ResultsOk(StepWrite(s, w))
  {
    hide Inv, OnDisk, Snapshot, Submissions, LedgerOk, Pledge;
    var r, s' := s.pc.record, StepWrite(s, w);
    InvControl(s);
    InvDisk(s);
    DiscardKeeps(s.ledger, r.taskId, w);
    assert s'.ledger.tasks == s.ledger.tasks - {r.taskId};
    forall x ensures ResultOk(s'.ledger.tasks, Disk(s'), s'.log, x) {
      assert ResultOk(s.ledger.tasks, Disk(s), s.log, x);
      LogStep(s.log, Discarded(r.taskId, r.key), x, "");
    }
  }

  lemma WriteResults(s: State, w: WriteOutcome)
    requires Inv(s) && ResultsOk(s) && !Harmful(s, Write(w))
    ensures ResultsOk(StepWrite(s, w))
  {
    hide Inv, OnDisk, Snapshot, Recovery, Persist;
    var l, s' := s.ledger, StepWrite(s, w);
    InvControl(s);
    match s.pc
    case MarkingAcked(env, lease) =>
      if env.id in l.tasks {
        InvRecord(s, env.id);
        PatchResults(s, env.id, AckedRecord(l.tasks[env.id], lease), w, s'.pc);
      }
    case MarkingRunning(env, lease) =>
      InvRecord(s, env.id);
      PatchResults(s, env.id, RunningRecord(l.tasks[env.id]), w, s'.pc);
    case Staging(_, _, _, _) => StageResults(s, w);
    case Discarding(_) => DiscardResults(s, w);
    case Reporting(r) =>
      assert ResultOk(l.tasks, Disk(s), s.log, r.taskId);
      InvRecord(s, r.taskId);
      PatchResults(s, r.taskId, ReportedRecord(r, r.result.value.success), w, Idle);
    case _ =>
  }

  lemma CrashResults(hash: string -> string, s: State)
    requires Inv(s) && ResultsOk(s)
    ensures ResultsOk(Step(hash, s, Crash).value)
  {
    hide Inv, OnDisk, LoadTasks, LoadIndex, Submissions, Recovery, LedgerOk, FileOk;
    LedgerIndex(s);
    InvDisk(s);
    ReloadExact(s.ledger.file);
    var s' := Step(hash, s, Crash).value;
    forall x ensures ResultOk(s'.ledger.tasks, Disk(s'), s'.log, x) {
      assert ResultOk(s.ledger.tasks, Disk(s), s.log, x);
    }
  }

  lemma AcceptDisk(hash: string -> string, l: Ledger, env: Envelope, w: WriteOutcome)
    requires LedgerOk(l) && env.id !in l.tasks && env.work.key !in l.index
    ensures var l' := Accept(hash, l, env, w).0;
            && l'.tasks == l.tasks[env.id := NewRecord(hash, env)]
            && OnDisk(l'.file) == if w == Lost then OnDisk(l.file) else l'.tasks
  {
    var grown := l.(tasks := l.tasks[env.id := NewRecord(hash, env)], index := l.index[env.work.key := env.id]);
    assert LedgerOk(grown) by { hide OnDisk, FileOk, Snapshot; }
    hide OnDisk, FileOk, Snapshot, LedgerOk;
    PersistExact(grown, w);
  }

  lemma AcceptResults(hash: string -> string, s: State, env: Envelope, w: WriteOutcome)
    requires Inv(s) && ResultsOk(s)
    ensures ResultsOk(s.(ledger := Accept(hash, s.ledger, env, w).0, pc := Idle))
  {
    hide Inv, OnDisk, Snapshot, Submissions, Pledge, Persist, FileOk;
    LedgerIndex(s);
    InvDisk(s);
    var l, s' := s.ledger, s.(ledger := Accept(hash, s.ledger, env, w).0, pc := Idle);
    if env.id !in l.tasks && env.work.key !in l.index {
      AcceptDisk(hash, l, env, w);
      forall x ensures ResultOk(s'.ledger.tasks, Disk(s'), s'.log, x) {
        assert ResultOk(l.tasks, Disk(s), s.log, x);
      }
    }
  }

  lemma DispatchResults(s: State, env: Envelope, r: Record)
    requires Inv(s) && ResultsOk(s) && r.taskId in s.ledger.tasks && s.ledger.tasks[r.taskId] == r
    requires env.id in s.ledger.tasks ==> s.ledger.tasks[env.id] == r
    ensures ResultsOk(s.(pc := Dispatch(env, r)))
  {
    hide Inv, OnDisk, Submissions, RecoveryIncomplete;
    assert ResultOk(s.ledger.tasks, Disk(s), s.log, r.taskId);
    InvRecord(s, r.taskId);
    if env.id in s.ledger.tasks { InvRecord(s, env.id); }
  }

  lemma DeliverResults(hash: string -> string, s: State, env: Envelope, w: WriteOutcome)
    requires Inv(s) && ResultsOk(s) && s.pc.Idle?
    ensures ResultsOk(StepIdle(hash, s, Deliver(env, w)).value)
  {
    hide Inv, OnDisk, Snapshot, Submissions, ResultsOk, Accept, Dispatch;
    LedgerIndex(s);
    AcceptResults(hash, s, env, w);
    AcceptInv(hash, s, env, w);
    var (l', outcome) := Accept(hash, s.ledger, env, w);
    if outcome.Accepted? {
      DispatchResults(s.(ledger := l'), env, outcome.record);
    }
  }

  lemma SubmitResults(hash: string -> string, s: State, reply: Option<SubmitError>)
    requires Inv(s) && ResultsOk(s) && s.pc.Submitting?
    ensures ResultsOk(Step(hash, s, Submit(reply)).value)
  {
    hide Inv, OnDisk, Submissions, Recovery;
    LedgerIndex(s);
    InvControl(s);
    var r, s' := s.pc.record, Step(hash, s, Submit(reply)).value;
    forall x ensures ResultOk(s'.ledger.tasks, Disk(s'), s'.log, x) {
      assert ResultOk(s.ledger.tasks, Disk(s), s.log, x);
      LogStep(s.log, Submitted(RequestOf(r)), x, "");
    }
  }

  lemma ExecutionKeeps(tasks: map<string, Record>, disk: map<string, Record>, log: seq<Observation>, o: Observation, x: string)
    requires ResultOk(tasks, disk, log, x) && o.Executed?
    ensures ResultOk(tasks, disk, log + [o], x)
  {
    hide Submissions, Pledge, Blocks, Guarded;
    LogStep(log, o, x, "");
  }

  lemma BeginResults(hash: string -> string, s: State)
    requires Inv(s) && ResultsOk(s) && s.pc.Ready?
    ensures ResultsOk(Step(hash, s, Begin).value)
  {
    hide Inv, OnDisk, ResultOk, NotesOk;
    LedgerIndex(s);
    InvControl(s);
    var s' := Step(hash, s, Begin).value;
    var o := s'.log[|s.log|];
    assert s'.ledger == s.ledger && s'.log == s.log + [o] && o.Executed?;
    forall x ensures ResultOk(s'.ledger.tasks, Disk(s'), s'.log, x) {
      ExecutionKeeps(s.ledger.tasks, Disk(s), s.log, o, x);
    }
  }

  lemma FinishResults(hash: string -> string, s: State, result: TaskResult)
    requires Inv(s) && ResultsOk(s) && s.pc.Executing?
    ensures ResultsOk(Step(hash, s, Finish(result)).value)
  {
    hide Inv, OnDisk, ResultOk, Recovery, NotesOk, STAGE_NOTE;
    LedgerIndex(s);
    InvControl(s);
    InvRecord(s, s.pc.env.id);
  }

  lemma StepResults(hash: string -> string, s: State, e: Event)
    requires Inv(s) && ResultsOk(s) && Step(hash, s, e).Some? && !Harmful(s, e)
    ensures ResultsOk(Step(hash, s, e).value)
  {
    hide Inv, OnDisk, Submissions, StepWrite, Accept, ResultOk, NotesOk;
    LedgerIndex(s);
    if e.Crash? {
      CrashResults(hash, s);
    } else if e.Write? {
      WriteResults(s, e.w);
    } else if e.Deliver? {
      DeliverResults(hash, s, e.env, e.w);
    } else if e.Submit? {
      SubmitResults(hash, s, e.reply);
    } else if e.Begin? {
      BeginResults(hash, s);
    } else if e.Finish? {
      FinishResults(hash, s, e.result);
    }
  }

  lemma InitResults()
    ensures ResultsOk(INIT)
  {
  }

  lemma {:induction false} RunResults(hash: string -> string, s: State, events: seq<Event>)
    requires Inv(s) && ResultsOk(s) && StagesSaved(hash, s, events) && Run(hash, s, events).Some?
    ensures ResultsOk(Run(hash, s, events).value)
    decreases |events|
  {
    hide ResultsOk, Inv, Step;
    LedgerIndex(s);
    if events != [] {
      StepResults(hash, s, events[0]);
      StepInv(hash, s, events[0]);
      RunResults(hash, Step(hash, s, events[0]).value, events[1..]);
    }
  }

  ghost predicate SavedFromStart(hash: string -> string, events: seq<Event>) {
    InitInv();
    StagesSaved(hash, INIT, events)
  }

  /** When no staged result other than a recovery failure is lost, every result
      submitted for a task before its discard is the same one, over any crashes
      and replays; memory and disk both stand for it, and the final status agrees
      with it. */
  lemma OneResultPerTask(hash: string -> string, events: seq<Event>, id: string, p: Request, q: Request)
    requires Reached(hash, events).Some? && SavedFromStart(hash, events)
    requires p in Submissions(Reached(hash, events).value.log, id) && q in Submissions(Reached(hash, events).value.log, id)
    ensures p == q
    ensures var s := Reached(hash, events).value;
            && id in s.ledger.tasks && Pledge(s.ledger.tasks[id]) == p
            && id in Disk(s) && Pledge(Disk(s)[id]) == p
            && (s.ledger.tasks[id].reported ==> s.ledger.tasks[id].status == if p.result.success then Succeeded else Failed)
  {
    var s := Reached(hash, events).value;
    InitInv();
    InitResults();
    RunResults(hash, INIT, events);
    assert ResultOk(s.ledger.tasks, Disk(s), s.log, id);
    InvRecord(s, id);
  }
}
