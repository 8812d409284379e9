/** Runs that show where the promises of the task protocol end: what a lost
    staging write does, and what a changed idempotency key does. */
module TaskLimits {
  import opened Wrappers
  import opened StableJson
  import opened TaskLedger
  import opened TaskProtocol
  import opened TaskResults
  import opened TaskKeys

  lemma Advance(hash: string -> string, start: State, events: seq<Event>, current: State, e: Event)
    requires Inv(start) && Run(hash, start, events) == Some(current) && Step(hash, current, e).Some?
    ensures Run(hash, start, events + [e]) == Step(hash, current, e)
  {
    RunConcat(hash, start, events, [e]);
    StepInv(hash, current, e);
    assert Run(hash, current, [e]) == Step(hash, current, e) by {
      assert [e][1..] == [];
    }
  }

  /** The machine's move for each effect of a round. */
  lemma AdvanceWrite(hash: string -> string, start: State, events: seq<Event>, s: State, w: WriteOutcome) returns (next: State)
    requires Inv(start) && Run(hash, start, events) == Some(s) && Writing(s.pc)
    ensures next == StepWrite(s, w) && Run(hash, start, events + [Write(w)]) == Some(next)
  {
    next := StepWrite(s, w);
    Advance(hash, start, events, s, Write(w));
  }

  lemma AdvanceSubmit(hash: string -> string, start: State, events: seq<Event>, s: State, reply: Option<SubmitError>) returns (next: State)
    requires Inv(start) && Run(hash, start, events) == Some(s) && s.pc.Submitting?
    ensures InHand(s.ledger.tasks, s.pc.record)
    ensures next == s.(log := s.log + [Submitted(RequestOf(s.pc.record))],
                       pc := if reply.None? then Reporting(s.pc.record) else if IsDiscardable(reply.value) then Discarding(s.pc.record) else Idle)
    ensures Run(hash, start, events + [Submit(reply)]) == Some(next)
  {
    Advance(hash, start, events, s, Submit(reply));
    next := Step(hash, s, Submit(reply)).value;
  }

  lemma AdvanceAck(hash: string -> string, start: State, events: seq<Event>, s: State, clock: string, ack: AckReply) returns (next: State)
    requires Inv(start) && Run(hash, start, events) == Some(s) && s.pc.Acking?
    ensures next == s.(pc := if ack == Granted then MarkingAcked(s.pc.env, NewLeaseId(s.pc.env.id, clock)) else Idle)
    ensures Run(hash, start, events + [Ack(clock, ack)]) == Some(next)
  {
    Advance(hash, start, events, s, Ack(clock, ack));
    next := Step(hash, s, Ack(clock, ack)).value;
  }

  lemma AdvanceBegin(hash: string -> string, start: State, events: seq<Event>, s: State) returns (next: State)
    requires Inv(start) && Run(hash, start, events) == Some(s) && s.pc.Ready?
    ensures s.pc.env.id in s.ledger.tasks
    ensures next == s.(pc := Executing(s.pc.env, s.pc.lease),
                       log := s.log + [Executed(s.pc.env.id, s.ledger.tasks[s.pc.env.id].key, s.pc.env.work.key)])
    ensures Run(hash, start, events + [Begin]) == Some(next)
  {
    Advance(hash, start, events, s, Begin);
    next := Step(hash, s, Begin).value;
  }

  lemma AdvanceFinish(hash: string -> string, start: State, events: seq<Event>, s: State, result: TaskResult) returns (next: State)
    requires Inv(start) && Run(hash, start, events) == Some(s) && s.pc.Executing?
    ensures next == s.(pc := Staging(s.pc.env.id, s.pc.lease, result, STAGE_NOTE))
    ensures Run(hash, start, events + [Finish(result)]) == Some(next)
  {
    Advance(hash, start, events, s, Finish(result));
    next := Step(hash, s, Finish(result)).value;
  }

  // ----------------------------------------- why staging must be saved

  /** All results submitted for a task since its last discard are the same. */
  ghost predicate OneResult(log: seq<Observation>, id: string) {
    forall p, q :: p in Submissions(log, id) && q in Submissions(log, id) ==> p == q
  }

  /** An execution finished with a result whose staging write was lost. */
  ghost function AfterLoss(hash: string -> string, s: State, result: TaskResult): (t: State)
    requires Inv(s) && s.pc.Executing?
    ensures Inv(t)
  {
    LedgerIndex(s);
    StepInv(hash, s, Finish(result));
    var staging := Step(hash, s, Finish(result)).value;
    WriteInv(staging, Lost);
    StepWrite(staging, Lost)
  }

  /** However the run goes on without a harmful loss, the task keeps one result. */
  ghost predicate StaysOne(hash: string -> string, t: State, rest: seq<Event>, id: string)
    requires Inv(t)
  {
    Run(hash, t, rest).Some? && StagesSaved(hash, t, rest) ==> OneResult(Run(hash, t, rest).value.log, id)
  }

  /** Submit from memory, crash, and take the task again. */
  function Retaken(env: Envelope): seq<Event> {
    [Recover(env.id), Submit(Some(Transport)), Crash, Deliver(env, Saved), Write(Saved), Submit(None)]
  }

  lemma AdvanceRecover(hash: string -> string, start: State, events: seq<Event>, s: State, id: string) returns (next: State)
    requires Inv(start) && Run(hash, start, events) == Some(s) && s.pc.Idle?
    requires id in s.ledger.tasks && s.ledger.tasks[id].result.Some? && !s.ledger.tasks[id].reported
    ensures next == s.(pc := Submitting(s.ledger.tasks[id])) && Run(hash, start, events + [Recover(id)]) == Some(next)
  {
    Advance(hash, start, events, s, Recover(id));
    next := Step(hash, s, Recover(id)).value;
  }

  lemma AdvanceCrash(hash: string -> string, start: State, events: seq<Event>, s: State) returns (next: State)
    requires Inv(start) && Run(hash, start, events) == Some(s)
    ensures next == State(Reload(s.ledger.file), Idle, s.log) && Run(hash, start, events + [Crash]) == Some(next)
    ensures next.ledger.tasks == map id | id in Disk(s) :: RecoverRecord(Disk(s)[id])
  {
    Advance(hash, start, events, s, Crash);
    next := Step(hash, s, Crash).value;
    ReloadExact(s.ledger.file);
  }

  lemma AdvanceRedelivery(hash: string -> string, start: State, events: seq<Event>, s: State, env: Envelope) returns (next: State)
    requires Inv(start) && Run(hash, start, events) == Some(s) && s.pc.Idle? && env.id in s.ledger.tasks
    ensures next == s.(pc := Dispatch(env, s.ledger.tasks[env.id])) && Run(hash, start, events + [Deliver(env, Saved)]) == Some(next)
  {
    Advance(hash, start, events, s, Deliver(env, Saved));
    next := Step(hash, s, Deliver(env, Saved)).value;
  }

  lemma ExecutingRecord(s: State)
    requires Inv(s) && s.pc.Executing?
    ensures var id := s.pc.env.id;
            && id in s.ledger.tasks && id in Disk(s) && Disk(s)[id] == s.ledger.tasks[id]
            && var r := s.ledger.tasks[id];
               r.taskId == id && r.status == Running && r.result.None? && !r.reported && r.leaseId == s.pc.lease && r.leaseId != ""
  {
    assert RecordOk(s.ledger.tasks[s.pc.env.id]);
  }

  lemma {:induction false} NoneLost(hash: string -> string, s: State, events: seq<Event>)
    requires Inv(s) && forall i :: 0 <= i < |events| ==> events[i] != Write(Lost)
    ensures StagesSaved(hash, s, events)
    decreases |events|
  {
    hide Inv, Step;
    LedgerIndex(s);
    if events != [] && Step(hash, s, events[0]).Some? {
      StepInv(hash, s, events[0]);
      NoneLost(hash, Step(hash, s, events[0]).value, events[1..]);
    }
  }

  lemma AfterLossShape(hash: string -> string, s: State, result: TaskResult)
    requires Inv(s) && s.pc.Executing?
    ensures var t, env := AfterLoss(hash, s, result), s.pc.env;
            && t.pc.Idle? && t.log == s.log && t.ledger.file == s.ledger.file
            && env.id in t.ledger.tasks && t.ledger.tasks[env.id].result == Some(result) && !t.ledger.tasks[env.id].reported
            && t.ledger.tasks[env.id].taskId == env.id && t.ledger.tasks[env.id].leaseId == s.pc.lease
  {
    hide Inv, OnDisk, Snapshot, IndexAgrees, STAGE_NOTE;
    ExecutingRecord(s);
    LedgerIndex(s);
    IndexFound(s.ledger);
  }

  lemma LostStageUntilCrash(hash: string -> string, s: State, result: TaskResult) returns (u: State)
    requires Inv(s) && s.pc.Executing?
    ensures Run(hash, AfterLoss(hash, s, result), [] + [Recover(s.pc.env.id)] + [Submit(Some(Transport))]) == Some(u)
    ensures u.ledger.file == s.ledger.file && u.log == s.log + [Submitted(Request(s.pc.env.id, s.pc.lease, result))]
  {
    hide Run, Step, Inv, OnDisk, Snapshot, Submissions, AfterLoss;
    var t, id := AfterLoss(hash, s, result), s.pc.env.id;
    RunNothing(hash, t);
    AfterLossShape(hash, s, result);
    u := AdvanceRecover(hash, t, [], t, id);
    u := AdvanceSubmit(hash, t, [] + [Recover(id)], u, Some(Transport));
  }

  lemma LostStageAfterCrash(hash: string -> string, t: State, env: Envelope, running: Record) returns (u: State)
    requires Inv(t) && env.id in Disk(t) && Disk(t)[env.id] == running
    requires running.status == Running && running.leaseId != "" && running.result.None? && !running.reported
    ensures Run(hash, t, [] + [Crash] + [Deliver(env, Saved)] + [Write(Saved)] + [Submit(None)]) == Some(u)
    ensures u.log == t.log + [Submitted(Request(running.taskId, running.leaseId, Recovery(env.id)))]
  {
    hide Run, Step, Inv, Disk, OnDisk, Snapshot, Submissions, RecoveryIncomplete;
    RunNothing(hash, t);
    u := AdvanceCrash(hash, t, [], t);
    assert u.ledger.tasks[env.id] == RecoverRecord(running);
    u := AdvanceRedelivery(hash, t, [] + [Crash], u, env);
    u := AdvanceWrite(hash, t, [] + [Crash] + [Deliver(env, Saved)], u, Saved);
    u := AdvanceSubmit(hash, t, [] + [Crash] + [Deliver(env, Saved)] + [Write(Saved)], u, None);
  }

  /** From every state in which a task is executing, losing the staging write of
      anything but a recovery failure can make the agent submit two different
      results for it. */
  lemma LostStageSubmitsTwice(hash: string -> string, s: State, result: TaskResult)
    requires Inv(s) && s.pc.Executing? && result != Recovery(s.pc.env.id)
    ensures var end := Run(hash, AfterLoss(hash, s, result), Retaken(s.pc.env)); end.Some? && !OneResult(end.value.log, s.pc.env.id)
  {
    hide Step, Run, Inv, OnDisk, Snapshot, Submissions, Recovery, AfterLoss;
    var env, lease, t := s.pc.env, s.pc.lease, AfterLoss(hash, s, result);
    var u := LostStageUntilCrash(hash, s, result);
    ExecutingRecord(s);
    var end := LostStageAfterCrash(hash, u, env, s.ledger.tasks[env.id]);
    var first := [] + [Recover(env.id)] + [Submit(Some(Transport))];
    var second := [] + [Crash] + [Deliver(env, Saved)] + [Write(Saved)] + [Submit(None)];
    RunConcat(hash, t, first, second);
    assert Retaken(env) == first + second;
    var p, q := Request(env.id, lease, result), Request(env.id, lease, Recovery(env.id));
    LogStep(s.log, Submitted(p), env.id, "");
    LogStep(u.log, Submitted(q), env.id, "");
    assert p in Submissions(end.log, env.id) && q in Submissions(end.log, env.id);
  }

  /** The exact line between harmless and harmful losses: when the staging write
      of an execution result is lost, every way the run can go on keeps to one
      result exactly when the lost result was itself a recovery failure. */
  lemma LossHarmlessExactly(hash: string -> string, s: State, result: TaskResult)
    requires Inv(s) && ResultsOk(s) && s.pc.Executing?
    ensures (forall rest :: StaysOne(hash, AfterLoss(hash, s, result), rest, s.pc.env.id)) <==> result == Recovery(s.pc.env.id)
  {
    hide Step, Run, Inv, Submissions, Recovery, AfterLoss, OneResult, ResultsOk, StagesSaved, Retaken;
    var t, id := AfterLoss(hash, s, result), s.pc.env.id;
    if result == Recovery(id) {
      HarmlessLoss(hash, s, result);
      forall rest ensures StaysOne(hash, t, rest, id) {
        if Run(hash, t, rest).Some? && StagesSaved(hash, t, rest) {
          RunResults(hash, t, rest);
          ResultsOne(Run(hash, t, rest).value, id);
        }
      }
    } else {
      LostStageSubmitsTwice(hash, s, result);
      RetakenSaves(s.pc.env);
      NoneLost(hash, t, Retaken(s.pc.env));
      assert !StaysOne(hash, t, Retaken(s.pc.env), id);
    }
  }

  lemma RetakenSaves(env: Envelope)
    ensures forall i :: 0 <= i < |Retaken(env)| ==> Retaken(env)[i] != Write(Lost)
  {
  }

  lemma ResultsOne(s: State, id: string)
    requires ResultsOk(s)
    ensures OneResult(s.log, id)
  {
    assert ResultOk(s.ledger.tasks, Disk(s), s.log, id);
    hide Disk, Submissions, Recovery;
  }

  lemma HarmlessLoss(hash: string -> string, s: State, result: TaskResult)
    requires Inv(s) && ResultsOk(s) && s.pc.Executing? && result == Recovery(s.pc.env.id)
    ensures ResultsOk(AfterLoss(hash, s, result))
  {
    LedgerIndex(s);
    StepInv(hash, s, Finish(result));
    FinishResults(hash, s, result);
    var staging := Step(hash, s, Finish(result)).value;
    hide Inv, ResultsOk, OnDisk, StepWrite, Recovery;
    WriteResults(staging, Lost);
  }

  // ----------------------------------------- why keys must stay fixed

  lemma AdvanceNewTask(hash: string -> string, start: State, events: seq<Event>, s: State, env: Envelope) returns (next: State)
    requires Inv(start) && Run(hash, start, events) == Some(s) && s.pc.Idle?
    requires env.id !in s.ledger.tasks && forall id :: id in s.ledger.tasks ==> s.ledger.tasks[id].key != env.work.key
    ensures next.pc == Acking(env) && next.log == s.log && next.ledger.tasks == s.ledger.tasks[env.id := NewRecord(hash, env)]
    ensures Run(hash, start, events + [Deliver(env, Saved)]) == Some(next)
  {
    hide Run, OnDisk, Snapshot, DataOk, Fingerprint;
    Advance(hash, start, events, s, Deliver(env, Saved));
    next := Step(hash, s, Deliver(env, Saved)).value;
  }

  /** Marking a task running saves every record. */
  lemma RunningSaved(s: State)
    requires Inv(s) && s.pc.MarkingRunning?
    ensures var t := StepWrite(s, Saved); var id := s.pc.env.id;
            && t.pc == Ready(s.pc.env, s.pc.lease) && t.log == s.log && id in s.ledger.tasks
            && t.ledger.tasks == s.ledger.tasks[id := RunningRecord(s.ledger.tasks[id])] && Disk(t) == t.ledger.tasks
  {
    hide Inv, OnDisk, LedgerOk, Snapshot, ExecutedOk, RecordOk, RecordsOk, FileOk;
    InvControl(s);
    FiledUnder(s);
    InvDisk(s);
    PatchKeeps(s.ledger, s.pc.env.id, RunningRecord(s.ledger.tasks[s.pc.env.id]), Saved);
  }

  /** The events from a granted lease to the execution, with every write saved. */
  const EXECUTION := [Ack("", Granted), Write(Saved), Write(Saved), Begin]

  lemma AdvanceExecution(hash: string -> string, start: State, events: seq<Event>, s: State) returns (next: State)
    requires Inv(start) && Run(hash, start, events) == Some(s) && s.pc.Acking? && s.pc.env.id in s.ledger.tasks
    ensures Run(hash, start, events + EXECUTION) == Some(next) && next.pc.Executing? && next.pc.env == s.pc.env
    ensures next.log == s.log + [Executed(s.pc.env.id, s.ledger.tasks[s.pc.env.id].key, s.pc.env.work.key)]
    ensures Disk(next) == next.ledger.tasks && next.ledger.tasks.Keys == s.ledger.tasks.Keys
    ensures forall x :: x in s.ledger.tasks ==> next.ledger.tasks[x].key == s.ledger.tasks[x].key
  {
    hide Run, Step, Inv, OnDisk, Snapshot, Submissions, NewLeaseId;
    next := AdvanceAck(hash, start, events, s, "", Granted);
    next := AdvanceWrite(hash, start, events + [Ack("", Granted)], next, Saved);
    RunningSaved(next);
    next := AdvanceWrite(hash, start, events + [Ack("", Granted)] + [Write(Saved)], next, Saved);
    next := AdvanceBegin(hash, start, events + [Ack("", Granted)] + [Write(Saved)] + [Write(Saved)], next);
    assert events + [Ack("", Granted)] + [Write(Saved)] + [Write(Saved)] + [Begin] == events + EXECUTION;
  }

  /** A delivery whose acknowledgement fails, and a redelivery with other work. */
  function Redelivery(a: string, first: TaskWork, second: TaskWork): seq<Event> {
    [Deliver(Envelope(a, first), Saved)] + [Ack("", AckFailed)] + [Deliver(Envelope(a, second), Saved)]
  }

  /** The stored fingerprint is not compared when a known id is delivered again:
      the task is taken on with the second work under the first key. */
  lemma Redelivered(hash: string -> string, start: State, events: seq<Event>, s: State, a: string, first: TaskWork, second: TaskWork)
    returns (next: State)
    requires Inv(start) && Run(hash, start, events) == Some(s) && s.pc.Idle? && s.ledger.tasks == map[]
    ensures Run(hash, start, events + Redelivery(a, first, second)) == Some(next)
    ensures next.pc == Acking(Envelope(a, second)) && next.log == s.log
    ensures next.ledger.tasks.Keys == {a} && next.ledger.tasks[a].key == first.key
  {
    hide Run, Step, Inv, RecoveryIncomplete, Fingerprint, NewLeaseId;
    var one, two := events + [Deliver(Envelope(a, first), Saved)], [Deliver(Envelope(a, first), Saved)] + [Ack("", AckFailed)];
    next := AdvanceNewTask(hash, start, events, s, Envelope(a, first));
    next := AdvanceAck(hash, start, one, next, "", AckFailed);
    next := AdvanceRedelivery(hash, start, one + [Ack("", AckFailed)], next, Envelope(a, second));
    assert one + [Ack("", AckFailed)] == events + two;
    assert events + two + [Deliver(Envelope(a, second), Saved)] == events + Redelivery(a, first, second);
  }

  /** A redelivery, its execution and a restart. */
  function FirstHalf(a: string, first: TaskWork, second: TaskWork): seq<Event> {
    [] + Redelivery(a, first, second) + EXECUTION + [Crash]
  }

  lemma ChangedKeyExecuted(hash: string -> string, a: string, first: TaskWork, second: TaskWork) returns (s: State)
    requires Inv(INIT)
    ensures Run(hash, INIT, FirstHalf(a, first, second)) == Some(s) && s.pc.Idle?
    ensures s.log == [Executed(a, first.key, second.key)] && s.ledger.tasks.Keys == {a} && s.ledger.tasks[a].key == first.key
  {
    hide Run, Step, Inv, Disk, EXECUTION, Redelivery, Reload, RESTART_NOTE;
    RunNothing(hash, INIT);
    s := Redelivered(hash, INIT, [], INIT, a, first, second);
    var events := [] + Redelivery(a, first, second);
    s := AdvanceExecution(hash, INIT, events, s);
    s := AdvanceCrash(hash, INIT, events + EXECUTION, s);
  }

  /** A control plane that changes the key of a task id can have two tasks
      executed under one key without a discard. */
  lemma ChangedKeyExecutesTwice(hash: string -> string, a: string, b: string, first: TaskWork, second: TaskWork) returns (end: State)
    requires a != b && first.key != second.key
    ensures Reached(hash, FirstHalf(a, first, second) + [Deliver(Envelope(b, second), Saved)] + EXECUTION) == Some(end)
    ensures EnvelopeKeyExecutions(end.log, second.key) == 2
  {
    hide Run, Step, Inv, OnDisk, Snapshot, Submissions, Disk, EXECUTION, FirstHalf, EnvelopeKeyExecutions;
    InitInv();
    var s := ChangedKeyExecuted(hash, a, first, second);
    s := AdvanceNewTask(hash, INIT, FirstHalf(a, first, second), s, Envelope(b, second));
    end := AdvanceExecution(hash, INIT, FirstHalf(a, first, second) + [Deliver(Envelope(b, second), Saved)], s);
    var x, y := Executed(a, first.key, second.key), Executed(b, second.key, second.key);
    NoExecutions(second.key);
    CountSnoc([], x, second.key);
    CountSnoc([x], y, second.key);
    assert [] + [x] == [x];
  }

  lemma NoExecutions(key: string)
    ensures EnvelopeKeyExecutions([], key) == 0
  {
  }

  lemma CountSnoc(log: seq<Observation>, o: Observation, key: string)
    ensures EnvelopeKeyExecutions(log + [o], key) ==
            if o.Discarded? && o.key == key then 0 else EnvelopeKeyExecutions(log, key) + (if o.Executed? && o.envKey == key then 1 else 0)
  {
    assert (log + [o])[..|log|] == log;
  }

  // ------------------------------------------------ the exact condition

  const GONE := Some(Refused(404, "", ""))
  const DONE := TaskResult(true, "", "", Null)

  /** From the end of an execution to the discard of its record. */
  const DROP := [Finish(DONE), Write(Saved), Submit(GONE), Write(Saved)]

  /** What a discarded execution leaves of a ledger that held nothing else. */
  lemma AdvanceDrop(hash: string -> string, start: State, events: seq<Event>, s: State) returns (next: State)
    requires Inv(start) && Run(hash, start, events) == Some(s) && s.pc.Executing? && s.ledger.tasks.Keys == {s.pc.env.id}
    ensures Run(hash, start, events + DROP) == Some(next) && next.pc.Idle? && next.ledger.tasks == map[]
    ensures exists q :: next.log == s.log + [Submitted(q)] + [Discarded(s.pc.env.id, s.ledger.tasks[s.pc.env.id].key)]
  {
    hide Run, Step, Inv, OnDisk, Snapshot, STAGE_NOTE, DONE;
    FiledUnder(s);
    next := AdvanceFinish(hash, start, events, s, DONE);
    next := AdvanceWrite(hash, start, events + [Finish(DONE)], next, Saved);
    next := AdvanceSubmit(hash, start, events + [Finish(DONE)] + [Write(Saved)], next, GONE);
    next := AdvanceWrite(hash, start, events + [Finish(DONE)] + [Write(Saved)] + [Submit(GONE)], next, Saved);
    assert events + [Finish(DONE)] + [Write(Saved)] + [Submit(GONE)] + [Write(Saved)] == events + DROP;
  }

  /** One id delivered under two keys, executed under the second, and discarded:
      the record was filed under the first key, so the discard goes to that. */
  function Cycle(a: string, first: TaskWork, second: TaskWork): seq<Event> {
    Redelivery(a, first, second) + EXECUTION + DROP
  }

  lemma AdvanceCycle(hash: string -> string, start: State, events: seq<Event>, s: State, a: string, first: TaskWork, second: TaskWork)
    returns (next: State)
    requires Inv(start) && Run(hash, start, events) == Some(s) && s.pc.Idle? && s.ledger.tasks == map[] && first.key != second.key
    ensures Run(hash, start, events + Cycle(a, first, second)) == Some(next) && next.pc.Idle? && next.ledger.tasks == map[]
    ensures EnvelopeKeyExecutions(next.log, second.key) == EnvelopeKeyExecutions(s.log, second.key) + 1
  {
    hide Run, Step, Inv, Disk, EXECUTION, DROP, Redelivery, EnvelopeKeyExecutions;
    next := Redelivered(hash, start, events, s, a, first, second);
    next := AdvanceExecution(hash, start, events + Redelivery(a, first, second), next);
    var ran := next.log;
    next := AdvanceDrop(hash, start, events + Redelivery(a, first, second) + EXECUTION, next);
    var q :| next.log == ran + [Submitted(q)] + [Discarded(a, first.key)];
    CountSnoc(s.log, Executed(a, first.key, second.key), second.key);
    CountSnoc(ran, Submitted(q), second.key);
    CountSnoc(ran + [Submitted(q)], Discarded(a, first.key), second.key);
    assert events + Redelivery(a, first, second) + EXECUTION + DROP == events + Cycle(a, first, second);
  }

  /** Every delivery of the run is one that the control plane may make. */
  ghost predicate Delivers(events: seq<Event>, may: (string, string) -> bool) {
    forall i :: 0 <= i < |events| && events[i].Deliver? ==> may(events[i].env.id, events[i].env.work.key)
  }

  /** In this run the key is executed at most once before a discard. */
  ghost predicate KeyOnce(hash: string -> string, may: (string, string) -> bool, events: seq<Event>, key: string) {
    Reached(hash, events).Some? && Delivers(events, may) ==> EnvelopeKeyExecutions(Reached(hash, events).value.log, key) <= 1
  }

  /** No task id comes with two keys. */
  ghost predicate OneKeyEach(may: (string, string) -> bool) {
    forall id, k, k' :: may(id, k) && may(id, k') ==> k == k'
  }

  ghost function KeyOf(may: (string, string) -> bool, id: string): string {
    if exists k :: may(id, k) then var k :| may(id, k); k else ""
  }

  lemma FixedKeysOnce(hash: string -> string, may: (string, string) -> bool, events: seq<Event>, key: string)
    requires OneKeyEach(may)
    ensures KeyOnce(hash, may, events, key)
  {
    hide Reached, EnvelopeKeyExecutions;
    if Reached(hash, events).Some? && Delivers(events, may) {
      var keyOf := id => KeyOf(may, id);
      assert KeysFixed(events, keyOf);
      AtMostOncePerKey(hash, events, keyOf, key);
    }
  }

  lemma TwoKeysTwice(hash: string -> string, may: (string, string) -> bool, id: string, k: string, k': string)
    requires may(id, k) && may(id, k') && k != k'
    ensures exists events :: !KeyOnce(hash, may, events, k')
  {
    hide Run, Step, Inv, Cycle, EnvelopeKeyExecutions;
    var first, second := TaskWork("", "", "", k, map[]), TaskWork("", "", "", k', map[]);
    var once := [] + Cycle(id, first, second);
    InitInv();
    RunNothing(hash, INIT);
    NoExecutions(k');
    var s := AdvanceCycle(hash, INIT, [], INIT, id, first, second);
    s := AdvanceCycle(hash, INIT, once, s, id, first, second);
    var events := once + Cycle(id, first, second);
    CycleDelivers(may, id, first, second);
    assert Delivers(events, may);
    assert !KeyOnce(hash, may, events, k');
  }

  lemma CycleDelivers(may: (string, string) -> bool, a: string, first: TaskWork, second: TaskWork)
    requires may(a, first.key) && may(a, second.key)
    ensures Delivers(Cycle(a, first, second), may)
  {
  }

  /** The exact condition. Over all runs whose deliveries the control plane may
      make, no delivered key is executed twice before a discard if and only if it
      never gives one task id two keys. */
  lemma KeyLimitExactly(hash: string -> string, may: (string, string) -> bool)
    ensures (forall events, key :: KeyOnce(hash, may, events, key)) <==> OneKeyEach(may)
  {
    hide KeyOnce;
    if OneKeyEach(may) {
      forall events, key ensures KeyOnce(hash, may, events, key) {
        FixedKeysOnce(hash, may, events, key);
      }
    } else {
      var id, k, k' :| may(id, k) && may(id, k') && k != k';
      TwoKeysTwice(hash, may, id, k, k');
    }
  }
}
