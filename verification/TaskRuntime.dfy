/** processTask, replayTaskResult and recoverOutstandingTasks as the sequential
    code they are, proved to drive the protocol machine with the answers of their
    environment. */
module TaskRuntime {
  import opened Wrappers
  import opened Text
  import opened StableJson
  import opened TaskLedger
  import opened TaskProtocol

  /** What the environment answers during one round. */
  datatype World = World(
    acceptWrite: WriteOutcome, clock: string, ack: AckReply, ackWrite: WriteOutcome, runWrite: WriteOutcome,
    result: TaskResult, stageWrite: WriteOutcome, submit: Option<SubmitError>, finalWrite: WriteOutcome)

  // ---------------------------------------------------------- the driver

  /** The event that takes the machine on from a control point. */
  function Answer(world: World, pc: Control): Event {
    match pc
    case Idle => Crash
    case Acking(_) => Ack(world.clock, world.ack)
    case MarkingAcked(_, _) => Write(world.ackWrite)
    case MarkingRunning(_, _) => Write(world.runWrite)
    case Ready(_, _) => Begin
    case Executing(_, _) => Finish(world.result)
    case Staging(_, _, _, _) => Write(world.stageWrite)
    case Submitting(_) => Submit(world.submit)
    case Discarding(_) => Write(world.finalWrite)
    case Reporting(_) => Write(world.finalWrite)
  }

  /** How many effects can still follow in the round. */
  function Effects(pc: Control): nat {
    match pc
    case Idle => 0
    case Acking(_) => 8
    case MarkingAcked(_, _) => 7
    case MarkingRunning(_, _) => 6
    case Ready(_, _) => 5
    case Executing(_, _) => 4
    case Staging(_, _, _, _) => 3
    case Submitting(_) => 2
    case Discarding(_) => 1
    case Reporting(_) => 1
  }

  /** A round never gets stuck, and ends. */
  lemma Answered(hash: string -> string, world: World, s: State)
    requires Inv(s) && !s.pc.Idle?
    ensures IndexAgrees(s.ledger.tasks, s.ledger.index)
    ensures var next := Step(hash, s, Answer(world, s.pc));
            next.Some? && Inv(next.value) && Effects(next.value.pc) < Effects(s.pc)
  {
    hide Inv, OnDisk, Submissions, NewLeaseId, STAGE_NOTE, IndexAgrees, Persist, StepIdle;
    InvControl(s);
    LedgerIndex(s);
    IndexFound(s.ledger);
    StepInv(hash, s, Answer(world, s.pc));
  }

  /** The state after the round, with every effect answered by the world. */
  ghost function Round(hash: string -> string, world: World, s: State): (r: State)
    requires Inv(s)
    ensures Inv(r) && r.pc.Idle?
    decreases Effects(s.pc)
  {
    if s.pc.Idle? then s
    else
      Answered(hash, world, s);
      Round(hash, world, Step(hash, s, Answer(world, s.pc)).value)
  }

  /** The last effect of the round ended it without an error. */
  predicate EndsWell(world: World, pc: Control) {
    match pc
    case Acking(_) => world.ack == OtherLease
    case Discarding(_) => world.finalWrite == Saved
    case Reporting(_) => world.finalWrite == Saved
    case _ => false
  }

  ghost predicate RoundOk(hash: string -> string, world: World, s: State)
    requires Inv(s) && !s.pc.Idle?
    decreases Effects(s.pc)
  {
    Answered(hash, world, s);
    var next := Step(hash, s, Answer(world, s.pc)).value;
    if next.pc.Idle? then EndsWell(world, s.pc) else RoundOk(hash, world, next)
  }

  ghost function RoundEvents(hash: string -> string, world: World, s: State): seq<Event>
    requires Inv(s)
    decreases Effects(s.pc)
  {
    if s.pc.Idle? then []
    else
      Answered(hash, world, s);
      [Answer(world, s.pc)] + RoundEvents(hash, world, Step(hash, s, Answer(world, s.pc)).value)
  }

  /** A round is a run of the machine, so what holds over every run holds of it. */
  lemma {:induction false} RoundIsRun(hash: string -> string, world: World, s: State)
    requires Inv(s)
    ensures Run(hash, s, RoundEvents(hash, world, s)) == Some(Round(hash, world, s))
    decreases Effects(s.pc)
  {
    if !s.pc.Idle? {
      Answered(hash, world, s);
      var next := Step(hash, s, Answer(world, s.pc)).value;
      RoundIsRun(hash, world, next);
      hide Inv, Step;
      var rest := RoundEvents(hash, world, next);
      assert ([Answer(world, s.pc)] + rest)[1..] == rest;
    }
  }

  /** One effect of a round. */
  lemma RoundStep(hash: string -> string, world: World, s: State) returns (next: State)
    requires Inv(s) && !s.pc.Idle?
    ensures IndexAgrees(s.ledger.tasks, s.ledger.index) && Step(hash, s, Answer(world, s.pc)) == Some(next)
    ensures Inv(next) && Round(hash, world, s) == Round(hash, world, next) && (next.pc.Idle? ==> Round(hash, world, s) == next)
    ensures RoundOk(hash, world, s) == if next.pc.Idle? then EndsWell(world, s.pc) else RoundOk(hash, world, next)
  {
    Answered(hash, world, s);
    next := Step(hash, s, Answer(world, s.pc)).value;
    hide Inv, Step, EndsWell;
  }

  lemma RoundWrite(hash: string -> string, world: World, s: State, w: WriteOutcome) returns (next: State)
    requires Inv(s) && Writing(s.pc) && Answer(world, s.pc) == Write(w)
    ensures next == StepWrite(s, w) && LedgerOk(s.ledger)
    ensures Inv(next) && Round(hash, world, s) == Round(hash, world, next) && (next.pc.Idle? ==> Round(hash, world, s) == next)
    ensures RoundOk(hash, world, s) == if next.pc.Idle? then EndsWell(world, s.pc) else RoundOk(hash, world, next)
  {
    assert LedgerOk(s.ledger);
    hide Inv, LedgerOk, StepWrite, Round, RoundOk;
    next := RoundStep(hash, world, s);
  }

  lemma RoundSubmit(hash: string -> string, world: World, s: State) returns (next: State)
    requires Inv(s) && s.pc.Submitting?
    ensures InHand(s.ledger.tasks, s.pc.record)
    ensures var r, reply := s.pc.record, world.submit;
            next == s.(log := s.log + [Submitted(RequestOf(r))],
                       pc := if reply.None? then Reporting(r) else if IsDiscardable(reply.value) then Discarding(r) else Idle)
    ensures Inv(next) && Round(hash, world, s) == Round(hash, world, next) && (next.pc.Idle? ==> Round(hash, world, s) == next)
    ensures RoundOk(hash, world, s) == if next.pc.Idle? then false else RoundOk(hash, world, next)
  {
    assert InHand(s.ledger.tasks, s.pc.record);
    hide Inv, Round, RoundOk;
    next := RoundStep(hash, world, s);
  }

  lemma RoundAck(hash: string -> string, world: World, s: State) returns (next: State)
    requires Inv(s) && s.pc.Acking?
    ensures next == s.(pc := if world.ack == Granted then MarkingAcked(s.pc.env, NewLeaseId(s.pc.env.id, world.clock)) else Idle)
    ensures Inv(next) && Round(hash, world, s) == Round(hash, world, next) && (next.pc.Idle? ==> Round(hash, world, s) == next)
    ensures RoundOk(hash, world, s) == if next.pc.Idle? then world.ack == OtherLease else RoundOk(hash, world, next)
  {
    hide Inv, Round, RoundOk, NewLeaseId;
    next := RoundStep(hash, world, s);
  }

  lemma RoundExecute(hash: string -> string, world: World, s: State) returns (next: State)
    requires Inv(s) && s.pc.Ready?
    ensures s.pc.env.id in s.ledger.tasks
    ensures next == s.(pc := Staging(s.pc.env.id, s.pc.lease, world.result, STAGE_NOTE),
                       log := s.log + [Executed(s.pc.env.id, s.ledger.tasks[s.pc.env.id].key, s.pc.env.work.key)])
    ensures Inv(next) && Round(hash, world, s) == Round(hash, world, next) && RoundOk(hash, world, s) == RoundOk(hash, world, next)
  {
    assert s.pc.env.id in s.ledger.tasks;
    hide Inv, Round, RoundOk, STAGE_NOTE;
    next := RoundStep(hash, world, s);
    next := RoundStep(hash, world, next);
  }

  /** The state just after a delivery was taken in. */
  ghost function Delivered(hash: string -> string, s: State, env: Envelope, w: WriteOutcome): (r: State)
    requires Inv(s) && s.pc.Idle?
    ensures Inv(r)
  {
    LedgerIndex(s);
    StepInv(hash, s, Deliver(env, w));
    Step(hash, s, Deliver(env, w)).value
  }

  // ------------------------------------------------------------- the code

  /** Submit a staged result; then report it, discard it, or leave it pending. */
  method ReplayTaskResult(hash: string -> string, ledger: LocalTaskLedger, record: Record, world: World, ghost log: seq<Observation>)
    returns (ok: bool, ghost log': seq<Observation>)
    requires Inv(State(ledger.View(), Submitting(record), log))
    modifies ledger
    ensures var s := State(old(ledger.View()), Submitting(record), log);
            State(ledger.View(), Idle, log') == Round(hash, world, s) && ok == RoundOk(hash, world, s)
    ensures InHand(old(ledger.tasks), record) && (ok <==> Delivers(world))
    ensures log' == log + [Submitted(RequestOf(record))] + (if Discards(world) then [Discarded(record.taskId, record.key)] else [])
    ensures ledger.tasks == Settled(old(ledger.tasks), record, world)
  {
    hide Round, RoundOk, Step, Inv, Snapshot, LedgerOk;
    ghost var s := State(ledger.View(), Submitting(record), log);
    s := RoundSubmit(hash, world, s);
    log' := s.log;
    if world.submit.Some? {
      if IsDiscardable(world.submit.value) {
        s := RoundWrite(hash, world, s, world.finalWrite);
        log' := s.log;
        ok := ledger.DiscardTask(record.taskId, world.finalWrite);
        return;
      }
      return false, log';
    }
    s := RoundWrite(hash, world, s, world.finalWrite);
    ok := ledger.MarkReported(record.taskId, record.result.value.success, world.finalWrite);
  }

  /** The control plane takes the result or drops the task, and that is saved. */
  predicate Delivers(world: World) {
    (world.submit.None? || Discards(world)) && world.finalWrite == Saved
  }

  predicate Discards(world: World) {
    world.submit.Some? && IsDiscardable(world.submit.value)
  }

  /** What becomes of the records when one of them is replayed. */
  ghost function Settled(tasks: map<string, Record>, record: Record, world: World): map<string, Record>
    requires record.result.Some?
  {
    if world.submit.None? then tasks[record.taskId := ReportedRecord(record, record.result.value.success)]
    else if Discards(world) then tasks - {record.taskId}
    else tasks
  }

  /** One delivered task, from acceptance to the reported result: the state
      afterwards is that of the driven machine, for whatever the world answers. */
  method ProcessTask(hash: string -> string, ledger: LocalTaskLedger, env: Envelope, world: World, ghost log: seq<Observation>)
    returns (ok: bool, ghost log': seq<Observation>)
    requires Inv(State(ledger.View(), Idle, log))
    modifies ledger
    ensures var s := Delivered(hash, State(old(ledger.View()), Idle, log), env, world.acceptWrite);
            && State(ledger.View(), Idle, log') == Round(hash, world, s)
            && ok == if s.pc.Idle? then Accept(hash, old(ledger.View()), env, world.acceptWrite).1.Accepted? else RoundOk(hash, world, s)
    ensures IndexAgrees(old(ledger.tasks), old(ledger.index))
    ensures log' == log + Handled(hash, old(ledger.tasks), old(ledger.index), env, world)
  {
    hide Round, RoundOk, OnDisk, Snapshot, Inv, Handled, Ran, Replayed, RecoveryIncomplete, LedgerOk;
    ghost var start := State(ledger.View(), Idle, log);
    ghost var s := Delivered(hash, start, env, world.acceptWrite);
    InvDisk(start);
    LedgerIndex(start);
    RoundIdle(hash, world, s);
    AcceptHandled(hash, start, env, world);
    log' := log;
    var outcome := ledger.AcceptTask(hash, env, world.acceptWrite);
    if !outcome.Accepted? { return false, log'; }
    var record := outcome.record;
    assert s == State(ledger.View(), Dispatch(env, record), log);

    if record.result.Some? && !record.reported {
      ok, log' := ReplayTaskResult(hash, ledger, record, world, log);
      return;
    }
    if Terminal(record.status) && record.reported { return true, log'; }
    if record.status == Recovering && record.leaseId != "" {
      ok, log' := StageAndReplay(hash, ledger, env.id, record.leaseId, RecoveryIncomplete(record.note, env.id), RECOVERY_NOTE, world, log);
      return;
    }
    ok, log' := AcknowledgeAndRun(hash, ledger, env, world, log);
  }

  /** What an envelope leads to, by what is known about it: a new task is taken on
      once it is recorded; of a known one a waiting result is submitted, a reported
      one left alone, one cut off by a restart reported as such, and any other
      taken on; a key in use for other work is refused. */
  function Handled(hash: string -> string, tasks: map<string, Record>, index: map<string, string>, env: Envelope, world: World): seq<Observation>
    requires forall k :: k in index ==> index[k] in tasks
  {
    if env.id in tasks then HandledAs(tasks, env, tasks[env.id], world)
    else if env.work.key !in index then
      if world.acceptWrite == Saved then Ran(tasks[env.id := NewRecord(hash, env)], env, world) else []
    else if tasks[index[env.work.key]].payloadHash == Fingerprint(hash, env.work) then HandledAs(tasks, env, tasks[index[env.work.key]], world)
    else []
  }

  function HandledAs(tasks: map<string, Record>, env: Envelope, r: Record, world: World): seq<Observation> {
    if r.result.Some? && !r.reported then
      [Submitted(RequestOf(r))] + (if Discards(world) then [Discarded(r.taskId, r.key)] else [])
    else if r.reported then []
    else if r.status == Recovering && r.leaseId != "" then Replayed(tasks, env.id, r.leaseId, RecoveryIncomplete(r.note, env.id), world)
    else Ran(tasks, env, world)
  }

  /** The record that accept returns decides what follows. */
  lemma AcceptHandled(hash: string -> string, s: State, env: Envelope, world: World)
    requires Inv(s) && s.pc.Idle?
    ensures IndexAgrees(s.ledger.tasks, s.ledger.index)
    ensures var (l, outcome) := Accept(hash, s.ledger, env, world.acceptWrite);
            && Handled(hash, s.ledger.tasks, s.ledger.index, env, world) ==
               (if outcome.Accepted? then HandledAs(l.tasks, env, outcome.record, world) else [])
            && (outcome.Accepted? ==> RecordOk(outcome.record))
  {
    hide Inv, OnDisk, Snapshot, Fingerprint, Ran, Replayed, RecoveryIncomplete;
    LedgerIndex(s);
    AcceptInv(hash, s, env, world.acceptWrite);
    var (l, outcome) := Accept(hash, s.ledger, env, world.acceptWrite);
    if outcome.Accepted? { InvRecord(s.(ledger := l), outcome.record.taskId); }
  }

  lemma RoundIdle(hash: string -> string, world: World, s: State)
    requires Inv(s)
    ensures s.pc.Idle? ==> Round(hash, world, s) == s
  {
  }

  /** Take the lease, record it, record the start, and execute: the task is
      executed next exactly when all three go well and the task is known. */
  method AcknowledgeAndRun(hash: string -> string, ledger: LocalTaskLedger, env: Envelope, world: World, ghost log: seq<Observation>)
    returns (ok: bool, ghost log': seq<Observation>)
    requires Inv(State(ledger.View(), Acking(env), log))
    modifies ledger
    ensures var s := State(old(ledger.View()), Acking(env), log);
            State(ledger.View(), Idle, log') == Round(hash, world, s) && ok == RoundOk(hash, world, s)
    ensures log' == log + Ran(old(ledger.tasks), env, world)
    ensures ok <==> if world.ack != Granted then world.ack == OtherLease else Runs(old(ledger.tasks), env, world) && world.stageWrite == Saved && Delivers(world)
  {
    hide Round, RoundOk, Step, Inv, OnDisk, Snapshot, LedgerOk, NewLeaseId;
    ghost var s := State(ledger.View(), Acking(env), log);
    var lease := NewLeaseId(env.id, world.clock);
    log' := log;
    s := RoundAck(hash, world, s);
    if world.ack != Granted { return world.ack == OtherLease, log'; }

    s := RoundWrite(hash, world, s, world.ackWrite);
    var acked := ledger.MarkAcked(env.id, lease, world.ackWrite);
    assert s.ledger == ledger.View();
    if !acked { return false, log'; }

    s := RoundWrite(hash, world, s, world.runWrite);
    var running := ledger.MarkRunning(env.id, world.runWrite);
    assert s.ledger == ledger.View();
    if !running { return false, log'; }

    ok, log' := ExecuteAndReplay(hash, ledger, env, lease, world, log);
  }

  /** The task is known, the lease is granted, and both steps are recorded. */
  predicate Runs(tasks: map<string, Record>, env: Envelope, world: World) {
    env.id in tasks && world.ack == Granted && world.ackWrite == Saved && world.runWrite == Saved
  }

  /** What taking a task on adds to the log. */
  function Ran(tasks: map<string, Record>, env: Envelope, world: World): seq<Observation> {
    if !Runs(tasks, env, world) then []
    else [Executed(env.id, tasks[env.id].key, env.work.key)] + Replayed(tasks, env.id, NewLeaseId(env.id, world.clock), world.result, world)
  }

  /** What staging and replaying a result adds to the log. */
  function Replayed(tasks: map<string, Record>, id: string, lease: string, result: TaskResult, world: World): seq<Observation> {
    if id !in tasks || world.stageWrite != Saved then []
    else [Submitted(Request(id, lease, result))] + (if Discards(world) then [Discarded(id, tasks[id].key)] else [])
  }

  /** executeTask and what follows it. */
  method ExecuteAndReplay(hash: string -> string, ledger: LocalTaskLedger, env: Envelope, lease: string, world: World, ghost log: seq<Observation>)
    returns (ok: bool, ghost log': seq<Observation>)
    requires Inv(State(ledger.View(), Ready(env, lease), log))
    modifies ledger
    ensures var s := State(old(ledger.View()), Ready(env, lease), log);
            State(ledger.View(), Idle, log') == Round(hash, world, s) && ok == RoundOk(hash, world, s)
    ensures env.id in old(ledger.tasks) && (ok <==> world.stageWrite == Saved && Delivers(world))
    ensures log' == log + [Executed(env.id, old(ledger.tasks)[env.id].key, env.work.key)]
                    + Replayed(old(ledger.tasks), env.id, lease, world.result, world)
  {
    hide Round, RoundOk, Step, Inv, OnDisk, Snapshot, LedgerOk, STAGE_NOTE;
    ghost var s := State(ledger.View(), Ready(env, lease), log);
    s := RoundExecute(hash, world, s);
    ok, log' := StageAndReplay(hash, ledger, env.id, lease, world.result, STAGE_NOTE, world, s.log);
  }

  /** Stage a result and replay it. After a successful staging the record is
      there, so the lookup that follows cannot fail, and what was staged is what
      is submitted. */
  method StageAndReplay(hash: string -> string, ledger: LocalTaskLedger, id: string, lease: string, result: TaskResult, note: string,
                        world: World, ghost log: seq<Observation>)
    returns (ok: bool, ghost log': seq<Observation>)
    requires Inv(State(ledger.View(), Staging(id, lease, result, note), log))
    modifies ledger
    ensures var s := State(old(ledger.View()), Staging(id, lease, result, note), log);
            State(ledger.View(), Idle, log') == Round(hash, world, s) && ok == RoundOk(hash, world, s)
    ensures log' == log + Replayed(old(ledger.tasks), id, lease, result, world)
    ensures ok <==> id in old(ledger.tasks) && world.stageWrite == Saved && Delivers(world)
  {
    hide Round, RoundOk, Step, Inv, OnDisk, Snapshot, LedgerOk;
    ghost var s := State(ledger.View(), Staging(id, lease, result, note), log);
    FiledUnder(s);
    s := RoundWrite(hash, world, s, world.stageWrite);
    log' := log;
    var staged := ledger.StageResult(id, lease, result, note, world.stageWrite);
    if !staged { return false, log'; }
    var record := ledger.tasks[id];
    ok, log' := ReplayTaskResult(hash, ledger, record, world, log);
  }

  // ------------------------------------------------------------- recovery

  predicate Unfinished(r: Record) {
    !(Terminal(r.status) && r.reported)
  }

  ghost predicate DistinctIds(records: seq<Record>) {
    forall i, j :: 0 <= i < j < |records| ==> records[i].taskId != records[j].taskId
  }

  /** Ordered by the time of their last update; `stamp` gives it by task id. */
  ghost predicate Ordered(stamp: string -> string, records: seq<Record>) {
    forall i, j :: 0 <= i < j < |records| ==> Leq(stamp(records[i].taskId), stamp(records[j].taskId))
  }

  function Place(stamp: string -> string, r: Record, records: seq<Record>): seq<Record> {
    if records == [] || Leq(stamp(r.taskId), stamp(records[0].taskId)) then [r] + records
    else [records[0]] + Place(stamp, r, records[1..])
  }

  lemma {:induction false} PlaceExact(stamp: string -> string, r: Record, records: seq<Record>)
    requires Ordered(stamp, records) && DistinctIds(records) && forall x :: x in records ==> x.taskId != r.taskId
    ensures Ordered(stamp, Place(stamp, r, records)) && DistinctIds(Place(stamp, r, records))
    ensures forall x :: x in Place(stamp, r, records) <==> x == r || x in records
  {
    hide Leq;
    if records == [] { return; }
    var first, placed := records[0], Place(stamp, r, records);
    assert records == [first] + records[1..];
    if Leq(stamp(r.taskId), stamp(first.taskId)) {
      forall j | 1 <= j < |records| ensures Leq(stamp(r.taskId), stamp(records[j].taskId)) {
        LeqTransitive(stamp(r.taskId), stamp(first.taskId), stamp(records[j].taskId));
      }
    } else {
      LeqTotal(stamp(r.taskId), stamp(first.taskId));
      PlaceExact(stamp, r, records[1..]);
      var rest := Place(stamp, r, records[1..]);
      forall j | 0 <= j < |rest| ensures Leq(stamp(first.taskId), stamp(rest[j].taskId)) && rest[j].taskId != first.taskId {
        assert rest[j] in rest;
      }
    }
  }

  /** Every unfinished record once, ordered by update time. */
  method Recoverable(ledger: LocalTaskLedger, stamp: string -> string) returns (records: seq<Record>)
    requires LedgerOk(ledger.View())
    ensures DistinctIds(records) && Ordered(stamp, records)
    ensures forall r :: r in records <==> r.taskId in ledger.tasks && ledger.tasks[r.taskId] == r && Unfinished(r)
  {
    hide OnDisk, Leq, FileOk, Snapshot;
    records := [];
    var left := ledger.tasks.Keys;
    while left != {}
      invariant left <= ledger.tasks.Keys && DistinctIds(records) && Ordered(stamp, records)
      invariant forall r :: r in records <==> r.taskId in ledger.tasks && r.taskId !in left && ledger.tasks[r.taskId] == r && Unfinished(r)
      decreases left
    {
      var id :| id in left;
      var task := ledger.tasks[id];
      left := left - {id};
      if Unfinished(task) {
        PlaceExact(stamp, task, records);
        records := Place(stamp, task, records);
      }
    }
  }

  /** The requests submitted for a task in a stretch of the log, in order. */
  function Requests(log: seq<Observation>, id: string): seq<Request> {
    if log == [] then []
    else
      var last := log[|log| - 1];
      Requests(log[..|log| - 1], id) + (if last.Submitted? && last.request.taskId == id then [last.request] else [])
  }

  predicate Waits(tasks: map<string, Record>, id: string) {
    id in tasks && tasks[id].result.Some? && !tasks[id].reported
  }

  /** What recovery leaves of one task. */
  function Recovered(tasks: map<string, Record>, worlds: string -> World, id: string): Option<Record> {
    if id !in tasks then None
    else if !Waits(tasks, id) then Some(tasks[id])
    else if worlds(id).submit.None? then Some(ReportedRecord(tasks[id], tasks[id].result.value.success))
    else if Discards(worlds(id)) then None
    else Some(tasks[id])
  }

  function Lookup(tasks: map<string, Record>, id: string): Option<Record> {
    if id in tasks then Some(tasks[id]) else None
  }

  // ------------------------------------------------- one record recovered

  lemma RequestsSnoc(log: seq<Observation>, o: Observation, id: string)
    ensures Requests(log + [o], id) == Requests(log, id) + (if o.Submitted? && o.request.taskId == id then [o.request] else [])
  {
    assert (log + [o])[..|log|] == log;
  }

  /** A replay submits one request, for its own task. */
  lemma ReplayRequests(added: seq<Observation>, record: Record, world: World, id: string)
    requires record.result.Some?
    ensures Requests(added + [Submitted(RequestOf(record))] + (if Discards(world) then [Discarded(record.taskId, record.key)] else []), id)
            == Requests(added, id) + (if record.taskId == id then [RequestOf(record)] else [])
  {
    hide Requests, Discards;
    RequestsSnoc(added, Submitted(RequestOf(record)), id);
    var one := added + [Submitted(RequestOf(record))];
    if Discards(world) {
      RequestsSnoc(one, Discarded(record.taskId, record.key), id);
    } else {
      assert one + [] == one;
    }
  }

  /** Taking up a waiting result and replaying it is a stretch of the run. */
  lemma RecoverRun(hash: string -> string, start: State, events: seq<Event>, s: State, id: string, world: World) returns (more: seq<Event>)
    requires Inv(start) && Run(hash, start, events) == Some(s) && s.pc.Idle? && Waits(s.ledger.tasks, id)
    ensures var taken := s.(pc := Submitting(s.ledger.tasks[id]));
            Inv(taken) && Run(hash, start, more) == Some(Round(hash, world, taken))
  {
    LedgerIndex(s);
    StepInv(hash, s, Recover(id));
    var taken := s.(pc := Submitting(s.ledger.tasks[id]));
    assert Step(hash, s, Recover(id)) == Some(taken);
    RoundIsRun(hash, world, taken);
    hide Inv, Step, Round, RoundEvents;
    var rest := RoundEvents(hash, world, taken);
    assert ([Recover(id)] + rest)[1..] == rest;
    more := events + ([Recover(id)] + rest);
    RunConcat(hash, start, events, [Recover(id)] + rest);
  }

  predicate Among(records: seq<Record>, i: nat, id: string)
    requires i <= |records|
  {
    exists j :: 0 <= j < i && records[j].taskId == id
  }

  lemma AmongNext(records: seq<Record>, i: nat, id: string)
    requires i < |records|
    ensures Among(records, i + 1, id) <==> Among(records, i, id) || records[i].taskId == id
  {
    if Among(records, i, id) {
      var j :| 0 <= j < i && records[j].taskId == id;
      assert j < i + 1;
    }
  }

  /** The part of the recovery that is done after the first records. */
  ghost predicate Done(was: map<string, Record>, now: map<string, Record>, added: seq<Observation>, worlds: string -> World,
                       records: seq<Record>, i: nat, id: string)
    requires i <= |records|
  {
    && Lookup(now, id) == (if Among(records, i, id) then Recovered(was, worlds, id) else Lookup(was, id))
    && Requests(added, id) == if Among(records, i, id) && Waits(was, id) then [RequestOf(was[id])] else []
  }

  lemma NotYet(records: seq<Record>, i: nat)
    requires DistinctIds(records) && i < |records|
    ensures !Among(records, i, records[i].taskId)
  {
  }

  lemma DoneSkipped(was: map<string, Record>, now: map<string, Record>, added: seq<Observation>, worlds: string -> World,
                    records: seq<Record>, i: nat, id: string)
    requires DistinctIds(records) && i < |records| && Done(was, now, added, worlds, records, i, id) && !Waits(was, records[i].taskId)
    ensures Done(was, now, added, worlds, records, i + 1, id)
  {
    hide Among, Requests, Waits;
    NotYet(records, i);
    AmongNext(records, i, id);
  }

  lemma DoneReplayed(was: map<string, Record>, now: map<string, Record>, added: seq<Observation>, worlds: string -> World,
                     records: seq<Record>, i: nat, id: string)
    requires DistinctIds(records) && i < |records| && Done(was, now, added, worlds, records, i, id)
    requires var r := records[i]; r.taskId in was && was[r.taskId] == r && Waits(was, r.taskId)
    ensures var r := records[i]; var world := worlds(r.taskId);
            Done(was, Settled(now, r, world),
                 added + [Submitted(RequestOf(r))] + (if Discards(world) then [Discarded(r.taskId, r.key)] else []),
                 worlds, records, i + 1, id)
  {
    hide Among, Requests, Discards;
    NotYet(records, i);
    AmongNext(records, i, id);
    ReplayRequests(added, records[i], worlds(records[i].taskId), id);
  }

  lemma AllWaiting(was: map<string, Record>, records: seq<Record>, id: string)
    requires Waits(was, id) && was[id].taskId == id
    requires forall r :: r in records <==> r.taskId in was && was[r.taskId] == r && Unfinished(r)
    ensures Among(records, |records|, id)
  {
    assert was[id] in records;
  }

  /** recoverOutstandingTasks: every waiting result is submitted exactly once, as
      stored, and each task ends as its own answer says, whatever happens to the
      others. The records were copied before the loop and still match the ledger
      when their turn comes. */
  method RecoverOutstandingTasks(hash: string -> string, ledger: LocalTaskLedger, worlds: string -> World, stamp: string -> string,
                                 ghost log: seq<Observation>)
    returns (ghost events: seq<Event>, ghost log': seq<Observation>)
    requires Inv(State(ledger.View(), Idle, log))
    modifies ledger
    ensures Run(hash, State(old(ledger.View()), Idle, log), events) == Some(State(ledger.View(), Idle, log'))
    ensures log <= log'
    ensures forall id :: Requests(log'[|log|..], id) == if Waits(old(ledger.tasks), id) then [RequestOf(old(ledger.tasks)[id])] else []
    ensures forall id :: Lookup(ledger.tasks, id) == Recovered(old(ledger.tasks), worlds, id)
  {
    hide Inv, Run, Round, RoundOk, Step, Requests, LedgerOk, Ordered, Place, Snapshot, OnDisk, Terminal, Done, Settled, Discards, Among, DistinctIds;
    ghost var start := State(ledger.View(), Idle, log);
    ghost var was := ledger.tasks;
    InvDisk(start);
    LedgerIndex(start);
    FiledUnder(start);
    RunNothing(hash, start);
    var records := Recoverable(ledger, stamp);
    ghost var added: seq<Observation> := [];
    events, log' := [], log;
    NoneDone(was, worlds, records);
    for i := 0 to |records|
      invariant Run(hash, start, events) == Some(State(ledger.View(), Idle, log')) && log' == log + added
      invariant forall id :: Done(was, ledger.tasks, added, worlds, records, i, id)
    {
      var record := records[i];
      ghost var next := i + 1;
      assert record in records;
      if record.result.Some? && !record.reported {
        Unchanged(was, ledger.tasks, added, worlds, records, i);
        events := RecoverRun(hash, start, events, State(ledger.View(), Idle, log'), record.taskId, worlds(record.taskId));
        ghost var now, before, world := ledger.tasks, added, worlds(record.taskId);
        var ok;
        ok, log' := ReplayTaskResult(hash, ledger, record, worlds(record.taskId), log');
        added := before + [Submitted(RequestOf(record))] + (if Discards(world) then [Discarded(record.taskId, record.key)] else []);
        assert log' == log + added;
        forall id ensures Done(was, ledger.tasks, added, worlds, records, next, id) {
          DoneReplayed(was, now, before, worlds, records, i, id);
        }
      } else {
        forall id ensures Done(was, ledger.tasks, added, worlds, records, next, id) {
          DoneSkipped(was, ledger.tasks, added, worlds, records, i, id);
        }
      }
    }
    assert log'[|log|..] == added;
    forall id {
      WhollyDone(was, ledger.tasks, added, worlds, records, id);
    }
  }

  lemma NoneDone(was: map<string, Record>, worlds: string -> World, records: seq<Record>)
    ensures forall id :: Done(was, was, [], worlds, records, 0, id)
  {
  }

  /** A record whose turn has not come is as it was. */
  lemma Unchanged(was: map<string, Record>, now: map<string, Record>, added: seq<Observation>, worlds: string -> World, records: seq<Record>, i: nat)
    requires DistinctIds(records) && i < |records| && (forall id :: Done(was, now, added, worlds, records, i, id))
    requires records[i].taskId in was && was[records[i].taskId] == records[i]
    ensures records[i].taskId in now && now[records[i].taskId] == records[i]
  {
    NotYet(records, i);
    assert Done(was, now, added, worlds, records, i, records[i].taskId);
  }

  lemma WhollyDone(was: map<string, Record>, now: map<string, Record>, added: seq<Observation>, worlds: string -> World,
                   records: seq<Record>, id: string)
    requires forall id :: id in was ==> was[id].taskId == id
    requires forall r :: r in records <==> r.taskId in was && was[r.taskId] == r && Unfinished(r)
    requires forall id :: Done(was, now, added, worlds, records, |records|, id)
    ensures Requests(added, id) == if Waits(was, id) then [RequestOf(was[id])] else []
    ensures Lookup(now, id) == Recovered(was, worlds, id)
  {
    hide Requests, Among;
    assert Done(was, now, added, worlds, records, |records|, id);
    if Waits(was, id) { AllWaiting(was, records, id); }
  }
}
