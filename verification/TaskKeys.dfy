/** How often the agent executes under the idempotency keys that the control
    plane delivers. */
module TaskKeys {
  import opened Wrappers
  import opened TaskLedger
  import opened TaskProtocol

  /** Executions triggered by envelopes with a key since a record under that key
      was last discarded. */
  function EnvelopeKeyExecutions(log: seq<Observation>, key: string): nat {
    if log == [] then 0
    else
      var last := log[|log| - 1];
      if last.Discarded? && last.key == key then 0
      else EnvelopeKeyExecutions(log[..|log| - 1], key) + (if last.Executed? && last.envKey == key then 1 else 0)
  }

  /** The control plane keeps each task id's key fixed. */
  ghost predicate KeysFixed(events: seq<Event>, keyOf: string -> string) {
    forall i :: 0 <= i < |events| && events[i].Deliver? ==> events[i].env.work.key == keyOf(events[i].env.id)
  }

  ghost predicate ControlKey(pc: Control, keyOf: string -> string) {
    pc.Acking? || pc.MarkingAcked? || pc.MarkingRunning? || pc.Ready? || pc.Executing? ==> pc.env.work.key == keyOf(pc.env.id)
  }

  ghost predicate KeyedBy(tasks: map<string, Record>, keyOf: string -> string) {
    forall id :: id in tasks ==> tasks[id].key == keyOf(id)
  }

  ghost predicate LogKeys(log: seq<Observation>) {
    forall i :: 0 <= i < |log| && log[i].Executed? ==> log[i].key == log[i].envKey
  }

  ghost predicate FixedKeys(s: State, keyOf: string -> string) {
    KeyedBy(s.ledger.tasks, keyOf) && KeyedBy(Disk(s), keyOf) && ControlKey(s.pc, keyOf) && LogKeys(s.log)
  }

  lemma PatchKeys(l: Ledger, id: string, r: Record, w: WriteOutcome, keyOf: string -> string)
    requires LedgerOk(l) && KeyedBy(l.tasks, keyOf) && KeyedBy(OnDisk(l.file), keyOf)
    requires id in l.tasks && r.taskId == id && r.key == l.tasks[id].key
    ensures KeyedBy(Patch(l, id, r, w).tasks, keyOf) && KeyedBy(OnDisk(Patch(l, id, r, w).file), keyOf)
  {
    PatchKeeps(l, id, r, w);
  }

  lemma WriteKeys(s: State, w: WriteOutcome, keyOf: string -> string)
    requires Inv(s) && FixedKeys(s, keyOf)
    ensures FixedKeys(StepWrite(s, w), keyOf)
  {
    hide Inv, Persist, OnDisk, KeyedBy, LedgerOk;
    var l := s.ledger;
    InvControl(s);
    InvDisk(s);
    FiledUnder(s);
    match s.pc
    case MarkingAcked(env, lease) => if env.id in l.tasks { PatchKeys(l, env.id, AckedRecord(l.tasks[env.id], lease), w, keyOf); }
    case MarkingRunning(env, lease) => PatchKeys(l, env.id, RunningRecord(l.tasks[env.id]), w, keyOf);
    case Staging(id, lease, result, note) =>
      if id in l.tasks { PatchKeys(l, id, StagedRecord(l.tasks[id], lease, result, note), w, keyOf); }
    case Discarding(r) => DiscardKeys(l, r.taskId, w, keyOf);
    case Reporting(r) => PatchKeys(l, r.taskId, ReportedRecord(r, r.result.value.success), w, keyOf);
    case _ =>
  }

  lemma DiscardKeys(l: Ledger, id: string, w: WriteOutcome, keyOf: string -> string)
    requires LedgerOk(l) && KeyedBy(l.tasks, keyOf) && KeyedBy(OnDisk(l.file), keyOf) && id in l.tasks
    ensures KeyedBy(Discard(l, id, w).tasks, keyOf) && KeyedBy(OnDisk(Discard(l, id, w).file), keyOf)
  {
    DiscardKeeps(l, id, w);
  }

  lemma DeliverKeys(hash: string -> string, l: Ledger, env: Envelope, w: WriteOutcome, keyOf: string -> string)
    requires LedgerOk(l) && KeyedBy(l.tasks, keyOf) && KeyedBy(OnDisk(l.file), keyOf) && env.work.key == keyOf(env.id)
    ensures var l' := Accept(hash, l, env, w).0; KeyedBy(l'.tasks, keyOf) && KeyedBy(OnDisk(l'.file), keyOf)
  {
    if env.id !in l.tasks && env.work.key !in l.index {
      var l' := Accept(hash, l, env, w).0;
      AcceptKeeps(hash, l, env, w);
      PersistExact(l.(tasks := l'.tasks, index := l'.index), w);
    }
  }

  lemma StepKeys(hash: string -> string, s: State, e: Event, keyOf: string -> string)
    requires Inv(s) && FixedKeys(s, keyOf) && Step(hash, s, e).Some?
    requires e.Deliver? ==> e.env.work.key == keyOf(e.env.id)
    ensures FixedKeys(Step(hash, s, e).value, keyOf)
  {
    hide Inv, StepWrite, Accept, OnDisk, FileOk, LoadTasks, LoadIndex;
    LedgerIndex(s);
    InvDisk(s);
    InvControl(s);
    if e.Crash? {
      ReloadExact(s.ledger.file);
    } else if e.Deliver? {
      DeliverKeys(hash, s.ledger, e.env, e.w, keyOf);
    } else if e.Write? {
      WriteKeys(s, e.w, keyOf);
    }
  }

  lemma {:induction false} RunKeys(hash: string -> string, s: State, events: seq<Event>, keyOf: string -> string)
    requires Inv(s) && FixedKeys(s, keyOf) && KeysFixed(events, keyOf) && Run(hash, s, events).Some?
    ensures FixedKeys(Run(hash, s, events).value, keyOf)
    decreases |events|
  {
    if events != [] {
      StepKeys(hash, s, events[0], keyOf);
      StepInv(hash, s, events[0]);
      RunKeys(hash, Step(hash, s, events[0]).value, events[1..], keyOf);
    }
  }

  lemma {:induction false} SameCount(log: seq<Observation>, key: string)
    requires forall i :: 0 <= i < |log| && log[i].Executed? ==> log[i].key == log[i].envKey
    ensures EnvelopeKeyExecutions(log, key) == KeyExecutions(log, key)
  {
    if log != [] { SameCount(log[..|log| - 1], key); }
  }

  /** With fixed keys, no delivered key is executed twice before a discard. */
  lemma AtMostOncePerKey(hash: string -> string, events: seq<Event>, keyOf: string -> string, key: string)
    requires Reached(hash, events).Some? && KeysFixed(events, keyOf)
    ensures EnvelopeKeyExecutions(Reached(hash, events).value.log, key) <= 1
  {
    InitInv();
    RunKeys(hash, INIT, events, keyOf);
    var s := Reached(hash, events).value;
    SameCount(s.log, key);
    assert KeyOk(s.ledger.index, s.log, key);
  }
}
