/** The plan executor of the Linux agent: which operations run, which are skipped,
    and how a run ends. */
module PlanExecutor {
  import opened Wrappers

  // ------------------------------------------------------------- executor

  datatype Kind =
    | ServiceStatus | FileBackup | MaterialValidate | AtomicReplace | StoreInstall | GenerateCsr | InstallIssued
    | FileRestore | ServiceControl | Command | NotExecutable

  /** `pathKey` is the cleaned path in lower case, `artifact` the content that the
      operation compares or writes, where it carries one. */
  datatype Operation = Operation(id: string, kind: Kind, path: string, pathKey: string, artifact: Option<string>)

  /** isAgentWriteOperationType. */
  predicate IsWrite(k: Kind) {
    k.FileBackup? || k.AtomicReplace? || k.FileRestore? || k.StoreInstall? || k.GenerateCsr? || k.InstallIssued?
    || k.ServiceControl? || k.Command?
  }

  /** What happens around one operation: the context is live before it, its
      handler succeeds, the context is live after it, and its handler reports
      that a backup's target already holds the wanted content, or that the key
      of a request was there already. */
  datatype Outcome = Outcome(liveBefore: bool, ran: bool, liveAfter: bool, alreadyCurrent: bool)

  datatype Status = SUCCEEDED | SKIPPED | FAILED | UNKNOWN

  datatype OpResult = OpResult(operationId: string, kind: Kind, status: Status)

  /** The executor's running state; `stopped` holds the status it stopped with. */
  datatype Progress = Progress(results: seq<OpResult>, noOpPaths: set<string>, noOpReplaces: nat, committed: bool, stopped: Option<Status>)

  const BEGIN := Progress([], {}, 0, false, None)

  function ReplaceCount(ops: seq<Operation>): nat {
    if ops == [] then 0 else ReplaceCount(ops[..|ops| - 1]) + (if ops[|ops| - 1].kind.AtomicReplace? then 1 else 0)
  }

  /** The operation is skipped because its target already matches. */
  predicate Skips(p: Progress, op: Operation, total: nat) {
    (op.kind.AtomicReplace? && op.pathKey in p.noOpPaths) ||
    (op.kind.Command? && op.id == "config-check" && total > 0 && p.noOpReplaces == total)
  }

  /** The handler ran, or was skipped, without error. */
  predicate Handled(p: Progress, op: Operation, o: Outcome, total: nat) {
    o.liveBefore && !op.kind.NotExecutable? && (Skips(p, op, total) || o.ran)
  }

  /** A success that the executor remembers as a committed write. */
  predicate Commits(p: Progress, op: Operation, o: Outcome, total: nat) {
    Handled(p, op, o, total) &&
    ((op.kind.AtomicReplace? && !Skips(p, op, total)) || op.kind.GenerateCsr? || op.kind.InstallIssued? || op.kind.ServiceControl?
     || (op.kind.FileBackup? && !Reports(op, o) && o.liveAfter))
  }

  /** Only a backup with content to compare and a key request report so. */
  predicate CanReport(op: Operation) {
    (op.kind.FileBackup? && op.artifact.Some?) || op.kind.GenerateCsr?
  }

  /** The handler's detail says that nothing had to change. A key request gives
      its detail even where the context ended meanwhile. */
  predicate Reports(op: Operation, o: Outcome) {
    o.liveBefore && o.alreadyCurrent && CanReport(op) && (o.ran || op.kind.GenerateCsr?)
  }

  function StepOp(p: Progress, op: Operation, o: Outcome, total: nat): Progress {
    if p.stopped.Some? then p
    else
      var handled := Handled(p, op, o, total);
      var committed := p.committed || Commits(p, op, o, total);
      var skippedReplace := o.liveBefore && op.kind.AtomicReplace? && Skips(p, op, total);
      var q := p.(
        committed := committed,
        noOpReplaces := p.noOpReplaces + (if skippedReplace then 1 else 0),
        noOpPaths := if Reports(op, o) then p.noOpPaths + {op.pathKey} else p.noOpPaths);
      if handled && o.liveAfter then
        q.(results := p.results + [OpResult(op.id, op.kind, if Skips(p, op, total) then SKIPPED else SUCCEEDED)])
      else
        var status := if IsWrite(op.kind) && (!op.kind.Command? || committed) then UNKNOWN else FAILED;
        q.(results := p.results + [OpResult(op.id, op.kind, status)], stopped := Some(status))
  }

  /** The state after the first operations of a plan. */
  function Execute(ops: seq<Operation>, outcomes: nat -> Outcome, n: nat): Progress
    requires n <= |ops|
  {
    if n == 0 then BEGIN else StepOp(Execute(ops, outcomes, n - 1), ops[n - 1], outcomes(n - 1), ReplaceCount(ops))
  }

  /** The loop of executeAgentPlan. */
  method ExecutePlan(ops: seq<Operation>, outcomes: nat -> Outcome) returns (p: Progress)
    ensures p == Execute(ops, outcomes, |ops|)
  {
    var total := 0;
    for i := 0 to |ops|
      invariant total == ReplaceCount(ops[..i])
    {
      assert ops[..i + 1][..i] == ops[..i];
      if ops[i].kind.AtomicReplace? { total := total + 1; }
    }
    assert ops[..|ops|] == ops;
    var results: seq<OpResult> := [];
    var noOpPaths: set<string> := {};
    var noOpReplaces := 0;
    var committed := false;
    p := BEGIN;
    for i := 0 to |ops|
      invariant p == Progress(results, noOpPaths, noOpReplaces, committed, None) && p == Execute(ops, outcomes, i)
    {
      var op, o := ops[i], outcomes(i);
      var ok, done := false, SUCCEEDED;
      if o.liveBefore {
        if op.kind.AtomicReplace? && op.pathKey in noOpPaths {
          noOpReplaces := noOpReplaces + 1;
          ok, done := true, SKIPPED;
        } else if op.kind.Command? && op.id == "config-check" && total > 0 && noOpReplaces == total {
          ok, done := true, SKIPPED;
        } else if !op.kind.NotExecutable? {
          ok := o.ran;
          if ok && (op.kind.AtomicReplace? || op.kind.GenerateCsr? || op.kind.InstallIssued? || op.kind.ServiceControl?) { committed := true; }
        }
      }
      if Reports(op, o) { noOpPaths := noOpPaths + {op.pathKey}; }
      ok := ok && o.liveAfter;
      if op.kind.FileBackup? && !Reports(op, o) && ok { committed := true; }
      if !ok {
        var status := if IsWrite(op.kind) && (!op.kind.Command? || committed) then UNKNOWN else FAILED;
        results := results + [OpResult(op.id, op.kind, status)];
        p := Progress(results, noOpPaths, noOpReplaces, committed, Some(status));
        assert p == Execute(ops, outcomes, i + 1);
        StoppedStays(ops, outcomes, i + 1, |ops|);
        return;
      }
      results := results + [OpResult(op.id, op.kind, done)];
      p := Progress(results, noOpPaths, noOpReplaces, committed, None);
    }
  }

  lemma {:induction false} StoppedStays(ops: seq<Operation>, outcomes: nat -> Outcome, m: nat, n: nat)
    requires m <= n <= |ops| && Execute(ops, outcomes, m).stopped.Some?
    ensures Execute(ops, outcomes, n) == Execute(ops, outcomes, m)
  {
    if m < n { StoppedStays(ops, outcomes, m, n - 1); }
  }

  /** Operation `i` is one the executor skips. */
  predicate SkipAt(ops: seq<Operation>, outcomes: nat -> Outcome, i: nat)
    requires i < |ops|
  {
    Skips(Execute(ops, outcomes, i), ops[i], ReplaceCount(ops))
  }

  lemma NothingRun(ops: seq<Operation>, outcomes: nat -> Outcome)
    ensures Execute(ops, outcomes, 0) == BEGIN && BEGIN.results == [] && BEGIN.noOpPaths == {} && BEGIN.stopped == None
    ensures BEGIN.noOpReplaces == 0 && !BEGIN.committed
  {
  }

  /** Operation `i` goes well: its context stays live, it has a handler, and the
      handler succeeds or is skipped. */
  predicate Fine(ops: seq<Operation>, outcomes: nat -> Outcome, i: nat)
    requires i < |ops|
  {
    outcomes(i).liveBefore && outcomes(i).liveAfter && !ops[i].kind.NotExecutable? && (outcomes(i).ran || SkipAt(ops, outcomes, i))
  }

  /** Operation `i`, if reached, changed something on the host that the executor
      keeps track of. */
  predicate ChangeAt(ops: seq<Operation>, outcomes: nat -> Outcome, i: nat)
    requires i < |ops|
  {
    var op, o := ops[i], outcomes(i);
    && Execute(ops, outcomes, i).stopped.None? && o.liveBefore && o.ran
    && match op.kind
       case AtomicReplace => !SkipAt(ops, outcomes, i)
       case GenerateCsr => true
       case InstallIssued => true
       case ServiceControl => true
       case FileBackup => o.liveAfter && !(op.artifact.Some? && o.alreadyCurrent)
       case _ => false
  }

  /** The kinds whose failure leaves the host as it was. */
  predicate Harmless(k: Kind) {
    k.ServiceStatus? || k.MaterialValidate? || k.NotExecutable?
  }

  /** What one operation adds, where the executor has not stopped. */
  lemma StepExact(ops: seq<Operation>, outcomes: nat -> Outcome, n: nat)
    requires n < |ops|
    ensures var p, q, op := Execute(ops, outcomes, n), Execute(ops, outcomes, n + 1), ops[n];
            if p.stopped.Some? then q == p
            else
              && |q.results| == |p.results| + 1 && q.results[..|p.results|] == p.results
              && (q.stopped.None? <==> Fine(ops, outcomes, n))
              && (q.committed <==> p.committed || ChangeAt(ops, outcomes, n))
              && (q.noOpPaths == if Reports(op, outcomes(n)) then p.noOpPaths + {op.pathKey} else p.noOpPaths)
              && q.noOpReplaces == p.noOpReplaces + (if outcomes(n).liveBefore && op.kind.AtomicReplace? && SkipAt(ops, outcomes, n) then 1 else 0)
              && var last := q.results[|p.results|];
                 && last.operationId == op.id && last.kind == op.kind
                 && (if q.stopped.None? then last.status == (if SkipAt(ops, outcomes, n) then SKIPPED else SUCCEEDED)
                     else q.stopped == Some(last.status) &&
                          last.status == if Harmless(op.kind) || (op.kind.Command? && !p.committed) then FAILED else UNKNOWN)
  {
    hide ReplaceCount;
  }

  /** The results are the operations in order up to the first that did not
      succeed: each before it has a handler and is recorded as skipped exactly
      when it was skipped, and the last failed iff it stopped. */
  lemma {:induction false} ResultsExact(ops: seq<Operation>, outcomes: nat -> Outcome, n: nat)
    requires n <= |ops|
    ensures var p := Execute(ops, outcomes, n);
            && |p.results| <= n && (p.stopped.None? ==> |p.results| == n)
            && (forall i :: 0 <= i < |p.results| ==> p.results[i].operationId == ops[i].id && p.results[i].kind == ops[i].kind)
            && (forall i :: 0 <= i < |p.results| && (i < |p.results| - 1 || p.stopped.None?) ==>
                  !ops[i].kind.NotExecutable? && p.results[i].status == if SkipAt(ops, outcomes, i) then SKIPPED else SUCCEEDED)
            && (p.stopped.Some? ==> p.results != [] && p.results[|p.results| - 1].status == p.stopped.value
                                    && (p.stopped.value == FAILED || p.stopped.value == UNKNOWN))
  {
    hide Execute, SkipAt;
    NothingRun(ops, outcomes);
    if n == 0 { return; }
    ResultsExact(ops, outcomes, n - 1);
    StepExact(ops, outcomes, n - 1);
    var p, q := Execute(ops, outcomes, n - 1), Execute(ops, outcomes, n);
    if p.stopped.None? {
      assert q.results == p.results + [q.results[n - 1]];
    }
  }

  /** Operation `i` was reached and reported that nothing had to change. */
  predicate ReportAt(ops: seq<Operation>, outcomes: nat -> Outcome, i: nat)
    requires i < |ops|
  {
    Execute(ops, outcomes, i).stopped.None? && Reports(ops[i], outcomes(i))
  }

  /** A path counts as unchanged exactly when an earlier backup or key request of
      a path with the same key reported so; a replace is skipped only then. */
  lemma {:induction false} NoOpExact(ops: seq<Operation>, outcomes: nat -> Outcome, n: nat, key: string)
    requires n <= |ops|
    ensures key in Execute(ops, outcomes, n).noOpPaths <==> exists j :: 0 <= j < n && ReportAt(ops, outcomes, j) && ops[j].pathKey == key
  {
    hide Execute, Reports, BEGIN;
    NothingRun(ops, outcomes);
    if n > 0 {
      NoOpExact(ops, outcomes, n - 1, key);
      StepExact(ops, outcomes, n - 1);
      assert key in Execute(ops, outcomes, n).noOpPaths <==>
             key in Execute(ops, outcomes, n - 1).noOpPaths || (ReportAt(ops, outcomes, n - 1) && ops[n - 1].pathKey == key);
      if exists j :: 0 <= j < n && ReportAt(ops, outcomes, j) && ops[j].pathKey == key {
        var j :| 0 <= j < n && ReportAt(ops, outcomes, j) && ops[j].pathKey == key;
        assert j == n - 1 || exists m :: 0 <= m < n - 1 && ReportAt(ops, outcomes, m) && ops[m].pathKey == key;
      }
    }
  }

  // ------------------------------------------------- reachable operations

  /** No operation before `i` is one the executor has no handler for. */
  predicate Reachable(ops: seq<Operation>, i: nat)
    requires i < |ops|
  {
    forall j :: 0 <= j < i ==> !ops[j].kind.NotExecutable?
  }

  /** Every operation runs well but `i`, whose context has ended. */
  function StopsAt(i: nat): nat -> Outcome {
    j => Outcome(j != i, true, true, false)
  }

  lemma {:induction false} GoesUntil(ops: seq<Operation>, i: nat, n: nat)
    requires n <= i < |ops| && Reachable(ops, i)
    ensures var p := Execute(ops, StopsAt(i), n); p.stopped.None? && |p.results| == n
  {
    hide Commits, IsWrite, ReplaceCount, Skips, Reports;
    if n > 0 { GoesUntil(ops, i, n - 1); }
  }

  /** A run can end at every reachable operation. */
  lemma EndsAt(ops: seq<Operation>, i: nat)
    requires i < |ops| && Reachable(ops, i)
    ensures |Execute(ops, StopsAt(i), |ops|).results| == i + 1
  {
    GoesUntil(ops, i, i);
    assert Execute(ops, StopsAt(i), i + 1).stopped.Some? && |Execute(ops, StopsAt(i), i + 1).results| == i + 1 by {
      hide Commits, IsWrite, ReplaceCount, Skips, Reports;
    }
    StoppedStays(ops, StopsAt(i), i + 1, |ops|);
  }

  // ------------------------------------------------------ justified skips

  /** The report of one operation speaks for another: same path, same content. */
  predicate Vouches(op: Operation, other: Operation) {
    op.kind.FileBackup? && op.path == other.path && op.artifact == other.artifact
  }

  /** Some reached operation before `i` found the very artifact of `i` at its path. */
  ghost predicate Justified(ops: seq<Operation>, outcomes: nat -> Outcome, i: nat)
    requires i < |ops|
  {
    exists j :: 0 <= j < i && ReportAt(ops, outcomes, j) && Vouches(ops[j], ops[i])
  }

  /** If operation `i` is reached and skipped, then rightly so. */
  ghost predicate SkipsRightly(ops: seq<Operation>, outcomes: nat -> Outcome, i: nat)
    requires i < |ops|
  {
    Execute(ops, outcomes, i).stopped.None? && SkipAt(ops, outcomes, i) ==> Justified(ops, outcomes, i)
  }

  /** Every earlier operation that can report under the same key speaks for `i`. */
  ghost predicate AllVouch(ops: seq<Operation>, i: nat)
    requires i < |ops|
  {
    forall j :: 0 <= j < i && CanReport(ops[j]) && ops[j].pathKey == ops[i].pathKey ==> Vouches(ops[j], ops[i])
  }

  /** Everything runs well and only operation `j` reports. */
  function OnlyReports(j: nat): nat -> Outcome {
    m => Outcome(true, true, true, m == j)
  }

  lemma {:induction false} RunsThrough(ops: seq<Operation>, j: nat, n: nat)
    requires n <= |ops| && forall m :: 0 <= m < n ==> !ops[m].kind.NotExecutable?
    ensures Execute(ops, OnlyReports(j), n).stopped.None?
  {
    hide Commits, IsWrite, ReplaceCount, Skips, Reports;
    if n > 0 { RunsThrough(ops, j, n - 1); }
  }

  /** A replace that can be reached is skipped only rightly, under all outcomes,
      exactly when every earlier backup or key request that can report under its
      path key is a backup of the same path with the same content. */
  lemma SkipsRightlyExactly(ops: seq<Operation>, i: nat)
    requires i < |ops| && ops[i].kind.AtomicReplace? && Reachable(ops, i)
    ensures (forall outcomes :: SkipsRightly(ops, outcomes, i)) <==> AllVouch(ops, i)
  {
    hide Execute, ReplaceCount;
    if AllVouch(ops, i) {
      forall outcomes ensures SkipsRightly(ops, outcomes, i) {
        NoOpExact(ops, outcomes, i, ops[i].pathKey);
      }
    } else {
      var j :| 0 <= j < i && CanReport(ops[j]) && ops[j].pathKey == ops[i].pathKey && !Vouches(ops[j], ops[i]);
      var outcomes := OnlyReports(j);
      RunsThrough(ops, j, i);
      RunsThrough(ops, j, j);
      NoOpExact(ops, outcomes, i, ops[i].pathKey);
      assert ReportAt(ops, outcomes, j);
      forall m | 0 <= m < i && m != j ensures !ReportAt(ops, outcomes, m) {
      }
      assert !SkipsRightly(ops, outcomes, i);
    }
  }

  /** A key request that finds its key there makes the executor skip a replace of
      the same path, whatever that would have written. */
  lemma KeyRequestSkipsReplace(path: string, key: string, artifact: string)
    ensures var ops := [Operation("key", GenerateCsr, path, key, None), Operation("replace", AtomicReplace, path, key, Some(artifact))];
            exists outcomes :: !SkipsRightly(ops, outcomes, 1)
  {
    var ops := [Operation("key", GenerateCsr, path, key, None), Operation("replace", AtomicReplace, path, key, Some(artifact))];
    hide SkipsRightly;
    assert CanReport(ops[0]) && ops[0].pathKey == ops[1].pathKey && !Vouches(ops[0], ops[1]);
    assert !AllVouch(ops, 1);
    SkipsRightlyExactly(ops, 1);
  }

  // ------------------------------------------------- how a run ends

  /** The executor remembers a committed write exactly when some operation it
      went through changed the host. */
  lemma {:induction false} CommittedExact(ops: seq<Operation>, outcomes: nat -> Outcome, n: nat)
    requires n <= |ops|
    ensures Execute(ops, outcomes, n).committed <==> exists i :: 0 <= i < n && ChangeAt(ops, outcomes, i)
  {
    hide Execute, SkipAt, Fine, Reports, Harmless, BEGIN;
    NothingRun(ops, outcomes);
    if n > 0 {
      CommittedExact(ops, outcomes, n - 1);
      StepExact(ops, outcomes, n - 1);
      assert ChangeAt(ops, outcomes, n - 1) ==> Execute(ops, outcomes, n - 1).stopped.None?;
      hide ChangeAt;
      if exists i :: 0 <= i < n && ChangeAt(ops, outcomes, i) {
        var i :| 0 <= i < n && ChangeAt(ops, outcomes, i);
        assert i == n - 1 || exists j :: 0 <= j < n - 1 && ChangeAt(ops, outcomes, j);
      }
    }
  }

  /** A run goes on exactly as long as every operation goes well. */
  lemma {:induction false} GoesOnExactly(ops: seq<Operation>, outcomes: nat -> Outcome, n: nat)
    requires n <= |ops|
    ensures Execute(ops, outcomes, n).stopped.None? <==> forall i :: 0 <= i < n ==> Fine(ops, outcomes, i)
  {
    hide Execute, SkipAt, Fine, ChangeAt, Reports, Harmless, BEGIN;
    NothingRun(ops, outcomes);
    if n > 0 {
      GoesOnExactly(ops, outcomes, n - 1);
      StepExact(ops, outcomes, n - 1);
    }
  }

  /** The failure of operation `k` leaves open whether the host was changed: it
      may have written itself, or it is a command after a tracked write. */
  ghost predicate Uncertain(ops: seq<Operation>, outcomes: nat -> Outcome, k: nat)
    requires k < |ops|
  {
    !Harmless(ops[k].kind) && (ops[k].kind.Command? ==> exists i :: 0 <= i < k && ChangeAt(ops, outcomes, i))
  }

  /** The first operation that does not go well ends the run: with UNKNOWN where
      its failure leaves the host uncertain, and with FAILED otherwise. */
  lemma StopsAtFirst(ops: seq<Operation>, outcomes: nat -> Outcome, k: nat, n: nat)
    requires k < n <= |ops| && (forall i :: 0 <= i < k ==> Fine(ops, outcomes, i)) && !Fine(ops, outcomes, k)
    ensures var p := Execute(ops, outcomes, n);
            && |p.results| == k + 1 && p.stopped == Some(if Uncertain(ops, outcomes, k) then UNKNOWN else FAILED)
            && p.results[k].status == p.stopped.value
  {
    hide Execute, SkipAt, Fine, ChangeAt, Reports, Harmless;
    GoesOnExactly(ops, outcomes, k);
    ResultsExact(ops, outcomes, k);
    CommittedExact(ops, outcomes, k);
    StepExact(ops, outcomes, k);
    StoppedStays(ops, outcomes, k + 1, n);
  }

  /** A run that stopped did so at the first operation that did not go well. */
  lemma {:induction false} FirstBad(ops: seq<Operation>, outcomes: nat -> Outcome, n: nat) returns (k: nat)
    requires n <= |ops| && Execute(ops, outcomes, n).stopped.Some?
    ensures k < n && (forall i :: 0 <= i < k ==> Fine(ops, outcomes, i)) && !Fine(ops, outcomes, k)
  {
    hide Execute, Fine, ChangeAt, Reports, Harmless, BEGIN;
    NothingRun(ops, outcomes);
    if Execute(ops, outcomes, n - 1).stopped.Some? {
      k := FirstBad(ops, outcomes, n - 1);
    } else {
      k := n - 1;
      GoesOnExactly(ops, outcomes, k);
      StepExact(ops, outcomes, k);
    }
  }

  /** A run reported as FAILED stopped at an operation that cannot have written, or
      at a command before which no operation had changed the host. */
  lemma FailedMeansNothingTracked(ops: seq<Operation>, outcomes: nat -> Outcome, n: nat)
    requires n <= |ops| && Execute(ops, outcomes, n).stopped == Some(FAILED)
    ensures var results := Execute(ops, outcomes, n).results;
            && 0 < |results| <= n && var last := results[|results| - 1].kind;
               Harmless(last) || (last.Command? && forall i :: 0 <= i < |results| - 1 ==> !ChangeAt(ops, outcomes, i))
  {
    hide Execute, Fine, ChangeAt, Harmless;
    var k := FirstBad(ops, outcomes, n);
    StopsAtFirst(ops, outcomes, k, n);
    ResultsExact(ops, outcomes, n);
  }

  // ------------------------------------------------- the config check

  function Replaces(ops: seq<Operation>, n: nat): set<nat>
    requires n <= |ops|
  {
    set m | 0 <= m < n && ops[m].kind.AtomicReplace?
  }

  ghost function SkippedReplaces(ops: seq<Operation>, outcomes: nat -> Outcome, n: nat): set<nat>
    requires n <= |ops|
  {
    set m | 0 <= m < n && ops[m].kind.AtomicReplace? && SkipAt(ops, outcomes, m)
  }

  lemma {:induction false} ReplaceCountExact(ops: seq<Operation>)
    ensures ReplaceCount(ops) == |Replaces(ops, |ops|)|
  {
    if ops == [] {
      assert Replaces(ops, 0) == {};
    } else {
      var n := |ops| - 1;
      ReplaceCountExact(ops[..n]);
      assert Replaces(ops[..n], n) == Replaces(ops, n);
      assert Replaces(ops, n + 1) == if ops[n].kind.AtomicReplace? then Replaces(ops, n) + {n} else Replaces(ops, n);
    }
  }

  lemma NoneSkipped(ops: seq<Operation>, outcomes: nat -> Outcome)
    ensures SkippedReplaces(ops, outcomes, 0) == {}
  {
  }

  lemma SkippedNext(ops: seq<Operation>, outcomes: nat -> Outcome, m: nat)
    requires m < |ops|
    ensures |SkippedReplaces(ops, outcomes, m + 1)| ==
            |SkippedReplaces(ops, outcomes, m)| + (if ops[m].kind.AtomicReplace? && SkipAt(ops, outcomes, m) then 1 else 0)
  {
    hide SkipAt;
    var before := SkippedReplaces(ops, outcomes, m);
    assert SkippedReplaces(ops, outcomes, m + 1) == if ops[m].kind.AtomicReplace? && SkipAt(ops, outcomes, m) then before + {m} else before;
  }

  lemma {:induction false} SkippedCount(ops: seq<Operation>, outcomes: nat -> Outcome, n: nat)
    requires n <= |ops| && Execute(ops, outcomes, n).stopped.None?
    ensures Execute(ops, outcomes, n).noOpReplaces == |SkippedReplaces(ops, outcomes, n)|
  {
    hide Execute, SkipAt, ChangeAt, Reports, Harmless, BEGIN, SkippedReplaces;
    NothingRun(ops, outcomes);
    if n == 0 {
      NoneSkipped(ops, outcomes);
    } else {
      var m := n - 1;
      StepExact(ops, outcomes, m);
      SkippedCount(ops, outcomes, m);
      SkippedNext(ops, outcomes, m);
    }
  }

  lemma SameSize(a: set<nat>, b: set<nat>)
    requires a <= b
    ensures |a| == |b| <==> a == b
  {
    assert b == a + (b - a);
  }

  /** A reached command is skipped exactly when it is the configuration check and
      the plan has replaces, all of which came before it and were skipped. */
  lemma ConfigCheckSkipped(ops: seq<Operation>, outcomes: nat -> Outcome, i: nat)
    requires i < |ops| && ops[i].kind.Command? && Execute(ops, outcomes, i).stopped.None?
    ensures SkipAt(ops, outcomes, i) <==>
            && ops[i].id == "config-check"
            && (exists m :: 0 <= m < |ops| && ops[m].kind.AtomicReplace?)
            && forall m :: 0 <= m < |ops| && ops[m].kind.AtomicReplace? ==> m < i && SkipAt(ops, outcomes, m)
  {
    ReplaceCountExact(ops);
    SkippedCount(ops, outcomes, i);
    var all, skipped := Replaces(ops, |ops|), SkippedReplaces(ops, outcomes, i);
    SameSize(skipped, all);
    assert SkipAt(ops, outcomes, i) <==> ops[i].id == "config-check" && |all| > 0 && |skipped| == |all| by { hide Execute, ReplaceCount; }
    hide Execute, SkipAt;
    assert |all| > 0 <==> exists m :: m in all by { if |all| > 0 { var m :| m in all; } }
    if exists m :: 0 <= m < |ops| && ops[m].kind.AtomicReplace? {
      var m :| 0 <= m < |ops| && ops[m].kind.AtomicReplace?;
      assert m in all;
    }
    if skipped == all {
      forall m | 0 <= m < |ops| && ops[m].kind.AtomicReplace? ensures m < i && SkipAt(ops, outcomes, m) { assert m in all; }
    }
  }
}
