/** One observation round of the AD CS agent: bind the state to the current
    identity, flush, scan, queue what changed, flush again; and the persisted
    state over rounds and restarts. */
module ObservationRound {
  import opened Wrappers
  import opened Text
  import opened ObservationQueue
  import opened ObservationScan

  const STATE_VERSION := 5

  datatype Identity = Identity(agentId: string, agentKey: string, agentVersion: string, caName: string, caConfig: string, parserVersion: string)

  datatype Registration = Registration(agentId: string, caName: string, caConfig: string)
  datatype Config = Config(agentKey: string, caConfig: string, agentVersion: string, parserVersion: string)

  /** The identity this round runs under; the CA configuration falls back to the
      configured one. */
  function CurrentIdentity(reg: Registration, config: Config): Identity {
    Identity(Trim(reg.agentId), Trim(config.agentKey), Trim(config.agentVersion), Trim(reg.caName),
             if Trim(reg.caConfig) == "" then Trim(config.caConfig) else Trim(reg.caConfig), config.parserVersion)
  }

  datatype Queue = Queue(version: int, source: Identity, sequence: int, sent: map<string, string>, pending: seq<Pending>)

  const NO_IDENTITY := Identity("", "", "", "", "", "")
  const EMPTY := Queue(STATE_VERSION, NO_IDENTITY, 0, map[], [])

  ghost predicate Ok(q: Queue) {
    QueueOk(q.pending, q.sequence)
  }

  // ------------------------------------------------------------ reconcile

  /** `same` compares two identity texts without case and outer space. */
  predicate SourceChanged(same: (string, string) -> bool, q: Queue, current: Identity) {
    var was := q.source;
    || q.version < STATE_VERSION
    || (was.agentId == "" && was.agentKey == "" && was.caName == "" && was.caConfig == "")
    || was.agentId != current.agentId || !same(was.agentKey, current.agentKey) || !same(was.agentVersion, current.agentVersion)
    || !same(was.caName, current.caName) || !same(was.caConfig, current.caConfig) || !same(was.parserVersion, current.parserVersion)
  }

  function Rebind(pending: seq<Pending>, agentId: string): seq<Pending> {
    seq(|pending|, i requires 0 <= i < |pending| => pending[i].(batch := pending[i].batch.(agentId := agentId)))
  }

  /** A new identity forgets what was sent but never what is queued. */
  function Reconcile(same: (string, string) -> bool, q: Queue, current: Identity): Queue {
    var bound := if SourceChanged(same, q, current) then q.(sent := map[], pending := Rebind(q.pending, current.agentId)) else q;
    bound.(version := STATE_VERSION, source := current)
  }

  lemma ReconcileOk(same: (string, string) -> bool, q: Queue, current: Identity)
    requires Ok(q)
    ensures Ok(Reconcile(same, q, current))
  {
    var r := Reconcile(same, q, current);
    forall i | 0 <= i < |r.pending| ensures r.pending[i].batch.records == q.pending[i].batch.records && r.pending[i].fingerprints == q.pending[i].fingerprints
                                         && r.pending[i].batch.sequence == q.pending[i].batch.sequence && BatchOk(r.pending[i]) {
      assert BatchOk(q.pending[i]);
    }
  }

  // ---------------------------------------------------------------- flush

  function Flush(q: Queue, w: World): Queue {
    q.(sent := SentAfter(q.sent, q.pending, w), pending := Remaining(q.pending, w))
  }

  // ---------------------------------------------------------------- queue

  function PendingKeys(pending: seq<Pending>): set<string> {
    set i, k | 0 <= i < |pending| && k in pending[i].fingerprints :: k
  }

  /** Go's map lookup: a missing key reads as the empty string. */
  function Lookup(m: map<string, string>, k: string): string {
    if k in m then m[k] else ""
  }

  /** shouldQueueObservation: a key still pending is refused even when forced. */
  predicate ShouldQueue(force: bool, sent: map<string, string>, pendingKeys: set<string>, key: string, fingerprint: string) {
    key !in pendingKeys && (force || Lookup(sent, key) != fingerprint)
  }

  function Changed(q: Queue, scan: seq<Observation>, force: bool, digest: Observation -> string): seq<Observation> {
    if scan == [] then []
    else
      var x := scan[|scan| - 1];
      Changed(q, scan[..|scan| - 1], force, digest) +
      (if Key(x) != "" && ShouldQueue(force, q.sent, PendingKeys(q.pending), Key(x), digest(x)) then [x] else [])
  }

  function PrintsOf(records: seq<Observation>, digest: Observation -> string): map<string, string> {
    if records == [] then map[]
    else var x := records[|records| - 1]; PrintsOf(records[..|records| - 1], digest)[Key(x) := digest(x)]
  }

  function Enqueue(q: Queue, reg: Registration, scan: seq<Observation>, force: bool, digest: Observation -> string): Queue {
    var changed := Changed(q, scan, force, digest);
    if changed == [] then q
    else
      var batch := Batch(reg.agentId, reg.caName, reg.caConfig, q.sequence + 1, changed);
      q.(sequence := q.sequence + 1, pending := q.pending + [Pending(batch, PrintsOf(changed, digest), 0, None)])
  }

  lemma {:induction false} ChangedFrom(q: Queue, scan: seq<Observation>, force: bool, digest: Observation -> string, x: Observation)
    ensures x in Changed(q, scan, force, digest) <==>
            x in scan && Key(x) != "" && ShouldQueue(force, q.sent, PendingKeys(q.pending), Key(x), digest(x))
  {
    if scan != [] {
      ChangedFrom(q, scan[..|scan| - 1], force, digest, x);
      assert scan == scan[..|scan| - 1] + [scan[|scan| - 1]];
    }
  }

  lemma {:induction false} ChangedDistinct(q: Queue, scan: seq<Observation>, force: bool, digest: Observation -> string)
    requires ScanOk(scan)
    ensures DistinctKeys(Changed(q, scan, force, digest))
  {
    if scan != [] {
      var front := scan[..|scan| - 1];
      ChangedDistinct(q, front, force, digest);
      var changed := Changed(q, front, force, digest);
      forall i | 0 <= i < |changed| ensures Key(changed[i]) != Key(scan[|scan| - 1]) {
        ChangedFrom(q, front, force, digest, changed[i]);
      }
    }
  }

  lemma {:induction false} PrintsKeys(records: seq<Observation>, digest: Observation -> string)
    ensures PrintsOf(records, digest).Keys == Keys(records)
  {
    if records != [] {
      var n := |records| - 1;
      PrintsKeys(records[..n], digest);
      assert Keys(records) == Keys(records[..n]) + {Key(records[n])} by { KeysSnoc(records); }
    }
  }

  lemma {:induction false} PrintAt(records: seq<Observation>, digest: Observation -> string, i: nat)
    requires DistinctKeys(records) && i < |records|
    ensures Key(records[i]) in PrintsOf(records, digest) && PrintsOf(records, digest)[Key(records[i])] == digest(records[i])
  {
    var n := |records| - 1;
    if i < n { PrintAt(records[..n], digest, i); }
  }

  lemma PrintsExact(records: seq<Observation>, digest: Observation -> string)
    requires DistinctKeys(records)
    ensures PrintsOf(records, digest).Keys == Keys(records)
    ensures forall i :: 0 <= i < |records| ==> PrintsOf(records, digest)[Key(records[i])] == digest(records[i])
  {
    PrintsKeys(records, digest);
    forall i | 0 <= i < |records| ensures PrintsOf(records, digest)[Key(records[i])] == digest(records[i]) {
      PrintAt(records, digest, i);
    }
  }

  /** Nothing that is queued anew has a key that is still waiting. */
  lemma NewBatchApart(q: Queue, scan: seq<Observation>, force: bool, digest: Observation -> string, i: nat)
    requires i < |q.pending|
    ensures q.pending[i].fingerprints.Keys !! Keys(Changed(q, scan, force, digest))
  {
    hide Changed, Key;
    var changed := Changed(q, scan, force, digest);
    forall k | k in Keys(changed) ensures k !in q.pending[i].fingerprints {
      var j :| 0 <= j < |changed| && Key(changed[j]) == k;
      ChangedFrom(q, scan, force, digest, changed[j]);
    }
  }

  /** Queueing keeps the invariant; this is where refusing pending keys matters. */
  lemma EnqueueOk(q: Queue, reg: Registration, scan: seq<Observation>, force: bool, digest: Observation -> string)
    requires Ok(q) && ScanOk(scan)
    ensures Ok(Enqueue(q, reg, scan, force, digest))
  {
    hide Changed, PrintsOf, Keys, Key, ScanOk, DistinctKeys;
    var changed := Changed(q, scan, force, digest);
    if changed != [] {
      ChangedDistinct(q, scan, force, digest);
      PrintsExact(changed, digest);
      forall i | 0 <= i < |q.pending| ensures q.pending[i].fingerprints.Keys !! PrintsOf(changed, digest).Keys {
        NewBatchApart(q, scan, force, digest, i);
      }
    }
  }

  // ---------------------------------------------------------------- round

  /** What the environment does in one round: two flushes, and between them the
      views that a scan reads, each of which may fail. */
  datatype Turn = Turn(reg: Registration, config: Config, force: bool, first: World, views: Views, second: World)

  function Current(t: Turn): Identity {
    CurrentIdentity(t.reg, t.config)
  }

  function Round(same: (string, string) -> bool, digest: Observation -> string, q: Queue, t: Turn): Queue {
    var flushed := Flush(Reconcile(same, q, Current(t)), t.first);
    var scan := Collect(t.views);
    if scan.None? then flushed else Flush(Enqueue(flushed, t.reg, scan.value, t.force, digest), t.second)
  }

  lemma FlushOk(q: Queue, w: World)
    requires Ok(q)
    ensures Ok(Flush(q, w))
  {
    RemainingOk(q.pending, w, q.sequence);
  }

  lemma RoundOk(same: (string, string) -> bool, digest: Observation -> string, q: Queue, t: Turn)
    requires Ok(q)
    ensures Ok(Round(same, digest, q, t))
  {
    hide Ok, ScanOk, Reconcile, Flush, Enqueue, Current, Collect;
    CollectScanOk(t.views);
    ReconcileOk(same, q, Current(t));
    var flushed := Flush(Reconcile(same, q, Current(t)), t.first);
    FlushOk(Reconcile(same, q, Current(t)), t.first);
    var scan := Collect(t.views);
    if scan.Some? {
      EnqueueOk(flushed, t.reg, scan.value, t.force, digest);
      FlushOk(Enqueue(flushed, t.reg, scan.value, t.force, digest), t.second);
    }
  }

  /** Saving replaces the state file, leaves the old one, or loses it. */
  datatype SaveOutcome = Saved | Kept | Gone

  datatype Event = DoRound(turn: Turn, save: SaveOutcome) | Restart

  datatype Agent = Agent(memory: Queue, disk: Queue)

  function Step(same: (string, string) -> bool, digest: Observation -> string, a: Agent, e: Event): Agent {
    match e
    case Restart => Agent(a.disk, a.disk)
    case DoRound(t, save) =>
      var q := Round(same, digest, a.memory, t);
      Agent(q, match save case Saved => q case Kept => a.disk case Gone => EMPTY)
  }

  function Run(same: (string, string) -> bool, digest: Observation -> string, a: Agent, events: seq<Event>): Agent
    decreases |events|
  {
    if events == [] then a else Run(same, digest, Step(same, digest, a, events[0]), events[1..])
  }

  lemma EmptyOk()
    ensures Ok(EMPTY)
  {
  }

  /** Every reachable queue, in memory and on disk, keeps the invariant. */
  lemma {:induction false} ReachableOk(same: (string, string) -> bool, digest: Observation -> string, a: Agent, events: seq<Event>)
    requires Ok(a.memory) && Ok(a.disk)
    ensures Ok(Run(same, digest, a, events).memory) && Ok(Run(same, digest, a, events).disk)
    decreases |events|
  {
    hide Ok, Round;
    if events != [] {
      assert Ok(EMPTY) by { EmptyOk(); }
      if events[0].DoRound? { RoundOk(same, digest, a.memory, events[0].turn); }
      ReachableOk(same, digest, Step(same, digest, a, events[0]), events[1..]);
    }
  }

  // ----------------------------------------------------------- quiescence

  ghost predicate AcceptsAll(pending: seq<Pending>, w: World) {
    forall i :: 0 <= i < |pending| ==> Due(pending[i], w.now) && w.reply(i) == Replied(|pending[i].batch.records|, 0, [])
  }

  lemma {:induction false} FlushEmpties(pending: seq<Pending>, w: World)
    requires AcceptsAll(pending, w)
    ensures Remaining(pending, w) == []
  {
    if pending != [] { FlushEmpties(pending[..|pending| - 1], w); }
  }

  /** The scan is reflected in the sent map. */
  ghost predicate Reflects(sent: map<string, string>, scan: seq<Observation>, digest: Observation -> string) {
    forall i :: 0 <= i < |scan| && Key(scan[i]) != "" ==> Key(scan[i]) in sent && sent[Key(scan[i])] == digest(scan[i])
  }

  /** A scanned object that is not queued keeps its key out of the new batch. */
  lemma NotQueued(q: Queue, scan: seq<Observation>, force: bool, digest: Observation -> string, x: Observation)
    requires ScanOk(scan) && x in scan && Key(x) != "" && x !in Changed(q, scan, force, digest)
    ensures Key(x) !in Keys(Changed(q, scan, force, digest))
  {
    var changed := Changed(q, scan, force, digest);
    forall j | 0 <= j < |changed| ensures Key(changed[j]) != Key(x) {
      ChangedFrom(q, scan, force, digest, changed[j]);
      var m :| 0 <= m < |scan| && scan[m] == changed[j];
      var i :| 0 <= i < |scan| && scan[i] == x;
      assert i != m by { assert changed[j] in changed; }
    }
  }

  /** Accepting a single batch adds exactly its fingerprints. */
  lemma SentOfOne(sent: map<string, string>, p: Pending, w: World)
    requires AcceptsAll([p], w)
    ensures SentAfter(sent, [p], w) == sent + p.fingerprints && Remaining([p], w) == []
  {
    assert [p][..0] == [];
    assert [p][0] == p;
  }

  lemma EnqueuedAccepted(q: Queue, reg: Registration, scan: seq<Observation>, force: bool, digest: Observation -> string, w: World)
    requires q.pending == [] && AcceptsAll(Enqueue(q, reg, scan, force, digest).pending, w)
    ensures var r := Flush(Enqueue(q, reg, scan, force, digest), w);
            r.pending == [] && r.sent == q.sent + PrintsOf(Changed(q, scan, force, digest), digest)
  {
    hide Changed, AcceptsAll, PrintsOf;
    var queued := Enqueue(q, reg, scan, force, digest);
    if Changed(q, scan, force, digest) == [] {
      assert PrintsOf([], digest) == map[] by { PrintsKeys([], digest); }
      assert q.sent + map[] == q.sent;
    } else {
      assert queued.pending == [queued.pending[0]];
      SentOfOne(q.sent, queued.pending[0], w);
    }
  }

  /** With nothing pending, queueing a scan and having it accepted makes the sent
      map agree with the scan. */
  lemma ScanAccepted(q: Queue, reg: Registration, scan: seq<Observation>, force: bool, digest: Observation -> string, w: World)
    requires q.pending == [] && ScanOk(scan) && (forall x :: digest(x) != "")
    requires AcceptsAll(Enqueue(q, reg, scan, force, digest).pending, w)
    ensures var r := Flush(Enqueue(q, reg, scan, force, digest), w); r.pending == [] && Reflects(r.sent, scan, digest)
  {
    hide Changed, Enqueue, Flush, PrintsOf, AcceptsAll, ScanOk, DistinctKeys;
    var changed, r := Changed(q, scan, force, digest), Flush(Enqueue(q, reg, scan, force, digest), w);
    EnqueuedAccepted(q, reg, scan, force, digest, w);
    ChangedDistinct(q, scan, force, digest);
    PrintsExact(changed, digest);
    forall i | 0 <= i < |scan| && Key(scan[i]) != ""
      ensures Key(scan[i]) in r.sent && r.sent[Key(scan[i])] == digest(scan[i])
    {
      var x := scan[i];
      ChangedFrom(q, scan, force, digest, x);
      if x in changed {
        var j :| 0 <= j < |changed| && changed[j] == x;
      } else {
        NotQueued(q, scan, force, digest, x);
      }
    }
  }

  lemma {:induction false} NothingChanged(q: Queue, scan: seq<Observation>, digest: Observation -> string)
    requires Reflects(q.sent, scan, digest)
    ensures Changed(q, scan, false, digest) == []
  {
    if scan != [] {
      assert scan[..|scan| - 1] == scan[0..|scan| - 1];
      NothingChanged(q, scan[..|scan| - 1], digest);
    }
  }

  /** Quiescence. If every queued batch is due, the identity is the same and the
      control plane accepts everything, one round empties the queue and makes the
      sent map agree with the scan; an unforced round over the same scan then
      submits nothing and changes nothing. */
  lemma Quiescence(same: (string, string) -> bool, digest: Observation -> string, q: Queue, t: Turn, again: Turn)
    requires Collect(t.views).Some? && (forall x :: digest(x) != "")
    requires !SourceChanged(same, q, Current(t)) && AcceptsAll(q.pending, t.first)
    requires var flushed := Flush(Reconcile(same, q, Current(t)), t.first);
             AcceptsAll(Enqueue(flushed, t.reg, Collect(t.views).value, t.force, digest).pending, t.second)
    requires Collect(again.views) == Collect(t.views) && !again.force
    requires !SourceChanged(same, Round(same, digest, q, t), Current(again))
    ensures var r := Round(same, digest, q, t); var scan := Collect(t.views).value;
            && r.pending == [] && Reflects(r.sent, scan, digest)
            && SummaryOf(r.pending, again.first) == NOTHING
            && Enqueue(Flush(Reconcile(same, r, Current(again)), again.first), again.reg, scan, again.force, digest).pending == []
            && Round(same, digest, r, again) == r.(source := Current(again))
  {
    hide Collect, Current;
    var flushed, scan := Flush(Reconcile(same, q, Current(t)), t.first), Collect(t.views).value;
    CollectScanOk(t.views);
    FlushEmpties(q.pending, t.first);
    ScanAccepted(flushed, t.reg, scan, t.force, digest, t.second);
    var r := Round(same, digest, q, t);
    var bound := Reconcile(same, r, Current(again));
    assert Flush(bound, again.first) == bound;
    NothingChanged(bound, scan, digest);
  }

  // ------------------------------------------------- nothing scanned is lost

  /** The key is waiting or sent with this fingerprint. */
  ghost predicate Covered(q: Queue, k: string, fingerprint: string) {
    || (exists b :: b in q.pending && k in b.fingerprints && b.fingerprints[k] == fingerprint)
    || (k in q.sent && q.sent[k] == fingerprint)
  }

  /** A flush keeps what is waiting covered. */
  lemma WaitingCovered(q: Queue, w: World, i: nat, k: string)
    requires Ok(q) && i < |q.pending| && k in q.pending[i].fingerprints
    ensures Covered(Flush(q, w), k, q.pending[i].fingerprints[k])
  {
    var p := q.pending[i];
    assert BatchOk(p);
    assert k in Keys(p.batch.records);
    var m :| 0 <= m < |p.batch.records| && Key(p.batch.records[m]) == k;
    NothingLost(q.sent, q.pending, w, q.sequence, i, m);
  }

  /** A flush leaves what was sent and is not waiting as it was. */
  lemma SentCovered(q: Queue, w: World, k: string)
    requires k in q.sent && forall i :: 0 <= i < |q.pending| ==> k !in q.pending[i].fingerprints
    ensures Covered(Flush(q, w), k, q.sent[k])
  {
    SentFrame(q.sent, q.pending, w, k);
  }

  /** A scanned object whose key is not waiting is queued with its own digest, or
      was sent with it and stays out of the new batch. */
  lemma EnqueueCovers(q: Queue, reg: Registration, scan: seq<Observation>, force: bool, digest: Observation -> string, w: World, x: Observation)
    requires Ok(q) && ScanOk(scan) && x in scan && Key(x) != "" && digest(x) != "" && Key(x) !in PendingKeys(q.pending)
    ensures Covered(Flush(Enqueue(q, reg, scan, force, digest), w), Key(x), digest(x))
  {
    var queued, changed := Enqueue(q, reg, scan, force, digest), Changed(q, scan, force, digest);
    EnqueueOk(q, reg, scan, force, digest);
    ChangedFrom(q, scan, force, digest, x);
    hide Ok, ScanOk, Flush, Changed, PrintsOf, Covered;
    if x in changed {
      ChangedDistinct(q, scan, force, digest);
      PrintsExact(changed, digest);
      var j :| 0 <= j < |changed| && changed[j] == x;
      assert Key(x) in Keys(changed);
      WaitingCovered(queued, w, |q.pending|, Key(x));
    } else {
      NotQueued(q, scan, force, digest, x);
      if changed != [] {
        ChangedDistinct(q, scan, force, digest);
        PrintsExact(changed, digest);
      }
      assert forall i :: 0 <= i < |queued.pending| ==> Key(x) !in queued.pending[i].fingerprints;
      SentCovered(queued, w, Key(x));
    }
  }

  /** Whatever is answered in a round: what is still waiting after the first flush
      is afterwards waiting or sent with its own fingerprint, and every scanned
      object whose key is not still waiting is waiting or sent with its own digest. */
  lemma RoundCovers(same: (string, string) -> bool, digest: Observation -> string, q: Queue, t: Turn, x: Observation)
    requires Ok(q) && Collect(t.views).Some? && x in Collect(t.views).value && Key(x) != "" && digest(x) != ""
    ensures var flushed, after := Flush(Reconcile(same, q, Current(t)), t.first), Round(same, digest, q, t);
            && (forall i, k :: 0 <= i < |flushed.pending| && k in flushed.pending[i].fingerprints ==>
                  Covered(after, k, flushed.pending[i].fingerprints[k]))
            && (Key(x) !in PendingKeys(flushed.pending) ==> Covered(after, Key(x), digest(x)))
  {
    var flushed, scan := Flush(Reconcile(same, q, Current(t)), t.first), Collect(t.views).value;
    ReconcileOk(same, q, Current(t));
    FlushOk(Reconcile(same, q, Current(t)), t.first);
    CollectScanOk(t.views);
    hide Ok, ScanOk, Flush, Reconcile, Current, Collect, Covered;
    var queued := Enqueue(flushed, t.reg, scan, t.force, digest);
    EnqueueOk(flushed, t.reg, scan, t.force, digest);
    forall i, k | 0 <= i < |flushed.pending| && k in flushed.pending[i].fingerprints
      ensures Covered(Flush(queued, t.second), k, flushed.pending[i].fingerprints[k])
    {
      assert queued.pending[i] == flushed.pending[i];
      WaitingCovered(queued, t.second, i, k);
    }
    if Key(x) !in PendingKeys(flushed.pending) {
      EnqueueCovers(flushed, t.reg, scan, t.force, digest, t.second, x);
    }
  }

  // ------------------------------------------------- a change of identity

  /** What a change of the agent, of its version or key, of the CA or of the parser
      does: everything that was sent is forgotten, and what waits goes on under the
      new agent. Without a change nothing is forgotten. */
  lemma ReconcileExact(same: (string, string) -> bool, q: Queue, reg: Registration, config: Config)
    ensures var was := q.source; var r := Reconcile(same, q, CurrentIdentity(reg, config));
            var caConfig := if Trim(reg.caConfig) != "" then Trim(reg.caConfig) else Trim(config.caConfig);
            var other := || q.version < 5 || (was.agentId == "" && was.agentKey == "" && was.caName == "" && was.caConfig == "")
                         || was.agentId != Trim(reg.agentId) || !same(was.agentKey, Trim(config.agentKey))
                         || !same(was.agentVersion, Trim(config.agentVersion)) || !same(was.caName, Trim(reg.caName))
                         || !same(was.caConfig, caConfig) || !same(was.parserVersion, config.parserVersion);
            && r.sequence == q.sequence && |r.pending| == |q.pending|
            && r.sent == (if other then map[] else q.sent)
            && (forall i :: 0 <= i < |q.pending| ==>
                  && r.pending[i].batch.agentId == (if other then Trim(reg.agentId) else q.pending[i].batch.agentId)
                  && r.pending[i].(batch := r.pending[i].batch.(agentId := "")) == q.pending[i].(batch := q.pending[i].batch.(agentId := "")))
            && r.source.agentId == Trim(reg.agentId) && r.source.caName == Trim(reg.caName) && r.source.caConfig == caConfig
  {
    hide Trim;
  }

  /** What is queued of a scan: every object whose key is not waiting, when forced;
      else those of them that were not sent with the digest they have now. */
  lemma ChangedExact(q: Queue, scan: seq<Observation>, force: bool, digest: Observation -> string, x: Observation)
    requires digest(x) != ""
    ensures x in Changed(q, scan, force, digest) <==>
            && x in scan && Key(x) != "" && (forall i :: 0 <= i < |q.pending| ==> Key(x) !in q.pending[i].fingerprints)
            && (force || Key(x) !in q.sent || q.sent[Key(x)] != digest(x))
  {
    ChangedFrom(q, scan, force, digest, x);
    hide Changed, Key;
    assert Key(x) in PendingKeys(q.pending) <==> exists i :: 0 <= i < |q.pending| && Key(x) in q.pending[i].fingerprints;
  }

  /** The new batch comes last, under the next number and the registered names, is
      due at once, and holds exactly the changed objects; without any, nothing
      changes. */
  lemma EnqueueExact(q: Queue, reg: Registration, scan: seq<Observation>, force: bool, digest: Observation -> string)
    requires ScanOk(scan)
    ensures var changed, r := Changed(q, scan, force, digest), Enqueue(q, reg, scan, force, digest);
            && r.sent == q.sent && r.source == q.source && r.version == q.version
            && (changed == [] ==> r == q)
            && (changed != [] ==>
                  && r.sequence == q.sequence + 1 && |r.pending| == |q.pending| + 1 && r.pending[..|q.pending|] == q.pending
                  && var p := r.pending[|q.pending|];
                     && p.batch == Batch(reg.agentId, reg.caName, reg.caConfig, r.sequence, changed) && p.attempts == 0 && p.nextAttempt == None
                     && p.fingerprints.Keys == Keys(changed)
                     && forall i :: 0 <= i < |changed| ==> p.fingerprints[Key(changed[i])] == digest(changed[i]))
  {
    hide Changed, PrintsOf, Key, Keys, DistinctKeys, ScanOk;
    ChangedDistinct(q, scan, force, digest);
    PrintsExact(Changed(q, scan, force, digest), digest);
  }

  /** After a change of identity with nothing waiting, an unforced scan queues every
      object again. */
  lemma NewIdentityBackfills(same: (string, string) -> bool, q: Queue, current: Identity, reg: Registration, scan: seq<Observation>,
                             digest: Observation -> string, x: Observation)
    requires SourceChanged(same, q, current) && q.pending == [] && ScanOk(scan) && x in scan && Key(x) != "" && digest(x) != ""
    ensures var r := Enqueue(Reconcile(same, q, current), reg, scan, false, digest);
            |r.pending| == 1 && x in r.pending[0].batch.records && r.pending[0].batch.agentId == reg.agentId
  {
    hide SourceChanged, Changed, Key, PrintsOf;
    ChangedExact(Reconcile(same, q, current), scan, false, digest, x);
  }
}
