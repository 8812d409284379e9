/** The AD CS agent's observation queue: batches waiting to be pushed, the
    fingerprints already sent, partial rejection and backoff. */
module ObservationQueue {
  import opened Wrappers

  /** An observation; the two identifying fields are already trimmed. */
  datatype Observation = Observation(objectType: string, externalId: string, body: string)

  datatype Batch = Batch(agentId: string, caName: string, caConfig: string, sequence: int, records: seq<Observation>)

  datatype Pending = Pending(batch: Batch, fingerprints: map<string, string>, attempts: nat, nextAttempt: Option<int>)

  /** The control plane's answer to one push. */
  datatype Reply = Failed | Replied(accepted: int, rejected: int, rejections: seq<int>)

  /** One flush as the environment decides it: the clock at its start, and for
      the batch at each position the answer and the clock after it. */
  datatype World = World(now: int, reply: nat -> Reply, clock: nat -> int)

  datatype Summary = Summary(attempted: nat, submitted: nat, sent: nat, sentRecords: nat, failed: nat, accepted: int, rejected: int)

  const NOTHING := Summary(0, 0, 0, 0, 0, 0, 0)

  /** observationRecordKey. */
  function Key(r: Observation): string {
    if r.objectType == "" || r.externalId == "" then "" else r.objectType + "|" + r.externalId
  }

  // -------------------------------------------------------------- backoff

  function Pow2(n: nat): (r: nat)
    ensures r >= 1
  {
    if n == 0 then 1 else 2 * Pow2(n - 1)
  }

  /** Seconds to wait before the given attempt is repeated. */
  function Backoff(attempts: nat): int
    requires attempts >= 1
  {
    var delay := 5 * Pow2(if attempts - 1 < 8 then attempts - 1 else 8);
    if delay > 300 then 300 else delay
  }

  lemma {:induction false} Pow2Grows(m: nat, n: nat)
    requires m <= n
    ensures Pow2(m) <= Pow2(n)
    decreases n
  {
    if m < n { Pow2Grows(m, n - 1); }
  }

  /** Every delay is between 5 and 300 seconds and never shrinks. */
  lemma BackoffBounds(a: nat, b: nat)
    requires 1 <= a <= b
    ensures 5 <= Backoff(a) <= Backoff(b) <= 300
  {
    Pow2Grows(if a - 1 < 8 then a - 1 else 8, if b - 1 < 8 then b - 1 else 8);
  }

  // -------------------------------------------------- one batch of a flush

  predicate Due(p: Pending, now: int) {
    p.nextAttempt.None? || p.nextAttempt.value <= now
  }

  /** pushObservationBatchWithResult: an answer whose counts do not add up is an error. */
  predicate PushOk(p: Pending, r: Reply) {
    r.Replied? && (|p.batch.records| > 0 ==> r.accepted + r.rejected == |p.batch.records|)
  }

  /** The records at the rejected positions, in order, or those at the others. */
  function Pick(records: seq<Observation>, rejections: seq<int>, want: bool): seq<Observation> {
    if records == [] then []
    else
      var n := |records| - 1;
      Pick(records[..n], rejections, want) + (if (n in rejections) == want then [records[n]] else [])
  }

  function Keys(records: seq<Observation>): set<string> {
    set i | 0 <= i < |records| :: Key(records[i])
  }

  /** The fingerprints of the batch that belong to some of its records. */
  function Prints(p: Pending, records: seq<Observation>): map<string, string> {
    map k | k in p.fingerprints && k != "" && k in Keys(records) :: p.fingerprints[k]
  }

  function Rejected(p: Pending, r: Reply): Pending
    requires r.Replied?
  {
    var records := Pick(p.batch.records, r.rejections, true);
    p.(batch := p.batch.(records := records), fingerprints := Prints(p, records), nextAttempt := None)
  }

  function Postponed(p: Pending, at: int): Pending {
    p.(attempts := p.attempts + 1, nextAttempt := Some(at + Backoff(p.attempts + 1)))
  }

  /** What stays queued of one batch. */
  function Left(p: Pending, r: Reply, now: int, at: int): seq<Pending> {
    if !Due(p, now) then [p]
    else if !PushOk(p, r) then [Postponed(p, at)]
    else if r.rejected <= 0 then []
    else if r.rejections == [] || Rejected(p, r).batch.records == [] then [Postponed(p, at)]
    else [Postponed(Rejected(p, r), at)]
  }

  /** What is marked as sent of one batch. */
  function Marked(p: Pending, r: Reply, now: int): map<string, string> {
    if !Due(p, now) || !PushOk(p, r) then map[]
    else if r.rejected <= 0 then p.fingerprints
    else if r.rejections == [] then map[]
    else Prints(p, Pick(p.batch.records, r.rejections, false))
  }

  function Counted(s: Summary, p: Pending, r: Reply, now: int): Summary {
    if !Due(p, now) then s
    else
      var n := |p.batch.records|;
      var tried := s.(attempted := s.attempted + 1, submitted := s.submitted + n);
      if !PushOk(p, r) then tried.(failed := tried.failed + 1)
      else tried.(sent := tried.sent + 1, sentRecords := tried.sentRecords + n,
                  accepted := tried.accepted + r.accepted, rejected := tried.rejected + r.rejected)
  }

  // ---------------------------------------------------------- whole flush

  /** The queue, the sent map and the counts after the first batches. */
  function Remaining(pending: seq<Pending>, w: World): seq<Pending> {
    if pending == [] then []
    else var n := |pending| - 1; Remaining(pending[..n], w) + Left(pending[n], w.reply(n), w.now, w.clock(n))
  }

  function SentAfter(sent: map<string, string>, pending: seq<Pending>, w: World): map<string, string> {
    if pending == [] then sent
    else var n := |pending| - 1; SentAfter(sent, pending[..n], w) + Marked(pending[n], w.reply(n), w.now)
  }

  function SummaryOf(pending: seq<Pending>, w: World): Summary {
    if pending == [] then NOTHING
    else var n := |pending| - 1; Counted(SummaryOf(pending[..n], w), pending[n], w.reply(n), w.now)
  }

  // ------------------------------------------------------------ invariant

  ghost predicate DistinctKeys(records: seq<Observation>) {
    && (forall i :: 0 <= i < |records| ==> Key(records[i]) != "")
    && (forall i, j :: 0 <= i < j < |records| ==> Key(records[i]) != Key(records[j]))
  }

  /** A batch is nonempty, names each key once, and fingerprints exactly its keys. */
  ghost predicate BatchOk(p: Pending) {
    p.batch.records != [] && DistinctKeys(p.batch.records) && p.fingerprints.Keys == Keys(p.batch.records)
  }

  /** Batches share no key and their sequence numbers increase up to the counter. */
  ghost predicate QueueOk(pending: seq<Pending>, sequence: int) {
    && (forall i :: 0 <= i < |pending| ==> BatchOk(pending[i]) && pending[i].batch.sequence <= sequence)
    && (forall i, j :: 0 <= i < j < |pending| ==>
          pending[i].batch.sequence < pending[j].batch.sequence && pending[i].fingerprints.Keys !! pending[j].fingerprints.Keys)
  }

  /** The part of the invariant relating a batch to the one it came from. */
  ghost predicate Shrinks(p: Pending, q: Pending) {
    && q.batch.sequence == p.batch.sequence
    && q.fingerprints.Keys <= p.fingerprints.Keys
    && (forall k :: k in q.fingerprints ==> q.fingerprints[k] == p.fingerprints[k])
  }

  lemma {:induction false} PickMembers(records: seq<Observation>, rejections: seq<int>, want: bool, x: Observation)
    ensures x in Pick(records, rejections, want) <==> exists i :: 0 <= i < |records| && records[i] == x && (i in rejections) == want
  {
    if records != [] {
      var n := |records| - 1;
      PickMembers(records[..n], rejections, want, x);
      if exists i :: 0 <= i < n && records[..n][i] == x && (i in rejections) == want {
        var i :| 0 <= i < n && records[..n][i] == x && (i in rejections) == want;
        assert records[i] == x;
      }
      if exists i :: 0 <= i < |records| && records[i] == x && (i in rejections) == want {
        var i :| 0 <= i < |records| && records[i] == x && (i in rejections) == want;
        assert i < n ==> records[..n][i] == x;
      }
    }
  }

  lemma {:induction false} PickDistinct(records: seq<Observation>, rejections: seq<int>, want: bool)
    requires DistinctKeys(records)
    ensures DistinctKeys(Pick(records, rejections, want)) && Keys(Pick(records, rejections, want)) <= Keys(records)
  {
    if records != [] {
      var n := |records| - 1;
      var front, picked := Pick(records[..n], rejections, want), Pick(records, rejections, want);
      PickDistinct(records[..n], rejections, want);
      forall i | 0 <= i < |front| ensures Key(front[i]) != Key(records[n]) {
        PickMembers(records[..n], rejections, want, front[i]);
      }
      forall i | 0 <= i < |picked| ensures Key(picked[i]) in Keys(records) {
        PickMembers(records, rejections, want, picked[i]);
      }
    }
  }

  /** Whatever the answer, a batch leaves at most one batch, good and smaller. */
  lemma LeftOk(p: Pending, r: Reply, now: int, at: int)
    requires BatchOk(p)
    ensures var left := Left(p, r, now, at); |left| <= 1 && (left != [] ==> BatchOk(left[0]) && Shrinks(p, left[0]))
  {
    if r.Replied? {
      PickDistinct(p.batch.records, r.rejections, true);
      assert Prints(p, Pick(p.batch.records, r.rejections, true)).Keys == Keys(Pick(p.batch.records, r.rejections, true)) by {
        var picked := Pick(p.batch.records, r.rejections, true);
        forall k | k in Keys(picked) ensures k in p.fingerprints && k != "" {
        }
      }
    }
  }

  lemma {:induction false} RemainingFrom(pending: seq<Pending>, w: World, sequence: int, j: nat) returns (i: nat)
    requires QueueOk(pending, sequence) && j < |Remaining(pending, w)|
    ensures i < |pending| && BatchOk(Remaining(pending, w)[j]) && Shrinks(pending[i], Remaining(pending, w)[j])
  {
    var n := |pending| - 1;
    LeftOk(pending[n], w.reply(n), w.now, w.clock(n));
    if j < |Remaining(pending[..n], w)| {
      i := RemainingFrom(pending[..n], w, sequence, j);
    } else {
      i := n;
    }
  }

  /** A flush keeps the queue invariant, whatever is answered. */
  lemma {:induction false} RemainingOk(pending: seq<Pending>, w: World, sequence: int)
    requires QueueOk(pending, sequence)
    ensures QueueOk(Remaining(pending, w), sequence)
  {
    if pending != [] {
      var n := |pending| - 1;
      var front, left := Remaining(pending[..n], w), Left(pending[n], w.reply(n), w.now, w.clock(n));
      RemainingOk(pending[..n], w, sequence);
      LeftOk(pending[n], w.reply(n), w.now, w.clock(n));
      hide Left, BatchOk;
      forall j | 0 <= j < |front| && left != []
        ensures front[j].batch.sequence < left[0].batch.sequence && front[j].fingerprints.Keys !! left[0].fingerprints.Keys
      {
        var i := RemainingFrom(pending[..n], w, sequence, j);
        assert pending[..n][i] == pending[i];
      }
    }
  }

  /** Each record of a batch is kept with its fingerprint or marked with it. */
  lemma RecordKept(p: Pending, r: Reply, now: int, at: int, m: nat)
    requires BatchOk(p) && m < |p.batch.records|
    ensures var x, k := p.batch.records[m], Key(p.batch.records[m]); var left, marked := Left(p, r, now, at), Marked(p, r, now);
            && k in p.fingerprints
            && (|| (|left| == 1 && x in left[0].batch.records && k in left[0].fingerprints && left[0].fingerprints[k] == p.fingerprints[k])
                || (k in marked && marked[k] == p.fingerprints[k]))
  {
    var x, k := p.batch.records[m], Key(p.batch.records[m]);
    assert k in Keys(p.batch.records);
    if Due(p, now) && PushOk(p, r) && r.rejected > 0 && r.rejections != [] {
      var want := m in r.rejections;
      PickMembers(p.batch.records, r.rejections, want, x);
      var picked := Pick(p.batch.records, r.rejections, want);
      var i :| 0 <= i < |picked| && picked[i] == x;
      assert k in Keys(picked);
    }
  }

  /** Marks come from the batch's own fingerprints. */
  lemma MarkedFrom(p: Pending, r: Reply, now: int)
    ensures forall k :: k in Marked(p, r, now) ==> k in p.fingerprints && Marked(p, r, now)[k] == p.fingerprints[k]
  {
  }

  /** The last batch shares no key with an earlier one. */
  lemma Apart(pending: seq<Pending>, sequence: int, i: nat)
    requires QueueOk(pending, sequence) && i < |pending| - 1
    ensures pending[i].fingerprints.Keys !! pending[|pending| - 1].fingerprints.Keys
    ensures QueueOk(pending[..|pending| - 1], sequence)
  {
    hide BatchOk;
  }

  lemma {:induction false} SentLookup(sent: map<string, string>, pending: seq<Pending>, w: World, sequence: int, i: nat, k: string)
    requires QueueOk(pending, sequence) && i < |pending| && k in Marked(pending[i], w.reply(i), w.now)
    ensures k in SentAfter(sent, pending, w) && SentAfter(sent, pending, w)[k] == pending[i].fingerprints[k]
  {
    hide QueueOk, Marked;
    var n := |pending| - 1;
    MarkedFrom(pending[n], w.reply(n), w.now);
    MarkedFrom(pending[i], w.reply(i), w.now);
    if i < n {
      Apart(pending, sequence, i);
      SentLookup(sent, pending[..n], w, sequence, i, k);
    }
  }

  lemma {:induction false} LeftStays(pending: seq<Pending>, w: World, i: nat, q: Pending)
    requires i < |pending| && q in Left(pending[i], w.reply(i), w.now, w.clock(i))
    ensures q in Remaining(pending, w)
  {
    var n := |pending| - 1;
    if i < n { LeftStays(pending[..n], w, i, q); }
  }

  /** No observation is lost by a flush: every queued record is afterwards still
      queued under the same fingerprint or marked sent with it. */
  lemma NothingLost(sent: map<string, string>, pending: seq<Pending>, w: World, sequence: int, i: nat, m: nat)
    requires QueueOk(pending, sequence) && i < |pending| && m < |pending[i].batch.records|
    ensures var x := pending[i].batch.records[m]; var k := Key(x); var after := SentAfter(sent, pending, w);
            && k in pending[i].fingerprints
            && (|| (exists q :: q in Remaining(pending, w) && x in q.batch.records && k in q.fingerprints && q.fingerprints[k] == pending[i].fingerprints[k])
                || (k in after && after[k] == pending[i].fingerprints[k]))
  {
    RecordKept(pending[i], w.reply(i), w.now, w.clock(i), m);
    var k, left := Key(pending[i].batch.records[m]), Left(pending[i], w.reply(i), w.now, w.clock(i));
    if k in Marked(pending[i], w.reply(i), w.now) {
      MarkedFrom(pending[i], w.reply(i), w.now);
      SentLookup(sent, pending, w, sequence, i, k);
    } else {
      LeftStays(pending, w, i, left[0]);
    }
  }

  /** And nothing is marked that was not queued. */
  lemma {:induction false} SentFrame(sent: map<string, string>, pending: seq<Pending>, w: World, k: string)
    requires forall i :: 0 <= i < |pending| ==> k !in pending[i].fingerprints
    ensures k in SentAfter(sent, pending, w) <==> k in sent
    ensures k in sent ==> SentAfter(sent, pending, w)[k] == sent[k]
  {
    if pending != [] {
      var n := |pending| - 1;
      SentFrame(sent, pending[..n], w, k);
      MarkedFrom(pending[n], w.reply(n), w.now);
    }
  }

  /** The counts of a flush balance. */
  lemma {:induction false} CountsBalance(pending: seq<Pending>, w: World, sequence: int)
    requires QueueOk(pending, sequence)
    ensures var s := SummaryOf(pending, w);
            s.attempted == s.sent + s.failed && s.accepted + s.rejected == s.sentRecords && s.sentRecords <= s.submitted
  {
    if pending != [] {
      var n := |pending| - 1;
      CountsBalance(pending[..n], w, sequence);
      assert BatchOk(pending[n]);
    }
  }

  // -------------------------------------------------- marks and counts

  /** The positions of a batch that an answer names as rejected. */
  function Named(n: nat, rejections: seq<int>): set<int> {
    set i | 0 <= i < n && i in rejections
  }

  lemma {:induction false} PickCount(records: seq<Observation>, rejections: seq<int>)
    ensures |Pick(records, rejections, false)| == |records| - |Named(|records|, rejections)|
  {
    if records == [] {
      assert Named(0, rejections) == {};
    } else {
      var n := |records| - 1;
      PickCount(records[..n], rejections);
      assert Named(n + 1, rejections) == if n in rejections then Named(n, rejections) + {n} else Named(n, rejections);
    }
  }

  lemma KeysSnoc(records: seq<Observation>)
    requires records != []
    ensures Keys(records) == Keys(records[..|records| - 1]) + {Key(records[|records| - 1])}
  {
    var n := |records| - 1;
    forall k | k in Keys(records) ensures k in Keys(records[..n]) || k == Key(records[n]) {
      var i :| 0 <= i < |records| && Key(records[i]) == k;
      if i < n { assert records[..n][i] == records[i]; }
    }
    forall k | k in Keys(records[..n]) ensures k in Keys(records) {
      var i :| 0 <= i < n && Key(records[..n][i]) == k;
      assert records[i] == records[..n][i];
    }
  }

  lemma LastKeyIsNew(records: seq<Observation>)
    requires records != [] && DistinctKeys(records)
    ensures var n := |records| - 1; Key(records[n]) !in Keys(records[..n]) && DistinctKeys(records[..n])
  {
    hide Key;
  }

  lemma {:induction false} KeyCount(records: seq<Observation>)
    requires DistinctKeys(records)
    ensures |Keys(records)| == |records|
  {
    if records == [] {
      assert Keys(records) == {};
    } else {
      hide Key, Keys, DistinctKeys;
      LastKeyIsNew(records);
      KeysSnoc(records);
      KeyCount(records[..|records| - 1]);
    }
  }

  lemma PrintsCount(p: Pending, picked: seq<Observation>)
    requires BatchOk(p) && DistinctKeys(picked) && Keys(picked) <= Keys(p.batch.records)
    ensures |Prints(p, picked)| == |picked|
  {
    KeyCount(picked);
    forall k | k in Keys(picked) ensures k != "" {
      assert k in Keys(p.batch.records);
    }
    assert Prints(p, picked).Keys == Keys(picked);
    assert |Prints(p, picked)| == |Prints(p, picked).Keys|;
  }

  /** How many records an answered batch marks as sent: all of them, none where
      rejections are counted but not named, or all but the named ones. This is
      the accepted number exactly when the rejected number is the number of
      distinct positions named, or of all records where none is named. */
  lemma MarkedCountExact(p: Pending, r: Reply, now: int)
    requires BatchOk(p) && Due(p, now) && PushOk(p, r)
    ensures var n, named := |p.batch.records|, |Named(|p.batch.records|, r.rejections)|;
            && |Marked(p, r, now)| == (if r.rejected <= 0 then n else if r.rejections == [] then 0 else n - named)
            && (|Marked(p, r, now)| == r.accepted <==>
                r.rejected == if r.rejected <= 0 then 0 else if r.rejections == [] then n else named)
  {
    var records := p.batch.records;
    KeyCount(records);
    PickCount(records, r.rejections);
    PickDistinct(records, r.rejections, false);
    PrintsCount(p, Pick(records, r.rejections, false));
    assert |p.fingerprints| == |p.fingerprints.Keys|;
  }

  /** An answer that counts one rejection but names a position outside the batch:
      a batch of one record is marked sent though nothing was accepted. */
  lemma MisnamedRejectionMarked(p: Pending, now: int)
    requires BatchOk(p) && Due(p, now) && |p.batch.records| == 1
    ensures var r := Replied(0, 1, [1]); PushOk(p, r) && |Marked(p, r, now)| == 1 && r.accepted == 0
  {
    assert Named(1, [1]) == {};
    MarkedCountExact(p, Replied(0, 1, [1]), now);
  }

  // -------------------------------------------------- delays and sums

  /** The delays: 5, 10, 20, 40, 80 and 160 seconds, and 300 from the seventh on. */
  lemma BackoffExact(a: nat)
    requires a >= 1
    ensures Backoff(a) == if a == 1 then 5 else if a == 2 then 10 else if a == 3 then 20 else if a == 4 then 40 else if a == 5 then 80
                          else if a == 6 then 160 else 300
  {
    assert Pow2(0) == 1 && Pow2(1) == 2 && Pow2(2) == 4 && Pow2(3) == 8;
    assert Pow2(4) == 16 && Pow2(5) == 32 && Pow2(6) == 64;
    if a >= 7 { Pow2Grows(6, if a - 1 < 8 then a - 1 else 8); }
  }

  /** A batch that is not due is left as it is. One that is due, and is not wholly
      accepted, is tried once more: it is due again exactly when the delay of its
      attempts has passed. */
  lemma RetryLater(p: Pending, r: Reply, now: int, at: int, later: int)
    ensures !(p.nextAttempt.None? || p.nextAttempt.value <= now) ==> Left(p, r, now, at) == [p] && Marked(p, r, now) == map[]
    ensures (p.nextAttempt.None? || p.nextAttempt.value <= now) && Left(p, r, now, at) != [] ==>
              var q := Left(p, r, now, at)[0];
              |Left(p, r, now, at)| == 1 && q.attempts == p.attempts + 1 && (Due(q, later) <==> later >= at + Backoff(p.attempts + 1))
    ensures Left(p, r, now, at) == [] ==> r.Replied? && r.rejected <= 0 && (p.batch.records == [] || r.accepted + r.rejected == |p.batch.records|)
  {
    hide Backoff, Pick, Prints;
  }

  /** The sum of a number over the batches and their answers. */
  function Tally(pending: seq<Pending>, w: World, count: (Pending, Reply) -> int): int {
    if pending == [] then 0
    else var n := |pending| - 1; Tally(pending[..n], w, count) + count(pending[n], w.reply(n))
  }

  /** Due, answered, and with counts that add up. */
  predicate Answered(w: World, p: Pending, r: Reply) {
    Due(p, w.now) && r.Replied? && (p.batch.records == [] || r.accepted + r.rejected == |p.batch.records|)
  }

  /** Each count of a flush is the sum of what its batches and answers say. */
  lemma {:induction false} CountsExact(pending: seq<Pending>, w: World)
    ensures var s := SummaryOf(pending, w);
            && s.attempted == Tally(pending, w, (p, r) => if Due(p, w.now) then 1 else 0)
            && s.submitted == Tally(pending, w, (p, r) => if Due(p, w.now) then |p.batch.records| else 0)
            && s.sent == Tally(pending, w, (p, r) => if Answered(w, p, r) then 1 else 0)
            && s.sentRecords == Tally(pending, w, (p, r) => if Answered(w, p, r) then |p.batch.records| else 0)
            && s.accepted == Tally(pending, w, (p, r) => if Answered(w, p, r) then r.accepted else 0)
            && s.rejected == Tally(pending, w, (p, r) => if Answered(w, p, r) then r.rejected else 0)
            && s.failed == Tally(pending, w, (p, r) => if Due(p, w.now) && !Answered(w, p, r) then 1 else 0)
  {
    if pending != [] {
      CountsExact(pending[..|pending| - 1], w);
    }
  }
}
