/** The mutable observation state and the loops that work on it, proved against
    the functions of the queue. */
module ObservationAgent {
  import opened Wrappers
  import opened ObservationQueue
  import opened ObservationScan
  import opened ObservationRound

  // ---------------------------------------------------------------- state

  /** retainRejectedObservationRecords: the rejected part of a batch. */
  method RetainRejected(p: Pending, rejections: seq<int>) returns (records: seq<Observation>, prints: map<string, string>)
    ensures records == Pick(p.batch.records, rejections, true) && prints == Prints(p, records)
  {
    records, prints := [], map[];
    var all := p.batch.records;
    for index := 0 to |all|
      invariant records == Pick(all[..index], rejections, true) && prints == Prints(p, records)
    {
      assert all[..index + 1][..index] == all[..index];
      if index in rejections {
        PrintsSnoc(p, records, all[index]);
        records := records + [all[index]];
        var key := Key(all[index]);
        if key != "" && key in p.fingerprints { prints := prints[key := p.fingerprints[key]]; }
      }
    }
    assert all[..|all|] == all;
  }

  lemma PrintsSnoc(p: Pending, records: seq<Observation>, x: Observation)
    ensures Prints(p, records + [x]) ==
            if Key(x) != "" && Key(x) in p.fingerprints then Prints(p, records)[Key(x) := p.fingerprints[Key(x)]] else Prints(p, records)
  {
    assert (records + [x])[..|records|] == records;
    KeysSnoc(records + [x]);
  }

  lemma MarkNone(p: Pending, rejections: seq<int>, sent: map<string, string>)
    ensures sent == sent + Prints(p, Pick(p.batch.records[..0], rejections, false))
  {
  }

  lemma PickNext(records: seq<Observation>, rejections: seq<int>, index: nat)
    requires index < |records|
    ensures Pick(records[..index + 1], rejections, false) ==
            Pick(records[..index], rejections, false) + (if index in rejections then [] else [records[index]])
  {
    assert records[..index + 1][..index] == records[..index];
  }

  /** What one more record of a batch adds to the sent map. */
  lemma MarkNext(p: Pending, rejections: seq<int>, index: nat, sent: map<string, string>)
    requires index < |p.batch.records|
    ensures var x := p.batch.records[index];
            var marked := sent + Prints(p, Pick(p.batch.records[..index], rejections, false));
            sent + Prints(p, Pick(p.batch.records[..index + 1], rejections, false)) ==
            if index !in rejections && Key(x) != "" && Key(x) in p.fingerprints then marked[Key(x) := p.fingerprints[Key(x)]] else marked
  {
    hide Prints, Keys, Pick, Key;
    var x, accepted := p.batch.records[index], Pick(p.batch.records[..index], rejections, false);
    PickNext(p.batch.records, rejections, index);
    PrintsSnoc(p, accepted, x);
    if index !in rejections && Key(x) != "" && Key(x) in p.fingerprints {
      assert (sent + Prints(p, accepted))[Key(x) := p.fingerprints[Key(x)]] == sent + Prints(p, accepted)[Key(x) := p.fingerprints[Key(x)]];
    } else {
      assert accepted + [] == accepted;
    }
  }

  lemma ChangedNone(q: Queue, scan: seq<Observation>, force: bool, digest: Observation -> string)
    ensures Changed(q, scan[..0], force, digest) == [] && PrintsOf([], digest) == map[]
  {
  }

  /** What one more record of a scan adds to the new batch. */
  lemma ChangedNext(q: Queue, scan: seq<Observation>, force: bool, digest: Observation -> string, i: nat)
    requires i < |scan|
    ensures var x, changed := scan[i], Changed(q, scan[..i], force, digest);
            var next := Changed(q, scan[..i + 1], force, digest);
            if Key(x) != "" && ShouldQueue(force, q.sent, PendingKeys(q.pending), Key(x), digest(x))
            then next == changed + [x] && PrintsOf(next, digest) == PrintsOf(changed, digest)[Key(x) := digest(x)]
            else next == changed
  {
    hide Key, ShouldQueue, PendingKeys;
    var changed := Changed(q, scan[..i], force, digest);
    assert scan[..i + 1][..i] == scan[..i];
    assert (changed + [scan[i]])[..|changed|] == changed;
  }

  class ObservationState {
    var version: int
    var source: Identity
    var sequence: int
    var sent: map<string, string>
    var pending: seq<Pending>

    ghost function View(): Queue
      reads this
    {
      Queue(version, source, sequence, sent, pending)
    }

    constructor ()
      ensures View() == EMPTY
    {
      version, source, sequence, sent, pending := STATE_VERSION, NO_IDENTITY, 0, map[], [];
    }

    method ReconcileState(same: (string, string) -> bool, current: Identity)
      modifies this
      ensures View() == Reconcile(same, old(View()), current)
    {
      if SourceChanged(same, Queue(version, source, sequence, sent, pending), current) {
        sent := map[];
        ghost var was := pending;
        for index := 0 to |pending|
          invariant |pending| == |was| && version == old(version) && source == old(source) && sequence == old(sequence) && sent == map[]
          invariant forall i :: 0 <= i < index ==> pending[i] == Rebind(was, current.agentId)[i]
          invariant forall i :: index <= i < |was| ==> pending[i] == was[i]
        {
          pending := pending[index := pending[index].(batch := pending[index].batch.(agentId := current.agentId))];
        }
        assert pending == Rebind(was, current.agentId);
      }
      version, source := STATE_VERSION, current;
    }

    /** markAcceptedObservationRecords: the part of a batch that was not rejected. */
    method MarkAccepted(p: Pending, rejections: seq<int>)
      modifies this`sent
      ensures sent == old(sent) + (if rejections == [] then map[] else Prints(p, Pick(p.batch.records, rejections, false)))
    {
      hide Prints, Keys, Pick;
      if rejections == [] { return; }
      var all := p.batch.records;
      MarkNone(p, rejections, sent);
      for index := 0 to |all|
        invariant sent == old(sent) + Prints(p, Pick(all[..index], rejections, false))
      {
        MarkNext(p, rejections, index, old(sent));
        if index !in rejections {
          var key := Key(all[index]);
          if key != "" && key in p.fingerprints { sent := sent[key := p.fingerprints[key]]; }
        }
      }
      assert all[..|all|] == all;
    }

    /** flushObservationQueueWithStats. */
    method FlushQueue(w: World) returns (summary: Summary)
      modifies this
      ensures View() == Flush(old(View()), w) && summary == SummaryOf(old(pending), w)
    {
      var queue := pending;
      var remaining: seq<Pending> := [];
      summary := NOTHING;
      for i := 0 to |queue|
        invariant pending == queue && version == old(version) && source == old(source) && sequence == old(sequence)
        invariant remaining == Remaining(queue[..i], w) && sent == SentAfter(old(sent), queue[..i], w) && summary == SummaryOf(queue[..i], w)
      {
        var p, reply, at := queue[i], w.reply(i), w.clock(i);
        assert queue[..i + 1][..i] == queue[..i] && queue[..i + 1][i] == p;
        var left;
        left, summary := PushOne(p, reply, w.now, at, summary);
        remaining := remaining + left;
      }
      assert queue[..|queue|] == queue;
      pending := remaining;
    }

    /** One batch of the flush: what is left of it, and its marks. */
    method PushOne(p: Pending, reply: Reply, now: int, at: int, before: Summary) returns (left: seq<Pending>, summary: Summary)
      modifies this`sent
      ensures left == Left(p, reply, now, at) && sent == old(sent) + Marked(p, reply, now) && summary == Counted(before, p, reply, now)
    {
      summary := before;
      if p.nextAttempt.Some? && p.nextAttempt.value > now { return [p], summary; }
      var n := |p.batch.records|;
      summary := summary.(attempted := summary.attempted + 1, submitted := summary.submitted + n);
      if reply.Failed? || (n > 0 && reply.accepted + reply.rejected != n) {
        return [Postponed(p, at)], summary.(failed := summary.failed + 1);
      }
      summary := summary.(sent := summary.sent + 1, sentRecords := summary.sentRecords + n,
                          accepted := summary.accepted + reply.accepted, rejected := summary.rejected + reply.rejected);
      if reply.rejected > 0 {
        MarkAccepted(p, reply.rejections);
        var retry := p;
        var records, prints := RetainRejected(p, reply.rejections);
        if reply.rejections != [] && records != [] {
          retry := p.(batch := p.batch.(records := records), fingerprints := prints, nextAttempt := None);
        }
        return [Postponed(retry, at)], summary;
      }
      sent := sent + p.fingerprints;
      left := [];
    }

    /** Queue what the scan changed as one new batch. */
    method QueueChanged(reg: Registration, scan: seq<Observation>, force: bool, digest: Observation -> string)
      modifies this
      ensures View() == Enqueue(old(View()), reg, scan, force, digest)
    {
      ChangedNone(View(), scan, force, digest);
      hide Key, ShouldQueue, PendingKeys, Changed, PrintsOf;
      var pendingKeys := PendingKeys(pending);
      var changed: seq<Observation> := [];
      var prints: map<string, string> := map[];
      for i := 0 to |scan|
        invariant View() == old(View())
        invariant changed == Changed(old(View()), scan[..i], force, digest) && prints == PrintsOf(changed, digest)
      {
        var record := scan[i];
        ChangedNext(old(View()), scan, force, digest, i);
        var key := Key(record);
        if key != "" && ShouldQueue(force, sent, pendingKeys, key, digest(record)) {
          changed, prints := changed + [record], prints[key := digest(record)];
        }
      }
      assert scan[..|scan|] == scan;
      if |changed| > 0 {
        sequence := sequence + 1;
        pending := pending + [Pending(Batch(reg.agentId, reg.caName, reg.caConfig, sequence, changed), prints, 0, None)];
      }
    }

    /** collectAndPushObservations: one round, with the counts of its flushes. */
    method CollectAndPush(same: (string, string) -> bool, digest: Observation -> string, t: Turn) returns (first: Summary, second: Summary)
      modifies this
      ensures View() == Round(same, digest, old(View()), t)
      ensures var bound := Reconcile(same, old(View()), Current(t));
              && first == SummaryOf(bound.pending, t.first)
              && second == if Collect(t.views).None? then NOTHING
                           else SummaryOf(Enqueue(Flush(bound, t.first), t.reg, Collect(t.views).value, t.force, digest).pending, t.second)
    {
      second := NOTHING;
      ReconcileState(same, Current(t));
      first := FlushQueue(t.first);
      var scan := CollectRecords(t.views);
      if scan.None? { return; }
      QueueChanged(t.reg, scan.value, t.force, digest);
      second := FlushQueue(t.second);
    }
  }
}
