/** The scan of the AD CS agent: several views of the CA database merged into the
    best reading of each request, and the observations made of it. */
module ObservationScan {
  import opened Wrappers
  import opened Text
  import opened ObservationQueue

  datatype Raw = Raw(externalId: string, status: string, body: string)

  /** adcsObservationStatusRank. */
  function Rank(status: string): int {
    if status == "issued" || status == "revoked" || status == "rejected" || status == "failed" then 3
    else if status == "pending" then 2
    else 1
  }

  /** The kinds of object one request is observed as. */
  function Expand(raw: Raw): seq<Observation> {
    [Observation("request", raw.externalId, raw.body)]
    + (if raw.status == "issued" then [Observation("issuance", raw.externalId, raw.body)] else [])
    + (if raw.status == "revoked" then [Observation("revocation", raw.externalId, raw.body)] else [])
  }

  function ExpandAll(raws: seq<Raw>): seq<Observation> {
    if raws == [] then [] else ExpandAll(raws[..|raws| - 1]) + Expand(raws[|raws| - 1])
  }

  /** A view that cannot be read is missing. */
  type Views = seq<Option<seq<Raw>>>

  // ---------------------------------------------------------------- merge

  /** A later reading wins only with a strictly higher rank. */
  function Better(merged: map<string, Raw>, raw: Raw): map<string, Raw> {
    if raw.externalId != "" && (raw.externalId !in merged || Rank(raw.status) > Rank(merged[raw.externalId].status))
    then merged[raw.externalId := raw] else merged
  }

  function Merge(merged: map<string, Raw>, raws: seq<Raw>): map<string, Raw> {
    if raws == [] then merged else Better(Merge(merged, raws[..|raws| - 1]), raws[|raws| - 1])
  }

  function MergeAll(views: Views): map<string, Raw> {
    if views == [] then map[]
    else
      var n := |views| - 1;
      if views[n].Some? then Merge(MergeAll(views[..n]), views[n].value) else MergeAll(views[..n])
  }

  /** Everything that could be read, in order. */
  function ReadAll(views: Views): seq<Raw> {
    if views == [] then []
    else var n := |views| - 1; ReadAll(views[..n]) + (if views[n].Some? then views[n].value else [])
  }

  function InOrder(merged: map<string, Raw>): seq<Raw> {
    var keys := SortedKeys(merged.Keys);
    seq(|keys|, i requires 0 <= i < |keys| => merged[keys[i]])
  }

  /** collectAdcsObservationRecords; no readable view is an error. */
  function Collect(views: Views): Option<seq<Observation>> {
    if exists v :: 0 <= v < |views| && views[v].Some? then Some(ExpandAll(InOrder(MergeAll(views)))) else None
  }

  /** A reading that no other of its request beats, and no earlier one equals. */
  ghost predicate Wins(read: seq<Raw>, i: nat)
    requires i < |read|
  {
    forall j :: 0 <= j < |read| && read[j].externalId == read[i].externalId ==>
      Rank(read[j].status) <= Rank(read[i].status) && (j < i ==> Rank(read[j].status) < Rank(read[i].status))
  }

  /** Every request that was read is kept, with its winning reading. */
  ghost predicate Best(merged: map<string, Raw>, read: seq<Raw>) {
    && (forall k :: k in merged ==> k != "" && merged[k].externalId == k && exists i :: 0 <= i < |read| && read[i] == merged[k] && Wins(read, i))
    && (forall i :: 0 <= i < |read| && read[i].externalId != "" ==> read[i].externalId in merged)
  }

  lemma BetterBest(merged: map<string, Raw>, read: seq<Raw>, raw: Raw)
    requires Best(merged, read)
    ensures Best(Better(merged, raw), read + [raw])
  {
    hide Rank;
    var next, all := Better(merged, raw), read + [raw];
    forall k | k in next
      ensures k != "" && next[k].externalId == k && exists i :: 0 <= i < |all| && all[i] == next[k] && Wins(all, i)
    {
      if k in merged {
        var i :| 0 <= i < |read| && read[i] == merged[k] && Wins(read, i);
        var winner := if next[k] == merged[k] then i else |read|;
        assert all[winner] == next[k] && Wins(all, winner);
      } else {
        assert all[|read|] == next[k] && Wins(all, |read|);
      }
    }
  }

  lemma {:induction false} MergeBest(merged: map<string, Raw>, read: seq<Raw>, raws: seq<Raw>)
    requires Best(merged, read)
    ensures Best(Merge(merged, raws), read + raws)
  {
    if raws == [] {
      assert read + raws == read;
    } else {
      var n := |raws| - 1;
      MergeBest(merged, read, raws[..n]);
      BetterBest(Merge(merged, raws[..n]), read + raws[..n], raws[n]);
      assert read + raws[..n] + [raws[n]] == read + raws;
    }
  }

  /** The merged views hold the winning reading of every request in any of them. */
  lemma {:induction false} MergeAllBest(views: Views)
    ensures Best(MergeAll(views), ReadAll(views))
  {
    if views != [] {
      var n := |views| - 1;
      MergeAllBest(views[..n]);
      if views[n].Some? {
        MergeBest(MergeAll(views[..n]), ReadAll(views[..n]), views[n].value);
      } else {
        assert ReadAll(views[..n]) + [] == ReadAll(views[..n]);
      }
    }
  }

  // -------------------------------------------------------------- objects

  /** A scan never lists an identified object twice. */
  ghost predicate ScanOk(scan: seq<Observation>) {
    forall i, j :: 0 <= i < j < |scan| && Key(scan[i]) != "" ==> Key(scan[i]) != Key(scan[j])
  }

  predicate Kind(t: string) {
    t == "request" || t == "issuance" || t == "revocation"
  }

  lemma KeyInjective(x: Observation, y: Observation)
    requires Kind(x.objectType) && Kind(y.objectType) && x.externalId != "" && y.externalId != ""
    requires Key(x) == Key(y)
    ensures x.objectType == y.objectType && x.externalId == y.externalId
  {
    assert Key(x)[0] == x.objectType[0] && Key(y)[0] == y.objectType[0];
    assert Key(x)[2] == x.objectType[2] && Key(y)[2] == y.objectType[2];
    assert x.objectType == y.objectType;
    var n := |x.objectType| + 1;
    assert Key(x)[n..] == x.externalId && Key(y)[n..] == y.externalId;
  }

  lemma {:induction false} ExpandedFrom(raws: seq<Raw>, i: nat) returns (j: nat)
    requires i < |ExpandAll(raws)|
    ensures j < |raws| && ExpandAll(raws)[i].externalId == raws[j].externalId && Kind(ExpandAll(raws)[i].objectType)
  {
    var n := |raws| - 1;
    if i < |ExpandAll(raws[..n])| {
      j := ExpandedFrom(raws[..n], i);
    } else {
      j := n;
      assert ExpandAll(raws)[i] in Expand(raws[n]);
    }
  }

  /** A scan of distinct requests never lists an object twice. */
  lemma {:induction false} ExpandScanOk(raws: seq<Raw>)
    requires forall i :: 0 <= i < |raws| ==> raws[i].externalId != ""
    requires forall i, j :: 0 <= i < j < |raws| ==> raws[i].externalId != raws[j].externalId
    ensures ScanOk(ExpandAll(raws))
  {
    if raws != [] {
      var n := |raws| - 1;
      var front, last := ExpandAll(raws[..n]), Expand(raws[n]);
      ExpandScanOk(raws[..n]);
      forall i, j | 0 <= i < |front| && 0 <= j < |last| ensures Key(front[i]) != Key(last[j]) {
        var m := ExpandedFrom(raws[..n], i);
        if Key(front[i]) == Key(last[j]) {
          KeyInjective(front[i], last[j]);
        }
      }
      forall i, j | 0 <= i < j < |last| ensures Key(last[i]) != Key(last[j]) {
        if Key(last[i]) == Key(last[j]) {
          KeyInjective(last[i], last[j]);
        }
      }
    }
  }

  lemma InOrderScanOk(merged: map<string, Raw>, keys: seq<string>)
    requires keys == SortedKeys(merged.Keys)
    requires forall k :: k in merged ==> k != "" && merged[k].externalId == k
    ensures ScanOk(ExpandAll(InOrder(merged)))
  {
    var raws := InOrder(merged);
    forall i | 0 <= i < |raws| ensures raws[i].externalId == keys[i] && keys[i] != "" {
      assert keys[i] in keys;
    }
    ExpandScanOk(raws);
  }

  /** Whatever the views hold, a scan never lists an object twice. */
  lemma CollectScanOk(views: Views)
    ensures Collect(views).Some? ==> ScanOk(Collect(views).value)
  {
    MergeAllBest(views);
    hide ExpandAll, InOrder, MergeAll, ScanOk, Wins;
    InOrderScanOk(MergeAll(views), SortedKeys(MergeAll(views).Keys));
  }

  // ------------------------------------------------------------- the code

  /** One view merged into what was read before it. */
  method MergeView(byRequest: map<string, Raw>, raws: seq<Raw>) returns (merged: map<string, Raw>)
    ensures merged == Merge(byRequest, raws)
  {
    merged := byRequest;
    for i := 0 to |raws|
      invariant merged == Merge(byRequest, raws[..i])
    {
      var raw := raws[i];
      assert raws[..i + 1][..i] == raws[..i];
      if raw.externalId != "" && (raw.externalId !in merged || Rank(raw.status) > Rank(merged[raw.externalId].status)) {
        merged := merged[raw.externalId := raw];
      }
    }
    assert raws[..|raws|] == raws;
  }

  /** Read the views, skip those that fail, and expand the best readings. */
  method CollectRecords(views: Views) returns (r: Option<seq<Observation>>)
    ensures r == Collect(views)
  {
    var successful := 0;
    var byRequest: map<string, Raw> := map[];
    for v := 0 to |views|
      invariant byRequest == MergeAll(views[..v])
      invariant successful > 0 <==> exists u :: 0 <= u < v && views[u].Some?
      invariant successful >= 0
    {
      assert views[..v + 1][..v] == views[..v];
      if views[v].Some? {
        successful := successful + 1;
        byRequest := MergeView(byRequest, views[v].value);
      }
    }
    assert views[..|views|] == views;
    r := if successful == 0 then None else Some(ExpandAll(InOrder(byRequest)));
  }

  // ------------------------------------------------- what a scan lists

  predicate Decided(status: string) {
    status == "issued" || status == "revoked" || status == "rejected" || status == "failed"
  }

  /** Which reading of a request wins: a decided one over any other, and a pending
      one over those that are neither; among equals the first. */
  lemma StatusWins(views: Views, k: string, i: nat)
    requires i < |ReadAll(views)| && ReadAll(views)[i].externalId == k != ""
    ensures k in MergeAll(views) && MergeAll(views)[k] in ReadAll(views)
    ensures var read, kept := ReadAll(views)[i].status, MergeAll(views)[k].status;
            && (Decided(read) ==> Decided(kept))
            && (read == "pending" ==> kept == "pending" || Decided(kept))
  {
    MergeAllBest(views);
    var read, kept := ReadAll(views), MergeAll(views)[k];
    var j :| 0 <= j < |read| && read[j] == kept && Wins(read, j);
    hide MergeAll, ReadAll, Best;
    assert Rank(read[i].status) <= Rank(read[j].status);
  }

  lemma ExpandedLast(raws: seq<Raw>, x: Observation)
    requires raws != []
    ensures x in ExpandAll(raws) <==> x in ExpandAll(raws[..|raws| - 1]) || x in Expand(raws[|raws| - 1])
  {
    hide Expand;
  }

  lemma {:induction false} ExpandedExact(raws: seq<Raw>, x: Observation)
    ensures x in ExpandAll(raws) <==> exists i :: 0 <= i < |raws| && x in Expand(raws[i])
  {
    if raws != [] {
      var n := |raws| - 1;
      ExpandedExact(raws[..n], x);
      ExpandedLast(raws, x);
      hide Expand, ExpandAll;
      if exists i :: 0 <= i < |raws| && x in Expand(raws[i]) {
        var i :| 0 <= i < |raws| && x in Expand(raws[i]);
        if i < n { assert raws[..n][i] == raws[i]; }
      }
    }
  }

  /** The objects that one reading of a request is listed as. */
  predicate Objects(raw: Raw, x: Observation) {
    && x.externalId == raw.externalId && x.body == raw.body
    && (|| x.objectType == "request"
        || (x.objectType == "issuance" && raw.status == "issued")
        || (x.objectType == "revocation" && raw.status == "revoked"))
  }

  lemma ExpandExact(raw: Raw, x: Observation)
    ensures x in Expand(raw) <==> Objects(raw, x)
  {
  }

  lemma InOrderMembers(merged: map<string, Raw>, raw: Raw)
    ensures raw in InOrder(merged) <==> exists k :: k in merged && merged[k] == raw
  {
    var keys, raws := SortedKeys(merged.Keys), InOrder(merged);
    hide SortedKeys;
    if raw in raws {
      var i :| 0 <= i < |raws| && raws[i] == raw;
      assert keys[i] in keys;
    }
    if exists k :: k in merged && merged[k] == raw {
      var k :| k in merged && merged[k] == raw;
      assert k in keys;
      var i :| 0 <= i < |keys| && keys[i] == k;
      assert raws[i] == raw;
    }
  }

  ghost predicate ListedIn(merged: map<string, Raw>, x: Observation) {
    exists k :: k in merged && Objects(merged[k], x)
  }

  lemma ExpandedLists(merged: map<string, Raw>, x: Observation)
    ensures x in ExpandAll(InOrder(merged)) <==> ListedIn(merged, x)
  {
    hide ExpandAll, Expand, InOrder, Objects;
    var raws := InOrder(merged);
    ExpandedExact(raws, x);
    if x in ExpandAll(raws) {
      var i :| 0 <= i < |raws| && x in Expand(raws[i]);
      InOrderMembers(merged, raws[i]);
      ExpandExact(raws[i], x);
      assert raws[i] in raws;
      var k :| k in merged && merged[k] == raws[i];
      assert Objects(merged[k], x);
    }
    if ListedIn(merged, x) {
      var k :| k in merged && Objects(merged[k], x);
      InOrderMembers(merged, merged[k]);
      ExpandExact(merged[k], x);
      var i :| 0 <= i < |raws| && raws[i] == merged[k];
      assert x in Expand(raws[i]);
    }
  }

  /** What a scan lists: every kept request, an issued one also as an issuance and a
      revoked one also as a revocation, each with the reading that was kept. */
  lemma CollectLists(views: Views, x: Observation)
    requires Collect(views).Some?
    ensures x in Collect(views).value <==> ListedIn(MergeAll(views), x)
  {
    ExpandedLists(MergeAll(views), x);
  }

  /** A scan fails exactly when no view could be read, and reads the requests in
      the order of their ids. */
  lemma CollectOrder(views: Views)
    ensures Collect(views).None? <==> forall v :: 0 <= v < |views| ==> views[v].None?
    ensures var raws := InOrder(MergeAll(views)); forall i, j :: 0 <= i < j < |raws| ==> Leq(raws[i].externalId, raws[j].externalId)
  {
    MergeAllBest(views);
    hide ExpandAll, MergeAll, Leq, Wins;
    var merged := MergeAll(views);
    var keys := SortedKeys(merged.Keys);
    forall i | 0 <= i < |keys| ensures keys[i] in merged && merged[keys[i]].externalId == keys[i] {
      assert keys[i] in keys;
    }
  }
}
