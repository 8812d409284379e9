/** The receipt that a plan's run writes, and the loader that reads it back for
    the same plan and token. */
module PlanReceipt {
  import opened Wrappers
  import opened Text
  import opened PlanExecutor

  const CONTRACT := "gcac.agent-security/v1"
  const MAX_OPERATIONS := 100
  const UNKNOWN_REASON := "write outcome unknown"

  datatype Plan = Plan(version: string, planId: string, agentId: string, tenantId: string, tokenId: string, nonce: string,
                       digest: string, writeEffect: bool, ops: seq<Operation>)

  /** `covers` stands for the checks of a plan against the token that receipts do
      not depend on: plugin and capability, operation inputs, and scopes. */
  datatype Token = Token(tokenId: string, agentId: string, tenantId: string, nonce: string, planDigest: string, covers: Plan -> bool)

  datatype ReceiptStatus = SUCCESS | FAILURE | UNSURE | CANCELLED | OtherStatus

  datatype Receipt = Receipt(
    version: string, operationId: string, planId: string, planDigest: string, agentId: string, tenantId: string, tokenId: string,
    status: ReceiptStatus, startedAt: int, completedAt: int, results: seq<OpResult>, nonceConsumed: bool,
    errorCode: string, unknownReason: string, digest: string, keyId: string, signature: string)

  datatype NonceRecord = NonceRecord(version: string, nonce: string, tokenId: string, resultDigest: string)

  /** The nonce directory: consumption records and receipts by hashed nonce. */
  datatype Store = Store(nonces: map<string, NonceRecord>, receipts: map<string, Receipt>)

  /** Digests and signatures. The digest covers a receipt without its digest and
      signature, the signature a receipt without its signature; the two legacy
      digests and the legacy canonical form are only read. */
  datatype Crypto = Crypto(
    hash: string -> string,
    planDigest: Plan -> string, resultDigest: Plan -> string,
    digest: Receipt -> string, legacyDigest: Receipt -> string, legacyEmptyDigest: Receipt -> string,
    sign: (string, Receipt) -> string,
    verify: (string, bool, Receipt, string) -> bool)

  datatype Signer = Signer(keyId: string, key: string, usable: bool)

  function Unsigned(r: Receipt): Receipt {
    r.(signature := "")
  }

  function Undigested(r: Receipt): Receipt {
    r.(signature := "", digest := "")
  }

  /** isAgentDigest. */
  predicate IsDigest(s: string) {
    |s| == 64 && forall i :: 0 <= i < |s| ==> ('0' <= s[i] <= '9' || 'a' <= s[i] <= 'f' || 'A' <= s[i] <= 'F')
  }

  /** validateAgentPlan. */
  predicate PlanValid(c: Crypto, plan: Plan, token: Token) {
    && 0 < |plan.ops| <= MAX_OPERATIONS
    && plan.version == CONTRACT && plan.agentId == token.agentId && plan.tenantId == token.tenantId
    && plan.tokenId == token.tokenId && plan.nonce == token.nonce && plan.digest == token.planDigest
    && c.planDigest(plan) == plan.digest && token.covers(plan)
    && forall i :: 0 <= i < |plan.ops| ==> Trim(plan.ops[i].id) != ""
  }

  /** hasAgentWriteOperation, and the plan says so. */
  predicate Writes(plan: Plan) {
    plan.writeEffect && exists i :: 0 <= i < |plan.ops| && IsWrite(plan.ops[i].kind)
  }

  /** consumePersistentAgentNonce: the sequential case of the nonce directory's
      Consume with working storage, keeping the record; all fields are trimmed. */
  function Consume(c: Crypto, s: Store, nonce: string, tokenId: string, resultDigest: string): Option<Store> {
    var n, t, d := Trim(nonce), Trim(tokenId), Trim(resultDigest);
    if n == "" || t == "" || d == "" || c.hash(n) in s.nonces then None
    else Some(s.(nonces := s.nonces[c.hash(n) := NonceRecord(CONTRACT, n, t, d)]))
  }

  /** receiptOperationID: the trimmed id of the last result that has one. */
  function ReceiptOperationId(plan: Plan, results: seq<OpResult>): string {
    if results != [] then
      var id := Trim(results[|results| - 1].operationId);
      if id != "" then id else ReceiptOperationId(plan, results[..|results| - 1])
    else if plan.ops != [] then plan.ops[0].id else ""
  }

  function BuildReceipt(c: Crypto, plan: Plan, token: Token, p: Progress, startedAt: int, completedAt: int, signer: Signer): Receipt {
    var status := if p.stopped.None? then SUCCESS else if p.stopped == Some(UNKNOWN) then UNSURE else FAILURE;
    var bare := Receipt(CONTRACT, ReceiptOperationId(plan, p.results), plan.planId, plan.digest, plan.agentId, plan.tenantId, token.tokenId,
                        status, startedAt, completedAt, p.results, true,
                        if status.SUCCESS? then "" else if status.UNSURE? then "AGENT_EXECUTION_UNKNOWN" else "AGENT_EXECUTION_FAILED",
                        if status.UNSURE? then UNKNOWN_REASON else "", "", signer.keyId, "");
    var digested := bare.(digest := c.digest(Undigested(bare)));
    digested.(signature := c.sign(signer.key, Unsigned(digested)))
  }

  /** persistAgentExecutionReceipt: the nonce is not trimmed here. */
  function PersistReceipt(c: Crypto, s: Store, nonce: string, r: Receipt): Option<Store> {
    if c.hash(nonce) in s.receipts then None else Some(s.(receipts := s.receipts[c.hash(nonce) := r]))
  }

  /** executeAuthorizedAgentPlan with working storage: the store afterwards, where
      the plan writes, the signer is usable, the nonce could be consumed and the
      receipt kept. */
  function RunPlan(c: Crypto, s: Store, plan: Plan, token: Token, outcomes: nat -> Outcome, startedAt: int, completedAt: int, signer: Signer): Option<Store> {
    if !PlanValid(c, plan, token) || !Writes(plan) || !signer.usable || Trim(signer.keyId) == "" then None
    else
      var consumed := Consume(c, s, token.nonce, token.tokenId, c.resultDigest(plan));
      if consumed.None? then None
      else
        var p := Execute(plan.ops, outcomes, |plan.ops|);
        PersistReceipt(c, consumed.value, token.nonce, BuildReceipt(c, plan, token, p, startedAt, completedAt, signer))
  }

  /** validateAgentExecutionReceipt for a request under the token's own agent and
      tenant. */
  predicate ReceiptValid(c: Crypto, keys: map<string, string>, r: Receipt, token: Token) {
    && r.version == CONTRACT && r.planId != "" && r.operationId != ""
    && r.agentId == token.agentId && r.tenantId == token.tenantId && r.tokenId == token.tokenId
    && r.planDigest == token.planDigest && r.nonceConsumed
    && !r.status.OtherStatus?
    && r.completedAt >= r.startedAt
    && |r.results| <= MAX_OPERATIONS
    && (r.status.UNSURE? ==> Trim(r.unknownReason) != "")
    && (r.status.SUCCESS? ==> r.errorCode == "")
    && (r.digest == c.digest(Undigested(r)) || r.digest == c.legacyDigest(Undigested(r)) || r.digest == c.legacyEmptyDigest(Undigested(r)))
    && Trim(r.keyId) != "" && Trim(r.signature) != "" && r.keyId in keys
    && c.verify(keys[r.keyId], r.digest != c.digest(Undigested(r)), Unsigned(r), r.signature)
  }

  /** planContainsOperation: no trimming. */
  predicate PlanContains(plan: Plan, id: string) {
    exists i :: 0 <= i < |plan.ops| && plan.ops[i].id == id
  }

  /** loadAndValidateAgentExecutionReceipt for the same plan and token. */
  function LoadReceipt(c: Crypto, keys: map<string, string>, s: Store, plan: Plan, token: Token): Option<Receipt> {
    var n := Trim(token.nonce);
    if n == "" || c.hash(n) !in s.nonces then None
    else
      var record := s.nonces[c.hash(n)];
      if record.version != CONTRACT || record.nonce != n || record.tokenId == "" || record.resultDigest == "" then None
      else if record.tokenId != token.tokenId || !IsDigest(record.resultDigest) then None
      else if plan.version != "" && (!PlanValid(c, plan, token) || c.resultDigest(plan) != record.resultDigest) then None
      else if c.hash(n) !in s.receipts then None
      else
        var r := s.receipts[c.hash(n)];
        if !ReceiptValid(c, keys, r, token) || (plan.version != "" && !PlanContains(plan, r.operationId)) then None
        else Some(r)
  }

  // -------------------------------------------------------- the round trip

  /** The signer's key is registered, its signatures verify, and result digests
      print as hexadecimal. */
  ghost predicate Sound(c: Crypto, keys: map<string, string>, signer: Signer) {
    && (forall a, b :: c.hash(a) == c.hash(b) ==> a == b)
    && (forall p :: IsDigest(c.resultDigest(p)))
    && signer.keyId in keys
    && (forall r :: Trim(c.sign(signer.key, r)) != "" && c.verify(keys[signer.keyId], false, r, c.sign(signer.key, r)))
  }

  lemma DigestHasNoSpace(s: string)
    requires IsDigest(s)
    ensures Trim(s) == s && s != ""
  {
    TrimFixed(s);
  }

  /** A validated plan's receipt names the trimmed id of the operation it ended at. */
  lemma ReceiptNamesLast(c: Crypto, plan: Plan, token: Token, outcomes: nat -> Outcome)
    requires PlanValid(c, plan, token)
    ensures var p := Execute(plan.ops, outcomes, |plan.ops|); var last := |p.results| - 1;
            && 0 <= last < |plan.ops|
            && ReceiptOperationId(plan, p.results) == Trim(plan.ops[last].id) && Trim(plan.ops[last].id) != ""
  {
    ResultsExact(plan.ops, outcomes, |plan.ops|);
  }

  lemma ReasonNotBlank()
    ensures Trim(UNKNOWN_REASON) != ""
  {
    TrimFixed(UNKNOWN_REASON);
  }

  /** The receipt a run builds is bound to the plan and the token, has a reason
      exactly when the outcome is unknown and an error code exactly when it did
      not succeed, and is digested and signed over its own fields. */
  lemma BuiltShape(c: Crypto, plan: Plan, token: Token, p: Progress, startedAt: int, completedAt: int, signer: Signer)
    ensures var r := BuildReceipt(c, plan, token, p, startedAt, completedAt, signer);
            && r.version == CONTRACT && r.planId == plan.planId && r.planDigest == plan.digest && r.agentId == plan.agentId
            && r.tenantId == plan.tenantId && r.tokenId == token.tokenId && r.nonceConsumed
            && r.startedAt == startedAt && r.completedAt == completedAt
            && (r.status.SUCCESS? <==> p.stopped.None?) && (r.status.UNSURE? <==> p.stopped == Some(UNKNOWN))
            && !r.status.CANCELLED? && !r.status.OtherStatus?
            && r.errorCode == (if r.status.SUCCESS? then "" else if r.status.UNSURE? then "AGENT_EXECUTION_UNKNOWN" else "AGENT_EXECUTION_FAILED")
            && r.unknownReason == (if r.status.UNSURE? then UNKNOWN_REASON else "")
            && r.digest == c.digest(Undigested(r)) && r.signature == c.sign(signer.key, Unsigned(r))
            && r.operationId == ReceiptOperationId(plan, p.results) && r.results == p.results && r.keyId == signer.keyId
  {
    hide ReceiptOperationId, CONTRACT, UNKNOWN_REASON;
  }

  lemma SoundSigner(c: Crypto, keys: map<string, string>, signer: Signer, r: Receipt)
    requires Sound(c, keys, signer)
    ensures signer.keyId in keys
    ensures Trim(c.sign(signer.key, r)) != "" && c.verify(keys[signer.keyId], false, r, c.sign(signer.key, r))
  {
    hide Trim, IsDigest;
  }

  /** A receipt that is bound to the token, digested and signed passes validation
      exactly when it has a plan id and its clock did not go back. */
  lemma SignedReceiptValid(c: Crypto, keys: map<string, string>, r: Receipt, token: Token)
    requires r.version == CONTRACT && r.operationId != ""
    requires r.agentId == token.agentId && r.tenantId == token.tenantId && r.tokenId == token.tokenId
    requires r.planDigest == token.planDigest && r.nonceConsumed && !r.status.OtherStatus? && |r.results| <= MAX_OPERATIONS
    requires r.status.UNSURE? ==> Trim(r.unknownReason) != ""
    requires r.status.SUCCESS? ==> r.errorCode == ""
    requires r.digest == c.digest(Undigested(r)) && Trim(r.keyId) != "" && Trim(r.signature) != "" && r.keyId in keys
    requires c.verify(keys[r.keyId], false, Unsigned(r), r.signature)
    ensures ReceiptValid(c, keys, r, token) <==> r.planId != "" && r.completedAt >= r.startedAt
  {
    hide Trim, CONTRACT, Undigested, Unsigned;
  }

  /** The built receipt passes validation exactly when the plan has an id and the
      clock did not go back. */
  lemma BuiltReceiptValid(c: Crypto, keys: map<string, string>, plan: Plan, token: Token, outcomes: nat -> Outcome,
                          startedAt: int, completedAt: int, signer: Signer)
    requires PlanValid(c, plan, token) && Sound(c, keys, signer) && Trim(signer.keyId) != ""
    ensures var p := Execute(plan.ops, outcomes, |plan.ops|);
            ReceiptValid(c, keys, BuildReceipt(c, plan, token, p, startedAt, completedAt, signer), token)
            <==> plan.planId != "" && completedAt >= startedAt
  {
    var p := Execute(plan.ops, outcomes, |plan.ops|);
    var r := BuildReceipt(c, plan, token, p, startedAt, completedAt, signer);
    hide Trim, Execute, ReceiptOperationId, CONTRACT, UNKNOWN_REASON, IsDigest, Undigested, Unsigned, Sound, BuildReceipt, ReceiptValid;
    ReceiptNamesLast(c, plan, token, outcomes);
    ResultsExact(plan.ops, outcomes, |plan.ops|);
    ReasonNotBlank();
    BuiltShape(c, plan, token, p, startedAt, completedAt, signer);
    SoundSigner(c, keys, signer, Unsigned(r));
    SignedReceiptValid(c, keys, r, token);
  }

  /** Every stored receipt belongs to a consumed nonce. */
  ghost predicate Consistent(c: Crypto, s: Store) {
    forall n :: c.hash(n) in s.receipts ==> c.hash(Trim(n)) in s.nonces
  }

  /** Runs keep the store consistent, and add one nonce record and one receipt
      and change nothing else. */
  lemma RunPlanKeeps(c: Crypto, s: Store, plan: Plan, token: Token, outcomes: nat -> Outcome, startedAt: int, completedAt: int, signer: Signer)
    requires forall a, b :: c.hash(a) == c.hash(b) ==> a == b
    requires Consistent(c, s)
    requires RunPlan(c, s, plan, token, outcomes, startedAt, completedAt, signer).Some?
    ensures var after := RunPlan(c, s, plan, token, outcomes, startedAt, completedAt, signer).value;
            var n := Trim(token.nonce);
            && Consistent(c, after)
            && n != "" && Trim(token.tokenId) != "" && c.hash(n) !in s.nonces && c.hash(token.nonce) !in s.receipts
            && after.nonces == s.nonces[c.hash(n) := NonceRecord(CONTRACT, n, Trim(token.tokenId), Trim(c.resultDigest(plan)))]
            && after.receipts == s.receipts[c.hash(token.nonce) :=
                 BuildReceipt(c, plan, token, Execute(plan.ops, outcomes, |plan.ops|), startedAt, completedAt, signer)]
            && (c.hash(n) in after.receipts <==> n == token.nonce)
  {
    TrimIdempotent(token.nonce);
    hide Trim, Execute, BuildReceipt, CONTRACT, PlanValid, Writes;
  }

  /** What the loader accepts of a store, once the nonce record and the receipt
      are known. */
  lemma LoadExact(c: Crypto, keys: map<string, string>, s: Store, plan: Plan, token: Token)
    requires PlanValid(c, plan, token) && IsDigest(c.resultDigest(plan))
    requires Trim(token.nonce) != "" && Trim(token.tokenId) != "" && c.hash(Trim(token.nonce)) in s.nonces
    requires s.nonces[c.hash(Trim(token.nonce))] == NonceRecord(CONTRACT, Trim(token.nonce), Trim(token.tokenId), c.resultDigest(plan))
    ensures var key := c.hash(Trim(token.nonce)); var loaded := LoadReceipt(c, keys, s, plan, token);
            && (loaded.Some? <==>
                  && Trim(token.tokenId) == token.tokenId
                  && key in s.receipts && ReceiptValid(c, keys, s.receipts[key], token) && PlanContains(plan, s.receipts[key].operationId))
            && (loaded.Some? ==> loaded.value == s.receipts[key])
  {
    DigestHasNoSpace(c.resultDigest(plan));
    assert plan.version == CONTRACT && CONTRACT != "";
    hide Trim, CONTRACT, PlanValid, IsDigest, ReceiptValid, PlanContains;
  }

  /** Every receipt a run writes is accepted by the loader for the same plan and
      token exactly when the plan has an id, the clock did not go back, the nonce
      and the token id have no outer space, and the trimmed id of the operation
      the run ended at is itself an operation id of the plan. */
  lemma ReceiptAcceptedExactly(c: Crypto, keys: map<string, string>, s: Store, plan: Plan, token: Token, outcomes: nat -> Outcome,
                               startedAt: int, completedAt: int, signer: Signer)
    requires Sound(c, keys, signer) && Consistent(c, s)
    requires RunPlan(c, s, plan, token, outcomes, startedAt, completedAt, signer).Some?
    ensures var after := RunPlan(c, s, plan, token, outcomes, startedAt, completedAt, signer).value;
            var p := Execute(plan.ops, outcomes, |plan.ops|);
            var loaded := LoadReceipt(c, keys, after, plan, token);
            && 0 < |p.results| <= |plan.ops|
            && (loaded.Some? <==>
                  && plan.planId != "" && completedAt >= startedAt
                  && Trim(token.nonce) == token.nonce && Trim(token.tokenId) == token.tokenId
                  && PlanContains(plan, Trim(plan.ops[|p.results| - 1].id)))
            && (loaded.Some? ==> loaded.value == BuildReceipt(c, plan, token, p, startedAt, completedAt, signer) && loaded.value.results == p.results)
  {
    assert PlanValid(c, plan, token) && Trim(signer.keyId) != "" by {
      hide Trim, Execute, BuildReceipt, PlanValid, Consume, PersistReceipt, Sound, Writes;
    }
    assert IsDigest(c.resultDigest(plan)) by { hide Trim, IsDigest, RunPlan; }
    assert forall a, b :: c.hash(a) == c.hash(b) ==> a == b by { hide Trim, IsDigest, RunPlan; }
    hide *;
    var p := Execute(plan.ops, outcomes, |plan.ops|);
    var after := RunPlan(c, s, plan, token, outcomes, startedAt, completedAt, signer).value;
    ReceiptNamesLast(c, plan, token, outcomes);
    BuiltShape(c, plan, token, p, startedAt, completedAt, signer);
    BuiltReceiptValid(c, keys, plan, token, outcomes, startedAt, completedAt, signer);
    RunPlanKeeps(c, s, plan, token, outcomes, startedAt, completedAt, signer);
    DigestHasNoSpace(c.resultDigest(plan));
    LoadExact(c, keys, after, plan, token);
    assert |p.results| <= |plan.ops| && p.results != [];
  }

  lemma ContainsOwn(plan: Plan, i: nat)
    requires i < |plan.ops|
    ensures PlanContains(plan, plan.ops[i].id)
  {
  }

  /** With trimmed ids and a clock that does not go back the receipt is always
      accepted, whatever each operation's outcome was. */
  lemma TrimmedIdsAccepted(c: Crypto, keys: map<string, string>, s: Store, plan: Plan, token: Token, outcomes: nat -> Outcome,
                           startedAt: int, completedAt: int, signer: Signer)
    requires Sound(c, keys, signer) && Consistent(c, s)
    requires RunPlan(c, s, plan, token, outcomes, startedAt, completedAt, signer).Some?
    requires plan.planId != "" && completedAt >= startedAt
    requires Trim(token.nonce) == token.nonce && Trim(token.tokenId) == token.tokenId
    requires forall i :: 0 <= i < |plan.ops| ==> Trim(plan.ops[i].id) == plan.ops[i].id
    ensures LoadReceipt(c, keys, RunPlan(c, s, plan, token, outcomes, startedAt, completedAt, signer).value, plan, token).Some?
  {
    hide *;
    ReceiptAcceptedExactly(c, keys, s, plan, token, outcomes, startedAt, completedAt, signer);
    var last := |Execute(plan.ops, outcomes, |plan.ops|).results| - 1;
    ContainsOwn(plan, last);
    assert Trim(plan.ops[last].id) == plan.ops[last].id;
  }

  /** What a run to a kept receipt needs: a valid plan that writes, a usable
      signer, nothing blank in the nonce record, and neither the nonce nor its
      receipt there yet. */
  predicate Runnable(c: Crypto, s: Store, plan: Plan, token: Token, signer: Signer) {
    && PlanValid(c, plan, token) && Writes(plan) && signer.usable && Trim(signer.keyId) != ""
    && Trim(token.nonce) != "" && Trim(token.tokenId) != "" && Trim(c.resultDigest(plan)) != ""
    && c.hash(Trim(token.nonce)) !in s.nonces && c.hash(token.nonce) !in s.receipts
  }

  /** A plan runs to a kept receipt exactly when it is runnable, whatever its
      operations' outcomes are. */
  lemma PlanRuns(c: Crypto, s: Store, plan: Plan, token: Token, outcomes: nat -> Outcome, startedAt: int, completedAt: int, signer: Signer)
    ensures RunPlan(c, s, plan, token, outcomes, startedAt, completedAt, signer).Some? <==> Runnable(c, s, plan, token, signer)
  {
    hide Trim, PlanValid, Execute, BuildReceipt, CONTRACT, Writes;
  }

  // --------------------------------------------- before anything has run

  ghost predicate AcceptedUnder(c: Crypto, keys: map<string, string>, s: Store, plan: Plan, token: Token, outcomes: nat -> Outcome,
                                startedAt: int, completedAt: int, signer: Signer) {
    var after := RunPlan(c, s, plan, token, outcomes, startedAt, completedAt, signer);
    after.Some? && LoadReceipt(c, keys, after.value, plan, token).Some?
  }

  /** Whether a runnable plan's receipt is accepted under all outcomes can be told
      before the run: the plan has an id, the clock does not go back, nonce and
      token id have no outer space, and the trimmed id of every reachable
      operation is itself an operation id of the plan. */
  lemma AcceptedUnderAll(c: Crypto, keys: map<string, string>, s: Store, plan: Plan, token: Token,
                         startedAt: int, completedAt: int, signer: Signer)
    requires Sound(c, keys, signer) && Consistent(c, s) && Runnable(c, s, plan, token, signer)
    ensures (forall outcomes :: AcceptedUnder(c, keys, s, plan, token, outcomes, startedAt, completedAt, signer)) <==>
            && plan.planId != "" && completedAt >= startedAt
            && Trim(token.nonce) == token.nonce && Trim(token.tokenId) == token.tokenId
            && forall i :: 0 <= i < |plan.ops| && Reachable(plan.ops, i) ==> PlanContains(plan, Trim(plan.ops[i].id))
  {
    hide *;
    forall outcomes {
      AcceptedHere(c, keys, s, plan, token, outcomes, startedAt, completedAt, signer);
    }
    if forall outcomes :: AcceptedUnder(c, keys, s, plan, token, outcomes, startedAt, completedAt, signer) {
      assert AcceptedUnder(c, keys, s, plan, token, StopsAt(0), startedAt, completedAt, signer);
      forall i | 0 <= i < |plan.ops| && Reachable(plan.ops, i) ensures PlanContains(plan, Trim(plan.ops[i].id)) {
        EndsAt(plan.ops, i);
        assert AcceptedUnder(c, keys, s, plan, token, StopsAt(i), startedAt, completedAt, signer);
      }
    }
  }

  lemma AcceptedHere(c: Crypto, keys: map<string, string>, s: Store, plan: Plan, token: Token, outcomes: nat -> Outcome,
                     startedAt: int, completedAt: int, signer: Signer)
    requires Sound(c, keys, signer) && Consistent(c, s) && Runnable(c, s, plan, token, signer)
    ensures var last := |Execute(plan.ops, outcomes, |plan.ops|).results| - 1;
            && 0 <= last < |plan.ops| && Reachable(plan.ops, last)
            && (AcceptedUnder(c, keys, s, plan, token, outcomes, startedAt, completedAt, signer) <==>
                  && plan.planId != "" && completedAt >= startedAt
                  && Trim(token.nonce) == token.nonce && Trim(token.tokenId) == token.tokenId
                  && PlanContains(plan, Trim(plan.ops[last].id)))
  {
    hide Sound, Consistent, Runnable, RunPlan, LoadReceipt, Execute, Trim, PlanContains;
    PlanRuns(c, s, plan, token, outcomes, startedAt, completedAt, signer);
    ReceiptAcceptedExactly(c, keys, s, plan, token, outcomes, startedAt, completedAt, signer);
    ResultsExact(plan.ops, outcomes, |plan.ops|);
  }

  // ------------------------------------------- what a receipt testifies

  /** The stored receipt tells how the run went: success exactly when every
      operation went well, and otherwise, with the results up to the first that
      did not, unknown exactly when that failure leaves the host uncertain. */
  lemma ReceiptStatusExact(c: Crypto, s: Store, plan: Plan, token: Token, outcomes: nat -> Outcome, startedAt: int, completedAt: int, signer: Signer)
    requires (forall a, b :: c.hash(a) == c.hash(b) ==> a == b) && Consistent(c, s)
    requires RunPlan(c, s, plan, token, outcomes, startedAt, completedAt, signer).Some?
    ensures var after := RunPlan(c, s, plan, token, outcomes, startedAt, completedAt, signer).value; var ops := plan.ops;
            && c.hash(token.nonce) in after.receipts
            && var r := after.receipts[c.hash(token.nonce)];
               && (r.status == SUCCESS <==> forall i :: 0 <= i < |ops| ==> Fine(ops, outcomes, i))
               && (r.status == SUCCESS ==> |r.results| == |ops|)
               && (forall k :: 0 <= k < |ops| && FirstBadAt(ops, outcomes, k) ==>
                     r.status == (if Uncertain(ops, outcomes, k) then UNSURE else FAILURE) && |r.results| == k + 1)
               && (Trim(r.unknownReason) != "" <==> r.status == UNSURE)
               && r.errorCode == if r.status == SUCCESS then "" else if r.status == UNSURE then "AGENT_EXECUTION_UNKNOWN" else "AGENT_EXECUTION_FAILED"
  {
    hide *;
    RunPlanKeeps(c, s, plan, token, outcomes, startedAt, completedAt, signer);
    BuiltStatus(c, plan, token, outcomes, startedAt, completedAt, signer);
  }

  lemma BuiltStatus(c: Crypto, plan: Plan, token: Token, outcomes: nat -> Outcome, startedAt: int, completedAt: int, signer: Signer)
    ensures var ops := plan.ops; var r := BuildReceipt(c, plan, token, Execute(ops, outcomes, |ops|), startedAt, completedAt, signer);
            && (r.status == SUCCESS <==> forall i :: 0 <= i < |ops| ==> Fine(ops, outcomes, i))
            && (r.status == SUCCESS ==> |r.results| == |ops|)
            && (forall k :: 0 <= k < |ops| && FirstBadAt(ops, outcomes, k) ==>
                  r.status == (if Uncertain(ops, outcomes, k) then UNSURE else FAILURE) && |r.results| == k + 1)
            && (Trim(r.unknownReason) != "" <==> r.status == UNSURE)
            && r.errorCode == if r.status == SUCCESS then "" else if r.status == UNSURE then "AGENT_EXECUTION_UNKNOWN" else "AGENT_EXECUTION_FAILED"
  {
    hide Trim, Execute, Fine, Uncertain, BuildReceipt, CONTRACT, UNKNOWN_REASON, SkipAt;
    ReasonNotBlank();
    TrimFixed("");
    var ops, p := plan.ops, Execute(plan.ops, outcomes, |plan.ops|);
    BuiltShape(c, plan, token, p, startedAt, completedAt, signer);
    GoesOnExactly(ops, outcomes, |ops|);
    ResultsExact(ops, outcomes, |ops|);
    forall k | 0 <= k < |ops| && FirstBadAt(ops, outcomes, k)
      ensures |p.results| == k + 1 && p.stopped == Some(if Uncertain(ops, outcomes, k) then UNKNOWN else FAILED)
    {
      StopsAtFirst(ops, outcomes, k, |ops|);
    }
  }

  ghost predicate FirstBadAt(ops: seq<Operation>, outcomes: nat -> Outcome, k: nat)
    requires k < |ops|
  {
    !Fine(ops, outcomes, k) && forall i :: 0 <= i < k ==> Fine(ops, outcomes, i)
  }

  /** A plan that runs is bound to its token field by field, within the limits,
      and declares and holds an operation that is not harmless. */
  lemma RanIsBound(c: Crypto, s: Store, plan: Plan, token: Token, outcomes: nat -> Outcome, startedAt: int, completedAt: int, signer: Signer)
    requires RunPlan(c, s, plan, token, outcomes, startedAt, completedAt, signer).Some?
    ensures 0 < |plan.ops| <= 100 && plan.version == "gcac.agent-security/v1"
    ensures plan.agentId == token.agentId && plan.tenantId == token.tenantId && plan.tokenId == token.tokenId && plan.nonce == token.nonce
    ensures c.planDigest(plan) == plan.digest == token.planDigest && token.covers(plan)
    ensures forall i :: 0 <= i < |plan.ops| ==> Trim(plan.ops[i].id) != ""
    ensures plan.writeEffect && exists i :: 0 <= i < |plan.ops| && !Harmless(plan.ops[i].kind)
  {
    hide Trim, Execute, BuildReceipt, Consume, PersistReceipt;
    var i :| 0 <= i < |plan.ops| && IsWrite(plan.ops[i].kind);
  }

  /** Whatever is in the store: a receipt that the loader accepts is the one stored
      under the trimmed nonce, was consumed under this token and for this plan, is
      bound to the token field by field, and carries a digest of its own fields and
      a signature that verifies under a registered key. */
  lemma LoadedIsBound(c: Crypto, keys: map<string, string>, s: Store, plan: Plan, token: Token)
    requires LoadReceipt(c, keys, s, plan, token).Some?
    ensures var r := LoadReceipt(c, keys, s, plan, token).value; var key := c.hash(Trim(token.nonce));
            && Trim(token.nonce) != "" && key in s.nonces && key in s.receipts && r == s.receipts[key]
            && s.nonces[key].nonce == Trim(token.nonce) && s.nonces[key].tokenId == token.tokenId
            && s.nonces[key].version == "gcac.agent-security/v1" && |s.nonces[key].resultDigest| == 64 && IsDigest(s.nonces[key].resultDigest)
            && (plan.version != "" ==>
                  && PlanValid(c, plan, token) && c.resultDigest(plan) == s.nonces[key].resultDigest
                  && exists i :: 0 <= i < |plan.ops| && plan.ops[i].id == r.operationId)
            && r.version == "gcac.agent-security/v1" && r.planId != "" && r.operationId != "" && r.nonceConsumed
            && r.agentId == token.agentId && r.tenantId == token.tenantId && r.tokenId == token.tokenId && r.planDigest == token.planDigest
            && r.status != OtherStatus && r.completedAt >= r.startedAt && |r.results| <= 100
            && (r.status == UNSURE ==> Trim(r.unknownReason) != "") && (r.status == SUCCESS ==> r.errorCode == "")
            && var body := r.(signature := "", digest := ""); var current := r.digest == c.digest(body);
               && (current || r.digest == c.legacyDigest(body) || r.digest == c.legacyEmptyDigest(body))
               && r.keyId in keys && Trim(r.keyId) != "" && Trim(r.signature) != ""
               && c.verify(keys[r.keyId], !current, r.(signature := ""), r.signature)
  {
    hide Trim, PlanValid;
  }

  // ------------------------------------------------------- a padded id

  const ZEROS: string := seq(64, i => '0')

  /** A setting in which every digest is constant and every signature verifies. */
  const TOY := Crypto(s => s, p => "d", p => ZEROS, r => "d", r => "d", r => "d", (k, r) => "s", (k, legacy, r, signature) => true)
  const TOY_TOKEN := Token("t", "a", "o", "n", "d", plan => true)
  const TOY_SIGNER := Signer("k", "k", true)
  const TOY_KEYS := map["k" := "k"]

  function ToyPlan(id: string): Plan {
    Plan(CONTRACT, "p", "a", "o", "t", "n", "d", true, [Operation(id, ServiceControl, "", "", None)])
  }

  lemma ToySound()
    ensures Sound(TOY, TOY_KEYS, TOY_SIGNER)
  {
    hide Trim;
    TrimFixed("s");
    assert IsDigest(ZEROS);
  }

  lemma ToyPlanValid(id: string)
    requires Trim(id) != ""
    ensures PlanValid(TOY, ToyPlan(id), TOY_TOKEN) && Writes(ToyPlan(id))
  {
    hide Trim, CONTRACT;
    assert IsWrite(ToyPlan(id).ops[0].kind);
  }

  lemma ToyFields()
    ensures TOY_SIGNER.usable && Trim(TOY_SIGNER.keyId) != ""
    ensures Trim(TOY_TOKEN.nonce) == TOY_TOKEN.nonce != "" && Trim(TOY_TOKEN.tokenId) == TOY_TOKEN.tokenId != ""
    ensures forall plan :: Trim(TOY.resultDigest(plan)) != ""
  {
    hide Trim;
    TrimFixed("k");
    TrimFixed("n");
    TrimFixed("t");
    assert IsDigest(ZEROS);
    DigestHasNoSpace(ZEROS);
  }

  lemma ToyRunnable(id: string)
    requires Trim(id) != ""
    ensures Runnable(TOY, Store(map[], map[]), ToyPlan(id), TOY_TOKEN, TOY_SIGNER)
  {
    hide Trim, PlanValid, Writes, ToyPlan;
    ToyPlanValid(id);
    ToyFields();
  }

  /** A plan of one service operation runs whatever its nonblank id and outcome;
      its receipt is accepted exactly when the id is not padded and the clock did
      not go back. So the id " a" passes validation and its receipt is refused. */
  lemma PaddedIdRefused(id: string, outcomes: nat -> Outcome, startedAt: int, completedAt: int)
    requires Trim(id) != ""
    ensures var after := RunPlan(TOY, Store(map[], map[]), ToyPlan(id), TOY_TOKEN, outcomes, startedAt, completedAt, TOY_SIGNER);
            after.Some? && (LoadReceipt(TOY, TOY_KEYS, after.value, ToyPlan(id), TOY_TOKEN).Some? <==> Trim(id) == id && completedAt >= startedAt)
    ensures Trim(" a") != "" && Trim(" a") != " a"
  {
    hide *;
    ToySound();
    ToyPlanValid(id);
    ToyFields();
    ToyShape(id);
    SpaceFirst();
    var plan := ToyPlan(id);
    ToyRunnable(id);
    PlanRuns(TOY, Store(map[], map[]), plan, TOY_TOKEN, outcomes, startedAt, completedAt, TOY_SIGNER);
    ReceiptAcceptedExactly(TOY, TOY_KEYS, Store(map[], map[]), plan, TOY_TOKEN, outcomes, startedAt, completedAt, TOY_SIGNER);
    var last := |Execute(plan.ops, outcomes, |plan.ops|).results| - 1;
    assert last == 0;
    assert plan.ops[last].id == id;
  }

  lemma ToyShape(id: string)
    ensures var plan := ToyPlan(id);
            && |plan.ops| == 1 && plan.ops[0].id == id && plan.planId != ""
            && (PlanContains(plan, Trim(id)) <==> Trim(id) == id)
    ensures Consistent(TOY, Store(map[], map[]))
  {
    hide Trim, CONTRACT;
    ContainsOwn(ToyPlan(id), 0);
  }

  lemma SpaceFirst()
    ensures Trim(" a") != "" && Trim(" a") != " a"
  {
    hide Trim;
    TrimFixed(" a");
    TrimKeepsText(" a", 1);
  }
}
