/** Memory candidates: what the inbox holds, what a person deciding on a candidate is shown, and what capture,
    promotion and rejection may do to it. The methods are in CandidateInbox. */
module Candidates {
  import opened Evidence
  import opened Transactions
  import TransactionRuns
  import TransactionStores

  /** `CND-` and the digest of the idempotency key. */
  type CandidateId = string

  datatype Operation = Create | Update

  /** The fields of a capture that its request digest covers. */
  datatype Proposal = Proposal(
    record: RecordId,
    body: Bytes,
    operation: Operation,
    expected: Option<Digest<Bytes>>,
    derivations: set<string>,
    capturedAt: string,
    findings: seq<string>,
    rest: Bytes)

  datatype CandidateStatus =
    | Pending
    | Declined
    | Promoted(record: Digest<Bytes>, role: string, at: string)

  datatype Candidate = Candidate(id: CandidateId, proposal: Proposal, status: CandidateStatus)

  datatype Situation =
    | AwaitingReview | Rejected | RejectionDrift | AlreadyPromoted
    | MissingRecord | NeedsReconciliation | CurrentRecord | StaleRevision

  /** What a decision confirms by its digest. */
  datatype Preview = Preview(
    candidate: Digest<Candidate>,
    status: CandidateStatus,
    situation: Situation,
    operation: Operation,
    record: RecordId,
    expected: Option<Digest<Bytes>>,
    current: Option<Digest<Bytes>>,
    proposed: Digest<Bytes>)

  datatype PreviewDigest = PreviewSha256(of: Preview)

  datatype Rejection = Rejection(
    candidate: Digest<Candidate>, preview: PreviewDigest, reason: string, role: string, at: string)

  datatype Inbox = Inbox(
    disk: Store,
    candidates: map<CandidateId, Candidate>,
    rejections: map<CandidateId, Rejection>)

  /** Who decides, and when. */
  datatype Signoff = Signoff(role: string, configured: bool, approved: bool, at: string)

  // ----- what a decision is based on -----

  /** `_effective_situation`. */
  function SituationOf(b: Inbox, c: Candidate): Situation {
    if c.id in b.rejections then
      if b.rejections[c.id].candidate != Sha256(c) then RejectionDrift else Rejected
    else if c.status == Declined then Rejected
    else if c.status.Promoted? then AlreadyPromoted
    else
      match Revision(b.disk.records, c.proposal.record)
      case None => if c.proposal.operation == Create then AwaitingReview else MissingRecord
      case Some(observed) =>
        if observed == Sha256(c.proposal.body) then NeedsReconciliation
        else if c.proposal.operation == Create then CurrentRecord
        else if Some(observed) == c.proposal.expected then AwaitingReview
        else StaleRevision
  }

  function PreviewOf(b: Inbox, c: Candidate): Preview {
    Preview(Sha256(c), c.status, SituationOf(b, c), c.proposal.operation, c.proposal.record, c.proposal.expected,
            Revision(b.disk.records, c.proposal.record), Sha256(c.proposal.body))
  }

  // ----- the batch a promotion runs -----

  function PromotionTx(id: CandidateId): TxId { IdForKey("promote:" + id) }

  function PromotionRequest(p: Proposal): Request {
    Request([Item(p.record, p.body)], p.operation == Update,
            if p.expected.Some? then Some(map[p.record := p.expected]) else None)
  }

  lemma PromotionTxDiffers(a: CandidateId, b: CandidateId)
    requires PromotionTx(a) == PromotionTx(b)
    ensures a == b
  {
    assert ("promote:" + a)[8..] == a && ("promote:" + b)[8..] == b;
  }

  function PromotionBatch(c: Candidate, env: Env): TransactionRuns.Op {
    TransactionRuns.Put(PromotionRequest(c.proposal), PromotionTx(c.id), env)
  }

  // ----- every reachable inbox -----

  predicate WellFormed(p: Proposal) {
    p.operation == Create <==> p.expected == None
  }

  /** A promoted candidate's batch is committed; a rejection is bound to a candidate that is still exactly
      what was rejected. In particular no candidate is both. */
  ghost predicate InboxInv(b: Inbox) {
    && Inv(b.disk)
    && (forall id :: id in b.candidates ==>
          && b.candidates[id].id == id && WellFormed(b.candidates[id].proposal) && b.candidates[id].status != Declined
          && (b.candidates[id].status.Promoted? ==>
                && b.candidates[id].status.record == Sha256(b.candidates[id].proposal.body)
                && CommittedAs(b.disk, PromotionTx(id), PromotionRequest(b.candidates[id].proposal))))
    && (forall id :: id in b.rejections ==>
          id in b.candidates && b.candidates[id].status == Pending
            && b.rejections[id].candidate == Sha256(b.candidates[id]))
  }

  // ----- what one operation may do -----

  /** Persisting a prepared candidate: kept if its id is on disk, written otherwise. */
  ghost predicate CaptureEffect(b0: Inbox, b1: Inbox, c: Candidate) {
    && b1.disk == b0.disk && b1.rejections == b0.rejections
    && (b1.candidates == b0.candidates
        || (c.id !in b0.candidates && c.status == Pending && WellFormed(c.proposal)
            && b1.candidates == b0.candidates[c.id := c]))
  }

  /** Everything `promote_candidate` checks before it starts the batch. */
  ghost predicate Confirmed(b: Inbox, id: CandidateId, signoff: Signoff, preview: Option<PreviewDigest>,
                            blocked: Bytes -> bool) {
    && signoff.configured && signoff.approved
    && id in b.candidates && b.candidates[id].status == Pending && id !in b.rejections
    && preview == Some(PreviewSha256(PreviewOf(b, b.candidates[id])))
    && !blocked(b.candidates[id].proposal.body)
  }

  /** The candidate as its promotion stores it. */
  function PromotedBy(c: Candidate, signoff: Signoff): Candidate {
    c.(status := Promoted(Sha256(c.proposal.body), signoff.role, signoff.at))
  }

  /** `promote_candidate`: nothing is written unless the confirmed preview is what is on disk now. The
      candidate turns promoted only after its batch is committed with the proposed bytes in place. */
  ghost predicate PromoteEffect(b0: Inbox, b1: Inbox, id: CandidateId, signoff: Signoff,
                                preview: Option<PreviewDigest>, blocked: Bytes -> bool, env: Env) {
    && b1.rejections == b0.rejections
    && (!Confirmed(b0, id, signoff, preview, blocked) ==> b1 == b0)
    && (Confirmed(b0, id, signoff, preview, blocked) ==>
          var c := b0.candidates[id];
          && (exists o :: TransactionRuns.Effect(b0.disk, b1.disk, PromotionBatch(c, env), o))
          && (b1.candidates == b0.candidates
              || (&& SituationOf(b0, c) in {AwaitingReview, NeedsReconciliation}
                  && CommittedAs(b1.disk, PromotionTx(id), PromotionRequest(c.proposal))
                  && Lookup(b1.disk.records, c.proposal.record) == Some(c.proposal.body)
                  && b1.candidates == b0.candidates[id := PromotedBy(c, signoff)])))
  }

  /** Exactly when a promotion without faults returns. */
  ghost predicate Promotes(b: Inbox, id: CandidateId, signoff: Signoff, preview: Option<PreviewDigest>,
                           blocked: Bytes -> bool, env: Env) {
    && signoff.configured && signoff.approved && id in b.candidates
    && (b.candidates[id].status.Promoted? ||
        (Confirmed(b, id, signoff, preview, blocked) && BatchReturns(b.disk, b.candidates[id], env)))
  }

  ghost predicate BatchReturns(s: Store, c: Candidate, env: Env) {
    var request, tx := PromotionRequest(c.proposal), PromotionTx(c.id);
    && Proper(request, env)
    && if tx in s.journals then Replay(s, tx, request, env.rules).Done?
       else TransactionStores.PutAdmitted(s, request, tx, env) && PassesAudit(s, request, tx, env)
  }

  /** The decision a rejection call names. */
  function RejectionOf(b: Inbox, id: CandidateId, signoff: Signoff, preview: PreviewDigest, reason: string): Rejection {
    var digest := if id in b.candidates then Sha256(b.candidates[id]) else preview.of.candidate;
    Rejection(digest, preview, reason, signoff.role, signoff.at)
  }

  /** Exactly when a rejection without faults returns `r`. */
  ghost predicate Rejects(b: Inbox, id: CandidateId, signoff: Signoff, r: Rejection) {
    && signoff.configured && signoff.approved && id in b.candidates && !b.candidates[id].status.Promoted?
    && if id in b.rejections then SameDecision(b.rejections[id], r)
       else (&& r.preview == PreviewSha256(PreviewOf(b, b.candidates[id]))
             && SituationOf(b, b.candidates[id]) != NeedsReconciliation)
  }

  predicate SameDecision(a: Rejection, b: Rejection) {
    a.preview == b.preview && a.reason == b.reason && a.role == b.role && a.at == b.at
  }

  /** Rejecting a rejected candidate again is answered exactly when the call repeats the decision on disk. */
  lemma RepeatedRejection(b: Inbox, id: CandidateId, signoff: Signoff, shown: PreviewDigest, reason: string)
    requires InboxInv(b) && id in b.rejections
    ensures Rejects(b, id, signoff, RejectionOf(b, id, signoff, shown, reason)) <==>
              && signoff.configured && signoff.approved
              && b.rejections[id].preview == shown && b.rejections[id].reason == reason
              && b.rejections[id].role == signoff.role && b.rejections[id].at == signoff.at
  {
    hide Inv, CommittedAs;
  }

  ghost predicate RejectEffect(b0: Inbox, b1: Inbox, id: CandidateId, signoff: Signoff, r: Rejection) {
    && b1.disk == b0.disk && b1.candidates == b0.candidates
    && (b1.rejections == b0.rejections
        || (id !in b0.rejections && Rejects(b0, id, signoff, r) && r.candidate == Sha256(b0.candidates[id])
            && b1.rejections == b0.rejections[id := r]))
  }

  /** Any other batch or recovery on the same store. */
  ghost predicate DiskEffect(b0: Inbox, b1: Inbox, op: TransactionRuns.Op) {
    && b1.candidates == b0.candidates && b1.rejections == b0.rejections
    && exists out :: TransactionRuns.Effect(b0.disk, b1.disk, op, out)
  }

  datatype Op =
    | Capture(candidate: Candidate)
    | Promote(id: CandidateId, signoff: Signoff, preview: Option<PreviewDigest>, blocked: Bytes -> bool, env: Env)
    | Reject(id: CandidateId, signoff: Signoff, shown: PreviewDigest, reason: string)
    | Batch(op: TransactionRuns.Op)

  ghost predicate Effect(b0: Inbox, b1: Inbox, op: Op) {
    match op
    case Capture(c) => CaptureEffect(b0, b1, c)
    case Promote(id, signoff, preview, blocked, env) => PromoteEffect(b0, b1, id, signoff, preview, blocked, env)
    case Reject(id, signoff, preview, reason) =>
      RejectEffect(b0, b1, id, signoff, RejectionOf(b0, id, signoff, preview, reason))
    case Batch(o) => DiskEffect(b0, b1, o)
  }

  // ----- what every step keeps -----

  /** Candidates and decisions only accumulate: a proposal never changes, a promotion and a rejection
      are never undone or altered. */
  ghost predicate Evolves(b0: Inbox, b1: Inbox) {
    && (forall id :: id in b0.candidates ==>
          && id in b1.candidates && b1.candidates[id].proposal == b0.candidates[id].proposal
          && (b0.candidates[id].status != Pending ==> b1.candidates[id] == b0.candidates[id]))
    && (forall id :: id in b0.rejections ==> id in b1.rejections && b1.rejections[id] == b0.rejections[id])
  }

  /** A committed journal stays, whatever the next step on the disk is. */
  lemma CommittedStays(s0: Store, s1: Store, op: TransactionRuns.Op, out: Outcome, tx: TxId, request: Request)
    requires Inv(s0) && TransactionRuns.Effect(s0, s1, op, out) && CommittedAs(s0, tx, request)
    ensures Inv(s1) && CommittedAs(s1, tx, request)
  {
    TransactionRuns.EffectOnJournal(s0, s1, op, out, tx);
  }

  lemma DiskStep(b0: Inbox, b1: Inbox, op: TransactionRuns.Op)
    requires InboxInv(b0) && DiskEffect(b0, b1, op)
    ensures InboxInv(b1)
  {
    hide Inv, CommittedAs, TransactionRuns.Effect;
    var out :| TransactionRuns.Effect(b0.disk, b1.disk, op, out);
    TransactionRuns.EffectInv(b0.disk, b1.disk, op, out);
    forall id | id in b0.candidates && b0.candidates[id].status.Promoted?
      ensures CommittedAs(b1.disk, PromotionTx(id), PromotionRequest(b0.candidates[id].proposal))
    {
      CommittedStays(b0.disk, b1.disk, op, out, PromotionTx(id), PromotionRequest(b0.candidates[id].proposal));
    }
  }

  lemma PromoteStep(b0: Inbox, b1: Inbox, id: CandidateId, signoff: Signoff, preview: Option<PreviewDigest>,
                    blocked: Bytes -> bool, env: Env)
    requires InboxInv(b0) && PromoteEffect(b0, b1, id, signoff, preview, blocked, env)
    requires Confirmed(b0, id, signoff, preview, blocked)
    ensures InboxInv(b1) && Evolves(b0, b1)
  {
    hide Inv, CommittedAs, SituationOf, PreviewOf, WellFormed, TransactionRuns.Effect;
    DiskStep(b0, b0.(disk := b1.disk), PromotionBatch(b0.candidates[id], env));
  }

  lemma StepKeepsInv(b0: Inbox, b1: Inbox, op: Op)
    requires InboxInv(b0) && Effect(b0, b1, op)
    ensures InboxInv(b1) && Evolves(b0, b1)
  {
    hide Inv, CommittedAs, TransactionRuns.Effect, RejectEffect, SituationOf, PreviewOf, WellFormed, Confirmed;
    match op
    case Capture(c) =>
    case Promote(id, signoff, preview, blocked, env) =>
      if Confirmed(b0, id, signoff, preview, blocked) {
        PromoteStep(b0, b1, id, signoff, preview, blocked, env);
      }
    case Reject(id, signoff, preview, reason) =>
      RejectStep(b0, b1, id, signoff, RejectionOf(b0, id, signoff, preview, reason));
    case Batch(o) => DiskStep(b0, b1, o);
  }

  lemma RejectStep(b0: Inbox, b1: Inbox, id: CandidateId, signoff: Signoff, r: Rejection)
    requires InboxInv(b0) && RejectEffect(b0, b1, id, signoff, r)
    ensures InboxInv(b1) && Evolves(b0, b1)
  {
    hide Inv, CommittedAs, SituationOf, PreviewOf, WellFormed;
  }

  // ----- runs -----

  /** `states[k]` is what operation `k` finds on disk; a crash may have left it there. */
  datatype Run = Run(states: seq<Inbox>, ops: seq<Op>)

  ghost predicate Valid(r: Run) {
    && |r.states| == |r.ops| + 1 && InboxInv(r.states[0])
    && forall k :: 0 <= k < |r.ops| ==> Effect(r.states[k], r.states[k + 1], r.ops[k])
  }

  /** In every reachable inbox, crashed ones included, no candidate is stored as promoted and covered by
      a rejection; a promoted candidate names the digest of its proposed bytes and its batch is committed under its
      own key; and a rejection always fits the candidate it rejects. */
  lemma {:induction false} RunKeepsInv(r: Run, n: nat)
    requires Valid(r) && n <= |r.ops|
    ensures InboxInv(r.states[n])
    ensures forall id :: id in r.states[n].candidates && r.states[n].candidates[id].status.Promoted? ==>
              && id !in r.states[n].rejections
              && r.states[n].candidates[id].status.record == Sha256(r.states[n].candidates[id].proposal.body)
    ensures forall id :: id in r.states[n].candidates ==>
              SituationOf(r.states[n], r.states[n].candidates[id]) != RejectionDrift
  {
    hide Effect, InboxInv, SituationOf, Evolves;
    if n > 0 {
      RunKeepsInv(r, n - 1);
      assert Effect(r.states[n - 1], r.states[n], r.ops[n - 1]);
      StepKeepsInv(r.states[n - 1], r.states[n], r.ops[n - 1]);
    }
    OutcomesApart(r.states[n]);
  }

  lemma OutcomesApart(b: Inbox)
    requires InboxInv(b)
    ensures forall id :: id in b.candidates && b.candidates[id].status.Promoted? ==>
              id !in b.rejections && b.candidates[id].status.record == Sha256(b.candidates[id].proposal.body)
    ensures forall id :: id in b.candidates ==> SituationOf(b, b.candidates[id]) != RejectionDrift
    ensures forall id :: id in b.rejections ==> id in b.candidates && b.candidates[id].status == Pending
  {
    hide Inv, CommittedAs;
  }

  /** Neither outcome is ever undone, and a rejected candidate is never promoted later. */
  lemma {:induction false} OutcomesAreFinal(r: Run, i: nat, j: nat)
    requires Valid(r) && i <= j <= |r.ops|
    ensures Evolves(r.states[i], r.states[j])
    ensures forall id :: id in r.states[i].rejections ==>
              id in r.states[j].candidates && r.states[j].candidates[id].status == Pending
    decreases j
  {
    hide Effect, InboxInv, SituationOf;
    RunKeepsInv(r, j);
    OutcomesApart(r.states[j]);
    if i < j {
      OutcomesAreFinal(r, i, j - 1);
      RunKeepsInv(r, j - 1);
      assert Effect(r.states[j - 1], r.states[j], r.ops[j - 1]);
      StepKeepsInv(r.states[j - 1], r.states[j], r.ops[j - 1]);
    }
  }

  /** A candidate turns promoted only in a promotion whose human approval names a preview. If that preview
      was taken at `i`, then candidate, situation and current revision of the target record are at `k`
      what they were at `i`, and the situation allows promotion. */
  lemma PromotedAsReviewed(r: Run, i: nat, k: nat, id: CandidateId, shown: Candidate)
    requires Valid(r) && i <= k < |r.ops|
    requires id in r.states[k].candidates && r.states[k].candidates[id].status == Pending
    requires id in r.states[k + 1].candidates && r.states[k + 1].candidates[id].status != Pending
    requires r.ops[k].Promote? && r.ops[k].id == id ==>
               r.ops[k].preview == Some(PreviewSha256(PreviewOf(r.states[i], shown)))
    ensures r.ops[k].Promote? && r.ops[k].id == id && r.ops[k].signoff.approved && r.ops[k].signoff.configured
    ensures !r.ops[k].blocked(shown.proposal.body)
    ensures shown == r.states[k].candidates[id]
    ensures SituationOf(r.states[i], shown) == SituationOf(r.states[k], shown)
    ensures SituationOf(r.states[k], shown) in {AwaitingReview, NeedsReconciliation}
    ensures Revision(r.states[i].disk.records, shown.proposal.record)
            == Revision(r.states[k].disk.records, shown.proposal.record)
    ensures Lookup(r.states[k + 1].disk.records, shown.proposal.record) == Some(shown.proposal.body)
  {
    hide PutEffect, SituationOf, CommittedAs, InboxInv;
    assert Effect(r.states[k], r.states[k + 1], r.ops[k]);
  }

  // ----- spent and interrupted promotions -----

  /** A closed journal stays as it is. */
  lemma ClosedJournalStays(b0: Inbox, b1: Inbox, op: Op, tx: TxId)
    requires InboxInv(b0) && Effect(b0, b1, op) && tx in b0.disk.journals && !b0.disk.journals[tx].Open()
    ensures tx in b1.disk.journals && b1.disk.journals[tx] == b0.disk.journals[tx]
  {
    hide TransactionRuns.Effect, SituationOf, PreviewOf, CommittedAs, Rejects, Inv;
    match op
    case Capture(_) =>
    case Promote(id, signoff, preview, blocked, env) =>
      if Confirmed(b0, id, signoff, preview, blocked) {
        var batch := PromotionBatch(b0.candidates[id], env);
        var out :| TransactionRuns.Effect(b0.disk, b1.disk, batch, out);
        TransactionRuns.EffectOnJournal(b0.disk, b1.disk, batch, out, tx);
      }
    case Reject(_, _, _, _) =>
    case Batch(o) =>
      var out :| TransactionRuns.Effect(b0.disk, b1.disk, o, out);
      TransactionRuns.EffectOnJournal(b0.disk, b1.disk, o, out, tx);
  }

  /** Once the promotion batch of a candidate has been rolled back, by the audit, by a failed write or by a recovery
      after a crash, the candidate stays pending for good: no promotion of it returns in any later state. */
  lemma {:induction false} SpentPromotion(r: Run, i: nat, j: nat, id: CandidateId)
    requires Valid(r) && i <= j <= |r.ops| && id in r.states[i].candidates
    requires PromotionTx(id) in r.states[i].disk.journals
    requires r.states[i].disk.journals[PromotionTx(id)].status.RolledBack?
    ensures PromotionTx(id) in r.states[j].disk.journals
    ensures r.states[j].disk.journals[PromotionTx(id)] == r.states[i].disk.journals[PromotionTx(id)]
    ensures id in r.states[j].candidates && r.states[j].candidates[id].status == Pending
    ensures forall signoff: Signoff, preview: Option<PreviewDigest>, blocked: Bytes -> bool, env: Env ::
              !Promotes(r.states[j], id, signoff, preview, blocked, env)
    decreases j
  {
    hide Effect, InboxInv, SituationOf, PreviewOf, Confirmed, Promotes;
    if i < j {
      SpentPromotion(r, i, j - 1, id);
      assert Effect(r.states[j - 1], r.states[j], r.ops[j - 1]);
      RunKeepsInv(r, j - 1);
      ClosedJournalStays(r.states[j - 1], r.states[j], r.ops[j - 1], PromotionTx(id));
      StepKeepsInv(r.states[j - 1], r.states[j], r.ops[j - 1]);
    }
    RunKeepsInv(r, j);
    SpentStaysPending(r.states[j], id);
  }

  lemma SpentStaysPending(b: Inbox, id: CandidateId)
    requires InboxInv(b) && id in b.candidates && PromotionTx(id) in b.disk.journals
    requires b.disk.journals[PromotionTx(id)].status.RolledBack?
    ensures b.candidates[id].status == Pending
    ensures forall signoff: Signoff, preview: Option<PreviewDigest>, blocked: Bytes -> bool, env: Env ::
              !Promotes(b, id, signoff, preview, blocked, env)
  {
    hide Inv, SituationOf, PreviewOf, Proper;
  }

  /** Crash after the batch committed and before the candidate was marked: while the record is in place
      the candidate cannot be rejected, and a newly reviewed promotion returns without writing a record. */
  lemma InterruptedPromotion(b: Inbox, id: CandidateId, signoff: Signoff, blocked: Bytes -> bool, env: Env)
    requires InboxInv(b) && id in b.candidates && b.candidates[id].status == Pending && id !in b.rejections
    requires CommittedAs(b.disk, PromotionTx(id), PromotionRequest(b.candidates[id].proposal))
    requires Lookup(b.disk.records, b.candidates[id].proposal.record) == Some(b.candidates[id].proposal.body)
    requires signoff.configured && signoff.approved && !blocked(b.candidates[id].proposal.body)
    requires Proper(PromotionRequest(b.candidates[id].proposal), env)
    ensures SituationOf(b, b.candidates[id]) == NeedsReconciliation
    ensures forall r :: !Rejects(b, id, signoff, r)
    ensures Promotes(b, id, signoff, Some(PreviewSha256(PreviewOf(b, b.candidates[id]))), blocked, env)
            <==> Readable(env.rules, PromotionTx(id), b.disk.journals[PromotionTx(id)])
    ensures forall b1 :: PromoteEffect(b, b1, id, signoff, Some(PreviewSha256(PreviewOf(b, b.candidates[id]))),
                                       blocked, env) ==>
              b1.disk == b.disk
  {
    var c := b.candidates[id];
    var tx, request := PromotionTx(id), PromotionRequest(c.proposal);
    var j := b.disk.journals[tx];
    assert Binds(j) && j.request.of == request;
    ReplayChangesMeaning(b.disk.records, j.changes, 0);
    assert Replay(b.disk, tx, request, env.rules).Done? <==> Readable(env.rules, tx, j);
  }

  /** Exactly when a pending candidate can be rejected. Only the record file protects a promotion in
      progress, not its journal: once a later update has moved the record, the candidate can be rejected
      although its batch is committed. */
  lemma RejectableUnlessInPlace(b: Inbox, id: CandidateId, signoff: Signoff, reason: string)
    requires InboxInv(b) && id in b.candidates && b.candidates[id].status == Pending && id !in b.rejections
    requires signoff.configured && signoff.approved
    ensures var r := Rejection(Sha256(b.candidates[id]), PreviewSha256(PreviewOf(b, b.candidates[id])), reason,
                               signoff.role, signoff.at);
            Rejects(b, id, signoff, r) <==>
              Lookup(b.disk.records, b.candidates[id].proposal.record) != Some(b.candidates[id].proposal.body)
  {}
}
