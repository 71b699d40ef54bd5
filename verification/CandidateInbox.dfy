/** The candidate inbox object: its files beside the record store, and the governed operations on them. */
module CandidateInboxes {
  import opened Evidence
  import opened Transactions
  import opened TransactionStores
  import opened Candidates

  datatype Reply =
    | Decided(candidate: Candidate)
    | Declared(rejection: Rejection)
    | Refused
    | Stopped

  class CandidateInbox {
    const store: TransactionStore
    var candidates: map<CandidateId, Candidate>
    var rejections: map<CandidateId, Rejection>

    function State(): Inbox
      reads this, store
    {
      Inbox(store.State(), candidates, rejections)
    }

    constructor (store: TransactionStore)
      requires Inv(store.State())
      ensures this.store == store && State() == Inbox(store.State(), map[], map[]) && InboxInv(State())
    {
      this.store := store;
      candidates, rejections := map[], map[];
    }

    // ----- durable writes -----

    method WriteCandidate(c: Candidate) returns (f: Fault)
      modifies `candidates, store`tick
      ensures f == store.faults(old(store.tick)) && store.tick == old(store.tick) + 1
      ensures candidates == if f == Works then old(candidates)[c.id := c] else old(candidates)
    {
      f := store.faults(store.tick);
      store.tick := store.tick + 1;
      if f == Works { candidates := candidates[c.id := c]; }
    }

    method WriteRejection(id: CandidateId, r: Rejection) returns (f: Fault)
      modifies `rejections, store`tick
      ensures f == store.faults(old(store.tick)) && store.tick == old(store.tick) + 1
      ensures rejections == if f == Works then old(rejections)[id := r] else old(rejections)
    {
      f := store.faults(store.tick);
      store.tick := store.tick + 1;
      if f == Works { rejections := rejections[id := r]; }
    }

    // ----- operations -----

    /** `_persist_candidate_locked`: the same capture again answers with what is stored, promoted or not. */
    method Persist(c: Candidate) returns (reply: Reply)
      requires c.status == Pending && WellFormed(c.proposal)
      modifies `candidates, store`tick
      ensures CaptureEffect(old(State()), State(), c)
      ensures c.id in old(candidates) ==> State() == old(State()) && store.tick == old(store.tick)
      ensures c.id in old(candidates) ==>
                reply == if old(candidates)[c.id].proposal == c.proposal then Decided(old(candidates)[c.id])
                  else Refused
      ensures c.id !in old(candidates) ==>
                && store.tick == old(store.tick) + 1
                && (candidates == if store.faults(old(store.tick)) == Works then old(candidates)[c.id := c]
                    else old(candidates))
                && reply == match store.faults(old(store.tick)) {
                     case Works => Decided(c)
                     case Fails => Refused
                     case Crashes => Stopped
                   }
    {
      if c.id in candidates {
        if candidates[c.id].proposal != c.proposal { return Refused; }
        return Decided(candidates[c.id]);
      }
      var f := WriteCandidate(c);
      reply := match f case Works => Decided(c) case Fails => Refused case Crashes => Stopped;
    }

    /** `promote_candidate` with the writer lock held. */
    method Promote(id: CandidateId, signoff: Signoff, preview: Option<PreviewDigest>, blocked: Bytes -> bool, env: Env)
      returns (reply: Reply)
      requires InboxInv(State())
      modifies `candidates, store
      ensures store.tick >= old(store.tick)
      ensures PromoteEffect(old(State()), State(), id, signoff, preview, blocked, env)
      ensures reply.Decided? ==>
                id in candidates && reply.candidate == candidates[id] && candidates[id].status.Promoted?
      ensures Calm(store.faults, old(store.tick)) ==>
                (reply.Decided? <==> Promotes(old(State()), id, signoff, preview, blocked, env))
    {
      hide InboxInv, Inv, SituationOf, Revision, BatchReturns;
      ghost var b := State();
      if !signoff.configured || !signoff.approved { return Refused; }
      if id !in candidates { return Refused; }
      var c := candidates[id];
      StoredCandidate(b, id);
      if c.status.Promoted? { return Decided(c); }
      if preview == None { return Refused; }
      if id in rejections { return Refused; }
      if c.status == Declined { return Refused; }
      if PreviewSha256(PreviewOf(State(), c)) != preview.value { return Refused; }
      if blocked(c.proposal.body) { return Refused; }
      reply := PromoteReviewed(c, signoff, env);
    }

    /** The batch, then the candidate file. */
    method PromoteReviewed(c: Candidate, signoff: Signoff, env: Env) returns (reply: Reply)
      requires Inv(store.State()) && c.id in candidates && candidates[c.id] == c
      requires c.status == Pending && c.id !in rejections && WellFormed(c.proposal)
      modifies `candidates, store
      ensures store.tick >= old(store.tick)
      ensures exists o :: TransactionRuns.Effect(old(store.State()), store.State(), PromotionBatch(c, env), o)
      ensures candidates == old(candidates)
              || (&& SituationOf(old(State()), c) in {AwaitingReview, NeedsReconciliation}
                  && CommittedAs(store.State(), PromotionTx(c.id), PromotionRequest(c.proposal))
                  && Lookup(store.records, c.proposal.record) == Some(c.proposal.body)
                  && candidates == old(candidates)[c.id := PromotedBy(c, signoff)])
      ensures reply.Decided? ==>
                c.id in candidates && reply.candidate == candidates[c.id] && candidates[c.id].status.Promoted?
      ensures Calm(store.faults, old(store.tick)) ==> (reply.Decided? <==> BatchReturns(old(store.State()), c, env))
    {
      hide Inv, PutEffect, SituationOf, CommittedAs, BatchReturns, PutAdmitted;
      ghost var b := State();
      var request, tx := PromotionRequest(c.proposal), PromotionTx(c.id);
      var out := store.PutRecords(request, tx, env);
      ghost var landed := store.State();
      assert TransactionRuns.Effect(b.disk, landed, PromotionBatch(c, env), out);
      FinishedBatch(b, landed, c, env, out);
      if Calm(store.faults, old(store.tick)) { BatchOutcome(b.disk, landed, c, env, out); }
      match out {
        case Crashed => reply := Stopped;
        case Raised(_) => reply := Refused;
        case Done(ids) =>
          var promoted := c.(status := Promoted(Sha256(store.records[c.proposal.record]), signoff.role, signoff.at));
          var f := WriteCandidate(promoted);
          reply := match f case Works => Decided(promoted) case Fails => Refused case Crashes => Stopped;
      }
      assert store.State() == landed;
    }

    /** `reject_candidate` with the writer lock held. */
    method Reject(id: CandidateId, signoff: Signoff, preview: PreviewDigest, reason: string) returns (reply: Reply)
      modifies `rejections, store`tick
      ensures var r := RejectionOf(old(State()), id, signoff, preview, reason);
              && RejectEffect(old(State()), State(), id, signoff, r)
              && (reply.Declared? ==>
                    Rejects(old(State()), id, signoff, r) && id in rejections && reply.rejection == rejections[id])
              && (Calm(store.faults, old(store.tick)) ==> (reply.Declared? <==> Rejects(old(State()), id, signoff, r)))
    {
      if !signoff.approved || !signoff.configured { return Refused; }
      if id !in candidates { return Refused; }
      var c := candidates[id];
      if c.status.Promoted? { return Refused; }
      var decision := RejectionOf(State(), id, signoff, preview, reason);
      if id in rejections {
        if !SameDecision(rejections[id], decision) { return Refused; }
        return Declared(rejections[id]);
      }
      if PreviewSha256(PreviewOf(State(), c)) != preview { return Refused; }
      if SituationOf(State(), c) == NeedsReconciliation { return Refused; }
      var f := WriteRejection(id, decision);
      reply := match f case Works => Declared(decision) case Fails => Refused case Crashes => Stopped;
    }
  }

  lemma StoredCandidate(b: Inbox, id: CandidateId)
    requires InboxInv(b) && id in b.candidates
    ensures Inv(b.disk)
    ensures b.candidates[id].id == id && WellFormed(b.candidates[id].proposal) && b.candidates[id].status != Declined
  {}

  lemma StoredDisk(b: Inbox)
    requires InboxInv(b)
    ensures Inv(b.disk)
  {}

  /** What a finished promotion batch says about the situation it started from. */
  lemma FinishedBatch(b: Inbox, s: Store, c: Candidate, env: Env, out: Outcome)
    requires Inv(b.disk) && c.status == Pending && c.id !in b.rejections && WellFormed(c.proposal)
    requires PutEffect(b.disk, s, PromotionRequest(c.proposal), PromotionTx(c.id), env, out)
    ensures out.Done? ==>
              && SituationOf(b, c) in {AwaitingReview, NeedsReconciliation}
              && CommittedAs(s, PromotionTx(c.id), PromotionRequest(c.proposal))
              && Lookup(s.records, c.proposal.record) == Some(c.proposal.body)
  {
    var request := PromotionRequest(c.proposal);
    if out.Done? {
      assert request.items[0].id == c.proposal.record
             && Lookup(s.records, request.items[0].id) == Some(c.proposal.body);
      if PromotionTx(c.id) !in b.disk.journals {
        assert AdmitItem(b.disk.records, request, env, 0) == None;
      }
    }
  }

  lemma BatchOutcome(s0: Store, s1: Store, c: Candidate, env: Env, out: Outcome)
    requires var request, tx := PromotionRequest(c.proposal), PromotionTx(c.id);
             && (!Proper(request, env) ==> out.Raised?)
             && (Proper(request, env) && tx in s0.journals ==> out == Replay(s0, tx, request, env.rules))
             && (tx !in s0.journals && !PutAdmitted(s0, request, tx, env) ==> out.Raised?)
             && (PutAdmitted(s0, request, tx, env) ==> CalmPut(s0, s1, request, tx, env, out))
    ensures out.Done? <==> BatchReturns(s0, c, env)
  {
    hide Proper, Admissible, StoreClean, Replay;
  }

  // ----- the methods perform the runs of Candidates -----

  /** One operation on the inbox object. */
  method Handle(inbox: CandidateInbox, op: Op)
    requires InboxInv(inbox.State())
    requires op.Capture? ==> op.candidate.status == Pending && WellFormed(op.candidate.proposal)
    modifies inbox, inbox.store
    ensures Effect(old(inbox.State()), inbox.State(), op)
  {
    hide InboxInv, CaptureEffect, PromoteEffect, RejectEffect, TransactionRuns.Effect;
    ghost var b := inbox.State();
    StoredDisk(b);
    match op {
      case Capture(c) => var reply := inbox.Persist(c);
      case Promote(id, signoff, preview, blocked, env) =>
        var reply := inbox.Promote(id, signoff, preview, blocked, env);
      case Reject(id, signoff, preview, reason) => var reply := inbox.Reject(id, signoff, preview, reason);
      case Batch(o) =>
        var out := TransactionRuns.Perform(inbox.store, o);
    }
  }
}
