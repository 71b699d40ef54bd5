/** The store object: its files, the durable writes on them, and the batch and recovery protocols.

    `faults(n)` says what happens to the n-th durable write. Contracts hold for every fault function,
    so each of them also speaks about every state in which a process may stop. */
module TransactionStores {
  import opened Evidence
  import opened Orders
  import opened Transactions

  datatype Attempt = Landed | Threw(why: Refusal) | Died

  class TransactionStore {
    var records: Records
    var journals: map<TxId, Journal>
    var payloads: map<TxId, PayloadDir>
    var tick: nat
    const faults: nat -> Fault

    function State(): Store
      reads this
    {
      Store(records, journals, payloads)
    }

    constructor (initial: Records, faults: nat -> Fault)
      ensures State() == Store(initial, map[], map[]) && this.faults == faults && tick == 0
      ensures Inv(State())
    {
      this.faults := faults;
      records, journals, payloads, tick := initial, map[], map[], 0;
    }

    // ----- durable writes -----

    /** An invalid journal is refused before anything is written; its length is not looked at. */
    method WriteJournal(id: TxId, journal: Journal, rules: JournalRules) returns (f: Fault)
      modifies `journals, `tick
      ensures Writable(rules, id, journal.changes) ==> f == faults(old(tick)) && tick == old(tick) + 1
      ensures !Writable(rules, id, journal.changes) ==> f == Fails && tick == old(tick)
      ensures journals == if f == Works then old(journals)[id := journal] else old(journals)
    {
      if !Writable(rules, id, journal.changes) { return Fails; }
      f := faults(tick);
      tick := tick + 1;
      if f == Works { journals := journals[id := journal]; }
    }

    method MakePayloadDir(id: TxId) returns (f: Fault)
      modifies `payloads, `tick
      ensures f == faults(old(tick)) && tick == old(tick) + 1
      ensures payloads == if f == Works then old(payloads)[id := map[]] else old(payloads)
    {
      f := faults(tick);
      tick := tick + 1;
      if f == Works { payloads := payloads[id := map[]]; }
    }

    method WritePayload(id: TxId, slot: Slot, body: Bytes) returns (f: Fault)
      requires id in payloads
      modifies `payloads, `tick
      ensures f == faults(old(tick)) && tick == old(tick) + 1
      ensures payloads == if f == Works then old(payloads)[id := old(payloads)[id][slot := body]] else old(payloads)
    {
      f := faults(tick);
      tick := tick + 1;
      if f == Works { payloads := payloads[id := payloads[id][slot := body]]; }
    }

    method WriteRecord(id: RecordId, body: Bytes) returns (f: Fault)
      modifies `records, `tick
      ensures f == faults(old(tick)) && tick == old(tick) + 1
      ensures records == if f == Works then old(records)[id := body] else old(records)
    {
      f := faults(tick);
      tick := tick + 1;
      if f == Works { records := records[id := body]; }
    }

    method UnlinkRecord(id: RecordId) returns (f: Fault)
      modifies `records, `tick
      ensures f == faults(old(tick)) && tick == old(tick) + 1
      ensures records == if f == Works then old(records) - {id} else old(records)
    {
      f := faults(tick);
      tick := tick + 1;
      if f == Works { records := records - {id}; }
    }

    method UnlinkPayload(id: TxId, slot: Slot) returns (f: Fault)
      modifies `payloads, `tick
      ensures f == faults(old(tick)) && tick == old(tick) + 1
      ensures payloads == if f == Works then Without(old(payloads), id, slot) else old(payloads)
    {
      f := faults(tick);
      tick := tick + 1;
      if f == Works { payloads := Without(payloads, id, slot); }
    }

    /** Removing a directory fails unless it is empty. */
    method RemovePayloadDir(id: TxId) returns (f: Fault)
      requires id in payloads
      modifies `payloads, `tick
      ensures tick == old(tick) + 1
      ensures f == if faults(old(tick)) == Works && old(payloads)[id] != map[] then Fails else faults(old(tick))
      ensures payloads == if f == Works then old(payloads) - {id} else old(payloads)
    {
      f := faults(tick);
      tick := tick + 1;
      if f == Works {
        if payloads[id] == map[] { payloads := payloads - {id}; } else { f := Fails; }
      }
    }

    // ----- loops over a batch -----

    /** Write the recovery evidence of a batch into its fresh directory. */
    method StagePayloads(id: TxId, items: seq<Item>, previous: seq<Option<Bytes>>) returns (f: Fault)
      requires id in payloads && payloads[id] == map[]
      requires |previous| == |items|
      modifies `payloads, `tick
      ensures tick >= old(tick) && f == Last(faults, old(tick), tick)
      ensures id in payloads && payloads == old(payloads)[id := payloads[id]]
      ensures BoundedSlots(payloads[id], |items|)
      ensures f == Works ==> payloads[id] == FullEvidence(items, previous, |items|)
    {
      hide BoundedSlots, FullEvidence;
      var i := 0;
      NoEvidence(items, previous);
      while i < |items|
        invariant 0 <= i <= |items| && tick >= old(tick) && Last(faults, old(tick), tick) == Works
        invariant id in payloads && payloads == old(payloads)[id := FullEvidence(items, previous, i)]
        invariant BoundedSlots(FullEvidence(items, previous, i), |items|)
      {
        EvidenceStep(items, previous, i);
        f := WritePayload(id, After(i), items[i].body);
        if f != Works { return; }
        if previous[i].Some? {
          f := WritePayload(id, Before(i), previous[i].value);
          if f != Works { return; }
        }
        i := i + 1;
      }
      f := Works;
    }

    /** Replace the batch's record files in order, stopping at the first failure. */
    method ReplaceRecords(items: seq<Item>) returns (f: Fault)
      requires NoDuplicates(Ids(items))
      modifies `records, `tick
      ensures tick >= old(tick) && f == Last(faults, old(tick), tick)
      ensures forall r :: r !in Ids(items) ==> Lookup(records, r) == Lookup(old(records), r)
      ensures forall k :: 0 <= k < |items| ==>
                || Lookup(records, items[k].id) == Lookup(old(records), items[k].id)
                || Lookup(records, items[k].id) == Some(items[k].body)
      ensures f == Works ==> records == ApplyItems(old(records), items)
    {
      hide ApplyItems;
      var i := 0;
      AllApplied(records, items);
      while i < |items|
        invariant 0 <= i <= |items| && tick >= old(tick) && Last(faults, old(tick), tick) == Works
        invariant forall r :: r !in Ids(items) ==> Lookup(records, r) == Lookup(old(records), r)
        invariant forall k :: 0 <= k < i ==> Lookup(records, items[k].id) == Some(items[k].body)
        invariant forall k :: i <= k < |items| ==> Lookup(records, items[k].id) == Lookup(old(records), items[k].id)
        invariant ApplyItems(records, items[i..]) == ApplyItems(old(records), items)
      {
        ApplyNext(records, items, i);
        OthersDiffer(items, i);
        f := WriteRecord(items[i].id, items[i].body);
        if f != Works { return; }
        i := i + 1;
      }
      AllApplied(records, items);
      f := Works;
    }

    /** The rollback inside `put_records`: every record is tried, failures are counted, not fatal. */
    method RestorePrevious(items: seq<Item>, previous: seq<Option<Bytes>>) returns (f: Fault)
      requires |previous| == |items| && NoDuplicates(Ids(items))
      modifies `records, `tick
      ensures tick >= old(tick) && (Calm(faults, old(tick)) ==> f == Works)
      ensures f == Crashes <==> Last(faults, old(tick), tick) == Crashes
      ensures forall r :: r !in Ids(items) ==> Lookup(records, r) == Lookup(old(records), r)
      ensures forall k :: 0 <= k < |items| ==>
                Lookup(records, items[k].id) in {Lookup(old(records), items[k].id), previous[k]}
      ensures f == Works ==> forall k :: 0 <= k < |items| ==> Lookup(records, items[k].id) == previous[k]
    {
      var i, failed := 0, false;
      while i < |items|
        invariant 0 <= i <= |items| && tick >= old(tick)
        invariant (Calm(faults, old(tick)) ==> !failed) && Last(faults, old(tick), tick) != Crashes
        invariant forall r :: r !in Ids(items) ==> Lookup(records, r) == Lookup(old(records), r)
        invariant forall k :: 0 <= k < i ==>
                    Lookup(records, items[k].id) in {Lookup(old(records), items[k].id), previous[k]}
        invariant !failed ==> forall k :: 0 <= k < i ==> Lookup(records, items[k].id) == previous[k]
        invariant forall k :: i <= k < |items| ==> Lookup(records, items[k].id) == Lookup(old(records), items[k].id)
      {
        OthersDiffer(items, i);
        if previous[i].None? {
          f := UnlinkRecord(items[i].id);
        } else {
          f := WriteRecord(items[i].id, previous[i].value);
        }
        if f == Crashes { return; }
        if f == Fails { failed := true; }
        i := i + 1;
      }
      f := if failed then Fails else Works;
    }

    /** Remove the payload files and then their directory; stop at the first failure. */
    method CleanupPayloads(id: TxId, count: nat) returns (f: Fault)
      modifies `payloads, `tick
      ensures tick >= old(tick) && (f == Crashes <==> Last(faults, old(tick), tick) == Crashes)
      ensures forall k :: k != id ==> (k in payloads <==> k in old(payloads))
      ensures forall k :: k != id && k in payloads ==> payloads[k] == old(payloads)[k]
      ensures id in payloads ==> id in old(payloads)
      ensures Calm(faults, old(tick)) && (id in old(payloads) ==> BoundedSlots(old(payloads)[id], count)) ==>
                f == Works && payloads == old(payloads) - {id}
    {
      hide BoundedSlots, Cleaned, Without;
      var i := 0;
      NothingCleaned(payloads, id);
      while i < count
        invariant 0 <= i <= count && tick >= old(tick) && Last(faults, old(tick), tick) == Works
        invariant Cleaned(old(payloads), payloads, id, i)
      {
        OneCleaned(old(payloads), payloads, id, i);
        OthersUncleaned(old(payloads), payloads, id, i);
        f := UnlinkPayload(id, Before(i));
        if f != Works { return; }
        f := UnlinkPayload(id, After(i));
        if f != Works { return; }
        i := i + 1;
      }
      OthersUncleaned(old(payloads), payloads, id, i);
      f := Works;
      if id in payloads {
        AllCleaned(old(payloads), payloads, id, count);
        f := RemovePayloadDir(id);
      }
    }

    // ----- put_records -----

    /** Write the journal, its directory and the evidence. The journal still says preparing. */
    method StageEvidence(request: Request, id: TxId, previous: seq<Option<Bytes>>, changes: seq<Change>,
                         rules: JournalRules)
      returns (f: Fault)
      requires Startable(State(), id, request)
      requires |previous| == |request.items|
      requires forall i :: 0 <= i < |previous| ==> previous[i] == Lookup(records, request.items[i].id)
      requires changes == ChangesFor(records, request.items)
      modifies `journals, `payloads, `tick
      ensures tick >= old(tick) && (Writable(rules, id, changes) ==> f == Last(faults, old(tick), tick))
      ensures !Writable(rules, id, changes) ==> f == Fails && State() == old(State()) && tick == old(tick)
      ensures InFlight(old(State()), State(), id, request)
      ensures f == Works ==>
                && id in journals && journals[id] == Journal(Preparing, Sha256(request), changes)
                && id in payloads && EvidenceIntact(changes, payloads[id])
                && payloads[id] == FullEvidence(request.items, previous, |request.items|)
      ensures id in payloads ==> BoundedSlots(payloads[id], |request.items|)
    {
      hide Inv, Logical, HasOpen, Recoverable, InFlight, BoundedSlots, FullEvidence, EvidenceIntact, Writable;
      ghost var s0 := State();
      f := WriteJournal(id, Journal(Preparing, Sha256(request), changes), rules);
      StagedInFlight(s0, State(), id, request);
      if f != Works { return; }
      f := MakePayloadDir(id);
      StagedInFlight(s0, State(), id, request);
      if f != Works { return; }
      f := StagePayloads(id, request.items, previous);
      StagedEvidence(records, request.items, previous);
      StagedInFlight(s0, State(), id, request);
    }

    /** Advance the journal over complete evidence. */
    method MarkApplying(request: Request, id: TxId, changes: seq<Change>, rules: JournalRules, ghost s0: Store)
      returns (f: Fault)
      requires Writable(rules, id, changes)
      requires Startable(s0, id, request) && InFlight(s0, State(), id, request) && records == s0.records
      requires id in journals && journals[id] == Journal(Preparing, Sha256(request), changes)
      requires id in payloads && EvidenceIntact(changes, payloads[id])
      modifies `journals, `tick
      ensures tick >= old(tick) && f == Last(faults, old(tick), tick)
      ensures InFlight(s0, State(), id, request)
      ensures f == Works ==> id in journals && journals[id] == Journal(Applying, Sha256(request), changes)
    {
      hide Inv, Logical, HasOpen, Recoverable, Writable;
      f := WriteJournal(id, Journal(Prepared, Sha256(request), changes), rules);
      StagedInFlight(s0, State(), id, request);
      if f != Works { return; }
      f := WriteJournal(id, Journal(Applying, Sha256(request), changes), rules);
      StagedInFlight(s0, State(), id, request);
    }

    /** The `try` block: stage, mark, replace the records, audit, commit. */
    method ApplyBatch(request: Request, id: TxId, env: Env, previous: seq<Option<Bytes>>, changes: seq<Change>)
      returns (a: Attempt)
      requires Startable(State(), id, request)
      requires |previous| == |request.items|
      requires forall i :: 0 <= i < |previous| ==> previous[i] == Lookup(records, request.items[i].id)
      requires changes == ChangesFor(records, request.items)
      modifies `records, `journals, `payloads, `tick
      ensures tick >= old(tick) && (a.Died? <==> Last(faults, old(tick), tick) == Crashes)
      ensures a.Threw? ==> a.why in {WriteFailed, AuditRejected}
      ensures Writable(env.rules, id, changes) && a == Threw(WriteFailed) ==> Last(faults, old(tick), tick) == Fails
      // The audit decides what no failed write has decided.
      ensures Legible(old(State()), env.rules) ==>
                && (a.Landed? ==> PassesAudit(old(State()), request, id, env))
                && (a == Threw(AuditRejected) ==> !PassesAudit(old(State()), request, id, env))
      ensures !a.Landed? ==> InFlight(old(State()), State(), id, request)
      ensures a.Landed? ==>
                && OthersKept(old(State()), State(), id)
                && journals == old(journals)[id := Journal(Committed, Sha256(request), changes)]
                && records == ApplyItems(old(records), request.items)
                && env.accepts(records)
      ensures id in payloads ==> BoundedSlots(payloads[id], |request.items|)
      ensures !Writable(env.rules, id, changes) ==>
                a == Threw(WriteFailed) && State() == old(State()) && tick == old(tick)
    {
      hide Inv, Logical, HasOpen, Recoverable, InFlight, OthersKept, StoreClean, BoundedSlots, Writable, Readable,
           Legible, PassesAudit, Startable, EvidenceIntact, ApplyItems;
      ghost var s0 := State();
      var f := StageEvidence(request, id, previous, changes, env.rules);
      if f != Works { return Stop(f); }
      f := MarkApplying(request, id, changes, env.rules, s0);
      if f != Works { return Stop(f); }
      a := MoveRecords(request, id, env, changes, s0);
    }

    /** Replace the records, audit them, commit. */
    method MoveRecords(request: Request, id: TxId, env: Env, changes: seq<Change>, ghost s0: Store) returns (a: Attempt)
      requires Startable(s0, id, request) && InFlight(s0, State(), id, request) && records == s0.records
      requires changes == ChangesFor(s0.records, request.items) && Writable(env.rules, id, changes)
      requires id in journals && journals[id] == Journal(Applying, Sha256(request), changes)
      modifies `records, `journals, `tick
      ensures tick >= old(tick) && (a.Died? <==> Last(faults, old(tick), tick) == Crashes)
      ensures a.Threw? ==> a.why in {WriteFailed, AuditRejected}
      ensures a == Threw(WriteFailed) ==> Last(faults, old(tick), tick) == Fails
      ensures Legible(s0, env.rules) ==>
                && (a.Landed? ==> PassesAudit(s0, request, id, env))
                && (a == Threw(AuditRejected) ==> !PassesAudit(s0, request, id, env))
      ensures !a.Landed? ==> InFlight(s0, State(), id, request)
      ensures a.Landed? ==>
                && OthersKept(s0, State(), id)
                && journals == s0.journals[id := Journal(Committed, Sha256(request), changes)]
                && records == ApplyItems(s0.records, request.items)
                && env.accepts(records)
    {
      hide Inv, Logical, HasOpen, Recoverable, InFlight, OthersKept, StoreClean, Writable, Readable, Legible;
      ghost var staged := State();
      var f := ReplaceRecords(request.items);
      ReplacedInFlight(s0, staged, State(), id, request, env.rules);
      if f != Works { return Stop(f); }
      a := CommitBatch(request, id, env, changes, s0);
    }

    /** Audit the replaced records and close the journal as committed. */
    method CommitBatch(request: Request, id: TxId, env: Env, changes: seq<Change>, ghost s0: Store) returns (a: Attempt)
      requires id in journals && InFlight(s0, State(), id, request) && Writable(env.rules, id, changes)
      modifies `journals, `tick
      ensures tick >= old(tick) && (a.Died? <==> Last(faults, old(tick), tick) == Crashes)
      ensures a == Threw(WriteFailed) <==> Last(faults, old(tick), tick) == Fails
      ensures a == Threw(AuditRejected) <==> !(env.accepts(records) && StoreClean(old(State()), Some(id), env.rules))
      ensures a.Threw? ==> a.why in {WriteFailed, AuditRejected}
      ensures !a.Landed? ==> State() == old(State())
      ensures a.Landed? ==>
                && OthersKept(s0, State(), id)
                && journals == s0.journals[id := Journal(Committed, Sha256(request), changes)]
                && env.accepts(records)
    {
      hide Recoverable, AgreeOutside, Writable;
      if !(env.accepts(records) && StoreClean(State(), Some(id), env.rules)) {
        return Threw(AuditRejected);
      }
      var f := WriteJournal(id, Journal(Committed, Sha256(request), changes), env.rules);
      if f != Works { return Stop(f); }
      a := Landed;
    }

    /** The handler: put every file back, close the journal, tidy up, raise again. */
    method RollBack(request: Request, id: TxId, previous: seq<Option<Bytes>>, changes: seq<Change>, why: Refusal,
                    rules: JournalRules, ghost s0: Store)
      returns (out: Outcome)
      requires Startable(s0, id, request) && InFlight(s0, State(), id, request)
      requires |previous| == |request.items|
      requires forall i :: 0 <= i < |previous| ==> previous[i] == Lookup(s0.records, request.items[i].id)
      requires changes == ChangesFor(s0.records, request.items)
      requires id in payloads ==> BoundedSlots(payloads[id], |request.items|)
      modifies `records, `journals, `payloads, `tick
      ensures tick >= old(tick) && (out.Crashed? <==> Last(faults, old(tick), tick) == Crashes)
      ensures Withdrawn(s0, State(), id, request) && !out.Done?
      ensures Calm(faults, old(tick)) && Writable(rules, id, changes) ==>
                && out == Raised(why) && records == s0.records && payloads == s0.payloads
                && journals == s0.journals[id := Journal(RolledBack(Aborted(why)), Sha256(request), changes)]
      ensures Calm(faults, old(tick)) && !Writable(rules, id, changes) ==>
                out == Raised(JournalNotClosed) && State() == old(State()).(records := s0.records)
    {
      hide Inv, Logical, HasOpen, Recoverable, AgreeOutside, OthersKept, InFlight, Writable;
      var f := RestorePrevious(request.items, previous);
      ghost var s := State();
      assert InFlight(s0, s, id, request) by {
        RestoredInFlight(s0, old(State()), s, id, request, previous);
      }
      InFlightWithdrawn(s0, s, id, request);
      if f != Works {
        return if f == Crashes then Crashed else Raised(RollbackIncomplete);
      }
      InFlightSafe(s0, s, id, request);
      PreviousRestored(s0.records, records, request.items, previous);
      out := CloseRolledBack(request, id, changes, why, rules, s0);
    }

    method CloseRolledBack(request: Request, id: TxId, changes: seq<Change>, why: Refusal, rules: JournalRules,
                           ghost s0: Store)
      returns (out: Outcome)
      requires Startable(s0, id, request) && InFlight(s0, State(), id, request) && records == s0.records
      requires changes == ChangesFor(s0.records, request.items)
      requires id in payloads ==> BoundedSlots(payloads[id], |request.items|)
      modifies `journals, `payloads, `tick
      ensures tick >= old(tick) && (out.Crashed? <==> Last(faults, old(tick), tick) == Crashes)
      ensures Withdrawn(s0, State(), id, request) && !out.Done?
      ensures Calm(faults, old(tick)) && Writable(rules, id, changes) ==>
                && out == Raised(why) && payloads == s0.payloads
                && journals == s0.journals[id := Journal(RolledBack(Aborted(why)), Sha256(request), changes)]
      ensures Calm(faults, old(tick)) && !Writable(rules, id, changes) ==>
                out == Raised(JournalNotClosed) && State() == old(State())
    {
      hide Inv, Logical, HasOpen, Recoverable, AgreeOutside, Writable, BoundedSlots,
           Withdrawn, Legible, StoreClean;
      var f := WriteJournal(id, Journal(RolledBack(Aborted(why)), Sha256(request), changes), rules);
      if f != Works {
        InFlightWithdrawn(s0, State(), id, request);
        return if f == Crashes then Crashed else Raised(JournalNotClosed);
      }
      f := CleanupPayloads(id, |request.items|);
      ClosedWithdrawn(s0, State(), id, request, why);
      out := if f == Crashes then Crashed else Raised(why);
    }

    /** The preconditions the records themselves must meet; nothing is written. */
    method AdmitBatch(request: Request, env: Env)
      returns (problem: Option<Refusal>, previous: seq<Option<Bytes>>, changes: seq<Change>)
      ensures problem.None? <==> Admissible(records, request, env)
      ensures problem.None? ==> changes == ChangesFor(records, request.items)
      ensures problem.None? ==> |previous| == |request.items|
      ensures problem.None? ==> forall k :: 0 <= k < |previous| ==> previous[k] == Lookup(records, request.items[k].id)
    {
      previous, changes := [], [];
      var i := 0;
      while i < |request.items|
        invariant 0 <= i <= |request.items| && |previous| == |changes| == i
        invariant forall k :: 0 <= k < i ==> AdmitItem(records, request, env, k) == None
        invariant forall k :: 0 <= k < i ==> previous[k] == Lookup(records, request.items[k].id)
        invariant forall k :: 0 <= k < i ==> changes[k] == ChangeFor(records, request.items[k])
      {
        problem := AdmitItem(records, request, env, i);
        if problem.Some? {
          AdmittedItems(records, request, env);
          return;
        }
        previous := previous + [Lookup(records, request.items[i].id)];
        changes := changes + [ChangeFor(records, request.items[i])];
        i := i + 1;
      }
      problem := None;
      AdmittedItems(records, request, env);
    }

    /** `put_records` with the writer lock held. */
    method PutRecords(request: Request, id: TxId, env: Env) returns (out: Outcome)
      requires Inv(State())
      modifies `records, `journals, `payloads, `tick
      ensures tick >= old(tick) && (out.Crashed? <==> Last(faults, old(tick), tick) == Crashes)
      ensures PutEffect(old(State()), State(), request, id, env, out)
      ensures !Proper(request, env) ==> out.Raised? && State() == old(State())
      ensures Proper(request, env) && id in old(journals) ==> out == Replay(old(State()), id, request, env.rules)
      // A new id runs only on a closed store whose journals can be loaded, and whose records meet the preconditions.
      ensures id !in old(journals) && !PutAdmitted(old(State()), request, id, env) ==>
                out.Raised? && State() == old(State())
      ensures PutGuard(old(State()), State(), id, env, out)
      // Without faults an admitted batch lands, is rolled back, or leaves no trace.
      ensures Calm(faults, old(tick)) && PutAdmitted(old(State()), request, id, env) ==>
                CalmPut(old(State()), State(), request, id, env, out)
      // One failed write is undone completely, unless it comes after the commit.
      ensures OneFailure(faults, old(tick)) && PutAdmitted(old(State()), request, id, env)
                && PassesAudit(old(State()), request, id, env) ==>
                LandsOrUndone(old(State()), State(), request, id, out)
    {
      hide Inv, Logical, HasOpen, Recoverable, AgreeOutside, PutEffect, Withdrawn, InFlight, CalmPut, Readable, Replay,
           Writable, Proper, Admissible;
      ghost var s0 := State();
      ProperIffChecked(request, env);
      var refusal := CheckRequest(request, env);
      if refusal.Some? {
        RefusedEffect(s0, request, id, env, Raised(refusal.value));
        return Raised(refusal.value);
      }
      if id in journals || id in payloads {
        out := Replay(State(), id, request, env.rules);
        ReplayEffect(s0, request, id, env);
        return;
      }
      if !StoreClean(State(), None, env.rules) {
        RefusedEffect(s0, request, id, env, Raised(NeedsRecovery));
        return Raised(NeedsRecovery);
      }
      CleanIsClosed(State(), env.rules);
      var problem, previous, changes := AdmitBatch(request, env);
      if problem.Some? {
        RefusedEffect(s0, request, id, env, Raised(problem.value));
        return Raised(problem.value);
      }
      out := RunBatch(request, id, env, previous, changes);
    }

    /** Run an admitted batch to an end: landed, rolled back, or cut short. */
    method RunBatch(request: Request, id: TxId, env: Env, previous: seq<Option<Bytes>>, changes: seq<Change>)
      returns (out: Outcome)
      requires Startable(State(), id, request)
      requires Proper(request, env) && Admissible(records, request, env)
      requires Legible(State(), env.rules)
      requires |previous| == |request.items|
      requires forall i :: 0 <= i < |previous| ==> previous[i] == Lookup(records, request.items[i].id)
      requires changes == ChangesFor(records, request.items)
      modifies `records, `journals, `payloads, `tick
      ensures tick >= old(tick) && (out.Crashed? <==> Last(faults, old(tick), tick) == Crashes)
      ensures PutEffect(old(State()), State(), request, id, env, out)
      ensures Calm(faults, old(tick)) ==> CalmPut(old(State()), State(), request, id, env, out)
      ensures OneFailure(faults, old(tick)) && PassesAudit(old(State()), request, id, env) ==>
                LandsOrUndone(old(State()), State(), request, id, out)
    {
      hide Inv, Logical, HasOpen, Recoverable, AgreeOutside, PutEffect, Withdrawn, InFlight, Proper, Admissible,
           Startable, BoundedSlots, ApplyItems, Writable, PassesAudit, Legible, OthersKept, StoreClean, Readable;
      ghost var s0 := State();
      PassedIsWritable(s0, request, id, env);
      var a := ApplyBatch(request, id, env, previous, changes);
      if OneFailure(faults, old(tick)) { AfterTheFailure(faults, old(tick), tick); }
      match a {
        case Died =>
          InFlightEffect(s0, State(), request, id, env);
          out := Crashed;
        case Threw(why) =>
          out := RollBack(request, id, previous, changes, why, env.rules, s0);
          WithdrawnEffect(s0, State(), request, id, env, out);
        case Landed =>
          out := FinishBatch(request, id, env, changes, s0);
      }
      if OneFailure(faults, old(tick)) { AfterTheFailure(faults, old(tick), tick); }
    }

    /** Tidy up after the commit; a failure here is ignored. */
    method FinishBatch(request: Request, id: TxId, env: Env, changes: seq<Change>, ghost s0: Store)
      returns (out: Outcome)
      requires Startable(s0, id, request) && OthersKept(s0, State(), id)
      requires Proper(request, env) && Admissible(s0.records, request, env)
      requires changes == ChangesFor(s0.records, request.items)
      requires id in journals && journals[id] == Journal(Committed, Sha256(request), changes)
      requires records == ApplyItems(s0.records, request.items) && env.accepts(records)
      requires id in payloads ==> BoundedSlots(payloads[id], |request.items|)
      modifies `payloads, `tick
      ensures tick >= old(tick) && (out.Crashed? <==> Last(faults, old(tick), tick) == Crashes)
      ensures out.Crashed? || out == Done(Ids(request.items))
      ensures PutEffect(s0, State(), request, id, env, out)
      ensures Calm(faults, old(tick)) ==> out == Done(Ids(request.items)) && payloads == s0.payloads
    {
      hide Inv, Logical, HasOpen, Recoverable, AgreeOutside, PutEffect, Proper, Admissible, BoundedSlots, ApplyItems;
      var f := CleanupPayloads(id, |request.items|);
      out := if f == Crashes then Crashed else Done(Ids(request.items));
      CommittedEffect(s0, State(), request, id, env, out);
    }

    // ----- recover_record_transaction -----

    /** Put every file of an open batch back from its payload directory. */
    method RestoreFromEvidence(id: TxId) returns (f: Fault)
      requires id in journals && DistinctChanges(journals[id].changes)
      requires HalfMoved(records, journals[id].changes)
      requires EvidenceIntact(journals[id].changes, DirOf(State(), id))
      modifies `records, `tick
      ensures tick >= old(tick) && f == Last(faults, old(tick), tick)
      ensures AgreeOutside(old(records), records, journals[id].changes)
      ensures HalfMoved(records, journals[id].changes)
      ensures Unmoved(old(records), journals[id].changes) ==> Unmoved(records, journals[id].changes)
      ensures f == Works ==> Unmoved(records, journals[id].changes)
    {
      var changes := journals[id].changes;
      var i := 0;
      while i < |changes|
        invariant 0 <= i <= |changes| && tick >= old(tick) && Last(faults, old(tick), tick) == Works
        invariant AgreeOutside(old(records), records, changes)
        invariant forall k :: 0 <= k < i ==> Revision(records, changes[k].id) == changes[k].before
        invariant forall k :: i <= k < |changes| ==>
                    Revision(records, changes[k].id) == Revision(old(records), changes[k].id)
      {
        if changes[i].before.None? {
          f := UnlinkRecord(changes[i].id);
        } else {
          f := WriteRecord(changes[i].id, DirOf(State(), id)[Before(i)]);
        }
        if f != Works { return; }
        i := i + 1;
      }
      f := Works;
    }

    /** Every record is where the journal allows, and every needed before file still has its digest. */
    method CheckEvidence(changes: seq<Change>, dir: PayloadDir, preparing: bool) returns (problem: Option<Refusal>)
      ensures problem.None? <==>
                && (forall k :: 0 <= k < |changes| ==> InPlace(records, changes[k], preparing))
                && (!preparing ==> EvidenceIntact(changes, dir))
    {
      var i := 0;
      while i < |changes|
        invariant 0 <= i <= |changes|
        invariant forall k :: 0 <= k < i ==> InPlace(records, changes[k], preparing)
        invariant !preparing ==> forall k :: 0 <= k < i && changes[k].before.Some? ==>
                    Before(k) in dir && Sha256(dir[Before(k)]) == changes[k].before.value
      {
        if !InPlace(records, changes[i], preparing) { return Some(ExternalDrift); }
        if changes[i].before.Some? && !preparing {
          if Before(i) !in dir || Sha256(dir[Before(i)]) != changes[i].before.value { return Some(EvidenceInvalid); }
        }
        i := i + 1;
      }
      problem := None;
    }

    /** `recover_record_transaction`. Records edited from outside make it refuse before it writes;
        in a store that only these protocols wrote, it undoes the open batch. */
    method RecoverTransaction(id: TxId, expected: Digest<Request>, env: Env) returns (out: Outcome)
      modifies `records, `journals, `payloads, `tick
      ensures tick >= old(tick) && (out.Crashed? <==> Last(faults, old(tick), tick) == Crashes)
      ensures Inv(old(State())) ==> RecoverEffect(old(State()), State(), id, expected, out)
      ensures RecoveryBlocked(old(State()), id, expected) ==> State() == old(State()) && out.Raised?
      ensures RecoverGuard(old(State()), State(), id, env, out)
      // Without faults recovery closes exactly when every journal can be loaded and the snapshot it restores
      // passes the audit.
      ensures Calm(faults, old(tick)) && Inv(old(State())) && Recovers(old(State()), id, expected) ==>
                if !Readable(env.rules, id, old(journals)[id]) then
                  State() == old(State()) && out == Raised(InvalidJournal)
                else if env.accepts(Logical(old(State()))) && Legible(old(State()), env.rules) then
                  && out == Done([]) && records == Logical(old(State()))
                  && journals == old(journals)[id := old(journals)[id].(status := RolledBack(Recovered))]
                  && (BoundedDir(old(payloads), id, |old(journals)[id].changes|) ==>
                        payloads == old(payloads) - {id})
                else
                  out == Raised(AuditRejected) && State() == old(State()).(records := Logical(old(State())))
    {
      hide Inv, Logical, HasOpen, RecoverEffect, Recoverable, StoreClean, Legible, BoundedDir;
      ghost var s0 := State();
      RecoveryStart(s0, id, expected);
      if id !in journals { return Raised(UnknownTransaction); }
      var journal := journals[id];
      if !Readable(env.rules, id, journal) { return Raised(InvalidJournal); }
      if journal.request != expected { return Raised(FingerprintChanged); }
      if !journal.Open() { return Raised(NotIncomplete); }
      var preparing := journal.status == Preparing;
      var problem := CheckEvidence(journal.changes, DirOf(State(), id), preparing);
      if problem.Some? { return Raised(problem.value); }
      if !preparing {
        var f := RestoreFromEvidence(id);
        RecoveringEffect(s0, State(), id, expected);
        if f == Crashes { return Crashed; }
        if f == Fails { return Raised(WriteFailed); }
      }
      RestoredLogical(s0, State(), id, expected, env.rules);
      out := CloseRecovery(id, env);
      if journals[id] != journal { RecoveredEffect(s0, State(), id, expected); }
    }

    /** Audit the restored records, close the journal, tidy up. */
    method CloseRecovery(id: TxId, env: Env) returns (out: Outcome)
      requires id in journals && Writable(env.rules, id, journals[id].changes)
      modifies `journals, `payloads, `tick
      ensures tick >= old(tick) && (out.Crashed? <==> Last(faults, old(tick), tick) == Crashes)
      ensures OthersKept(old(State()), State(), id)
      ensures State() == old(State())
              || journals == old(journals)[id := old(journals)[id].(status := RolledBack(Recovered))]
      ensures out.Raised? ==> State() == old(State())
      ensures out.Done? ==>
                && out == Done([])
                && journals == old(journals)[id := old(journals)[id].(status := RolledBack(Recovered))]
      ensures !StoreClean(old(State()), Some(id), env.rules) ==> out == Raised(AuditRejected)
      ensures Calm(faults, old(tick)) && StoreClean(old(State()), Some(id), env.rules) ==>
                && out == (if env.accepts(records) then Done([]) else Raised(AuditRejected))
                && (out.Done? && BoundedDir(old(payloads), id, |old(journals)[id].changes|) ==>
                      payloads == old(payloads) - {id})
    {
      hide Writable, StoreClean;
      var journal := journals[id];
      if !(env.accepts(records) && StoreClean(State(), Some(id), env.rules)) { return Raised(AuditRejected); }
      var f := WriteJournal(id, journal.(status := RolledBack(Recovered)), env.rules);
      if f == Crashes { return Crashed; }
      if f == Fails { return Raised(WriteFailed); }
      f := CleanupPayloads(id, |journal.changes|);
      if f == Crashes { return Crashed; }
      out := Done([]);
    }
  }

  function Without(payloads: map<TxId, PayloadDir>, id: TxId, slot: Slot): map<TxId, PayloadDir> {
    if id in payloads then payloads[id := payloads[id] - {slot}] else payloads
  }

  /** The first `i` payload files of each kind are gone from the directory, and nothing else has changed. */
  ghost predicate Cleaned(all: map<TxId, PayloadDir>, now: map<TxId, PayloadDir>, id: TxId, i: nat) {
    && now.Keys == all.Keys
    && (forall k :: k != id && k in now ==> now[k] == all[k])
    && (id in now ==> now[id].Keys <= all[id].Keys)
    && (id in now ==> forall k :: 0 <= k < i ==> Before(k) !in now[id] && After(k) !in now[id])
  }

  lemma NothingCleaned(payloads: map<TxId, PayloadDir>, id: TxId)
    ensures Cleaned(payloads, payloads, id, 0)
  {}

  lemma OneCleaned(all: map<TxId, PayloadDir>, now: map<TxId, PayloadDir>, id: TxId, i: nat)
    requires Cleaned(all, now, id, i)
    ensures Cleaned(all, Without(Without(now, id, Before(i)), id, After(i)), id, i + 1)
    ensures var half := Without(now, id, Before(i));
            half.Keys == all.Keys && forall k :: k != id && k in half ==> half[k] == all[k]
  {}

  lemma OthersUncleaned(all: map<TxId, PayloadDir>, now: map<TxId, PayloadDir>, id: TxId, i: nat)
    requires Cleaned(all, now, id, i)
    ensures now.Keys == all.Keys && forall k :: k != id && k in now ==> now[k] == all[k]
  {}

  lemma AllCleaned(all: map<TxId, PayloadDir>, now: map<TxId, PayloadDir>, id: TxId, count: nat)
    requires Cleaned(all, now, id, count) && id in now && id in all
    ensures BoundedSlots(all[id], count) ==> now[id] == map[]
  {
    if BoundedSlots(all[id], count) {
      forall slot ensures slot !in now[id] { assert slot == Before(slot.index) || slot == After(slot.index); }
    }
  }

  lemma OthersDiffer(items: seq<Item>, i: nat)
    requires NoDuplicates(Ids(items)) && i < |items|
    ensures items[i].id in Ids(items)
    ensures forall k :: 0 <= k < |items| && k != i ==> items[k].id != items[i].id
  {
    assert Ids(items)[i] == items[i].id;
    forall k | 0 <= k < |items| && k != i ensures items[k].id != items[i].id {
      assert Ids(items)[k] != Ids(items)[i];
    }
  }

  lemma ApplyNext(records: Records, items: seq<Item>, i: nat)
    requires i < |items|
    ensures ApplyItems(records[items[i].id := items[i].body], items[i + 1..]) == ApplyItems(records, items[i..])
  {
    assert items[i..][1..] == items[i + 1..];
  }

  lemma AllApplied(records: Records, items: seq<Item>)
    ensures items[0..] == items && ApplyItems(records, items[|items|..]) == records
  {}

  function Stop(f: Fault): Attempt
    requires f != Works
  {
    if f == Crashes then Died else Threw(WriteFailed)
  }

  /** What a put needs in order to start writing. */
  ghost predicate PutAdmitted(s: Store, request: Request, id: TxId, env: Env) {
    && Proper(request, env)
    && id !in s.journals && id !in s.payloads
    && StoreClean(s, None, env.rules)
    && Admissible(s.records, request, env)
  }

  ghost predicate BoundedSlots(dir: PayloadDir, count: nat) {
    forall slot :: slot in dir ==> slot.index < count
  }

  /** The payload directory, if there is one, holds nothing but files of a batch of this many records. */
  ghost predicate BoundedDir(payloads: map<TxId, PayloadDir>, id: TxId, count: nat) {
    id in payloads ==> BoundedSlots(payloads[id], count)
  }

  /** The payload files of the first `n` items: every after body, and every body there was before. */
  function FullEvidence(items: seq<Item>, previous: seq<Option<Bytes>>, n: nat): PayloadDir
    requires n <= |items| == |previous|
  {
    if n == 0 then map[]
    else
      var dir := FullEvidence(items, previous, n - 1)[After(n - 1) := items[n - 1].body];
      if previous[n - 1].Some? then dir[Before(n - 1) := previous[n - 1].value] else dir
  }

  lemma NoEvidence(items: seq<Item>, previous: seq<Option<Bytes>>)
    requires |items| == |previous|
    ensures FullEvidence(items, previous, 0) == map[] && BoundedSlots(map[], |items|)
  {}

  lemma EvidenceStep(items: seq<Item>, previous: seq<Option<Bytes>>, i: nat)
    requires i < |items| == |previous| && BoundedSlots(FullEvidence(items, previous, i), |items|)
    ensures var dir := FullEvidence(items, previous, i)[After(i) := items[i].body];
            && BoundedSlots(dir, |items|)
            && FullEvidence(items, previous, i + 1)
              == (if previous[i].Some? then dir[Before(i) := previous[i].value] else dir)
            && BoundedSlots(FullEvidence(items, previous, i + 1), |items|)
  {}

  lemma {:induction false} BeforeHeld(items: seq<Item>, previous: seq<Option<Bytes>>, n: nat, i: nat)
    requires i < n <= |items| == |previous| && previous[i].Some?
    ensures Before(i) in FullEvidence(items, previous, n)
            && FullEvidence(items, previous, n)[Before(i)] == previous[i].value
  {
    if i < n - 1 { BeforeHeld(items, previous, n - 1, i); }
  }

  /** The evidence of a batch is what the journal's changes ask for. */
  lemma {:induction false} StagedEvidence(records: Records, items: seq<Item>, previous: seq<Option<Bytes>>)
    requires |items| == |previous| && forall i :: 0 <= i < |previous| ==> previous[i] == Lookup(records, items[i].id)
    ensures EvidenceIntact(ChangesFor(records, items), FullEvidence(items, previous, |items|))
  {
    hide FullEvidence;
    var cs := ChangesFor(records, items);
    forall i | 0 <= i < |cs| && cs[i].before.Some?
      ensures Before(i) in FullEvidence(items, previous, |items|)
      ensures Sha256(FullEvidence(items, previous, |items|)[Before(i)]) == cs[i].before.value
    {
      BeforeHeld(items, previous, |items|, i);
    }
  }
}
