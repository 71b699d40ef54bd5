/** Whole runs: any sequence of batches and recoveries, each with any faults, crashes included. */
module TransactionRuns {
  import opened Evidence
  import opened Transactions
  import opened TransactionStores

  datatype Op =
    | Put(request: Request, id: TxId, env: Env)
    | Recover(id: TxId, expected: Digest<Request>, env: Env)

  ghost predicate Effect(s0: Store, s1: Store, op: Op, out: Outcome) {
    match op
    case Put(request, id, env) => PutEffect(s0, s1, request, id, env, out) && PutGuard(s0, s1, id, env, out)
    case Recover(id, expected, env) =>
      RecoverEffect(s0, s1, id, expected, out) && RecoverGuard(s0, s1, id, env, out)
  }

  /** `states[k]` is what operation `k` finds on disk; it may be what a crash left there. */
  datatype Run = Run(states: seq<Store>, ops: seq<Op>, outs: seq<Outcome>)

  ghost predicate Valid(r: Run) {
    && |r.states| == |r.ops| + 1 && |r.outs| == |r.ops|
    && Inv(r.states[0])
    && forall k :: 0 <= k < |r.ops| ==> Effect(r.states[k], r.states[k + 1], r.ops[k], r.outs[k])
  }

  /** Operation `k` is the one that committed its batch. */
  ghost predicate Lands(r: Run, k: nat)
    requires Valid(r) && k < |r.ops|
  {
    && r.ops[k].Put?
    && r.ops[k].id !in r.states[k].journals
    && CommittedAs(r.states[k + 1], r.ops[k].id, r.ops[k].request)
  }

  /** The batches that landed during the first `n` operations, in order. */
  ghost function History(r: Run, n: nat): seq<Request>
    requires Valid(r) && n <= |r.ops|
  {
    if n == 0 then []
    else if Lands(r, n - 1) then History(r, n - 1) + [r.ops[n - 1].request]
    else History(r, n - 1)
  }

  ghost function ApplyAll(records: Records, requests: seq<Request>): Records
    decreases |requests|
  {
    if requests == [] then records
    else ApplyItems(ApplyAll(records, requests[..|requests| - 1]), requests[|requests| - 1].items)
  }

  lemma {:induction false} RunInv(r: Run, n: nat)
    requires Valid(r) && n <= |r.ops|
    ensures Inv(r.states[n])
  {
    if n > 0 { assert Effect(r.states[n - 1], r.states[n], r.ops[n - 1], r.outs[n - 1]); }
  }

  lemma EffectOnLogical(s0: Store, s1: Store, op: Op, out: Outcome)
    requires Inv(s0) && Effect(s0, s1, op, out)
    ensures var landed := op.Put? && op.id !in s0.journals && CommittedAs(s1, op.id, op.request);
            Logical(s1) == if landed then ApplyItems(Logical(s0), op.request.items) else Logical(s0)
  {
    if op.Put? && op.id !in s0.journals && CommittedAs(s1, op.id, op.request) {
      forall k | k in s1.journals ensures !s1.journals[k].Open() {
        assert k == op.id || k in s0.journals;
      }
    }
  }

  lemma NoHistory(r: Run)
    requires Valid(r)
    ensures History(r, 0) == []
  {}

  lemma HistoryNext(r: Run, n: nat, records: Records)
    requires Valid(r) && 0 < n <= |r.ops|
    ensures ApplyAll(records, History(r, n))
         == if Lands(r, n - 1) then ApplyItems(ApplyAll(records, History(r, n - 1)), r.ops[n - 1].request.items)
            else ApplyAll(records, History(r, n - 1))
  {
    hide Lands, ApplyItems;
    if Lands(r, n - 1) {
      var h := History(r, n);
      assert h[..|h| - 1] == History(r, n - 1);
    }
  }

  /** Atomicity over every run: the records a store stands for are the initial ones with the landed
      batches applied whole and in order. Nothing else that happens, in any interleaving of crashes,
      failed writes and recoveries, is visible. */
  lemma {:induction false} AtomicHistory(r: Run, n: nat)
    requires Valid(r) && n <= |r.ops|
    ensures Logical(r.states[n]) == ApplyAll(Logical(r.states[0]), History(r, n))
  {
    hide Inv, Logical, Effect, CommittedAs, History, ApplyItems;
    if n > 0 {
      AtomicHistory(r, n - 1);
      RunInv(r, n - 1);
      assert Effect(r.states[n - 1], r.states[n], r.ops[n - 1], r.outs[n - 1]);
      EffectOnLogical(r.states[n - 1], r.states[n], r.ops[n - 1], r.outs[n - 1]);
      HistoryNext(r, n, Logical(r.states[0]));
    } else {
      NoHistory(r);
    }
  }

  /** Between batches the files themselves are that history. */
  lemma ClosedHistory(r: Run, n: nat)
    requires Valid(r) && n <= |r.ops| && !HasOpen(r.states[n])
    ensures r.states[n].records == ApplyAll(Logical(r.states[0]), History(r, n))
  {
    AtomicHistory(r, n);
  }

  // ----- what a transaction id may do over a run -----

  lemma EffectOnJournal(s0: Store, s1: Store, op: Op, out: Outcome, id: TxId)
    requires Inv(s0) && Effect(s0, s1, op, out) && id in s0.journals
    ensures id in s1.journals
    ensures s1.journals[id] == s0.journals[id]
            || (s0.journals[id].Open() && s1.journals[id] == s0.journals[id].(status := RolledBack(Recovered)))
  {}

  /** A journal never disappears, never changes its request, and once closed never changes at all. */
  lemma {:induction false} JournalsPersist(r: Run, i: nat, j: nat, id: TxId)
    requires Valid(r) && i <= j <= |r.ops| && id in r.states[i].journals
    ensures id in r.states[j].journals
    ensures r.states[j].journals[id].request == r.states[i].journals[id].request
    ensures r.states[j].journals[id] == r.states[i].journals[id]
            || (r.states[i].journals[id].Open() && r.states[j].journals[id].status.RolledBack?)
    decreases j
  {
    hide Effect, Inv;
    if i < j {
      JournalsPersist(r, i, j - 1, id);
      JournalStep(r, j - 1, id);
    }
  }

  lemma JournalStep(r: Run, k: nat, id: TxId)
    requires Valid(r) && k < |r.ops| && id in r.states[k].journals
    ensures id in r.states[k + 1].journals
    ensures r.states[k + 1].journals[id] == r.states[k].journals[id]
            || (r.states[k].journals[id].Open()
                && r.states[k + 1].journals[id] == r.states[k].journals[id].(status := RolledBack(Recovered)))
  {
    hide Effect, Inv;
    RunInv(r, k);
    assert Effect(r.states[k], r.states[k + 1], r.ops[k], r.outs[k]);
    EffectOnJournal(r.states[k], r.states[k + 1], r.ops[k], r.outs[k], id);
  }

  /** One idempotency key commits at most one batch: after operation `i` has put a journal under its
      id on disk, no later use of the id writes anything. It answers with the same destinations only
      for the same request and only if that request was the one committed; otherwise it raises. */
  lemma OnceOnly(r: Run, i: nat, j: nat)
    requires Valid(r) && i <= j < |r.ops|
    requires r.ops[j].Put? && r.ops[j].id in r.states[i].journals
    ensures r.states[j + 1] == r.states[j] && !Lands(r, j)
    ensures r.outs[j].Done? || r.outs[j].Raised?
    ensures r.outs[j].Done? ==>
              && CommittedAs(r.states[i], r.ops[j].id, r.ops[j].request)
              && r.outs[j].ids == Ids(r.ops[j].request.items)
    ensures r.states[i].journals[r.ops[j].id].request != Sha256(r.ops[j].request) ==> r.outs[j].Raised?
  {
    JournalsPersist(r, i, j, r.ops[j].id);
    assert Effect(r.states[j], r.states[j + 1], r.ops[j], r.outs[j]);
  }

  /** Two operations that both land carry different ids, and in particular different keys. */
  lemma LandedIdsDiffer(r: Run, i: nat, j: nat)
    requires Valid(r) && i < j < |r.ops| && Lands(r, i) && Lands(r, j)
    ensures r.ops[i].id != r.ops[j].id
  {
    if r.ops[i].id == r.ops[j].id { OnceOnly(r, i + 1, j); }
  }

  /** A rolled-back key is spent: every later use raises. */
  lemma RolledBackIsSpent(r: Run, i: nat, j: nat)
    requires Valid(r) && i <= j < |r.ops|
    requires r.ops[j].Put? && r.ops[j].id in r.states[i].journals
    requires r.states[i].journals[r.ops[j].id].status.RolledBack?
    ensures r.outs[j].Raised? && r.states[j + 1] == r.states[j]
  {
    OnceOnly(r, i, j);
  }

  // ----- a journal that cannot be loaded -----

  /** The journal rules are constants of the program, so all operations of a run share them. */
  ghost predicate SameRules(r: Run, rules: JournalRules) {
    forall k :: 0 <= k < |r.ops| ==> r.ops[k].env.rules == rules
  }

  /** Operation `k` writes nothing, unless it is a recovery, which then closes nothing; it answers at most for a
      journal other than `id` that is on disk. */
  ghost predicate Stuck(r: Run, k: nat, id: TxId)
    requires Valid(r) && k < |r.ops|
  {
    var op := r.ops[k];
    && (op.Put? || op.id == id ==> r.states[k + 1] == r.states[k])
    && (op.Put? && op.id !in r.states[k].journals ==> r.outs[k].Raised?)
    && (op.id == id ==> r.outs[k].Raised?)
    && (op.Recover? ==> !r.outs[k].Done?)
  }

  lemma JamStep(r: Run, k: nat, rules: JournalRules, id: TxId)
    requires Valid(r) && k < |r.ops| && SameRules(r, rules)
    requires id in r.states[k].journals && !Readable(rules, id, r.states[k].journals[id])
    ensures r.states[k + 1].journals == r.states[k].journals && r.states[k + 1].payloads == r.states[k].payloads
    ensures !Lands(r, k) && Stuck(r, k, id)
  {
    hide Inv, Logical, Readable, PutEffect, RecoverEffect;
    assert Effect(r.states[k], r.states[k + 1], r.ops[k], r.outs[k]);
    assert r.ops[k].env.rules == rules;
  }

  /** Once a journal is on disk that is too long to be loaded again, however it got there, the store is stuck
      for good: from then on no batch lands, no recovery returns, and every call with an id that has no journal
      yet, and every call for that journal itself, raises and writes nothing. */
  lemma {:induction false} UnreadableForever(r: Run, i: nat, j: nat, rules: JournalRules, id: TxId)
    requires Valid(r) && i <= j <= |r.ops| && SameRules(r, rules)
    requires id in r.states[i].journals && !Readable(rules, id, r.states[i].journals[id])
    ensures r.states[j].journals == r.states[i].journals && r.states[j].payloads == r.states[i].payloads
    ensures History(r, j) == History(r, i) && Logical(r.states[j]) == Logical(r.states[i])
    ensures forall k :: i <= k < j ==> Stuck(r, k, id)
    decreases j
  {
    hide Inv, Logical, Readable, Effect, CommittedAs, Lands, Stuck;
    if i < j {
      UnreadableForever(r, i, j - 1, rules, id);
      JamStep(r, j - 1, rules, id);
      assert History(r, j) == History(r, j - 1);
    }
    AtomicHistory(r, i);
    AtomicHistory(r, j);
  }

  // ----- crash, then recover -----

  /** What the store looked like before an interrupted batch is what a completed recovery puts back,
      however many recoveries were themselves cut short. */
  lemma {:induction false} RecoveryRestores(r: Run, n: nat, m: nat)
    requires Valid(r) && n <= m < |r.ops|
    requires forall k :: n <= k <= m ==> r.ops[k].Recover?
    requires r.outs[m].Done?
    ensures r.states[m + 1].records == Logical(r.states[n]) && !HasOpen(r.states[m + 1])
  {
    RecoverKeepsLogical(r, n, m);
    RunInv(r, m);
    assert Effect(r.states[m], r.states[m + 1], r.ops[m], r.outs[m]);
    var id := r.ops[m].id;
    var after := r.states[m + 1];
    forall k | k in after.journals ensures !after.journals[k].Open() {
      assert k == id || k in r.states[m].journals;
    }
  }

  lemma {:induction false} RecoverKeepsLogical(r: Run, n: nat, m: nat)
    requires Valid(r) && n <= m <= |r.ops|
    requires forall k :: n <= k < m ==> r.ops[k].Recover?
    ensures Logical(r.states[m]) == Logical(r.states[n])
    decreases m
  {
    if n < m {
      RecoverKeepsLogical(r, n, m - 1);
      assert Effect(r.states[m - 1], r.states[m], r.ops[m - 1], r.outs[m - 1]);
    }
  }

  // ----- the methods perform such runs -----

  lemma EffectInv(s0: Store, s1: Store, op: Op, out: Outcome)
    requires Effect(s0, s1, op, out)
    ensures Inv(s1)
  {}

  method Perform(store: TransactionStore, op: Op) returns (out: Outcome)
    requires Inv(store.State())
    modifies store
    ensures Effect(old(store.State()), store.State(), op, out)
  {
    hide Inv, PutEffect, RecoverEffect, PutGuard, RecoverGuard, CalmPut;
    match op {
      case Put(request, id, env) => out := store.PutRecords(request, id, env);
      case Recover(id, expected, env) => out := store.RecoverTransaction(id, expected, env);
    }
  }

  /** Serving a list of operations on one store object is a valid run, whatever the faults. */
  method Serve(store: TransactionStore, ops: seq<Op>) returns (outs: seq<Outcome>, ghost states: seq<Store>)
    requires Inv(store.State())
    modifies store
    ensures Valid(Run(states, ops, outs)) && forall k :: 0 <= k <= |ops| ==> Inv(states[k])
    ensures states[0] == old(store.State()) && states[|ops|] == store.State()
  {
    outs, states := [], [store.State()];
    for k := 0 to |ops|
      invariant |outs| == k && |states| == k + 1
      invariant states[0] == old(store.State()) && states[k] == store.State()
      invariant forall i :: 0 <= i <= k ==> Inv(states[i])
      invariant forall i :: 0 <= i < k ==> Effect(states[i], states[i + 1], ops[i], outs[i])
    {
      hide Inv, Effect;
      var out := Perform(store, ops[k]);
      EffectInv(states[k], store.State(), ops[k], out);
      outs, states := outs + [out], states + [store.State()];
    }
  }
}
