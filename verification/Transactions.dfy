/** The write-ahead journal of record batches: what a store holds, what every reachable store
    satisfies, and what one batch or one recovery does to it. The methods that write are in
    TransactionStore. */
module Transactions {
  import opened Evidence
  import opened Orders

  type RecordId = string
  type Records = map<RecordId, Bytes>

  datatype Item = Item(id: RecordId, body: Bytes)

  datatype Request = Request(
    items: seq<Item>,
    overwrite: bool,
    expected: Option<map<RecordId, Option<Digest<Bytes>>>>)

  /** A random id, or the id an idempotency key determines. */
  datatype TxId = Random(nonce: nat) | Keyed(key: Digest<string>)

  function IdForKey(key: string): TxId { Keyed(Sha256(key)) }

  /** `error_type`, which only a rolled-back journal carries. */
  datatype Cause = Aborted(why: Refusal) | Recovered

  datatype Status = Preparing | Prepared | Applying | Committed | RolledBack(cause: Cause)

  datatype Change = Change(id: RecordId, before: Option<Digest<Bytes>>, after: Digest<Bytes>)

  datatype Journal = Journal(status: Status, request: Digest<Request>, changes: seq<Change>) {
    /** The journal asks for explicit recovery. */
    predicate Open() { status in {Preparing, Prepared, Applying} }
  }

  /** The file names `000000.before` and `000000.after` of a payload directory. */
  datatype Slot = Before(index: nat) | After(index: nat)
  type PayloadDir = map<Slot, Bytes>

  datatype Store = Store(records: Records, journals: map<TxId, Journal>, payloads: map<TxId, PayloadDir>)

  const MAX_CHANGES := 10000
  const MAX_JOURNAL_BYTES := 2 * 1024 * 1024

  /** How journals are checked and stored: the schema of an id and its changes beyond their number, and the
      length of the canonical JSON. */
  datatype JournalRules = JournalRules(wellFormed: (TxId, seq<Change>) -> bool, bytes: (TxId, Journal) -> nat)

  /** `_validate_journal` reports nothing. It looks at nothing that changes while a batch runs. */
  predicate Writable(rules: JournalRules, id: TxId, changes: seq<Change>) {
    1 <= |changes| <= MAX_CHANGES && DistinctChanges(changes) && rules.wellFormed(id, changes)
  }

  /** `load_transaction` returns. The length is checked only here, not when a journal is written. */
  predicate Readable(rules: JournalRules, id: TxId, j: Journal) {
    Writable(rules, id, j.changes) && rules.bytes(id, j) <= MAX_JOURNAL_BYTES
  }

  /** Every journal on disk can be loaded. */
  predicate Legible(s: Store, rules: JournalRules) {
    forall id :: id in s.journals ==> Readable(rules, id, s.journals[id])
  }

  /** What the store does not decide itself: schema validity, the record size limit, the journal rules, and the
      cross-record audit as of some date. */
  datatype Env = Env(
    schemaValid: (RecordId, Bytes) -> bool,
    oversize: Bytes -> bool,
    rules: JournalRules,
    accepts: Records -> bool)

  datatype Refusal =
    | EmptyBatch | DuplicateRecord | InvalidRecord | RevisionMapMismatch
    | UnknownTransaction | KeyReused | IdSpent | ResultMissing | ResultDrifted
    | NeedsRecovery | RecordExists | RecordTooLarge | RevisionMismatch
    | WriteFailed | AuditRejected | RollbackIncomplete | JournalNotClosed
    | InvalidJournal | FingerprintChanged | NotIncomplete | ExternalDrift | EvidenceInvalid

  datatype Outcome = Done(ids: seq<RecordId>) | Raised(why: Refusal) | Crashed

  // ----- pure parts of the protocol -----

  function Lookup(records: Records, id: RecordId): Option<Bytes> {
    if id in records then Some(records[id]) else None
  }

  function Revision(records: Records, id: RecordId): Option<Digest<Bytes>> {
    if id in records then Some(Sha256(records[id])) else None
  }

  function Ids(items: seq<Item>): (ids: seq<RecordId>)
    ensures |ids| == |items| && forall i :: 0 <= i < |ids| ==> ids[i] == items[i].id
  {
    seq(|items|, i requires 0 <= i < |items| => items[i].id)
  }

  /** A batch names at least one record and none twice, every payload is valid, and expected revisions, if given, are
      given for exactly these records. */
  ghost predicate Proper(request: Request, env: Env) {
    var items := request.items;
    && items != []
    && (forall i, j :: 0 <= i < j < |items| ==> items[i].id != items[j].id)
    && (forall i :: 0 <= i < |items| ==> env.schemaValid(items[i].id, items[i].body))
    && (request.expected.Some? ==>
          && (forall i :: 0 <= i < |items| ==> items[i].id in request.expected.value)
          && (forall id :: id in request.expected.value ==> exists i :: 0 <= i < |items| && items[i].id == id))
  }

  /** The checks made before the lock is taken. */
  function CheckRequest(request: Request, env: Env): (refusal: Option<Refusal>) {
    var ids := Ids(request.items);
    if ids == [] then Some(EmptyBatch)
    else if !NoDuplicates(ids) then Some(DuplicateRecord)
    else if exists i :: 0 <= i < |ids| && !env.schemaValid(ids[i], request.items[i].body) then Some(InvalidRecord)
    else if request.expected.Some? && request.expected.value.Keys != (set id | id in ids) then Some(RevisionMapMismatch)
    else None
  }

  /** Why the records on disk do not admit item `i`, if they do not. */
  function AdmitItem(records: Records, request: Request, env: Env, i: nat): Option<Refusal>
    requires i < |request.items|
  {
    var id := request.items[i].id;
    if id in records && !request.overwrite then Some(RecordExists)
    else if id in records && env.oversize(records[id]) then Some(RecordTooLarge)
    else if request.expected.Some? && id in request.expected.value
      && request.expected.value[id] != Revision(records, id)
    then Some(RevisionMismatch)
    else None
  }

  /** What the records on disk must be for a batch: overwriting is asked for or none of its records exists; those that
      exist are within the size limit; every expected revision is the observed one. */
  ghost predicate Admissible(records: Records, request: Request, env: Env) {
    var items := request.items;
    && (request.overwrite || forall i :: 0 <= i < |items| ==> items[i].id !in records)
    && (forall i :: 0 <= i < |items| && items[i].id in records ==> !env.oversize(records[items[i].id]))
    && (request.expected.Some? ==> forall i :: 0 <= i < |items| && items[i].id in request.expected.value ==>
          match request.expected.value[items[i].id] {
            case None => items[i].id !in records
            case Some(d) => items[i].id in records && d.of == records[items[i].id]
          })
  }

  lemma AdmittedItems(records: Records, request: Request, env: Env)
    ensures (forall i :: 0 <= i < |request.items| ==> AdmitItem(records, request, env, i) == None)
            <==> Admissible(records, request, env)
  {
    var items := request.items;
    if forall i :: 0 <= i < |items| ==> AdmitItem(records, request, env, i) == None {
      forall i | 0 <= i < |items|
        ensures items[i].id in records ==> request.overwrite && !env.oversize(records[items[i].id])
      {
        assert AdmitItem(records, request, env, i) == None;
      }
      if request.expected.Some? {
        forall i | 0 <= i < |items| && items[i].id in request.expected.value
          ensures request.expected.value[items[i].id] == Revision(records, items[i].id)
        {
          assert AdmitItem(records, request, env, i) == None;
        }
      }
    }
  }

  /** The checks pass for exactly the proper requests. */
  lemma ProperIffChecked(request: Request, env: Env)
    ensures CheckRequest(request, env) == None <==> Proper(request, env)
  {
    var items, ids := request.items, Ids(request.items);
    assert NoDuplicates(ids) <==> forall i, j :: 0 <= i < j < |items| ==> items[i].id != items[j].id by {
      if NoDuplicates(ids) {
        forall i, j | 0 <= i < j < |items| ensures items[i].id != items[j].id { assert ids[i] != ids[j]; }
      }
    }
    assert (exists i :: 0 <= i < |ids| && !env.schemaValid(ids[i], items[i].body))
        <==> !(forall i :: 0 <= i < |items| ==> env.schemaValid(items[i].id, items[i].body)) by {
      if i :| 0 <= i < |items| && !env.schemaValid(items[i].id, items[i].body) {
        assert !env.schemaValid(ids[i], items[i].body);
      }
    }
    forall id ensures id in ids <==> exists i :: 0 <= i < |items| && items[i].id == id {
      if id in ids { var i :| 0 <= i < |ids| && ids[i] == id; assert items[i].id == id; }
      if i :| 0 <= i < |items| && items[i].id == id { assert ids[i] == id; }
    }
  }

  function ChangeFor(records: Records, item: Item): Change {
    Change(item.id, Revision(records, item.id), Sha256(item.body))
  }

  function ChangesFor(records: Records, items: seq<Item>): (cs: seq<Change>)
    ensures |cs| == |items| && forall i :: 0 <= i < |cs| ==> cs[i] == ChangeFor(records, items[i])
  {
    seq(|items|, i requires 0 <= i < |items| => ChangeFor(records, items[i]))
  }

  function ApplyItems(records: Records, items: seq<Item>): Records
    decreases |items|
  {
    if items == [] then records
    else ApplyItems(records[items[0].id := items[0].body], items[1..])
  }

  /** `inspect_transaction_store` reports nothing, given the transaction now running. */
  predicate StoreClean(s: Store, active: Option<TxId>, rules: JournalRules) {
    && Legible(s, rules)
    && (forall id :: id in s.journals && s.journals[id].status in {Prepared, Applying} ==> id in s.payloads)
    && (forall id :: id in s.journals && s.journals[id].Open() ==> active == Some(id))
    && (forall id :: id in s.payloads ==> id in s.journals)
  }

  /** The answer to a transaction id that is already on disk. It only reads. */
  function Replay(s: Store, id: TxId, request: Request, rules: JournalRules): Outcome {
    if id !in s.journals then Raised(UnknownTransaction)
    else if !Readable(rules, id, s.journals[id]) then Raised(InvalidJournal)
    else if s.journals[id].request != Sha256(request) then Raised(KeyReused)
    else if s.journals[id].status != Committed then Raised(IdSpent)
    else ReplayChanges(s.records, s.journals[id].changes, 0)
  }

  function ReplayChanges(records: Records, changes: seq<Change>, i: nat): Outcome
    requires i <= |changes|
    decreases |changes| - i
  {
    if i == |changes| then Done(seq(|changes|, j requires 0 <= j < |changes| => changes[j].id))
    else if changes[i].id !in records then Raised(ResultMissing)
    else if Sha256(records[changes[i].id]) != changes[i].after then Raised(ResultDrifted)
    else ReplayChanges(records, changes, i + 1)
  }

  /** A replay answers only for the very batch that was committed, and only while it is still in place. */
  lemma {:induction false} ReplayChangesMeaning(records: Records, changes: seq<Change>, i: nat)
    requires i <= |changes|
    ensures var r := ReplayChanges(records, changes, i);
            && (r.Done? <==> forall j :: i <= j < |changes| ==>
                  Revision(records, changes[j].id) == Some(changes[j].after))
            && (r.Done? ==> |r.ids| == |changes| && forall j :: 0 <= j < |changes| ==> r.ids[j] == changes[j].id)
            && !r.Crashed?
    decreases |changes| - i
  {
    if i < |changes| && Revision(records, changes[i].id) == Some(changes[i].after) {
      ReplayChangesMeaning(records, changes, i + 1);
    }
  }

  // ----- undoing a batch -----

  function Restore(records: Records, id: RecordId, original: Option<Bytes>): Records {
    match original
    case None => records - {id}
    case Some(body) => records[id := body]
  }

  ghost function OriginalOf(c: Change): Option<Bytes> {
    match c.before
    case None => None
    case Some(d) => Some(d.of)
  }

  /** The records with every change of a batch put back to the revision the journal names. */
  ghost function Undo(records: Records, changes: seq<Change>): Records
    decreases |changes|
  {
    if changes == [] then records
    else Undo(Restore(records, changes[0].id, OriginalOf(changes[0])), changes[1..])
  }

  ghost predicate Changes(changes: seq<Change>, id: RecordId) {
    exists i :: 0 <= i < |changes| && changes[i].id == id
  }

  ghost predicate AgreeOutside(a: Records, b: Records, changes: seq<Change>) {
    forall id :: !Changes(changes, id) ==> Lookup(a, id) == Lookup(b, id)
  }

  lemma LookupEqual(a: Records, b: Records)
    requires forall id :: Lookup(a, id) == Lookup(b, id)
    ensures a == b
  {
    forall id ensures id in a <==> id in b { assert Lookup(a, id) == Lookup(b, id); }
    forall id | id in a ensures a[id] == b[id] { assert Lookup(a, id) == Lookup(b, id); }
  }

  /** Undo looks at nothing inside the batch. */
  lemma {:induction false} UndoAgrees(a: Records, b: Records, changes: seq<Change>)
    requires AgreeOutside(a, b, changes)
    ensures Undo(a, changes) == Undo(b, changes)
    decreases |changes|
  {
    if changes == [] {
      forall id ensures Lookup(a, id) == Lookup(b, id) { assert !Changes(changes, id); }
      LookupEqual(a, b);
    } else {
      var c := changes[0];
      var a', b' := Restore(a, c.id, OriginalOf(c)), Restore(b, c.id, OriginalOf(c));
      forall id | !Changes(changes[1..], id) ensures Lookup(a', id) == Lookup(b', id) {
        if id != c.id {
          if Changes(changes, id) {
            var i :| 0 <= i < |changes| && changes[i].id == id;
            assert changes[1..][i - 1].id == id;
          }
        }
      }
      UndoAgrees(a', b', changes[1..]);
    }
  }

  /** Undoing a batch that has not moved anything changes nothing. */
  lemma {:induction false} UndoUnmoved(records: Records, changes: seq<Change>)
    requires forall i :: 0 <= i < |changes| ==> Revision(records, changes[i].id) == changes[i].before
    ensures Undo(records, changes) == records
    decreases |changes|
  {
    if changes != [] {
      assert Revision(records, changes[0].id) == changes[0].before;
      assert Restore(records, changes[0].id, OriginalOf(changes[0])) == records;
      UndoUnmoved(records, changes[1..]);
    }
  }

  lemma {:induction false} ApplyOutside(records: Records, items: seq<Item>, id: RecordId)
    requires id !in Ids(items)
    ensures Lookup(ApplyItems(records, items), id) == Lookup(records, id)
    decreases |items|
  {
    if items != [] {
      assert Ids(items)[0] == items[0].id;
      forall i | 0 <= i < |items[1..]| ensures Ids(items[1..])[i] != id {
        assert Ids(items[1..])[i] == Ids(items)[i + 1];
      }
      ApplyOutside(records[items[0].id := items[0].body], items[1..], id);
    }
  }

  lemma {:induction false} ApplyInside(records: Records, items: seq<Item>, i: nat)
    requires NoDuplicates(Ids(items)) && i < |items|
    ensures Lookup(ApplyItems(records, items), items[i].id) == Some(items[i].body)
    decreases |items|
  {
    var ids, rest := Ids(items), Ids(items[1..]);
    assert forall j :: 0 <= j < |rest| ==> rest[j] == ids[j + 1];
    var next := records[items[0].id := items[0].body];
    if i == 0 {
      forall j | 0 <= j < |rest| ensures rest[j] != items[0].id { assert ids[0] != ids[j + 1]; }
      ApplyOutside(next, items[1..], items[0].id);
    } else {
      ApplyInside(next, items[1..], i - 1);
    }
  }

  // ----- the invariant of every reachable store, crashed ones included -----

  ghost predicate Unmoved(records: Records, changes: seq<Change>) {
    forall i :: 0 <= i < |changes| ==> Revision(records, changes[i].id) == changes[i].before
  }

  /** Every batch record still holds either its before or its after revision. */
  ghost predicate HalfMoved(records: Records, changes: seq<Change>) {
    forall i :: 0 <= i < |changes| ==>
      Revision(records, changes[i].id) == changes[i].before
        || Revision(records, changes[i].id) == Some(changes[i].after)
  }

  ghost predicate EvidenceIntact(changes: seq<Change>, dir: PayloadDir) {
    forall i :: 0 <= i < |changes| && changes[i].before.Some? ==>
      Before(i) in dir && Sha256(dir[Before(i)]) == changes[i].before.value
  }

  predicate DistinctChanges(changes: seq<Change>) {
    forall i, j :: 0 <= i < j < |changes| ==> changes[i].id != changes[j].id
  }

  /** The journal's changes are those of the request whose digest it carries. */
  ghost predicate Binds(j: Journal) {
    && |j.changes| == |j.request.of.items|
    && (forall i :: 0 <= i < |j.changes| ==>
          && j.changes[i].id == j.request.of.items[i].id
          && j.changes[i].after == Sha256(j.request.of.items[i].body))
    && DistinctChanges(j.changes)
  }

  ghost predicate Recoverable(s: Store, id: TxId)
    requires id in s.journals
  {
    var j := s.journals[id];
    && (j.status in {Preparing, Prepared} ==> Unmoved(s.records, j.changes))
    && (j.status == Applying ==> HalfMoved(s.records, j.changes))
    && (j.status in {Prepared, Applying} ==> id in s.payloads && EvidenceIntact(j.changes, s.payloads[id]))
  }

  ghost predicate Inv(s: Store) {
    && (forall a, b :: a in s.journals && b in s.journals && s.journals[a].Open() && s.journals[b].Open() ==> a == b)
    && (forall id :: id in s.payloads ==> id in s.journals)
    && (forall id :: id in s.journals ==> Binds(s.journals[id]))
    && (forall id :: id in s.journals && s.journals[id].Open() ==> Recoverable(s, id))
  }

  ghost predicate HasOpen(s: Store) {
    exists id :: id in s.journals && s.journals[id].Open()
  }

  /** The records the store stands for: an open batch counts as not applied. */
  ghost function Logical(s: Store): Records {
    if HasOpen(s) then
      var id :| id in s.journals && s.journals[id].Open();
      Undo(s.records, s.journals[id].changes)
    else s.records
  }

  lemma LogicalOpen(s: Store, id: TxId)
    requires Inv(s) && id in s.journals && s.journals[id].Open()
    ensures Logical(s) == Undo(s.records, s.journals[id].changes)
  {}

  /** A store that reports no transaction errors has no open batch. */
  lemma CleanIsClosed(s: Store, rules: JournalRules)
    requires Inv(s) && StoreClean(s, None, rules)
    ensures !HasOpen(s) && Logical(s) == s.records
  {}

  /** Of a store that only these protocols wrote, the inspection reports nothing exactly when every journal can be
      loaded and no batch is open but the running one. */
  lemma CleanIffClosed(s: Store, active: Option<TxId>, rules: JournalRules)
    requires Inv(s)
    ensures StoreClean(s, active, rules) <==>
              && (forall id :: id in s.journals ==> Readable(rules, id, s.journals[id]))
              && (forall id :: id in s.journals && s.journals[id].status in {Preparing, Prepared, Applying} ==>
                    active == Some(id))
  {
    hide Readable, Unmoved, HalfMoved, EvidenceIntact;
  }

  /** Evidence that disappears is reported: a payload directory left without its journal, and a prepared or applying
      journal left without its payloads. */
  lemma LostEvidenceIsReported(s: Store, active: Option<TxId>, rules: JournalRules, id: TxId)
    ensures id in s.payloads ==> !StoreClean(s.(journals := s.journals - {id}), active, rules)
    ensures id in s.journals && s.journals[id].status in {Prepared, Applying} ==>
              !StoreClean(s.(payloads := s.payloads - {id}), active, rules)
  {
    hide Readable;
  }

  // ----- recovery's evidence -----

  function DirOf(s: Store, id: TxId): PayloadDir {
    if id in s.payloads then s.payloads[id] else map[]
  }

  /** A record is where the journal's status allows it to be. */
  predicate InPlace(records: Records, c: Change, preparing: bool) {
    Revision(records, c.id) == c.before || (!preparing && Revision(records, c.id) == Some(c.after))
  }

  ghost predicate Recovers(s: Store, id: TxId, expected: Digest<Request>) {
    id in s.journals && s.journals[id].Open() && s.journals[id].request == expected
  }

  /** Some record was edited from outside, or some evidence file is missing or altered. */
  ghost predicate RecoveryBlocked(s: Store, id: TxId, expected: Digest<Request>) {
    && Recovers(s, id, expected)
    && var j := s.journals[id];
       || (exists i :: 0 <= i < |j.changes| && !InPlace(s.records, j.changes[i], j.status == Preparing))
       || (j.status != Preparing && !EvidenceIntact(j.changes, DirOf(s, id)))
  }

  // ----- what one operation may do -----

  ghost predicate CommittedAs(s: Store, id: TxId, request: Request) {
    id in s.journals && s.journals[id].status == Committed && s.journals[id].request == Sha256(request)
  }

  /** Nothing about any other transaction changed. */
  ghost predicate OthersKept(s0: Store, s1: Store, id: TxId) {
    && (forall k :: k != id ==> (k in s0.journals <==> k in s1.journals))
    && (forall k :: k != id && k in s0.journals ==> s0.journals[k] == s1.journals[k])
    && (forall k :: k != id ==> (k in s0.payloads <==> k in s1.payloads))
    && (forall k :: k != id && k in s0.payloads ==> s0.payloads[k] == s1.payloads[k])
  }

  /** `put_records` as an atomic step: whatever faults struck, either the batch is committed with
      exactly its after bytes, or the store still stands for the records it stood for. */
  ghost predicate PutEffect(s0: Store, s1: Store, request: Request, id: TxId, env: Env, out: Outcome) {
    && Inv(s1)
    && OthersKept(s0, s1, id)
    && (forall r :: r !in Ids(request.items) ==> Lookup(s1.records, r) == Lookup(s0.records, r))
    && (id in s0.journals ==> s1 == s0 && !out.Crashed?)
    && (id !in s0.journals && CommittedAs(s1, id, request) ==>
          && Proper(request, env)
          && !HasOpen(s0)
          && Admissible(s0.records, request, env)
          && s1.records == ApplyItems(s0.records, request.items)
          && env.accepts(s1.records)
          && !out.Raised?)
    && (id !in s0.journals && !CommittedAs(s1, id, request) ==>
          && Logical(s1) == Logical(s0)
          && (id in s1.journals ==> s1.journals[id].status != Committed && s1.journals[id].request == Sha256(request)))
    && (out.Done? ==>
          && CommittedAs(s1, id, request)
          && out.ids == Ids(request.items)
          && forall i :: 0 <= i < |request.items| ==>
               Lookup(s1.records, request.items[i].id) == Some(request.items[i].body))
  }

  /** `recover_record_transaction` as a step: it never changes what the store stands for, and
      when it succeeds the records on disk are exactly that. */
  ghost predicate RecoverEffect(s0: Store, s1: Store, id: TxId, expected: Digest<Request>, out: Outcome) {
    && Inv(s1)
    && OthersKept(s0, s1, id)
    && Logical(s1) == Logical(s0)
    && (Recovers(s0, id, expected) ==>
          && id in s1.journals
          && (|| s1.journals[id] == s0.journals[id]
              || s1.journals[id] == s0.journals[id].(status := RolledBack(Recovered)))
          && AgreeOutside(s0.records, s1.records, s0.journals[id].changes))
    && (!Recovers(s0, id, expected) ==> s1 == s0 && out.Raised?)
    && (out.Done? ==>
          && id in s1.journals && s1.journals[id].status == RolledBack(Recovered)
          && s1.records == Logical(s0))
  }

  /** While some journal cannot be loaded, no new batch writes anything, and a known id is at most replayed. */
  ghost predicate PutGuard(s0: Store, s1: Store, id: TxId, env: Env, out: Outcome) {
    !Legible(s0, env.rules) ==>
      && s1 == s0
      && (id !in s0.journals || !Readable(env.rules, id, s0.journals[id]) ==> out.Raised?)
  }

  /** While some journal cannot be loaded, no recovery closes anything, and that journal's own does not even start. */
  ghost predicate RecoverGuard(s0: Store, s1: Store, id: TxId, env: Env, out: Outcome) {
    !Legible(s0, env.rules) ==>
      && !out.Done? && s1.journals == s0.journals && s1.payloads == s0.payloads
      && (id in s0.journals && !Readable(env.rules, id, s0.journals[id]) ==> s1 == s0 && out.Raised?)
  }

  /** An admitted batch passes its own audit: its result is accepted and its applying journal can be loaded. */
  predicate PassesAudit(s: Store, request: Request, id: TxId, env: Env) {
    && env.accepts(ApplyItems(s.records, request.items))
    && Readable(env.rules, id, Journal(Applying, Sha256(request), ChangesFor(s.records, request.items)))
  }

  lemma PassedIsWritable(s: Store, request: Request, id: TxId, env: Env)
    ensures PassesAudit(s, request, id, env) ==> Writable(env.rules, id, ChangesFor(s.records, request.items))
  {}

  /** The end of an admitted batch without faults: whether its journal can be written and, while it is being
      applied, loaded again decides beside the audit. */
  ghost predicate CalmPut(s0: Store, s1: Store, request: Request, id: TxId, env: Env, out: Outcome) {
    var changes := ChangesFor(s0.records, request.items);
    if !Writable(env.rules, id, changes) then s1 == s0 && out == Raised(JournalNotClosed)
    else if PassesAudit(s0, request, id, env) then
      && s1 == Store(ApplyItems(s0.records, request.items),
                     s0.journals[id := Journal(Committed, Sha256(request), changes)], s0.payloads)
      && out == Done(Ids(request.items))
    else
      && s1 == s0.(journals :=
                     s0.journals[id := Journal(RolledBack(Aborted(AuditRejected)), Sha256(request), changes)])
      && out == Raised(AuditRejected)
  }

  /** The batch is committed, or every file is as before and its journal is closed as rolled back by a
      failed write. */
  ghost predicate LandsOrUndone(s0: Store, s1: Store, request: Request, id: TxId, out: Outcome) {
    var changes := ChangesFor(s0.records, request.items);
    || (&& out == Done(Ids(request.items)) && s1.records == ApplyItems(s0.records, request.items)
        && s1.journals == s0.journals[id := Journal(Committed, Sha256(request), changes)])
    || (&& out == Raised(WriteFailed)
        && s1 == s0.(journals :=
                       s0.journals[id := Journal(RolledBack(Aborted(WriteFailed)), Sha256(request), changes)]))
  }

  /** An admitted batch without faults leaves no trace exactly when it has more records than a journal may list, or its
      journal is not well formed otherwise. */
  lemma NoTraceIff(s0: Store, s1: Store, request: Request, id: TxId, env: Env, out: Outcome)
    requires Proper(request, env) && CalmPut(s0, s1, request, id, env, out)
    ensures out == Raised(JournalNotClosed) <==>
              |request.items| > MAX_CHANGES || !env.rules.wellFormed(id, ChangesFor(s0.records, request.items))
    ensures out == Raised(JournalNotClosed) ==> s1 == s0
  {
    hide ApplyItems, Readable;
    var changes := ChangesFor(s0.records, request.items);
    assert DistinctChanges(changes);
  }

  // ----- the states a batch passes through -----

  /** Between its first and its last durable write, batch `id` leaves the store either untouched
      or open with the journal that names the revisions it started from. */
  ghost predicate InFlight(s0: Store, s: Store, id: TxId, request: Request) {
    && OthersKept(s0, s, id)
    && (id !in s.journals ==> s == s0)
    && (id in s.journals ==>
          && s.journals[id].Open()
          && s.journals[id].request == Sha256(request)
          && s.journals[id].changes == ChangesFor(s0.records, request.items)
          && Recoverable(s, id)
          && AgreeOutside(s0.records, s.records, ChangesFor(s0.records, request.items)))
  }

  ghost predicate Startable(s0: Store, id: TxId, request: Request) {
    && Inv(s0) && !HasOpen(s0)
    && id !in s0.journals && id !in s0.payloads
    && NoDuplicates(Ids(request.items))
  }

  lemma ChangesForBinds(records: Records, request: Request, status: Status)
    requires NoDuplicates(Ids(request.items))
    ensures Binds(Journal(status, Sha256(request), ChangesFor(records, request.items)))
  {
    var ids, cs := Ids(request.items), ChangesFor(records, request.items);
    forall i, j | 0 <= i < j < |cs| ensures cs[i].id != cs[j].id { assert ids[i] != ids[j]; }
  }

  /** Wherever a crash strikes, the store is well formed and still stands for the old records. */
  lemma InFlightSafe(s0: Store, s: Store, id: TxId, request: Request)
    requires Startable(s0, id, request) && InFlight(s0, s, id, request)
    ensures Inv(s) && Logical(s) == s0.records
    ensures forall r :: r !in Ids(request.items) ==> Lookup(s.records, r) == Lookup(s0.records, r)
  {
    var cs := ChangesFor(s0.records, request.items);
    if id in s.journals {
      ChangesForBinds(s0.records, request, s.journals[id].status);
      LogicalOpen(s, id);
      UndoAgrees(s0.records, s.records, cs);
      UndoUnmoved(s0.records, cs);
      forall r | r !in Ids(request.items) ensures !Changes(cs, r) {
        forall i | 0 <= i < |cs| ensures cs[i].id != r { assert Ids(request.items)[i] != r; }
      }
    }
  }

  /** The store stands for exactly the records it started from, and batch `id` has not landed. */
  ghost predicate Withdrawn(s0: Store, s: Store, id: TxId, request: Request) {
    && Inv(s) && OthersKept(s0, s, id) && Logical(s) == s0.records
    && (forall r :: r !in Ids(request.items) ==> Lookup(s.records, r) == Lookup(s0.records, r))
    && (id in s.journals ==> s.journals[id].status != Committed && s.journals[id].request == Sha256(request))
  }

  /** Closing the journal of an undone batch leaves the old records and nothing open. */
  lemma ClosedSafe(s0: Store, s: Store, id: TxId, request: Request, status: Status)
    requires Startable(s0, id, request) && OthersKept(s0, s, id)
    requires id in s.journals
             && s.journals[id] == Journal(status, Sha256(request), ChangesFor(s0.records, request.items))
    requires status == Committed || status.RolledBack?
    ensures Inv(s) && !HasOpen(s) && Logical(s) == s.records
  {
    ChangesForBinds(s0.records, request, status);
  }

  lemma ReplayMeaning(s: Store, id: TxId, request: Request, rules: JournalRules)
    requires Inv(s) && id in s.journals
    ensures var r := Replay(s, id, request, rules);
            && !r.Crashed?
            && (!Readable(rules, id, s.journals[id]) ==> r.Raised?)
            && (r.Done? ==>
                  && CommittedAs(s, id, request) && r.ids == Ids(request.items)
                  && forall i :: 0 <= i < |request.items| ==>
                       Lookup(s.records, request.items[i].id) == Some(request.items[i].body))
  {
    var j := s.journals[id];
    ReplayChangesMeaning(s.records, j.changes, 0);
    if Replay(s, id, request, rules).Done? {
      forall i | 0 <= i < |request.items|
        ensures Lookup(s.records, request.items[i].id) == Some(request.items[i].body)
      {
        assert Revision(s.records, j.changes[i].id) == Some(j.changes[i].after);
      }
    }
  }

  lemma CommitMeaning(before: Records, after: Records, items: seq<Item>)
    requires NoDuplicates(Ids(items)) && after == ApplyItems(before, items)
    ensures forall i :: 0 <= i < |items| ==> Lookup(after, items[i].id) == Some(items[i].body)
    ensures forall r :: r !in Ids(items) ==> Lookup(after, r) == Lookup(before, r)
  {
    forall i | 0 <= i < |items| ensures Lookup(after, items[i].id) == Some(items[i].body) {
      ApplyInside(before, items, i);
    }
    forall r | r !in Ids(items) ensures Lookup(after, r) == Lookup(before, r) {
      ApplyOutside(before, items, r);
    }
  }

  /** Before the records move, each status is safe as soon as the evidence it promises is on disk. */
  lemma StagedInFlight(s0: Store, s: Store, id: TxId, request: Request)
    requires Startable(s0, id, request)
    requires OthersKept(s0, s, id) && s.records == s0.records
    requires id !in s.journals ==> id !in s.payloads
    requires id in s.journals ==>
               && s.journals[id] == Journal(s.journals[id].status, Sha256(request),
                                            ChangesFor(s0.records, request.items))
               && s.journals[id].Open()
               && (s.journals[id].status != Preparing ==>
                     id in s.payloads && EvidenceIntact(s.journals[id].changes, s.payloads[id]))
    ensures InFlight(s0, s, id, request)
  {
    if id !in s.journals {
      assert s.journals == s0.journals && s.payloads == s0.payloads;
    }
  }

  lemma RestoredInFlight(s0: Store, s: Store, s': Store, id: TxId, request: Request, previous: seq<Option<Bytes>>)
    requires Startable(s0, id, request) && InFlight(s0, s, id, request)
    requires |previous| == |request.items|
    requires forall i :: 0 <= i < |previous| ==> previous[i] == Lookup(s0.records, request.items[i].id)
    requires s'.journals == s.journals && s'.payloads == s.payloads
    requires forall r :: r !in Ids(request.items) ==> Lookup(s'.records, r) == Lookup(s.records, r)
    requires forall k :: 0 <= k < |request.items| ==>
               Lookup(s'.records, request.items[k].id) in {Lookup(s.records, request.items[k].id), previous[k]}
    ensures InFlight(s0, s', id, request)
  {
    if id !in s.journals {
      forall r ensures Lookup(s'.records, r) == Lookup(s0.records, r) {
        if r in Ids(request.items) {
          var k :| 0 <= k < |request.items| && Ids(request.items)[k] == r;
          assert request.items[k].id == r;
        }
      }
      LookupEqual(s'.records, s0.records);
    }
  }

  lemma InFlightWithdrawn(s0: Store, s: Store, id: TxId, request: Request)
    requires Startable(s0, id, request) && InFlight(s0, s, id, request)
    ensures Withdrawn(s0, s, id, request)
  {
    InFlightSafe(s0, s, id, request);
  }

  lemma ClosedWithdrawn(s0: Store, s: Store, id: TxId, request: Request, why: Refusal)
    requires Startable(s0, id, request) && OthersKept(s0, s, id) && s.records == s0.records
    requires id in s.journals
             && s.journals[id]
                == Journal(RolledBack(Aborted(why)), Sha256(request), ChangesFor(s0.records, request.items))
    ensures Withdrawn(s0, s, id, request)
  {
    ClosedSafe(s0, s, id, request, RolledBack(Aborted(why)));
  }

  /** Replacing records while the journal says applying is safe, and the audit of the running
      batch finds no other transaction in the way: only its own journal may be too long to load. */
  lemma ReplacedInFlight(s0: Store, s: Store, s': Store, id: TxId, request: Request, rules: JournalRules)
    requires Startable(s0, id, request) && InFlight(s0, s, id, request)
    requires id in s.journals && s.journals[id].status == Applying && s.records == s0.records
    requires s'.journals == s.journals && s'.payloads == s.payloads
    requires forall r :: r !in Ids(request.items) ==> Lookup(s'.records, r) == Lookup(s.records, r)
    requires forall k :: 0 <= k < |request.items| ==>
               || Lookup(s'.records, request.items[k].id) == Lookup(s.records, request.items[k].id)
               || Lookup(s'.records, request.items[k].id) == Some(request.items[k].body)
    ensures InFlight(s0, s', id, request)
    ensures Legible(s0, rules) ==> (StoreClean(s', Some(id), rules) <==> Readable(rules, id, s'.journals[id]))
  {
    assert InFlight(s0, s', id, request);
    InFlightSafe(s0, s', id, request);
  }

  // ----- assembling the effect of a put -----

  lemma WithdrawnEffect(s0: Store, s: Store, request: Request, id: TxId, env: Env, out: Outcome)
    requires Startable(s0, id, request) && Withdrawn(s0, s, id, request) && !out.Done?
    ensures PutEffect(s0, s, request, id, env, out)
  {}

  lemma RefusedEffect(s: Store, request: Request, id: TxId, env: Env, out: Outcome)
    requires Inv(s) && out.Raised?
    ensures PutEffect(s, s, request, id, env, out) && PutGuard(s, s, id, env, out)
  {}

  lemma ReplayEffect(s: Store, request: Request, id: TxId, env: Env)
    requires Inv(s) && (id in s.journals || id in s.payloads)
    ensures PutEffect(s, s, request, id, env, Replay(s, id, request, env.rules))
    ensures PutGuard(s, s, id, env, Replay(s, id, request, env.rules))
    ensures id !in s.journals ==> Replay(s, id, request, env.rules).Raised?
  {
    if id in s.journals { ReplayMeaning(s, id, request, env.rules); }
  }

  lemma InFlightEffect(s0: Store, s: Store, request: Request, id: TxId, env: Env)
    requires Startable(s0, id, request) && InFlight(s0, s, id, request)
    ensures PutEffect(s0, s, request, id, env, Crashed)
  {
    InFlightWithdrawn(s0, s, id, request);
  }

  lemma CommittedEffect(s0: Store, s: Store, request: Request, id: TxId, env: Env, out: Outcome)
    requires Startable(s0, id, request) && OthersKept(s0, s, id)
    requires id in s.journals
    requires s.journals[id] == Journal(Committed, Sha256(request), ChangesFor(s0.records, request.items))
    requires Proper(request, env) && Admissible(s0.records, request, env)
    requires s.records == ApplyItems(s0.records, request.items) && env.accepts(s.records)
    requires out.Crashed? || out == Done(Ids(request.items))
    ensures PutEffect(s0, s, request, id, env, out)
  {
    ClosedSafe(s0, s, id, request, Committed);
    CommitMeaning(s0.records, s.records, request.items);
  }

  lemma PreviousRestored(before: Records, now: Records, items: seq<Item>, previous: seq<Option<Bytes>>)
    requires |previous| == |items|
    requires forall i :: 0 <= i < |items| ==> previous[i] == Lookup(before, items[i].id)
    requires forall k :: 0 <= k < |items| ==> Lookup(now, items[k].id) == previous[k]
    requires forall r :: r !in Ids(items) ==> Lookup(now, r) == Lookup(before, r)
    ensures now == before
  {
    forall r ensures Lookup(now, r) == Lookup(before, r) {
      if r in Ids(items) {
        var k :| 0 <= k < |items| && Ids(items)[k] == r;
        assert items[k].id == r && Lookup(now, items[k].id) == previous[k];
      }
    }
    LookupEqual(now, before);
  }

  // ----- assembling the effect of a recovery -----

  /** In a store that only these protocols wrote, recovery is never blocked, and refusing is harmless. */
  lemma RecoveryStart(s: Store, id: TxId, expected: Digest<Request>)
    ensures Inv(s) ==> forall out: Outcome :: out.Raised? ==> RecoverEffect(s, s, id, expected, out)
    ensures Inv(s) && Recovers(s, id, expected) ==>
              !RecoveryBlocked(s, id, expected) && DistinctChanges(s.journals[id].changes)
  {}

  /** A recovery that stops half way leaves a store that can be recovered again to the same records. */
  lemma RecoveringSafe(s0: Store, s: Store, id: TxId)
    requires Inv(s0) && id in s0.journals && s0.journals[id].Open()
    requires s.journals == s0.journals && s.payloads == s0.payloads
    requires Recoverable(s, id) && AgreeOutside(s0.records, s.records, s0.journals[id].changes)
    ensures Inv(s) && Logical(s) == Logical(s0)
  {
    LogicalOpen(s0, id);
    LogicalOpen(s, id);
    UndoAgrees(s0.records, s.records, s0.journals[id].changes);
  }

  lemma RecoveringEffect(s0: Store, s: Store, id: TxId, expected: Digest<Request>)
    requires id in s0.journals && s.journals == s0.journals && s.payloads == s0.payloads
    requires AgreeOutside(s0.records, s.records, s0.journals[id].changes)
    requires HalfMoved(s.records, s0.journals[id].changes)
    requires Unmoved(s0.records, s0.journals[id].changes) ==> Unmoved(s.records, s0.journals[id].changes)
    ensures Inv(s0) && Recovers(s0, id, expected) ==>
              && Inv(s) && Logical(s) == Logical(s0)
              && forall out: Outcome :: !out.Done? ==> RecoverEffect(s0, s, id, expected, out)
  {
    if Inv(s0) && Recovers(s0, id, expected) {
      assert Recoverable(s0, id);
      RecoveringSafe(s0, s, id);
    }
  }

  lemma RestoredLogical(s0: Store, s: Store, id: TxId, expected: Digest<Request>, rules: JournalRules)
    requires id in s0.journals && s.journals == s0.journals && s.payloads == s0.payloads
    requires AgreeOutside(s0.records, s.records, s0.journals[id].changes)
    requires Unmoved(s.records, s0.journals[id].changes)
    ensures !Legible(s0, rules) ==> !StoreClean(s, Some(id), rules)
    ensures Inv(s0) && Recovers(s0, id, expected) ==>
              && s.records == Logical(s0) && (StoreClean(s, Some(id), rules) <==> Legible(s0, rules))
              && forall out: Outcome :: !out.Done? ==> RecoverEffect(s0, s, id, expected, out)
  {
    hide Logical, RecoverEffect, AgreeOutside, Unmoved, Undo;
    CleanWhenLegible(s0, s, id, rules);
    if Inv(s0) && Recovers(s0, id, expected) {
      RestoredEffect(s0, s, id, expected);
      UnmovedIsLogical(s0, s, id);
    }
  }

  /** In a store with one open batch the audit of its recovery finds at most journals that cannot be loaded. */
  lemma CleanWhenLegible(s0: Store, s: Store, id: TxId, rules: JournalRules)
    requires s.journals == s0.journals && s.payloads == s0.payloads
    ensures !Legible(s0, rules) ==> !StoreClean(s, Some(id), rules)
    ensures Inv(s0) && id in s0.journals && s0.journals[id].Open() ==>
              (StoreClean(s, Some(id), rules) <==> Legible(s0, rules))
  {
    hide Readable, Unmoved, HalfMoved, EvidenceIntact;
  }

  lemma RestoredEffect(s0: Store, s: Store, id: TxId, expected: Digest<Request>)
    requires Inv(s0) && Recovers(s0, id, expected)
    requires s.journals == s0.journals && s.payloads == s0.payloads
    requires AgreeOutside(s0.records, s.records, s0.journals[id].changes)
    requires Unmoved(s.records, s0.journals[id].changes)
    ensures forall out: Outcome :: !out.Done? ==> RecoverEffect(s0, s, id, expected, out)
  {
    assert Recoverable(s0, id);
    RecoveringSafe(s0, s, id);
  }

  lemma UnmovedIsLogical(s0: Store, s: Store, id: TxId)
    requires Inv(s0) && id in s0.journals && s0.journals[id].Open()
    requires AgreeOutside(s0.records, s.records, s0.journals[id].changes)
    requires Unmoved(s.records, s0.journals[id].changes)
    ensures s.records == Logical(s0)
  {
    hide Inv, Logical, AgreeOutside;
    UndoUnmoved(s.records, s0.journals[id].changes);
    UndoAgrees(s0.records, s.records, s0.journals[id].changes);
    LogicalOpen(s0, id);
  }

  lemma RecoveredEffect(s0: Store, s: Store, id: TxId, expected: Digest<Request>)
    requires OthersKept(s0, s, id) && id in s0.journals && id in s.journals
    requires s.journals[id] == s0.journals[id].(status := RolledBack(Recovered))
    requires AgreeOutside(s0.records, s.records, s0.journals[id].changes)
    ensures Inv(s0) && Recovers(s0, id, expected) && s.records == Logical(s0) ==>
              forall out: Outcome :: out.Done? || out.Crashed? ==> RecoverEffect(s0, s, id, expected, out)
  {
    if Inv(s0) && Recovers(s0, id, expected) && s.records == Logical(s0) {
      assert Binds(s0.journals[id]);
      assert Inv(s) && !HasOpen(s);
    }
  }
}
