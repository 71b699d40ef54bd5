/** A journal as canonical JSON, how long it is, and the batches whose journal can be written but not loaded again. */
module JournalSizes {
  import opened Evidence
  import opened Orders
  import opened Transactions
  import opened TransactionStores

  type Hex = s: string | |s| == 64 witness seq(64, _ => '0')
  type RandomId = s: string | |s| == |"TXN-20250101T000000Z-0123456789abcdef"|
    witness "TXN-20250101T000000Z-0123456789abcdef"

  /** How the values in a journal are written: digests in hexadecimal, the id of a batch without a key, the path of a
      record, a time stamp, and the name of the exception that aborted a batch. None needs an escape. */
  datatype Spelling = Spelling(
    bytesHex: Digest<Bytes> -> Hex,
    requestHex: Digest<Request> -> Hex,
    keyHex: Digest<string> -> Hex,
    random: nat -> RandomId,
    path: RecordId -> string,
    stamp: string,
    exceptionName: Refusal -> string)

  function Quoted(s: string): string { "\"" + s + "\"" }

  function Field(name: string, value: string): string { Quoted(name) + ":" + value }

  /** Fields by ascending name, without spaces. */
  function ChangeText(sp: Spelling, c: Change, index: nat): string {
    "{" + Field("after_sha256", Quoted(sp.bytesHex(c.after)))
    + "," + Field("before_sha256", if c.before.None? then "null" else Quoted(sp.bytesHex(c.before.value)))
    + "," + Field("index", Decimal(index)) + "," + Field("path", Quoted(sp.path(c.id)))
    + "," + Field("record_id", Quoted(c.id)) + "}"
  }

  /** The first `n` changes. */
  function ChangesText(sp: Spelling, changes: seq<Change>, n: nat): string
    requires n <= |changes|
  {
    if n == 0 then ""
    else ChangesText(sp, changes, n - 1) + (if n == 1 then "" else ",") + ChangeText(sp, changes[n - 1], n - 1)
  }

  function StatusName(status: Status): string {
    match status
    case Preparing => "preparing"
    case Prepared => "prepared"
    case Applying => "applying"
    case Committed => "committed"
    case RolledBack(_) => "rolled_back"
  }

  function ErrorType(sp: Spelling, status: Status): string {
    match status
    case RolledBack(Aborted(why)) => Quoted(sp.exceptionName(why))
    case RolledBack(Recovered) => Quoted("RecoveredInterruptedTransaction")
    case _ => "null"
  }

  function RecoveredAt(sp: Spelling, status: Status): string {
    if status == RolledBack(Recovered) then Quoted(sp.stamp) else "null"
  }

  function IdText(sp: Spelling, id: TxId): string {
    match id
    case Random(nonce) => sp.random(nonce)
    case Keyed(key) => "IDEM-" + sp.keyHex(key)
  }

  function KeyText(sp: Spelling, id: TxId): string {
    match id
    case Random(_) => "null"
    case Keyed(key) => Quoted(sp.keyHex(key))
  }

  function FieldsToKey(sp: Spelling, id: TxId, j: Journal): string {
    Field("changes", "[" + ChangesText(sp, j.changes, |j.changes|) + "]")
    + "," + Field("created_at", Quoted(sp.stamp)) + "," + Field("error_type", ErrorType(sp, j.status))
    + "," + Field("id", Quoted(IdText(sp, id))) + "," + Field("idempotency_key_sha256", KeyText(sp, id))
  }

  function FieldsFromKind(sp: Spelling, j: Journal): string {
    Field("kind", Quoted("transaction")) + "," + Field("recovered_at", RecoveredAt(sp, j.status))
    + "," + Field("request_sha256", Quoted(sp.requestHex(j.request))) + "," + Field("schema_version", "1")
    + "," + Field("status", Quoted(StatusName(j.status))) + "," + Field("updated_at", Quoted(sp.stamp))
  }

  /** A journal as canonical JSON, which ends in a line feed. */
  function JournalText(sp: Spelling, id: TxId, j: Journal): string {
    "{" + FieldsToKey(sp, id, j) + "," + FieldsFromKind(sp, j) + "}\n"
  }

  function JournalBytes(sp: Spelling, id: TxId, j: Journal): nat {
    |JournalText(sp, id, j)|
  }

  lemma ChangeLength(sp: Spelling, c: Change, index: nat)
    ensures |ChangeText(sp, c, index)|
            == 134 + (if c.before.None? then 4 else 66) + |Decimal(index)| + |sp.path(c.id)| + |c.id|
  {}

  lemma FieldsToKeyLength(sp: Spelling, id: TxId, j: Journal)
    ensures |FieldsToKey(sp, id, j)|
            == 76 + |ChangesText(sp, j.changes, |j.changes|)| + |sp.stamp| + |ErrorType(sp, j.status)|
               + |IdText(sp, id)| + |KeyText(sp, id)|
  {
    hide ChangesText, ErrorType, IdText, KeyText;
  }

  lemma FieldsFromKindLength(sp: Spelling, j: Journal)
    ensures |FieldsFromKind(sp, j)|
            == 167 + |RecoveredAt(sp, j.status)| + |StatusName(j.status)| + |sp.stamp|
  {
    hide RecoveredAt, StatusName;
  }

  function EndingLength(sp: Spelling, status: Status): nat {
    match status
    case Prepared | Applying => 16
    case Preparing | Committed => 17
    case RolledBack(Aborted(why)) => 17 + |sp.exceptionName(why)|
    case RolledBack(Recovered) => 46 + |sp.stamp|
  }

  lemma EndingLengths(sp: Spelling, status: Status)
    ensures |ErrorType(sp, status)| + |RecoveredAt(sp, status)| + |StatusName(status)| == EndingLength(sp, status)
  {}

  /** The length of a journal depends on its changes, on whether a key was given, and on its status: the same batch
      has its shortest journals while it is prepared or applying. */
  lemma JournalLength(sp: Spelling, id: TxId, j: Journal)
    ensures JournalBytes(sp, id, j)
            == 247 + |ChangesText(sp, j.changes, |j.changes|)| + 2 * |sp.stamp| + (if id.Random? then 41 else 135)
               + EndingLength(sp, j.status)
  {
    hide FieldsToKey, FieldsFromKind, ErrorType, RecoveredAt, StatusName, EndingLength;
    FieldsToKeyLength(sp, id, j);
    FieldsFromKindLength(sp, j);
    EndingLengths(sp, j.status);
    assert |IdText(sp, id)| + |KeyText(sp, id)| == if id.Random? then 41 else 135;
  }

  predicate PathsEndInId(sp: Spelling, changes: seq<Change>) {
    forall i :: 0 <= i < |changes| ==> |sp.path(changes[i].id)| >= |changes[i].id| + |".json"|
  }

  lemma {:induction false} ChangesAtLeast(sp: Spelling, changes: seq<Change>, n: nat, width: nat)
    requires 0 < n <= |changes| && PathsEndInId(sp, changes)
    requires forall i :: 0 <= i < |changes| ==> |changes[i].id| >= width
    ensures |ChangesText(sp, changes, n)| + 1 >= n * (145 + 2 * width)
  {
    hide ChangeText;
    ChangeLength(sp, changes[n - 1], n - 1);
    assert |sp.path(changes[n - 1].id)| >= width + 5;
    assert |ChangeText(sp, changes[n - 1], n - 1)| + 1 >= 145 + 2 * width;
    if n > 1 {
      ChangesAtLeast(sp, changes, n - 1, width);
      assert (n - 1) * (145 + 2 * width) + (145 + 2 * width) == n * (145 + 2 * width);
    } else {
      assert ChangesText(sp, changes, 0) == "";
    }
  }

  /** A batch within the schema's number of changes can be too long to load: no batch whose records' ids have
      at least `width` characters ever lands, once there are enough records. */
  lemma LongBatchNeverLands(sp: Spelling, s: Store, request: Request, id: TxId, env: Env, width: nat)
    requires env.rules.bytes == ((i, j) => JournalBytes(sp, i, j))
    requires PathsEndInId(sp, ChangesFor(s.records, request.items))
    requires forall i :: 0 <= i < |request.items| ==> |request.items[i].id| >= width
    requires |request.items| * (145 + 2 * width) > MAX_JOURNAL_BYTES
    ensures !PassesAudit(s, request, id, env)
    ensures forall status: Status :: !Readable(env.rules, id, Journal(status, Sha256(request),
                                                                      ChangesFor(s.records, request.items)))
  {
    hide JournalText, ChangesText, Writable;
    var changes := ChangesFor(s.records, request.items);
    ChangesAtLeast(sp, changes, |changes|, width);
    forall status: Status
      ensures env.rules.bytes(id, Journal(status, Sha256(request), changes)) > MAX_JOURNAL_BYTES
    {
      JournalLength(sp, id, Journal(status, Sha256(request), changes));
    }
  }

  /** The journal an admitted batch ends with. */
  function ClosedJournal(s: Store, request: Request, id: TxId, env: Env): Journal {
    Journal(if PassesAudit(s, request, id, env) then Committed else RolledBack(Aborted(AuditRejected)),
            Sha256(request), ChangesFor(s.records, request.items))
  }

  /** Exactly when an admitted batch without faults leaves a journal that cannot be loaded: when it can be written and
      its closed journal is over the limit, whether it was committed or rolled back. */
  lemma JamsIffClosedIsTooLong(s0: Store, s1: Store, request: Request, id: TxId, env: Env, out: Outcome)
    requires PutAdmitted(s0, request, id, env) && CalmPut(s0, s1, request, id, env, out)
    ensures !Legible(s1, env.rules) <==>
              && Writable(env.rules, id, ChangesFor(s0.records, request.items))
              && env.rules.bytes(id, ClosedJournal(s0, request, id, env)) > MAX_JOURNAL_BYTES
  {
    hide Proper, Admissible, ApplyItems, Writable;
    var changes, closed := ChangesFor(s0.records, request.items), ClosedJournal(s0, request, id, env);
    if Writable(env.rules, id, changes) {
      assert s1.journals == s0.journals[id := closed];
      assert Legible(s0, env.rules);
      assert id in s1.journals && s1.journals[id] == closed;
      forall k | k in s1.journals && k != id ensures Readable(env.rules, k, s1.journals[k]) {
        assert k in s0.journals && s1.journals[k] == s0.journals[k];
      }
    }
  }

  /** In canonical JSON "committed" is one character longer than "applying", and a rolled-back journal names an
      exception besides. So a batch that returns has jammed the store exactly when its applying journal had the
      greatest length that can be loaded; and a valid batch over that length is rolled back and jams it too. */
  lemma JamsByLength(sp: Spelling, s0: Store, s1: Store, request: Request, id: TxId, env: Env, out: Outcome)
    requires env.rules.bytes == ((i, j) => JournalBytes(sp, i, j))
    requires PutAdmitted(s0, request, id, env) && CalmPut(s0, s1, request, id, env, out)
    requires Writable(env.rules, id, ChangesFor(s0.records, request.items))
    ensures var applying := Journal(Applying, Sha256(request), ChangesFor(s0.records, request.items));
            var n := JournalBytes(sp, id, applying);
            && (out.Done? ==> (!Legible(s1, env.rules) <==> n == MAX_JOURNAL_BYTES))
            && (n > MAX_JOURNAL_BYTES ==>
                  out == Raised(AuditRejected) && s1.records == s0.records && !Legible(s1, env.rules))
  {
    hide PutAdmitted, JournalBytes, Writable, Legible;
    JamsIffClosedIsTooLong(s0, s1, request, id, env, out);
    var changes, closed := ChangesFor(s0.records, request.items), ClosedJournal(s0, request, id, env);
    var applying := Journal(Applying, Sha256(request), changes);
    ClosedLength(sp, id, applying, closed);
  }

  lemma ClosedLength(sp: Spelling, id: TxId, applying: Journal, closed: Journal)
    requires applying.status == Applying && closed == applying.(status := closed.status)
    requires closed.status in {Committed, RolledBack(Aborted(AuditRejected))}
    ensures JournalBytes(sp, id, closed)
         == JournalBytes(sp, id, applying) + 1
            + if closed.status == Committed then 0 else |sp.exceptionName(AuditRejected)|
  {
    hide JournalBytes, ChangesText;
    JournalLength(sp, id, applying);
    JournalLength(sp, id, closed);
  }

  // ----- ten thousand new facts -----

  function Digits(n: nat, width: nat): (s: string)
    ensures |s| == width
  {
    if width == 0 then "" else Digits(n / 10, width - 1) + ["0123456789"[n % 10]]
  }

  function Power(width: nat): nat {
    if width == 0 then 1 else 10 * Power(width - 1)
  }

  lemma {:induction false} DigitsDiffer(a: nat, b: nat, width: nat)
    requires a < b < Power(width)
    ensures Digits(a, width) != Digits(b, width)
  {
    if width > 0 {
      var s, t := Digits(a, width), Digits(b, width);
      if a % 10 == b % 10 {
        DigitsDiffer(a / 10, b / 10, width - 1);
        assert s[..width - 1] == Digits(a / 10, width - 1) && t[..width - 1] == Digits(b / 10, width - 1);
      } else {
        assert s[width - 1] == "0123456789"[a % 10] && t[width - 1] == "0123456789"[b % 10];
      }
    }
  }

  const PREFIX := "FCT-imported-inventory-service-"

  function FactName(n: nat): (id: RecordId)
    ensures |id| == 35
  {
    PREFIX + Digits(n, 4)
  }

  function ManyFacts(body: Bytes): (r: Request)
    ensures |r.items| == MAX_CHANGES && forall i :: 0 <= i < MAX_CHANGES ==> r.items[i].id == FactName(i)
  {
    Request(seq(MAX_CHANGES, i requires 0 <= i < MAX_CHANGES => Item(FactName(i), body)), false, None)
  }

  lemma ManyFactsDiffer(body: Bytes)
    ensures NoDuplicates(Ids(ManyFacts(body).items))
  {
    var ids := Ids(ManyFacts(body).items);
    assert Power(1) == 10 && Power(2) == 100 && Power(3) == 1000 && Power(4) == 10000;
    forall i, j | 0 <= i < j < |ids| ensures ids[i] != ids[j] {
      DigitsDiffer(i, j, 4);
      assert ids[i][|PREFIX|..] == Digits(i, 4) && ids[j][|PREFIX|..] == Digits(j, 4);
    }
  }

  ghost predicate FactPaths(sp: Spelling) {
    forall id: RecordId :: sp.path(id) == "facts/" + id + ".json"
  }

  /** Every record is valid and the cross-record audit never objects. */
  function ImportEnv(sp: Spelling): Env {
    Env((id, body) => true, body => false, JournalRules((id, changes) => true, (id, j) => JournalBytes(sp, id, j)),
        records => true)
  }

  const EMPTY := Store(map[], map[], map[])

  lemma ImportIsAdmitted(sp: Spelling, body: Bytes)
    ensures PutAdmitted(EMPTY, ManyFacts(body), Random(0), ImportEnv(sp))
  {
    ManyFactsDiffer(body);
  }

  lemma ImportIsRolledBack(sp: Spelling, body: Bytes, s: Store, out: Outcome)
    requires FactPaths(sp) && CalmPut(EMPTY, s, ManyFacts(body), Random(0), ImportEnv(sp), out)
    ensures out == Raised(AuditRejected) && s.records == map[]
    ensures !Legible(s, ImportEnv(sp).rules)
  {
    hide JournalBytes;
    var request, env := ManyFacts(body), ImportEnv(sp);
    ManyFactsDiffer(body);
    ChangesForBinds(map[], request, Applying);
    LongBatchNeverLands(sp, EMPTY, request, Random(0), env, 35);
    ImportIsAdmitted(sp, body);
    JamsByLength(sp, EMPTY, s, request, Random(0), env, out);
  }

  /** Importing ten thousand new facts in one batch into an empty store: everything is valid, every write works and
      the cross-record audit has no objection, yet the batch is rolled back, and afterwards neither a batch with a
      single fact nor a recovery gets through. */
  method LargeBatchJamsStore(sp: Spelling, body: Bytes)
    returns (batch: Outcome, next: Outcome, recovery: Outcome)
    requires FactPaths(sp)
    ensures batch == Raised(AuditRejected) && next.Raised? && recovery.Raised?
  {
    hide CalmPut, PutAdmitted, ManyFacts, ImportEnv, RecoverEffect, Proper, Readable;
    var env, request, id := ImportEnv(sp), ManyFacts(body), Random(0);
    var store := new TransactionStore(map[], n => Works);
    ImportIsAdmitted(sp, body);
    batch := store.PutRecords(request, id, env);
    ImportIsRolledBack(sp, body, store.State(), batch);
    next := store.PutRecords(Request([Item("FCT-one-more", body)], false, None), Random(1), env);
    recovery := store.RecoverTransaction(id, Sha256(request), env);
  }
}
