/** Exactly when a query gives the same result from an accepted index and from the scan. */
module ContextPaths {
  import opened Evidence
  import opened Orders
  import opened ContextIndexes
  import opened ContextQueries
  import Packing
  import Ranking
  import Supersession

  // ----- one query on two readings of the same records -----

  ghost predicate Complete(m: Meaning) {
    m.docs.Keys == m.surface.shown.Keys == m.surface.revisions.Keys
  }

  /** Two readings that differ at most in key order. */
  ghost predicate SameRecords(m: Meaning, n: Meaning) {
    Complete(m) && n.surface == m.surface && Ranking.Alike(m.docs, n.docs)
  }

  ghost predicate SameAnswers(m: Meaning, n: Meaning, mq: MemoryQuery) {
    forall a, b :: Answers(m, mq, a) && Answers(n, mq, b) ==> a == b
  }

  ghost predicate SameBundles(m: Meaning, n: Meaning, mq: MemoryQuery) {
    forall a, b :: Bundles(m, mq, a) && Bundles(n, mq, b) ==> a == b
  }

  /** A query sees a difference only if some eligible record is scored differently. */
  lemma SameScoresSameResults(m: Meaning, n: Meaning, mq: MemoryQuery)
    requires SameRecords(m, n) && Ranking.Direct(m.docs, mq.query) == Ranking.Direct(n.docs, mq.query)
    ensures forall a :: Answers(m, mq, a) <==> Answers(n, mq, a)
    ensures forall b :: Bundles(m, mq, b) <==> Bundles(n, mq, b)
  {
    hide Ranking.Expanded, Ranking.IsRanking, Ranking.Eligible, Ranking.Direct, Covers, MatchesFor, WarningsFor,
         BudgetFor, Packing.Justified, Packing.Picked, Packing.Count, Packing.Weight, Packing.Noted;
    Ranking.AlikeExpanded(m.docs, n.docs, mq.query, mq.query.depth);
    Ranking.AlikeLinks(m.docs, n.docs, mq.query);
    SameCount(m.docs, n.docs);
    forall order, verdicts, b ensures Packed(m, mq, order, verdicts, b) <==> Packed(n, mq, order, verdicts, b) {}
  }

  lemma SameCount(a: Ranking.Docs, b: Ranking.Docs)
    requires a.Keys == b.Keys
    ensures |a| == |b|
  {
    assert |a| == |a.Keys| && |b| == |b.Keys|;
  }

  /** An answer with room for all records shows every score. */
  lemma AnswersShowScores(m: Meaning, n: Meaning, mq: MemoryQuery)
    requires SameRecords(m, n) && mq.maxItems >= |m.docs| && SameAnswers(n, m, mq)
    ensures Ranking.Direct(m.docs, mq.query) == Ranking.Direct(n.docs, mq.query)
  {
    hide Answers, Ranking.Expanded, Ranking.Direct, Ranking.IsRanking, Covers;
    var a := AnswerExists(m, mq);
    var b := AnswerExists(n, mq);
    assert a == b;
    SameCount(m.docs, n.docs);
    var o := WholeRanking(m, mq, a);
    var p := WholeRanking(n, mq, b);
    MatchesShowEntries(m.surface, Retrieved(m, mq), Retrieved(n, mq), o, p);
    Ranking.ExpandedShowsDirect(m.docs, n.docs, mq.query, mq.query.depth);
  }

  lemma WholeRanking(m: Meaning, mq: MemoryQuery, a: Answer) returns (order: seq<string>)
    requires Complete(m) && mq.maxItems >= |m.docs| && Answers(m, mq, a)
    ensures Covers(m.surface, Retrieved(m, mq)) && Elements(order) == Retrieved(m, mq).Keys
    ensures a.matches == MatchesFor(m.surface, Retrieved(m, mq), order)
  {
    hide Ranking.Expanded, Ranking.Eligible, MatchesFor, WarningsFor;
    order :| Ranking.IsRanking(Retrieved(m, mq), order) && Reports(m, mq, Head(order, mq.maxItems), a);
    RankingSize(Retrieved(m, mq), order);
    SubsetSize(Retrieved(m, mq).Keys, m.docs.Keys);
    SizesOfKeys(Retrieved(m, mq), m.docs);
  }

  lemma SizesOfKeys(entries: map<string, Ranking.Entry>, docs: Ranking.Docs)
    ensures |entries| == |entries.Keys| && |docs| == |docs.Keys|
  {}

  lemma MatchesShowEntries(s: Surface, e: map<string, Ranking.Entry>, f: map<string, Ranking.Entry>, o: seq<string>,
                           p: seq<string>)
    requires Covers(s, e) && Covers(s, f) && Elements(o) == e.Keys && Elements(p) == f.Keys
    requires MatchesFor(s, e, o) == MatchesFor(s, f, p)
    ensures e == f
  {
    var x, y := MatchesFor(s, e, o), MatchesFor(s, f, p);
    assert |o| == |x| == |y| == |p|;
    forall i | 0 <= i < |o| ensures o[i] == p[i] && e[o[i]] == f[o[i]] {
      assert o[i] in Elements(o) && p[i] in Elements(p);
      assert x[i] == MatchFor(s, e, o[i]) && y[i] == MatchFor(s, f, p[i]);
    }
    assert o == p;
    forall id | id in e ensures e[id] == f[id] { assert id in Elements(o); }
  }

  // ----- every query has a result -----

  lemma RankingExists(entries: map<string, Ranking.Entry>) returns (order: seq<string>)
    ensures Ranking.IsRanking(entries, order) && |order| == |entries|
  {
    hide Ranking.IsRanking;
    var listed := SortedSet(entries.Keys);
    Ranking.RankingIsSorting(entries, listed);
    order := Sort(listed, Ranking.RankOrder(entries));
    RankingSize(entries, order);
  }

  lemma RankingSize(entries: map<string, Ranking.Entry>, order: seq<string>)
    requires Ranking.IsRanking(entries, order)
    ensures |order| == |entries|
  {
    ElementsSize(order);
    assert |entries| == |entries.Keys|;
  }

  lemma AnswerExists(m: Meaning, mq: MemoryQuery) returns (a: Answer)
    requires Complete(m)
    ensures Answers(m, mq, a)
  {
    hide Ranking.Expanded, Ranking.IsRanking, Ranking.Eligible, Covers, MatchesFor, WarningsFor;
    var entries := Retrieved(m, mq);
    var order := RankingExists(entries);
    RetrievedCovers(m, mq);
    HeadWithin(entries, order, mq.maxItems);
    var taken := Head(order, mq.maxItems);
    a := Answer(MatchesFor(m.surface, entries, taken), WarningsFor(m.surface, Elements(taken), mq.alarming),
                m.surface.conflicts, Sha256(m.surface.revisions),
                Excluded(Filtered(m, mq), NoMatch(m, mq, |order|), |order| - |taken|, 0, 0));
    assert Reports(m, mq, taken, a);
  }

  lemma {:induction false} VerdictsExist(order: seq<string>, b: Packing.Budget) returns (verdicts: seq<Packing.Verdict>)
    ensures Packing.Justified(order, verdicts, b)
    decreases |order|
  {
    verdicts := [];
    if order != [] {
      var n := |order| - 1;
      var before := VerdictsExist(order[..n], b);
      verdicts := before + [Packing.Judge(Packing.Picked(order[..n], before), order[n], b)];
      forall k | 0 <= k < |order|
        ensures verdicts[k] == Packing.Judge(Packing.Picked(order[..k], verdicts[..k]), order[k], b)
      {
        assert verdicts[..k] == before[..k] && order[..n][..k] == order[..k];
      }
    }
  }

  lemma BundleExists(m: Meaning, mq: MemoryQuery) returns (b: Bundle)
    requires Complete(m)
    ensures Bundles(m, mq, b)
  {
    hide Ranking.Expanded, Ranking.IsRanking, Ranking.Eligible, Covers, MatchesFor, WarningsFor, BudgetFor,
         Packing.Picked, Packing.Count, Packing.Weight, Packing.Noted;
    var entries := Retrieved(m, mq);
    var budget := BudgetFor(m.surface, entries, mq);
    var order := RankingExists(entries);
    var verdicts := VerdictsExist(order, budget);
    RetrievedCovers(m, mq);
    PickedWithin(entries, order, verdicts);
    var taken := Packing.Picked(order, verdicts);
    var a := Answer(MatchesFor(m.surface, entries, taken), WarningsFor(m.surface, Elements(taken), mq.alarming),
                    m.surface.conflicts, Sha256(m.surface.revisions),
                    Excluded(Filtered(m, mq), NoMatch(m, mq, |order|), Packing.Count(verdicts, Packing.OverItems),
                             Packing.Count(verdicts, Packing.Blocked), Packing.Count(verdicts, Packing.OverBytes)));
    b := Bundle(a, Packing.Weight(taken, budget.size), Packing.Noted(order, verdicts, budget));
    assert Reports(m, mq, taken, a) && Packed(m, mq, order, verdicts, b);
  }

  // ----- a query that tells two readings of a record apart -----

  /** The query for one record as it was read: only its value passes the filter, only its text is scored. */
  function Probe(d: Ranking.Doc): Ranking.Query {
    Ranking.Query((value: Bytes) => value == d.value,
                  (c: Ranking.Doc) => if c.text == d.text then Some(Ranking.Hit(1, [])) else None, 0)
  }

  /** No other record has this value. */
  ghost predicate OneOfAKind(docs: Ranking.Docs, id: string) {
    id in docs && forall o :: o in docs && docs[o].value == docs[id].value ==> o == id
  }

  /** What the probe finds in a reading: the record, if it is read with the probed text. */
  lemma ProbeFinds(m: Meaning, mq: MemoryQuery, d: Ranking.Doc, id: string)
    requires mq.query == Probe(d) && Complete(m) && OneOfAKind(m.docs, id) && m.docs[id].value == d.value
    ensures Ranking.Eligible(m.docs, mq.query) == {id}
    ensures |Retrieved(m, mq)| == if m.docs[id].text == d.text then 1 else 0
  {
    var entries := Retrieved(m, mq);
    assert entries.Keys == if m.docs[id].text == d.text then {id} else {};
    assert |entries| == |entries.Keys|;
  }

  /** The number of records that did not match shows whether the text is the probed one, whatever the budget. */
  lemma AnswerShowsText(m: Meaning, mq: MemoryQuery, d: Ranking.Doc, id: string)
    requires mq.query == Probe(d) && Complete(m) && OneOfAKind(m.docs, id) && m.docs[id].value == d.value
    ensures forall a :: Answers(m, mq, a) ==> a.excluded.noMatch == if m.docs[id].text == d.text then 0 else 1
    ensures forall b :: Bundles(m, mq, b) ==> b.answer.excluded.noMatch == if m.docs[id].text == d.text then 0 else 1
  {
    hide Ranking.Expanded, Ranking.IsRanking, Ranking.Eligible, Probe, Covers, Packing.Justified, Packing.Picked,
         Reports, BudgetFor;
    ProbeFinds(m, mq, d, id);
    forall order | Ranking.IsRanking(Retrieved(m, mq), order) ensures |order| == |Retrieved(m, mq)| {
      RankingSize(Retrieved(m, mq), order);
    }
  }

  // ----- both paths -----

  /** Every record comes back from the index with the text it was read with. */
  ghost predicate TextsKept(w: World, records: map<string, Loaded>) {
    forall id :: id in records ==> Stored(w, records[id].content) == records[id].content
  }

  lemma EqualMeaningsSameResults(m: Meaning, mq: MemoryQuery)
    ensures SameAnswers(m, m, mq) && SameBundles(m, m, mq)
  {
    hide Answers, Bundles;
    forall a, b | Answers(m, mq, a) && Answers(m, mq, b) ensures a == b { AnswerUnique(m, mq, a, b); }
    forall a, b | Bundles(m, mq, a) && Bundles(m, mq, b) ensures a == b { BundleUnique(m, mq, a, b); }
  }

  /** Different texts, different results for the probe. */
  lemma ProbeSeparates(m: Meaning, n: Meaning, mq: MemoryQuery, id: string)
    requires SameRecords(m, n) && OneOfAKind(m.docs, id) && n.docs[id].text != m.docs[id].text
    requires mq.query == Probe(m.docs[id])
    ensures !SameAnswers(n, m, mq) && !SameBundles(n, m, mq)
  {
    hide Answers, Bundles, Probe;
    assert n.docs[id].value == m.docs[id].value;
    assert OneOfAKind(n.docs, id) by {
      forall o | o in n.docs && n.docs[o].value == n.docs[id].value ensures o == id {
        assert m.docs[o].value == m.docs[id].value;
      }
    }
    AnswerShowsText(m, mq, m.docs[id], id);
    AnswerShowsText(n, mq, m.docs[id], id);
    var a := AnswerExists(n, mq);
    var b := AnswerExists(m, mq);
    var c := BundleExists(n, mq);
    var d := BundleExists(m, mq);
    assert a != b && c != d;
  }

  /** The value names the record, so no two records of a store share one. */
  lemma ValuesDiffer(w: World, files: Files, records: map<string, Loaded>, revisions: map<string, Revision>, id: string)
    requires Reparses(w) && Snapshot(w, files, records, revisions) && id in records
    ensures OneOfAKind(DocsOf(records), id)
  {
    hide Reparses, Snapshot;
    SnapshotIds(w, files, records, revisions, id);
    forall o | o in records && records[o].content.doc.value == records[id].content.doc.value ensures o == id {
      SnapshotIds(w, files, records, revisions, o);
      ValueNames(w, files[records[o].path].bytes, files[records[id].path].bytes);
    }
  }

  lemma ValueNames(w: World, a: Bytes, b: Bytes)
    requires Reparses(w) && w.parse(a).Some? && w.parse(b).Some?
    requires w.parse(a).value.doc.value == w.parse(b).value.doc.value
    ensures w.parse(a).value.id == w.parse(b).value.id
  {}

  lemma ScannedComplete(w: World, repo: Repo, date: Date, u: View)
    requires Scanned(w, repo, date, u)
    ensures Complete(MeaningOf(u))
  {
    hide Auditable, Sort, ConflictLe;
    SnapshotKeys(w, repo.files, u.records, u.revisions);
  }

  /** Exactly when the paths agree. Whatever the repository has become since an index was written, whatever the
      budget and whatever is asked of the records' values: a reader that is offered the index and a reader that is
      not get the same answer for every query, and the same bundle, if and only if the index is not accepted or every
      record keeps its text when it is saved again with sorted keys. */
  lemma SameOnBothPaths(w: World, r0: Repo, d0: Date, r1: Repo, d1: Date, mq: MemoryQuery, index: Index, v: View,
                        u: View)
    requires Reparses(w) && IsIndexOf(w, r0, d0, index)
    requires Viewed(w, r1, d1, Some(index), v) && Viewed(w, r1, d1, None, u)
    ensures (forall q: Ranking.Query :: SameAnswers(MeaningOf(v), MeaningOf(u), Asking(mq, q)))
            <==> (Accepts(w, r1, d1, index) ==> TextsKept(w, u.records))
    ensures (forall q: Ranking.Query :: SameBundles(MeaningOf(v), MeaningOf(u), Asking(mq, q)))
            <==> (Accepts(w, r1, d1, index) ==> TextsKept(w, u.records))
  {
    hide IsIndexOf, Accepts, Snapshot, Stands, Auditable, Reparses, SameAnswers, SameBundles, MeaningOf, TextsKept,
         Probe;
    if Accepts(w, r1, d1, index) && !TextsKept(w, u.records) {
      var q := TextLost(w, r0, d0, r1, d1, mq, index, v, u);
      assert !SameAnswers(MeaningOf(v), MeaningOf(u), Asking(mq, q));
      assert !SameBundles(MeaningOf(v), MeaningOf(u), Asking(mq, q));
    } else {
      TextKept(w, r0, d0, r1, d1, index, v, u);
      forall q: Ranking.Query
        ensures SameAnswers(MeaningOf(v), MeaningOf(u), Asking(mq, q))
        ensures SameBundles(MeaningOf(v), MeaningOf(u), Asking(mq, q))
      {
        EqualMeaningsSameResults(MeaningOf(v), Asking(mq, q));
      }
    }
  }

  function Asking(mq: MemoryQuery, q: Ranking.Query): MemoryQuery { mq.(query := q) }

  lemma TextKept(w: World, r0: Repo, d0: Date, r1: Repo, d1: Date, index: Index, v: View, u: View)
    requires Reparses(w) && IsIndexOf(w, r0, d0, index)
    requires Viewed(w, r1, d1, Some(index), v) && Viewed(w, r1, d1, None, u)
    requires Accepts(w, r1, d1, index) ==> TextsKept(w, u.records)
    ensures MeaningOf(v) == MeaningOf(u)
  {
    hide IsIndexOf, Accepts, Snapshot, Stands, Auditable, Reparses, Sort, ConflictLe, Stored;
    if Accepts(w, r1, d1, index) {
      IndexMeansScan(w, r0, d0, r1, d1, index, v, u);
      assert Resaved(w, u.records) == u.records;
    } else {
      SnapshotUnique(w, r1.files, v.records, v.revisions, u.records, u.revisions);
    }
  }

  /** A record that loses its text gives a query with different results. */
  lemma TextLost(w: World, r0: Repo, d0: Date, r1: Repo, d1: Date, mq: MemoryQuery, index: Index, v: View, u: View)
    returns (q: Ranking.Query)
    requires Reparses(w) && IsIndexOf(w, r0, d0, index) && Accepts(w, r1, d1, index)
    requires Viewed(w, r1, d1, Some(index), v) && Viewed(w, r1, d1, None, u)
    requires !TextsKept(w, u.records)
    ensures !SameAnswers(MeaningOf(v), MeaningOf(u), Asking(mq, q))
    ensures !SameBundles(MeaningOf(v), MeaningOf(u), Asking(mq, q))
  {
    hide IsIndexOf, Accepts, Snapshot, Stands, Auditable, Reparses, SameAnswers, SameBundles, Stored, Sort, ConflictLe,
         Probe, OneOfAKind;
    var id :| id in u.records && Stored(w, u.records[id].content) != u.records[id].content;
    IndexMeansScan(w, r0, d0, r1, d1, index, v, u);
    ScannedComplete(w, r1, d1, u);
    SnapshotIds(w, r1.files, u.records, u.revisions, id);
    StoredSame(w, r1.files[u.records[id].path].bytes);
    ValuesDiffer(w, r1.files, u.records, u.revisions, id);
    var m, n := MeaningOf(u), MeaningOf(v);
    q := Probe(m.docs[id]);
    ProbeSeparates(m, n, Asking(mq, q), id);
  }

  /** One query: the bundle and the answer are the same if every record is scored on its re-saved text as on its own;
      and an answer with room for all records is the same only then. */
  lemma SameQueryOnBothPaths(w: World, r0: Repo, d0: Date, r1: Repo, d1: Date, mq: MemoryQuery, index: Index, v: View,
                             u: View)
    requires Reparses(w) && IsIndexOf(w, r0, d0, index) && Accepts(w, r1, d1, index)
    requires Viewed(w, r1, d1, Some(index), v) && Viewed(w, r1, d1, None, u)
    ensures var same := Ranking.Direct(DocsOf(u.records), mq.query)
                        == Ranking.Direct(DocsOf(Resaved(w, u.records)), mq.query);
            && (same ==> SameAnswers(MeaningOf(v), MeaningOf(u), mq) && SameBundles(MeaningOf(v), MeaningOf(u), mq))
            && (mq.maxItems >= |u.records| && SameAnswers(MeaningOf(v), MeaningOf(u), mq) ==> same)
  {
    hide IsIndexOf, Accepts, Snapshot, Stands, Auditable, Reparses, Stored, Sort, ConflictLe, Answers, Bundles,
         Ranking.Direct, SameAnswers, SameBundles;
    IndexMeansScan(w, r0, d0, r1, d1, index, v, u);
    ScannedComplete(w, r1, d1, u);
    var m, n := MeaningOf(u), MeaningOf(v);
    if Ranking.Direct(m.docs, mq.query) == Ranking.Direct(n.docs, mq.query) {
      SameScoresSameResults(m, n, mq);
      EqualMeaningsSameResults(m, mq);
      CarryOver(m, n, mq);
    } else if mq.maxItems >= |u.records| && SameAnswers(n, m, mq) {
      assert |m.docs| == |m.docs.Keys| && |u.records| == |u.records.Keys| && m.docs.Keys == u.records.Keys;
      AnswersShowScores(m, n, mq);
    }
  }

  lemma CarryOver(m: Meaning, n: Meaning, mq: MemoryQuery)
    requires SameAnswers(m, m, mq) && SameBundles(m, m, mq)
    requires forall a :: Answers(m, mq, a) <==> Answers(n, mq, a)
    requires forall b :: Bundles(m, mq, b) <==> Bundles(n, mq, b)
    ensures SameAnswers(n, m, mq) && SameBundles(n, m, mq)
  {
    hide Answers, Bundles;
  }

  /** A store whose files all are canonical JSON, as everything a batch writes is, keeps its texts. */
  lemma CanonicalFilesKeepTexts(w: World, files: Files, records: map<string, Loaded>, revisions: map<string, Revision>)
    requires Snapshot(w, files, records, revisions)
    requires forall p :: p in files && w.parse(files[p].bytes).Some? ==>
               w.parse(files[p].bytes).value.doc.value == files[p].bytes
    ensures TextsKept(w, records)
  {
    hide Snapshot, Stored;
    forall id | id in records ensures Stored(w, records[id].content) == records[id].content {
      SnapshotIds(w, files, records, revisions, id);
      CanonicalFileIsStored(w, files[records[id].path]);
    }
  }

  // ----- a fact with an unsorted claim -----

  /** How the claim of a verified fact is printed as its file has it, and with sorted keys. Only the first holds
      the term release', 'object'. */
  const AS_READ :=
    "{'subject': 'synthetic-dataset-v1', 'predicate': 'checksum', 'scope': 'release', 'object': 'demo-0001'}"
  const SORTED :=
    "{'object': 'demo-0001', 'predicate': 'checksum', 'scope': 'release', 'subject': 'synthetic-dataset-v1'}"

  function Dataset(text: string): Content {
    Content("FCT-dataset-v1", Supersession.Fact, Ranking.Doc([2], text, [], [], None, false, []))
  }

  /** The file [1] has the keys as written, the file [2] is its canonical form. */
  function DatasetWorld(): World {
    World((b: Bytes) => if b == [1] then Some(Dataset(AS_READ)) else if b == [2] then Some(Dataset(SORTED)) else None,
          (value: Bytes, kind: Kind) => true, (p: Path, id: string) => true,
          (config: Bytes, files: Files, date: Date) => Report(false, [], []), (index: Index) => true,
          (index: Index) => 0)
  }

  function DatasetStore(): Repo {
    Repo([], map["facts/FCT-dataset-v1.json" := File(Supersession.Fact, [1])], true, true)
  }

  /** Verified counts 30 and a term in the body 4. */
  function ForTheTerm(): MemoryQuery {
    var direct := (d: Ranking.Doc) => if d.text == AS_READ then Some(Ranking.Hit(30 + 4, ["body"])) else None;
    MemoryQuery(Ranking.Query((value: Bytes) => true, direct, 0),
                10, 10000, (value: Bytes) => false, (value: Bytes) => false, (value: Bytes) => [], (x: Match) => 1,
                (a: Answer) => true, (b: Bundle) => true)
  }

  lemma DatasetReparses()
    ensures Reparses(DatasetWorld())
  {}

  lemma DatasetAuditable(date: Date)
    ensures Auditable(DatasetWorld(), DatasetStore(), date)
  {}

  /** What the query finds in a store with this one record, read with either text. */
  lemma DatasetAnswer(m: Meaning, text: string, a: Answer)
    requires m.docs == map["FCT-dataset-v1" := Dataset(text).doc] && Answers(m, ForTheTerm(), a)
    ensures text == AS_READ ==> |a.matches| == 1 && a.matches[0].entry.score == 34
    ensures text != AS_READ ==> a.matches == []
  {
    hide WarningsFor, Ranking.IsRanking;
    var mq := ForTheTerm();
    var order :| Ranking.IsRanking(Retrieved(m, mq), order) && Reports(m, mq, Head(order, mq.maxItems), a);
    RankingSize(Retrieved(m, mq), order);
    assert Retrieved(m, mq).Keys == if text == AS_READ then {"FCT-dataset-v1"} else {};
    SizesOfKeys(Retrieved(m, mq), m.docs);
    if text == AS_READ {
      assert order[0] in Elements(Head(order, mq.maxItems));
    }
  }

  /** The scan scores the fact 34; read from an index of the very same files it does not match. */
  method UnsortedClaimSplitsPaths(date: Date) returns (scanned: Option<Answer>, indexed: Option<Answer>)
    ensures scanned.Some? && |scanned.value.matches| == 1 && scanned.value.matches[0].entry.score == 34
    ensures indexed.Some? && indexed.value.matches == []
  {
    hide Answers, Accepts, IsIndexOf, Auditable, Reparses, DatasetWorld, DatasetStore, ForTheTerm;
    var w, repo, mq := DatasetWorld(), DatasetStore(), ForTheTerm();
    DatasetReparses();
    DatasetAuditable(date);
    DatasetFits();
    var index := BuildIndex(w, repo, date);
    AcceptedIffUnchanged(w, repo, date, repo, date, index.value);
    scanned := QueryMemory(w, repo, date, mq, None);
    indexed := QueryMemory(w, repo, date, mq, index);
    DatasetPaths(date, index.value, scanned.value, indexed.value);
  }

  lemma DatasetFits()
    ensures forall index :: DatasetWorld().contract(index) && DatasetWorld().indexBytes(index) == 0
    ensures forall a :: ForTheTerm().answerFits(a)
    ensures DatasetStore().storeClean && DatasetStore().layoutSound
  {}

  lemma DatasetPaths(date: Date, index: Index, scanned: Answer, indexed: Answer)
    requires IsIndexOf(DatasetWorld(), DatasetStore(), date, index)
    requires Accepts(DatasetWorld(), DatasetStore(), date, index)
    requires AnswerOf(DatasetWorld(), DatasetStore(), date, ForTheTerm(), None, scanned)
    requires AnswerOf(DatasetWorld(), DatasetStore(), date, ForTheTerm(), Some(index), indexed)
    ensures |scanned.matches| == 1 && scanned.matches[0].entry.score == 34 && indexed.matches == []
  {
    hide Answers, Accepts, IsIndexOf, Auditable, Reparses, Snapshot, Stands, DatasetWorld, DatasetStore, ForTheTerm,
         Sort, ConflictLe;
    var w, repo, mq := DatasetWorld(), DatasetStore(), ForTheTerm();
    var u :| Viewed(w, repo, date, None, u) && Answers(MeaningOf(u), mq, scanned);
    var v :| Viewed(w, repo, date, Some(index), v) && Answers(MeaningOf(v), mq, indexed);
    DatasetReparses();
    IndexMeansScan(w, repo, date, repo, date, index, v, u);
    DatasetDocs(u.records, u.revisions);
    DatasetAnswer(MeaningOf(u), AS_READ, scanned);
    TextsDiffer();
    DatasetAnswer(MeaningOf(v), SORTED, indexed);
  }

  lemma TextsDiffer()
    ensures AS_READ != SORTED
  {
    assert AS_READ[|AS_READ| - 4] == '0' && SORTED[|SORTED| - 4] == 'v';
  }

  lemma DatasetDocs(records: map<string, Loaded>, revisions: map<string, Revision>)
    requires Snapshot(DatasetWorld(), DatasetStore().files, records, revisions)
    ensures DocsOf(records) == map["FCT-dataset-v1" := Dataset(AS_READ).doc]
    ensures DocsOf(Resaved(DatasetWorld(), records)) == map["FCT-dataset-v1" := Dataset(SORTED).doc]
  {
    var p := "facts/FCT-dataset-v1.json";
    assert p in DatasetStore().files;
    assert ContentAt(DatasetWorld(), DatasetStore().files, p) == Dataset(AS_READ);
    forall id | id in records ensures id == "FCT-dataset-v1" { assert records[id].path == p; }
  }
}
