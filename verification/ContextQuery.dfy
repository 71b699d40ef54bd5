/** `query_memory` and `compile_context`, over the stored index when it is valid and over the scan
    otherwise, and exactly when the two paths give the same result. */
module ContextQueries {
  import opened Evidence
  import opened Orders
  import opened ContextIndexes
  import Conflicts
  import Packing
  import Ranking

  /** The query, its budget, what is asked of each record's value, and the contracts of the two results. */
  datatype MemoryQuery = MemoryQuery(
    query: Ranking.Query,
    maxItems: nat,
    maxBytes: nat,
    alarming: Bytes -> bool,
    blocked: Bytes -> bool,
    notes: Bytes -> seq<string>,
    size: Match -> nat,
    answerFits: Answer -> bool,
    bundleFits: Bundle -> bool)

  /** A result holds the record as a JSON value; key order is no part of it. */
  datatype Match = Match(id: string, revision: Revision, path: Path, entry: Ranking.Entry, value: Bytes)
  datatype Warning = GovernedStatus(id: string) | ReviewDue(review: Review)

  datatype Excluded = Excluded(filtered: int, noMatch: int, itemLimit: int, contentPolicy: int, contentBudget: int)

  datatype Answer = Answer(
    matches: seq<Match>, warnings: set<Warning>, conflicts: seq<Conflicts.Conflict>,
    snapshot: Digest<map<string, Revision>>, excluded: Excluded)

  datatype Bundle = Bundle(answer: Answer, contentBytes: nat, notes: seq<string>)

  // ----- what a result depends on -----

  /** What a result shows of a record besides its score. */
  datatype Shown = Shown(path: Path, value: Bytes)

  /** Everything a result shows: review items as a set, conflicts as sorted. */
  datatype Surface = Surface(
    shown: map<string, Shown>, revisions: map<string, Revision>, review: set<Review>,
    conflicts: seq<Conflicts.Conflict>)

  /** The part of a snapshot a result depends on: the documents that are ranked, and what is shown. */
  datatype Meaning = Meaning(docs: Ranking.Docs, surface: Surface)

  function MeaningOf(v: View): Meaning {
    Meaning(DocsOf(v.records), SurfaceOf(v))
  }

  function SurfaceOf(v: View): Surface {
    Surface(ShownOf(v.records), v.revisions, (set r | r in v.review), Sort(v.conflicts, ConflictLe))
  }

  function DocsOf(records: map<string, Loaded>): Ranking.Docs {
    map id | id in records :: records[id].content.doc
  }

  function ShownOf(records: map<string, Loaded>): map<string, Shown> {
    map id | id in records :: Shown(records[id].path, records[id].content.doc.value)
  }

  /** The view the scan gives. */
  ghost predicate Scanned(w: World, repo: Repo, date: Date, v: View) {
    && Auditable(w, repo, date)
    && Snapshot(w, repo.files, v.records, v.revisions)
    && v.review == w.audit(repo.config, repo.files, date).review
    && v.conflicts == w.audit(repo.config, repo.files, date).conflicts
  }

  /** The view an accepted index gives. */
  ghost predicate Indexed(index: Index, v: View) {
    && Stands(index.body.entries, v.records, v.revisions)
    && v.review == index.body.review && v.conflicts == index.body.conflicts
  }

  ghost predicate UsesIndex(w: World, repo: Repo, date: Date, index: Option<Index>) {
    index.Some? && Accepts(w, repo, date, index.value)
  }

  ghost predicate Viewed(w: World, repo: Repo, date: Date, index: Option<Index>, v: View) {
    if UsesIndex(w, repo, date, index) then Indexed(index.value, v) else Scanned(w, repo, date, v)
  }

  /** `_load_snapshot`: an index that does not hold falls back to the scan. */
  method LoadSnapshot(w: World, repo: Repo, date: Date, index: Option<Index>) returns (view: Option<View>)
    ensures view.Some? <==> UsesIndex(w, repo, date, index) || Auditable(w, repo, date)
    ensures view.Some? ==> Viewed(w, repo, date, index, view.value)
  {
    hide Accepts, Stands, Snapshot, Loadable;
    if index.Some? {
      view := VerifyIndex(w, repo, date, index.value);
      if view.Some? { return; }
    }
    var report := w.audit(repo.config, repo.files, date);
    if !repo.layoutSound || !repo.storeClean || report.fatal { return None; }
    var ok, records, revisions := LoadRecords(w, repo.files);
    if !ok { return None; }
    view := Some(View(records, revisions, report.review, report.conflicts));
  }

  /** An accepted index means what the scan of the same state means, except that every document has the text it
      would have if its file were saved again with sorted keys. */
  lemma IndexMeansScan(w: World, r0: Repo, d0: Date, r1: Repo, d1: Date, index: Index, indexed: View, scanned: View)
    requires Reparses(w) && IsIndexOf(w, r0, d0, index) && Accepts(w, r1, d1, index)
    requires Indexed(index, indexed) && Scanned(w, r1, d1, scanned)
    ensures indexed.records == Resaved(w, scanned.records)
    ensures MeaningOf(indexed) == MeaningOf(scanned).(docs := DocsOf(Resaved(w, scanned.records)))
    ensures Ranking.Alike(MeaningOf(scanned).docs, MeaningOf(indexed).docs)
  {
    hide IsIndexOf, Accepts, Snapshot, Stands, Auditable, Sort, ConflictLe, ReviewLe, Reparses, Resaving, Stored;
    var report := w.audit(r1.config, r1.files, d1);
    IndexAgreesWithScan(w, r0, d0, r1, d1, index, indexed.records, indexed.revisions);
    ResavedSnapshot(w, r1.files, scanned.records, scanned.revisions);
    SnapshotUnique(Resaving(w), r1.files, indexed.records, indexed.revisions,
                   Resaved(w, scanned.records), scanned.revisions);
    ConflictOrder();
    SortIsSorted(report.conflicts, ConflictLe);
    SortOfSorted(Sort(report.conflicts, ConflictLe), ConflictLe);
    SameReviews(report.review, Sort(report.review, ReviewLe));
    ResavedValues(w, r1.files, scanned.records, scanned.revisions);
  }

  /** Saving again changes no more than texts. */
  lemma ResavedValues(w: World, files: Files, records: map<string, Loaded>, revisions: map<string, Revision>)
    requires Reparses(w) && Snapshot(w, files, records, revisions)
    ensures ShownOf(Resaved(w, records)) == ShownOf(records)
    ensures Ranking.Alike(DocsOf(records), DocsOf(Resaved(w, records)))
  {
    hide Reparses, Snapshot, Stored;
    forall id | id in records ensures SameValue(records[id].content, Stored(w, records[id].content)) {
      SnapshotIds(w, files, records, revisions, id);
      StoredSame(w, files[records[id].path].bytes);
    }
  }

  lemma SameReviews(a: seq<Review>, b: seq<Review>)
    requires multiset(a) == multiset(b)
    ensures (set r | r in a) == (set r | r in b)
  {
    forall r ensures r in a <==> r in b {
      assert r in a <==> r in multiset(a);
      assert r in b <==> r in multiset(b);
    }
  }

  // ----- query_memory -----

  function MatchFor(s: Surface, entries: map<string, Ranking.Entry>, id: string): Match
    requires id in entries && id in s.shown && id in s.revisions
  {
    Match(id, s.revisions[id], s.shown[id].path, entries[id], s.shown[id].value)
  }

  ghost predicate Covers(s: Surface, entries: map<string, Ranking.Entry>) {
    s.shown.Keys == s.revisions.Keys && entries.Keys <= s.shown.Keys
  }

  function MatchesFor(s: Surface, entries: map<string, Ranking.Entry>, ids: seq<string>): seq<Match>
    requires Covers(s, entries) && Elements(ids) <= entries.Keys
  {
    seq(|ids|, i requires 0 <= i < |ids| =>
      assert ids[i] in Elements(ids);
      MatchFor(s, entries, ids[i]))
  }

  /** A governed status on a selected record, and every review item of a selected record. */
  function WarningsFor(s: Surface, ids: set<string>, alarming: Bytes -> bool): set<Warning> {
    (set id | id in ids && id in s.shown && alarming(s.shown[id].value) :: GovernedStatus(id))
    + (set r | r in s.review && r.id in ids :: ReviewDue(r))
  }

  /** The entries the query retrieves from the records. */
  ghost function Retrieved(m: Meaning, mq: MemoryQuery): map<string, Ranking.Entry> {
    Ranking.Expanded(m.docs, mq.query, mq.query.depth)
  }

  function Filtered(m: Meaning, mq: MemoryQuery): int {
    |m.docs| - |Ranking.Eligible(m.docs, mq.query)|
  }

  function NoMatch(m: Meaning, mq: MemoryQuery, ranked: nat): int {
    |Ranking.Eligible(m.docs, mq.query)| - ranked
  }

  /** The answer that takes `taken` from the ranking. */
  ghost predicate Reports(m: Meaning, mq: MemoryQuery, taken: seq<string>, a: Answer) {
    && Covers(m.surface, Retrieved(m, mq)) && Elements(taken) <= Retrieved(m, mq).Keys
    && a.matches == MatchesFor(m.surface, Retrieved(m, mq), taken)
    && a.warnings == WarningsFor(m.surface, Elements(taken), mq.alarming)
    && a.conflicts == m.surface.conflicts
    && a.snapshot == Sha256(m.surface.revisions)
  }

  /** What `query_memory` answers: the head of the ranking, up to the item budget. */
  ghost predicate Answers(m: Meaning, mq: MemoryQuery, a: Answer) {
    exists order ::
      && Ranking.IsRanking(Retrieved(m, mq), order)
      && var taken := Head(order, mq.maxItems);
         && Reports(m, mq, taken, a)
         && a.excluded == Excluded(Filtered(m, mq), NoMatch(m, mq, |order|), |order| - |taken|, 0, 0)
  }

  function Head(order: seq<string>, n: nat): seq<string> {
    if |order| <= n then order else order[..n]
  }

  lemma AnswerUnique(m: Meaning, mq: MemoryQuery, a: Answer, b: Answer)
    requires Answers(m, mq, a) && Answers(m, mq, b)
    ensures a == b
  {
    hide Ranking.IsRanking, Retrieved, Filtered, NoMatch, Covers, MatchesFor, WarningsFor;
    forall o, p | Ranking.IsRanking(Retrieved(m, mq), o) && Ranking.IsRanking(Retrieved(m, mq), p) ensures o == p {
      Ranking.RankingUnique(Retrieved(m, mq), o, p);
    }
  }

  /** `a` stands before `b` in the ranking: a higher score, or the same and the smaller id. */
  ghost predicate RankedBefore(a: Match, b: Match) {
    a.entry.score > b.entry.score || (a.entry.score == b.entry.score && a.id != b.id && StrLe(a.id, b.id))
  }

  /** A match shows its record's revision, path and value with the entry it was ranked by. */
  ghost predicate Shows(s: Surface, entries: map<string, Ranking.Entry>, x: Match) {
    && x.id in entries && x.entry == entries[x.id]
    && x.id in s.revisions && x.revision == s.revisions[x.id]
    && x.id in s.shown && x.path == s.shown[x.id].path && x.value == s.shown[x.id].value
  }

  /** An answer is the best that fits: as many matches as the budget and the retrieved records allow, in strict
      ranking order, each showing its own record, and every retrieved record left out ranks after all of them. */
  lemma AnswerIsBest(m: Meaning, mq: MemoryQuery, a: Answer)
    requires Answers(m, mq, a)
    ensures var found := Retrieved(m, mq);
            && |a.matches| == (if |found| < mq.maxItems then |found| else mq.maxItems)
            && (forall x :: x in a.matches ==> Shows(m.surface, found, x))
            && (forall i, j :: 0 <= i < j < |a.matches| ==> RankedBefore(a.matches[i], a.matches[j]))
            && (forall id, x :: id in found && x in a.matches && (forall y :: y in a.matches ==> y.id != id) ==>
                  || x.entry.score > found[id].score
                  || (x.entry.score == found[id].score && x.id != id && StrLe(x.id, id)))
            && a.excluded.itemLimit == |found| - |a.matches|
  {
    hide Retrieved, StrLe, Answers, Ranking.IsRanking;
    var found := Retrieved(m, mq);
    var order := AnswerOrder(m, mq, a);
    forall i, j | 0 <= i < j < |a.matches| ensures RankedBefore(a.matches[i], a.matches[j]) {
      RankedPair(found, order, i, j);
    }
    forall id, x | id in found && x in a.matches && (forall y :: y in a.matches ==> y.id != id)
      ensures || x.entry.score > found[id].score
              || (x.entry.score == found[id].score && x.id != id && StrLe(x.id, id))
    {
      assert id in Elements(order);
      var k :| 0 <= k < |order| && order[k] == id;
      var i :| 0 <= i < |a.matches| && a.matches[i] == x;
      forall n | 0 <= n < |a.matches| ensures order[n] != id { assert a.matches[n] in a.matches; }
      RankedPair(found, order, i, k);
    }
  }

  lemma RankedPair(entries: map<string, Ranking.Entry>, order: seq<string>, i: nat, j: nat)
    requires Ranking.IsRanking(entries, order) && i < j < |order|
    ensures order[i] in entries && order[j] in entries
    ensures || entries[order[i]].score > entries[order[j]].score
            || (&& entries[order[i]].score == entries[order[j]].score
                && order[i] != order[j] && StrLe(order[i], order[j]))
  {
    hide StrLe;
    assert order[i] in Elements(order) && order[j] in Elements(order);
  }

  /** The ranking whose head an answer is. */
  lemma AnswerOrder(m: Meaning, mq: MemoryQuery, a: Answer) returns (order: seq<string>)
    requires Answers(m, mq, a)
    ensures Ranking.IsRanking(Retrieved(m, mq), order) && Elements(order) == Retrieved(m, mq).Keys
    ensures |order| == |Retrieved(m, mq)|
    ensures |a.matches| == (if |order| < mq.maxItems then |order| else mq.maxItems)
    ensures a.excluded.itemLimit == |order| - |a.matches|
    ensures forall i :: 0 <= i < |a.matches| ==>
              a.matches[i].id == order[i] && Shows(m.surface, Retrieved(m, mq), a.matches[i])
  {
    hide Retrieved, WarningsFor, StrLe, Filtered, NoMatch;
    var found := Retrieved(m, mq);
    order :| Ranking.IsRanking(found, order) && Reports(m, mq, Head(order, mq.maxItems), a)
             && a.excluded == Excluded(Filtered(m, mq), NoMatch(m, mq, |order|),
                                       |order| - |Head(order, mq.maxItems)|, 0, 0);
    ElementsSize(order);
    assert |found| == |found.Keys|;
    forall i | 0 <= i < |a.matches|
      ensures a.matches[i].id == order[i] && Shows(m.surface, found, a.matches[i])
    {
      assert order[i] in Elements(order);
    }
  }

  /** Which warnings an answer carries: a governed status of a match, and every review item of a match. */
  lemma WarningsOfMatches(m: Meaning, mq: MemoryQuery, taken: seq<string>, a: Answer)
    requires Reports(m, mq, taken, a)
    ensures forall id :: GovernedStatus(id) in a.warnings <==>
              exists x :: x in a.matches && x.id == id && mq.alarming(x.value)
    ensures forall item :: ReviewDue(item) in a.warnings <==>
              item in m.surface.review && exists x :: x in a.matches && x.id == item.id
  {
    hide Retrieved;
    forall id ensures id in taken <==> exists x :: x in a.matches && x.id == id {
      if id in taken {
        var i :| 0 <= i < |taken| && taken[i] == id;
        assert a.matches[i] in a.matches && a.matches[i].id == id;
      }
      if x :| x in a.matches && x.id == id {
        var i :| 0 <= i < |a.matches| && a.matches[i] == x;
        assert taken[i] == id;
      }
    }
    forall x | x in a.matches ensures x.id in m.surface.shown && x.value == m.surface.shown[x.id].value {
      var i :| 0 <= i < |a.matches| && a.matches[i] == x;
    }
  }

  /** The two loops of `_warnings`. */
  method Warnings(s: Surface, review: seq<Review>, taken: seq<string>, alarming: Bytes -> bool)
    returns (warnings: set<Warning>)
    requires s.review == set r | r in review
    ensures warnings == WarningsFor(s, Elements(taken), alarming)
  {
    warnings := {};
    var i := 0;
    while i < |taken|
      invariant 0 <= i <= |taken|
      invariant warnings ==
        set id | id in taken[..i] && id in s.shown && alarming(s.shown[id].value) :: GovernedStatus(id)
    {
      var id := taken[i];
      assert taken[..i + 1] == taken[..i] + [id];
      if id in s.shown && alarming(s.shown[id].value) { warnings := warnings + {GovernedStatus(id)}; }
      i := i + 1;
    }
    assert taken[..i] == taken;
    ghost var governed := warnings;
    i := 0;
    while i < |review|
      invariant 0 <= i <= |review|
      invariant warnings == governed + set r | r in review[..i] && r.id in taken :: ReviewDue(r)
    {
      assert review[..i + 1] == review[..i] + [review[i]];
      if review[i].id in taken { warnings := warnings + {ReviewDue(review[i])}; }
      i := i + 1;
    }
    assert review[..i] == review;
  }

  lemma RetrievedCovers(m: Meaning, mq: MemoryQuery)
    requires m.docs.Keys == m.surface.shown.Keys == m.surface.revisions.Keys
    ensures Covers(m.surface, Retrieved(m, mq))
  {
    hide Ranking.Expanded;
    Ranking.UpToEligible(m.docs, mq.query, mq.query.depth);
  }

  lemma ViewedKeys(w: World, repo: Repo, date: Date, index: Option<Index>, v: View)
    requires Viewed(w, repo, date, index, v)
    ensures v.records.Keys == v.revisions.Keys
  {
    hide Accepts, Loadable, Auditable;
  }

  /** The ranked head of a view, as an answer. */
  method Select(v: View, mq: MemoryQuery) returns (answer: Answer)
    requires v.records.Keys == v.revisions.Keys
    ensures Answers(MeaningOf(v), mq, answer)
  {
    hide Ranking.Expanded, Ranking.IsRanking, Ranking.Eligible, WarningsFor, Sort, ConflictLe, Covers, MatchesFor;
    var m := MeaningOf(v);
    RetrievedCovers(m, mq);
    var order, entries, excluded := Ranking.RankRecords(m.docs, mq.query);
    var taken := Head(order, mq.maxItems);
    HeadWithin(entries, order, mq.maxItems);
    var warnings := Warnings(m.surface, v.review, taken, mq.alarming);
    answer := Answer(MatchesFor(m.surface, entries, taken), warnings, m.surface.conflicts, Sha256(m.surface.revisions),
                     Excluded(excluded.filtered, excluded.noMatch, |order| - |taken|, 0, 0));
    assert Reports(m, mq, taken, answer);
  }

  lemma HeadWithin(entries: map<string, Ranking.Entry>, order: seq<string>, n: nat)
    requires Ranking.IsRanking(entries, order)
    ensures Elements(Head(order, n)) <= entries.Keys
  {
    forall id | id in Head(order, n) ensures id in entries { assert id in order; assert id in Elements(order); }
  }

  /** `query_memory`. */
  method QueryMemory(w: World, repo: Repo, date: Date, mq: MemoryQuery, index: Option<Index>)
    returns (answer: Option<Answer>)
    ensures answer.Some? ==> AnswerOf(w, repo, date, mq, index, answer.value) && mq.answerFits(answer.value)
    ensures answer.None? <==>
              || !(UsesIndex(w, repo, date, index) || Auditable(w, repo, date))
              || exists a :: AnswerOf(w, repo, date, mq, index, a) && !mq.answerFits(a)
  {
    hide Accepts, Auditable, Viewed, Answers, MeaningOf;
    var view := LoadSnapshot(w, repo, date, index);
    if view.None? { return None; }
    ViewedKeys(w, repo, date, index, view.value);
    var a := Select(view.value, mq);
    assert AnswerOf(w, repo, date, mq, index, a);
    forall b | AnswerOf(w, repo, date, mq, index, b) ensures b == a {
      AnswerOfUnique(w, repo, date, mq, index, a, b);
    }
    answer := if mq.answerFits(a) then Some(a) else None;
  }

  /** The answer computed from the view that is loaded, before its contract is checked. */
  ghost predicate AnswerOf(w: World, repo: Repo, date: Date, mq: MemoryQuery, index: Option<Index>, a: Answer) {
    exists v :: Viewed(w, repo, date, index, v) && Answers(MeaningOf(v), mq, a)
  }

  lemma AnswerOfUnique(w: World, repo: Repo, date: Date, mq: MemoryQuery, index: Option<Index>, a: Answer, b: Answer)
    requires AnswerOf(w, repo, date, mq, index, a) && AnswerOf(w, repo, date, mq, index, b)
    ensures a == b
  {
    hide Viewed, Answers, MeaningOf;
    var v :| Viewed(w, repo, date, index, v) && Answers(MeaningOf(v), mq, a);
    var u :| Viewed(w, repo, date, index, u) && Answers(MeaningOf(u), mq, b);
    ViewUnique(w, repo, date, index, v, u);
    AnswerUnique(MeaningOf(v), mq, a, b);
  }

  lemma ViewUnique(w: World, repo: Repo, date: Date, index: Option<Index>, v: View, u: View)
    requires Viewed(w, repo, date, index, v) && Viewed(w, repo, date, index, u)
    ensures v == u
  {
    hide Accepts, Auditable, Snapshot, Stands;
    if UsesIndex(w, repo, date, index) {
      StandsUnique(index.value.body.entries, v.records, v.revisions, u.records, u.revisions);
    } else {
      SnapshotUnique(w, repo.files, v.records, v.revisions, u.records, u.revisions);
    }
  }

  // ----- compile_context -----

  function SizeIn(s: Surface, entries: map<string, Ranking.Entry>, size: Match -> nat, id: string): nat {
    if id in entries && id in s.shown && id in s.revisions then size(MatchFor(s, entries, id)) else 0
  }

  function SizeOf(s: Surface, entries: map<string, Ranking.Entry>, size: Match -> nat): string -> nat {
    id => SizeIn(s, entries, size, id)
  }

  /** What the packing asks about a ranked record. */
  function BudgetFor(s: Surface, entries: map<string, Ranking.Entry>, mq: MemoryQuery): Packing.Budget {
    Packing.Budget(mq.maxItems, mq.maxBytes,
      id => id in s.shown && mq.blocked(s.shown[id].value),
      id => if id in s.shown then mq.notes(s.shown[id].value) else [],
      SizeOf(s, entries, mq.size))
  }

  /** What `compile_context` returns: the greedy packing of the ranking. */
  ghost predicate Bundles(m: Meaning, mq: MemoryQuery, b: Bundle) {
    exists order, verdicts ::
      && Ranking.IsRanking(Retrieved(m, mq), order)
      && Packing.Justified(order, verdicts, BudgetFor(m.surface, Retrieved(m, mq), mq))
      && Packed(m, mq, order, verdicts, b)
  }

  ghost predicate Packed(m: Meaning, mq: MemoryQuery, order: seq<string>, verdicts: seq<Packing.Verdict>, b: Bundle) {
    |order| == |verdicts| &&
    var taken, budget := Packing.Picked(order, verdicts), BudgetFor(m.surface, Retrieved(m, mq), mq);
    && Reports(m, mq, taken, b.answer)
    && b.answer.excluded == Excluded(Filtered(m, mq), NoMatch(m, mq, |order|),
                                     Packing.Count(verdicts, Packing.OverItems),
                                     Packing.Count(verdicts, Packing.Blocked),
                                     Packing.Count(verdicts, Packing.OverBytes))
    && b.contentBytes == Packing.Weight(taken, budget.size)
    && b.notes == Packing.Noted(order, verdicts, budget)
  }

  lemma BundleUnique(m: Meaning, mq: MemoryQuery, a: Bundle, b: Bundle)
    requires Bundles(m, mq, a) && Bundles(m, mq, b)
    ensures a == b
  {
    hide Ranking.IsRanking, Retrieved, Filtered, NoMatch, Covers, MatchesFor, WarningsFor, BudgetFor, Packing.Justified,
         Packing.Picked, Packing.Count, Packing.Weight, Packing.Noted;
    var budget := BudgetFor(m.surface, Retrieved(m, mq), mq);
    var o, v :| Ranking.IsRanking(Retrieved(m, mq), o) && Packing.Justified(o, v, budget) && Packed(m, mq, o, v, a);
    var p, u :| Ranking.IsRanking(Retrieved(m, mq), p) && Packing.Justified(p, u, budget) && Packed(m, mq, p, u, b);
    Ranking.RankingUnique(Retrieved(m, mq), o, p);
    Packing.VerdictsUnique(o, v, u, budget);
  }

  /** The sum of the items' own sizes. */
  function TotalSize(matches: seq<Match>, size: Match -> nat): nat {
    if matches == [] then 0 else TotalSize(matches[..|matches| - 1], size) + size(matches[|matches| - 1])
  }

  lemma {:induction false} WeightIsTotalSize(s: Surface, entries: map<string, Ranking.Entry>, ids: seq<string>,
                                             size: Match -> nat)
    requires Covers(s, entries) && Elements(ids) <= entries.Keys
    ensures TotalSize(MatchesFor(s, entries, ids), size) == Packing.Weight(ids, SizeOf(s, entries, size))
    decreases |ids|
  {
    if ids != [] {
      var n := |ids| - 1;
      forall id | id in ids[..n] ensures id in Elements(ids) {}
      assert ids[n] in Elements(ids);
      WeightIsTotalSize(s, entries, ids[..n], size);
      assert MatchesFor(s, entries, ids)[..n] == MatchesFor(s, entries, ids[..n]);
    }
  }

  /** For every store and query: the items are within both budgets, `content_bytes` is the sum of their
      sizes, and the items and the five exclusion counts add up to the records. */
  lemma BundleConserves(m: Meaning, mq: MemoryQuery, b: Bundle)
    requires Bundles(m, mq, b)
    ensures var e := b.answer.excluded;
            |b.answer.matches| + e.filtered + e.noMatch + e.itemLimit + e.contentPolicy + e.contentBudget == |m.docs|
    ensures |b.answer.matches| <= mq.maxItems
    ensures b.contentBytes == TotalSize(b.answer.matches, mq.size) <= mq.maxBytes
  {
    hide Ranking.IsRanking, Ranking.Expanded, Covers, WarningsFor, Packing.Justified, Packing.Picked, Packing.Count,
         Packing.Weight, Packing.Noted, TotalSize;
    var entries := Retrieved(m, mq);
    var budget := BudgetFor(m.surface, entries, mq);
    var o, v :| Ranking.IsRanking(entries, o) && Packing.Justified(o, v, budget) && Packed(m, mq, o, v, b);
    Packing.WithinBudget(o, v, budget);
    Packing.CountsAddUp(o, v);
    WeightIsTotalSize(m.surface, entries, Packing.Picked(o, v), mq.size);
  }

  /** The packed ranking of a view, as a bundle. */
  method Assemble(v: View, mq: MemoryQuery) returns (bundle: Bundle)
    requires v.records.Keys == v.revisions.Keys
    ensures Bundles(MeaningOf(v), mq, bundle)
  {
    hide Ranking.Expanded, Ranking.IsRanking, Ranking.Eligible, WarningsFor, Sort, ConflictLe, Covers, MatchesFor,
         BudgetFor, Packing.Justified, Packing.Picked, Packing.Count, Packing.Weight, Packing.Noted;
    var m := MeaningOf(v);
    RetrievedCovers(m, mq);
    var order, entries, excluded := Ranking.RankRecords(m.docs, mq.query);
    var budget := BudgetFor(m.surface, entries, mq);
    var items, bytes, skipped, notes, verdicts := Packing.Pack(order, budget);
    PickedWithin(entries, order, verdicts);
    var warnings := Warnings(m.surface, v.review, items, mq.alarming);
    var answer := Answer(MatchesFor(m.surface, entries, items), warnings, m.surface.conflicts,
                         Sha256(m.surface.revisions),
                         Excluded(excluded.filtered, excluded.noMatch, skipped.itemLimit, skipped.contentPolicy,
                                  skipped.contentBudget));
    bundle := Bundle(answer, bytes, notes);
    assert Reports(m, mq, items, answer);
    assert Packed(m, mq, order, verdicts, bundle);
  }

  lemma PickedWithin(entries: map<string, Ranking.Entry>, order: seq<string>, verdicts: seq<Packing.Verdict>)
    requires Ranking.IsRanking(entries, order) && |order| == |verdicts|
    ensures Elements(Packing.Picked(order, verdicts)) <= entries.Keys
  {
    PickedFrom(order, verdicts);
  }

  lemma {:induction false} PickedFrom(order: seq<string>, verdicts: seq<Packing.Verdict>)
    requires |order| == |verdicts|
    ensures Elements(Packing.Picked(order, verdicts)) <= Elements(order)
    decreases |order|
  {
    if order != [] {
      var n := |order| - 1;
      PickedFrom(order[..n], verdicts[..n]);
      forall id | id in Packing.Picked(order, verdicts) ensures id in order {
        if id != order[n] {
          assert id in Elements(Packing.Picked(order[..n], verdicts[..n]));
          assert id in Elements(order[..n]);
        }
      }
    }
  }

  /** `compile_context`. */
  method CompileContext(w: World, repo: Repo, date: Date, mq: MemoryQuery, index: Option<Index>)
    returns (bundle: Option<Bundle>)
    ensures bundle.Some? ==> BundleOf(w, repo, date, mq, index, bundle.value) && mq.bundleFits(bundle.value)
    ensures bundle.None? <==>
              || !(UsesIndex(w, repo, date, index) || Auditable(w, repo, date))
              || exists b :: BundleOf(w, repo, date, mq, index, b) && !mq.bundleFits(b)
  {
    hide Accepts, Auditable, Viewed, Bundles, MeaningOf;
    var view := LoadSnapshot(w, repo, date, index);
    if view.None? { return None; }
    ViewedKeys(w, repo, date, index, view.value);
    var b := Assemble(view.value, mq);
    assert BundleOf(w, repo, date, mq, index, b);
    forall c | BundleOf(w, repo, date, mq, index, c) ensures c == b {
      BundleOfUnique(w, repo, date, mq, index, b, c);
    }
    bundle := if mq.bundleFits(b) then Some(b) else None;
  }

  /** The bundle compiled from the view that is loaded, before its contract is checked. */
  ghost predicate BundleOf(w: World, repo: Repo, date: Date, mq: MemoryQuery, index: Option<Index>, b: Bundle) {
    exists v :: Viewed(w, repo, date, index, v) && Bundles(MeaningOf(v), mq, b)
  }

  lemma BundleOfUnique(w: World, repo: Repo, date: Date, mq: MemoryQuery, index: Option<Index>, a: Bundle, b: Bundle)
    requires BundleOf(w, repo, date, mq, index, a) && BundleOf(w, repo, date, mq, index, b)
    ensures a == b
  {
    hide Viewed, Bundles, MeaningOf;
    var v :| Viewed(w, repo, date, index, v) && Bundles(MeaningOf(v), mq, a);
    var u :| Viewed(w, repo, date, index, u) && Bundles(MeaningOf(u), mq, b);
    ViewUnique(w, repo, date, index, v, u);
    BundleUnique(MeaningOf(v), mq, a, b);
  }

  // ----- both paths -----

  /** An index that is used is used only where the scan would also have succeeded. */
  lemma IndexNeverWidens(w: World, r0: Repo, d0: Date, r1: Repo, d1: Date, index: Index)
    requires Reparses(w) && IsIndexOf(w, r0, d0, index) && UsesIndex(w, r1, d1, Some(index))
    ensures Auditable(w, r1, d1)
  {
    hide IsIndexOf, Snapshot, Stands, Auditable, Reparses, Resaving;
    var records, revisions :| Stands(index.body.entries, records, revisions)
      && index.body.snapshot == Sha256(revisions);
    IndexAgreesWithScan(w, r0, d0, r1, d1, index, records, revisions);
  }
}
