/** The rebuildable context index: what the audit-and-load scan sees, what the index stores of it, and
    when a stored index may stand in for the scan. */
module ContextIndexes {
  import opened Evidence
  import opened Orders
  import Conflicts
  import Ranking
  import Supersession

  type Kind = Supersession.Kind
  type Path = string
  type Date = string
  type Revision = Digest<Bytes>

  /** A parsed record: its id, its kind, and what retrieval reads of it. */
  datatype Content = Content(id: string, kind: Kind, doc: Ranking.Doc)

  /** A file the layout scan lists as a record of a kind. */
  datatype File = File(kind: Kind, bytes: Bytes)
  type Files = map<Path, File>

  /** One state of the repository. `layoutSound` and `storeClean` say that the layout scan and the
      transaction store report nothing. */
  datatype Repo = Repo(config: Bytes, files: Files, layoutSound: bool, storeClean: bool)

  datatype Review = Review(due: Date, id: string, reason: string)
  datatype Report = Report(fatal: bool, review: seq<Review>, conflicts: seq<Conflicts.Conflict>)

  /** Parsing, schema validity of a JSON value, the file name rule, and the cross-record audit as of a date; the
      contract of an index file and its length. The audit reads only the configuration and the record files. */
  datatype World = World(
    parse: Bytes -> Option<Content>,
    valid: (Bytes, Kind) -> bool,
    named: (Path, string) -> bool,
    audit: (Bytes, Files, Date) -> Report,
    contract: Index -> bool,
    indexBytes: Index -> nat)

  const MAX_INDEX_BYTES := 128 * 1024 * 1024

  datatype Loaded = Loaded(id: string, kind: Kind, path: Path, content: Content)

  // ----- a record read back from canonical JSON -----

  /** Writing a record with sorted keys and reading it again keeps everything but the text that is printed in key
      order. */
  ghost predicate Reparses(w: World) {
    forall b :: w.parse(b).Some? ==>
      var c := w.parse(b).value;
      w.parse(c.doc.value).Some? && SameValue(c, w.parse(c.doc.value).value)
  }

  predicate SameValue(c: Content, d: Content) {
    d == c.(doc := c.doc.(text := d.doc.text))
  }

  /** The record as the index gives it back. */
  function Stored(w: World, c: Content): Content {
    if w.parse(c.doc.value).Some? then w.parse(c.doc.value).value else c
  }

  function Resaved(w: World, records: map<string, Loaded>): map<string, Loaded> {
    map id | id in records :: records[id].(content := Stored(w, records[id].content))
  }

  /** The world in which every file has been saved again with sorted keys. */
  function Resaving(w: World): World {
    w.(parse := (b: Bytes) => if w.parse(b).Some? then Some(Stored(w, w.parse(b).value)) else None)
  }

  /** A file that already is canonical JSON, as every file written by a batch is, comes back as it is. */
  lemma CanonicalFileIsStored(w: World, f: File)
    requires w.parse(f.bytes).Some? && w.parse(f.bytes).value.doc.value == f.bytes
    ensures Stored(w, w.parse(f.bytes).value) == w.parse(f.bytes).value
  {}

  // ----- the scan -----

  predicate Readable(w: World, p: Path, f: File) {
    w.parse(f.bytes).Some? &&
    var c := w.parse(f.bytes).value;
    c.kind == f.kind && w.valid(c.doc.value, f.kind) && w.named(p, c.id)
  }

  function ContentAt(w: World, files: Files, p: Path): Content
    requires p in files && Readable(w, p, files[p])
  {
    w.parse(files[p].bytes).value
  }

  function IdIn(w: World, f: File): string {
    if w.parse(f.bytes).Some? then w.parse(f.bytes).value.id else ""
  }

  /** Every record file can be parsed to a record of the kind its directory is for, valid for that kind, under the
      file name its id gives, and no two carry the same id. */
  ghost predicate Loadable(w: World, files: Files) {
    && (forall p :: p in files ==>
          match w.parse(files[p].bytes)
          case None => false
          case Some(c) => c.kind == files[p].kind && w.valid(c.doc.value, files[p].kind) && w.named(p, c.id))
    && (forall p, o :: p in files && o in files && p != o ==> IdIn(w, files[p]) != IdIn(w, files[o]))
  }

  /** What loading the files gives. */
  ghost predicate Snapshot(w: World, files: Files, records: map<string, Loaded>, revisions: map<string, Revision>) {
    && records.Keys == revisions.Keys
    && (forall p :: p in files ==>
          && Readable(w, p, files[p])
          && var c := ContentAt(w, files, p);
             && c.id in records && records[c.id] == Loaded(c.id, files[p].kind, p, c)
             && revisions[c.id] == Sha256(files[p].bytes))
    && (forall id :: id in records ==>
          && records[id].path in files && Readable(w, records[id].path, files[records[id].path])
          && ContentAt(w, files, records[id].path).id == id)
  }

  lemma SnapshotIds(w: World, files: Files, records: map<string, Loaded>, revisions: map<string, Revision>, id: string)
    requires Snapshot(w, files, records, revisions) && id in records
    ensures var p := records[id].path;
            && p in files && Readable(w, p, files[p])
            && records[id] == Loaded(id, files[p].kind, p, ContentAt(w, files, p))
            && revisions[id] == Sha256(files[p].bytes)
            && ContentAt(w, files, p).id == id
  {}

  /** `load_records`, with the revisions taken beside it. */
  method LoadRecords(w: World, files: Files)
    returns (ok: bool, records: map<string, Loaded>, revisions: map<string, Revision>)
    ensures ok <==> Loadable(w, files)
    ensures ok ==> Snapshot(w, files, records, revisions)
  {
    hide StrictlyIncreasing, Snapshot, Loadable, Restrict, Readable, NoDuplicates;
    records, revisions := map[], map[];
    NothingLoaded(w, files);
    var paths := SortedSet(files.Keys);
    var i := 0;
    while i < |paths|
      invariant 0 <= i <= |paths|
      invariant Snapshot(w, Restrict(files, Elements(paths[..i])), records, revisions)
    {
      var p := paths[i];
      assert p in Elements(paths);
      NextIsNew(paths, i);
      ghost var before := Elements(paths[..i]);
      if !Readable(w, p, files[p]) {
        UnreadableBlocks(w, files, p);
        return false, records, revisions;
      }
      var c := ContentAt(w, files, p);
      if c.id in records {
        DuplicateBlocks(w, files, before, p, records, revisions);
        return false, records, revisions;
      }
      SnapshotGrows(w, files, before, p, records, revisions);
      records := records[c.id := Loaded(c.id, files[p].kind, p, c)];
      revisions := revisions[c.id := Sha256(files[p].bytes)];
      i := i + 1;
    }
    assert paths[..i] == paths;
    RestrictAll(files);
    ok := true;
    SnapshotIsLoadable(w, files, records, revisions);
  }

  ghost function Restrict(files: Files, paths: set<Path>): Files {
    map p | p in files && p in paths :: files[p]
  }

  lemma RestrictAll(files: Files)
    ensures Restrict(files, files.Keys) == files
  {}

  lemma NothingLoaded(w: World, files: Files)
    ensures Snapshot(w, Restrict(files, Elements<string>([])), map[], map[])
  {}

  lemma UnreadableBlocks(w: World, files: Files, p: Path)
    requires p in files && !Readable(w, p, files[p])
    ensures !Loadable(w, files)
  {}

  lemma DuplicateBlocks(w: World, files: Files, before: set<Path>, p: Path, records: map<string, Loaded>,
                        revisions: map<string, Revision>)
    requires p in files && p !in before && Readable(w, p, files[p])
    requires Snapshot(w, Restrict(files, before), records, revisions) && ContentAt(w, files, p).id in records
    ensures !Loadable(w, files)
  {
    var o := records[ContentAt(w, files, p).id].path;
    assert o in before && o in files && o != p;
  }

  /** What a snapshot says of one of its files. */
  ghost predicate FileLoaded(w: World, files: Files, records: map<string, Loaded>, revisions: map<string, Revision>,
                             p: Path)
    requires p in files
  {
    && Readable(w, p, files[p])
    && var c := ContentAt(w, files, p);
       && c.id in records && records[c.id] == Loaded(c.id, files[p].kind, p, c)
       && c.id in revisions && revisions[c.id] == Sha256(files[p].bytes)
  }

  lemma SnapshotGrows(w: World, files: Files, before: set<Path>, p: Path, records: map<string, Loaded>,
                      revisions: map<string, Revision>)
    requires p in files && p !in before && Readable(w, p, files[p])
    requires Snapshot(w, Restrict(files, before), records, revisions)
    requires ContentAt(w, files, p).id !in records
    ensures var c := ContentAt(w, files, p);
            Snapshot(w, Restrict(files, before + {p}), records[c.id := Loaded(c.id, files[p].kind, p, c)],
                     revisions[c.id := Sha256(files[p].bytes)])
  {
    hide Snapshot, Readable;
    var small, big := Restrict(files, before), Restrict(files, before + {p});
    var c := ContentAt(w, files, p);
    var more, later := records[c.id := Loaded(c.id, files[p].kind, p, c)], revisions[c.id := Sha256(files[p].bytes)];
    SnapshotKeys(w, small, records, revisions);
    forall o | o in big && o != p
      ensures FileLoaded(w, big, more, later, o)
    {
      SnapshotPath(w, small, records, revisions, o);
    }
    assert FileLoaded(w, big, more, later, p);
    forall id | id in records
      ensures records[id].path in big && Readable(w, records[id].path, big[records[id].path])
      ensures ContentAt(w, big, records[id].path).id == id
    {
      SnapshotIds(w, small, records, revisions, id);
    }
    SnapshotFrom(w, big, more, later);
  }

  lemma SnapshotFrom(w: World, files: Files, records: map<string, Loaded>, revisions: map<string, Revision>)
    requires records.Keys == revisions.Keys
    requires forall p :: p in files ==> FileLoaded(w, files, records, revisions, p)
    requires forall id :: id in records ==>
               && records[id].path in files && Readable(w, records[id].path, files[records[id].path])
               && ContentAt(w, files, records[id].path).id == id
    ensures Snapshot(w, files, records, revisions)
  {
    hide Readable;
  }

  lemma SnapshotIsLoadable(w: World, files: Files, records: map<string, Loaded>, revisions: map<string, Revision>)
    requires Snapshot(w, files, records, revisions)
    ensures Loadable(w, files)
  {
    forall p, o | p in files && o in files && p != o ensures IdIn(w, files[p]) != IdIn(w, files[o]) {
      assert records[ContentAt(w, files, p).id].path == p;
      assert records[ContentAt(w, files, o).id].path == o;
    }
  }

  lemma SnapshotUnique(w: World, files: Files, records: map<string, Loaded>, revisions: map<string, Revision>,
                       records': map<string, Loaded>, revisions': map<string, Revision>)
    requires Snapshot(w, files, records, revisions) && Snapshot(w, files, records', revisions')
    ensures records == records' && revisions == revisions'
  {
    hide Snapshot, Readable;
    SnapshotWithin(w, files, records, revisions, records', revisions');
    SnapshotWithin(w, files, records', revisions', records, revisions);
  }

  lemma SnapshotWithin(w: World, files: Files, records: map<string, Loaded>, revisions: map<string, Revision>,
                       records': map<string, Loaded>, revisions': map<string, Revision>)
    requires Snapshot(w, files, records, revisions) && Snapshot(w, files, records', revisions')
    ensures records.Keys == revisions.Keys
    ensures forall id :: id in records ==>
              id in records' && id in revisions' && records'[id] == records[id] && revisions'[id] == revisions[id]
  {
    hide Readable;
    forall id | id in records
      ensures id in records' && id in revisions' && records'[id] == records[id] && revisions'[id] == revisions[id]
    {
      SnapshotIds(w, files, records, revisions, id);
    }
  }

  /** The audit lets the repository be read: only conflicts may be reported. */
  ghost predicate Auditable(w: World, repo: Repo, date: Date) {
    repo.layoutSound && repo.storeClean && !w.audit(repo.config, repo.files, date).fatal && Loadable(w, repo.files)
  }

  // ----- the index -----

  datatype IndexEntry = IndexEntry(id: string, kind: Kind, path: Path, revision: Revision, content: Content)

  datatype Body = Body(
    config: Digest<Bytes>,
    snapshot: Digest<map<string, Revision>>,
    date: Date,
    entries: seq<IndexEntry>,
    review: seq<Review>,
    conflicts: seq<Conflicts.Conflict>)

  /** The digest is taken over canonical JSON, so it does not see key order. */
  datatype BodyDigest = BodySha256(of: Body)

  function Digested(body: Body): BodyDigest {
    BodySha256(body.(entries := seq(|body.entries|, i requires 0 <= i < |body.entries| => Unprinted(body.entries[i]))))
  }

  function Unprinted(e: IndexEntry): IndexEntry {
    e.(content := e.content.(doc := e.content.doc.(text := "")))
  }
  datatype Index = Index(body: Body, digest: BodyDigest)

  predicate ReviewLe(a: Review, b: Review) {
    TripleLe((a.due, a.id, a.reason), (b.due, b.id, b.reason))
  }

  predicate ConflictLe(a: Conflicts.Conflict, b: Conflicts.Conflict) {
    TripleLe((a.left, a.right, ""), (b.left, b.right, ""))
  }

  function EntryFor(records: map<string, Loaded>, revisions: map<string, Revision>, id: string): IndexEntry
    requires id in records && id in revisions
  {
    IndexEntry(id, records[id].kind, records[id].path, revisions[id], records[id].content)
  }

  lemma SortedWithin(s: set<string>)
    ensures forall i :: 0 <= i < |SortedSet(s)| ==> SortedSet(s)[i] in s
  {
    forall i | 0 <= i < |SortedSet(s)| ensures SortedSet(s)[i] in s {
      assert SortedSet(s)[i] in Elements(SortedSet(s));
    }
  }

  function EntriesOf(records: map<string, Loaded>, revisions: map<string, Revision>): (es: seq<IndexEntry>)
    requires records.Keys == revisions.Keys
    ensures var ids := SortedSet(records.Keys);
            |es| == |ids| && forall i :: 0 <= i < |ids| ==>
                ids[i] in records && es[i] == EntryFor(records, revisions, ids[i])
  {
    var ids := SortedSet(records.Keys);
    SortedWithin(records.Keys);
    seq(|ids|, i requires 0 <= i < |ids| => EntryFor(records, revisions, ids[i]))
  }

  /** The index an auditable repository state gives, as it is read back from its file, if it meets the contract of
      index files. The file holds every record with sorted keys. */
  ghost predicate IsIndexOf(w: World, repo: Repo, date: Date, index: Index) {
    Describes(w, repo, date, index) && w.contract(index)
  }

  ghost predicate Describes(w: World, repo: Repo, date: Date, index: Index) {
    var report := w.audit(repo.config, repo.files, date);
    && Auditable(w, repo, date)
    && index.digest == Digested(index.body)
    && index.body.config == Sha256(repo.config)
    && index.body.date == date
    && index.body.review == Sort(report.review, ReviewLe)
    && index.body.conflicts == Sort(report.conflicts, ConflictLe)
    && exists records: map<string, Loaded>, revisions: map<string, Revision> ::
         && records.Keys == revisions.Keys
         && Snapshot(w, repo.files, records, revisions)
         && index.body.snapshot == Sha256(revisions)
         && index.body.entries == EntriesOf(Resaved(w, records), revisions)
  }

  /** In the index file the review items stand by due date, id and reason, and the conflicts by left and right
      record. */
  lemma IndexOrders(w: World, repo: Repo, date: Date, index: Index)
    requires IsIndexOf(w, repo, date, index)
    ensures var review := index.body.review;
            && multiset(review) == multiset(w.audit(repo.config, repo.files, date).review)
            && forall i, j :: 0 <= i < j < |review| ==>
                 && StrLe(review[i].due, review[j].due)
                 && (review[i].due == review[j].due ==>
                       && StrLe(review[i].id, review[j].id)
                       && (review[i].id == review[j].id ==> StrLe(review[i].reason, review[j].reason)))
    ensures var conflicts := index.body.conflicts;
            && multiset(conflicts) == multiset(w.audit(repo.config, repo.files, date).conflicts)
            && forall i, j :: 0 <= i < j < |conflicts| ==>
                 && StrLe(conflicts[i].left, conflicts[j].left)
                 && (conflicts[i].left == conflicts[j].left ==> StrLe(conflicts[i].right, conflicts[j].right))
  {
    hide StrLe, TripleLe, Snapshot, Auditable, EntriesOf;
    var review, conflicts := index.body.review, index.body.conflicts;
    ReviewOrder();
    SortIsSorted(w.audit(repo.config, repo.files, date).review, ReviewLe);
    forall i, j | 0 <= i < j < |review|
      ensures && StrLe(review[i].due, review[j].due)
              && (review[i].due == review[j].due ==>
                    && StrLe(review[i].id, review[j].id)
                    && (review[i].id == review[j].id ==> StrLe(review[i].reason, review[j].reason)))
    {
      assert ReviewLe(review[i], review[j]);
      TripleMeaning((review[i].due, review[i].id, review[i].reason), (review[j].due, review[j].id, review[j].reason));
    }
    ConflictOrder();
    SortIsSorted(w.audit(repo.config, repo.files, date).conflicts, ConflictLe);
    forall i, j | 0 <= i < j < |conflicts|
      ensures && StrLe(conflicts[i].left, conflicts[j].left)
              && (conflicts[i].left == conflicts[j].left ==> StrLe(conflicts[i].right, conflicts[j].right))
    {
      assert ConflictLe(conflicts[i], conflicts[j]);
      TripleMeaning((conflicts[i].left, conflicts[i].right, ""), (conflicts[j].left, conflicts[j].right, ""));
    }
  }

  lemma ReviewOrder()
    ensures TotalPreorder(ReviewLe)
  {
    hide TripleLe;
    TripleOrder();
    forall a: Review, b: Review ensures ReviewLe(a, b) || ReviewLe(b, a) {
      assert TripleLe((a.due, a.id, a.reason), (b.due, b.id, b.reason))
             || TripleLe((b.due, b.id, b.reason), (a.due, a.id, a.reason));
    }
  }

  lemma ConflictOrder()
    ensures TotalPreorder(ConflictLe)
  {
    hide TripleLe;
    TripleOrder();
    forall a: Conflicts.Conflict, b: Conflicts.Conflict ensures ConflictLe(a, b) || ConflictLe(b, a) {
      assert TripleLe((a.left, a.right, ""), (b.left, b.right, ""))
             || TripleLe((b.left, b.right, ""), (a.left, a.right, ""));
    }
  }

  /** `build_context_index`. */
  method BuildIndex(w: World, repo: Repo, date: Date) returns (index: Option<Index>)
    ensures index.Some? ==> IsIndexOf(w, repo, date, index.value)
    ensures index.None? ==> forall i :: !IsIndexOf(w, repo, date, i)
    ensures index.None? && Auditable(w, repo, date) ==> exists i :: Describes(w, repo, date, i) && !w.contract(i)
  {
    hide Snapshot, Loadable, Sort;
    var report := w.audit(repo.config, repo.files, date);
    if !repo.layoutSound || !repo.storeClean || report.fatal { return None; }
    var ok, records, revisions := LoadRecords(w, repo.files);
    if !ok { return None; }
    SnapshotKeys(w, repo.files, records, revisions);
    var body := Body(Sha256(repo.config), Sha256(revisions), date, EntriesOf(Resaved(w, records), revisions),
                     Sort(report.review, ReviewLe), Sort(report.conflicts, ConflictLe));
    var built := Index(body, Digested(body));
    assert Describes(w, repo, date, built);
    if w.contract(built) { return Some(built); }
    forall i ensures !IsIndexOf(w, repo, date, i) {
      if IsIndexOf(w, repo, date, i) { DescriptionUnique(w, repo, date, i, built); }
    }
    index := None;
  }

  lemma DescriptionUnique(w: World, repo: Repo, date: Date, i: Index, j: Index)
    requires Describes(w, repo, date, i) && Describes(w, repo, date, j)
    ensures i == j
  {
    hide Snapshot, Auditable, Sort, EntriesOf, Digested, Stored, ReviewLe, ConflictLe, SortedSet;
    var records: map<string, Loaded>, revisions: map<string, Revision> :|
      && records.Keys == revisions.Keys && Snapshot(w, repo.files, records, revisions)
      && i.body.snapshot == Sha256(revisions) && i.body.entries == EntriesOf(Resaved(w, records), revisions);
    var records': map<string, Loaded>, revisions': map<string, Revision> :|
      && records'.Keys == revisions'.Keys && Snapshot(w, repo.files, records', revisions')
      && j.body.snapshot == Sha256(revisions') && j.body.entries == EntriesOf(Resaved(w, records'), revisions');
    SnapshotUnique(w, repo.files, records, revisions, records', revisions');
  }

  lemma SnapshotKeys(w: World, files: Files, records: map<string, Loaded>, revisions: map<string, Revision>)
    requires Snapshot(w, files, records, revisions)
    ensures records.Keys == revisions.Keys
  {}

  // ----- the validity test -----

  /** What a snapshot gives its reader. */
  datatype View = View(records: map<string, Loaded>, revisions: map<string, Revision>, review: seq<Review>,
                       conflicts: seq<Conflicts.Conflict>)

  ghost predicate EntryHolds(w: World, files: Files, e: IndexEntry) {
    && e.path in files && e.kind == files[e.path].kind && e.content.id == e.id
    && w.valid(e.content.doc.value, e.kind) && e.revision == Sha256(files[e.path].bytes)
  }

  ghost predicate UniqueEntries(entries: seq<IndexEntry>) {
    forall i, j :: 0 <= i < j < |entries| ==> entries[i].id != entries[j].id
  }

  function PathsOf(entries: seq<IndexEntry>): set<Path> {
    set e | e in entries :: e.path
  }

  /** The records and revisions an entry list stands for. */
  ghost predicate Stands(entries: seq<IndexEntry>, records: map<string, Loaded>, revisions: map<string, Revision>) {
    && records.Keys == revisions.Keys == (set e | e in entries :: e.id)
    && forall e :: e in entries ==>
         && e.id in records && records[e.id] == Loaded(e.id, e.kind, e.path, e.content)
         && revisions[e.id] == e.revision
  }

  /** Everything `_verified_index` checks before it trusts the stored index. */
  ghost predicate Accepts(w: World, repo: Repo, date: Date, index: Index) {
    && w.indexBytes(index) <= MAX_INDEX_BYTES && w.contract(index)
    && index.digest == Digested(index.body)
    && index.body.config == Sha256(repo.config)
    && index.body.date == date
    && repo.storeClean && repo.layoutSound
    && (forall e :: e in index.body.entries ==> EntryHolds(w, repo.files, e))
    && UniqueEntries(index.body.entries)
    && PathsOf(index.body.entries) == repo.files.Keys
    && exists records, revisions ::
         Stands(index.body.entries, records, revisions) && index.body.snapshot == Sha256(revisions)
  }

  lemma StandsUnique(entries: seq<IndexEntry>, records: map<string, Loaded>, revisions: map<string, Revision>,
                     records': map<string, Loaded>, revisions': map<string, Revision>)
    requires Stands(entries, records, revisions) && Stands(entries, records', revisions')
    ensures records == records' && revisions == revisions'
  {
    forall id | id in records ensures records[id] == records'[id] && revisions[id] == revisions'[id] {
      var e :| e in entries && e.id == id;
    }
  }

  /** Every entry fits its file and no id repeats. */
  ghost predicate EntriesHold(w: World, files: Files, entries: seq<IndexEntry>) {
    (forall e :: e in entries ==> EntryHolds(w, files, e)) && UniqueEntries(entries)
  }

  /** The entry loop of `_verified_index`. */
  method CheckEntries(w: World, files: Files, entries: seq<IndexEntry>)
    returns (ok: bool, records: map<string, Loaded>, revisions: map<string, Revision>)
    ensures ok <==> EntriesHold(w, files, entries)
    ensures ok ==> Stands(entries, records, revisions)
  {
    hide EntriesHold, Stands, EntryHolds;
    records, revisions := map[], map[];
    NothingStands(w, files);
    var i := 0;
    while i < |entries|
      invariant 0 <= i <= |entries|
      invariant EntriesHold(w, files, entries[..i]) && Stands(entries[..i], records, revisions)
    {
      var e := entries[i];
      assert entries[..i + 1] == entries[..i] + [e];
      CheckNext(w, files, entries[..i], e, records, revisions);
      PrefixHolds(w, files, entries, i + 1);
      if e.path !in files || e.kind != files[e.path].kind || e.content.id != e.id
         || !w.valid(e.content.doc.value, e.kind)
         || Sha256(files[e.path].bytes) != e.revision {
        return false, records, revisions;
      }
      if e.id in records { return false, records, revisions; }
      records := records[e.id := Loaded(e.id, e.kind, e.path, e.content)];
      revisions := revisions[e.id := e.revision];
      i := i + 1;
    }
    assert entries[..i] == entries;
    ok := true;
  }

  lemma NothingStands(w: World, files: Files)
    ensures EntriesHold(w, files, []) && Stands([], map[], map[])
  {}

  lemma PrefixHolds(w: World, files: Files, entries: seq<IndexEntry>, n: nat)
    requires n <= |entries|
    ensures EntriesHold(w, files, entries) ==> EntriesHold(w, files, entries[..n])
  {
    hide EntryHolds;
    forall e | e in entries[..n] ensures e in entries {}
  }

  /** What one more entry needs, and what it adds. */
  lemma CheckNext(w: World, files: Files, entries: seq<IndexEntry>, e: IndexEntry,
                  records: map<string, Loaded>, revisions: map<string, Revision>)
    requires EntriesHold(w, files, entries) && Stands(entries, records, revisions)
    ensures EntriesHold(w, files, entries + [e]) <==>
              && e.path in files && e.kind == files[e.path].kind && e.content.id == e.id
              && w.valid(e.content.doc.value, e.kind) && e.revision == Sha256(files[e.path].bytes)
              && e.id !in records
    ensures e.id !in records ==>
              Stands(entries + [e], records[e.id := Loaded(e.id, e.kind, e.path, e.content)],
                     revisions[e.id := e.revision])
  {
    hide Stands, EntryHolds;
    HoldsUnfolds(w, files, e);
    if e.id in records {
      RepeatedId(entries, e, records, revisions);
    } else {
      StandsGrows(entries, e, records, revisions);
    }
    assert e in entries + [e];
    forall d | d in entries + [e] && d != e ensures d in entries {}
  }

  lemma HoldsUnfolds(w: World, files: Files, e: IndexEntry)
    ensures EntryHolds(w, files, e) <==>
              && e.path in files && e.kind == files[e.path].kind && e.content.id == e.id
              && w.valid(e.content.doc.value, e.kind) && e.revision == Sha256(files[e.path].bytes)
  {}

  lemma RepeatedId(entries: seq<IndexEntry>, e: IndexEntry, records: map<string, Loaded>,
                   revisions: map<string, Revision>)
    requires Stands(entries, records, revisions) && e.id in records
    ensures !UniqueEntries(entries + [e])
  {
    var d :| d in entries && d.id == e.id;
    var k :| 0 <= k < |entries| && entries[k] == d;
    assert (entries + [e])[k].id == (entries + [e])[|entries|].id;
  }

  lemma StandsGrows(entries: seq<IndexEntry>, e: IndexEntry, records: map<string, Loaded>,
                    revisions: map<string, Revision>)
    requires Stands(entries, records, revisions) && UniqueEntries(entries) && e.id !in records
    ensures Stands(entries + [e], records[e.id := Loaded(e.id, e.kind, e.path, e.content)],
                   revisions[e.id := e.revision])
    ensures UniqueEntries(entries + [e])
  {
    forall i | 0 <= i < |entries| ensures entries[i].id in records { assert entries[i] in entries; }
    forall d ensures d in entries + [e] <==> d in entries || d == e {}
  }

  /** `_verified_index`. */
  method VerifyIndex(w: World, repo: Repo, date: Date, index: Index) returns (view: Option<View>)
    ensures view.Some? <==> Accepts(w, repo, date, index)
    ensures view.Some? ==>
              && Stands(index.body.entries, view.value.records, view.value.revisions)
              && view.value.review == index.body.review && view.value.conflicts == index.body.conflicts
  {
    hide EntryHolds, UniqueEntries, Stands, PathsOf;
    if w.indexBytes(index) > MAX_INDEX_BYTES || !w.contract(index) { return None; }
    if index.digest != Digested(index.body) { return None; }
    if index.body.config != Sha256(repo.config) { return None; }
    if index.body.date != date { return None; }
    if !repo.storeClean { return None; }
    if !repo.layoutSound { return None; }
    var ok, records, revisions := CheckEntries(w, repo.files, index.body.entries);
    if !ok { return None; }
    if PathsOf(index.body.entries) != repo.files.Keys { return None; }
    forall r, v | Stands(index.body.entries, r, v) ensures r == records && v == revisions {
      StandsUnique(index.body.entries, r, v, records, revisions);
    }
    if index.body.snapshot != Sha256(revisions) { return None; }
    view := Some(View(records, revisions, index.body.review, index.body.conflicts));
  }

  // ----- the index agrees with the scan -----

  /** Listed entries are those of the snapshot's own records. */
  lemma ListedEntry(w: World, files: Files, records: map<string, Loaded>, revisions: map<string, Revision>,
                    e: IndexEntry)
    requires Snapshot(w, files, records, revisions) && records.Keys == revisions.Keys
    requires e in EntriesOf(records, revisions)
    ensures e.id in records && e == EntryFor(records, revisions, e.id)
    ensures EntryHolds(w, files, e)
    ensures records[e.id] == Loaded(e.id, e.kind, e.path, e.content) && revisions[e.id] == e.revision
  {
    hide StrictlyIncreasing, NoDuplicates, SortedSet, Snapshot;
    var entries, ids := EntriesOf(records, revisions), SortedSet(records.Keys);
    var i :| 0 <= i < |entries| && entries[i] == e;
    SnapshotIds(w, files, records, revisions, ids[i]);
  }

  lemma EntriesDistinct(w: World, files: Files, records: map<string, Loaded>, revisions: map<string, Revision>)
    requires Snapshot(w, files, records, revisions) && records.Keys == revisions.Keys
    ensures UniqueEntries(EntriesOf(records, revisions))
  {
    hide Snapshot, SortedSet, StrictlyIncreasing;
    var entries, ids := EntriesOf(records, revisions), SortedSet(records.Keys);
    forall i | 0 <= i < |entries| ensures entries[i].id == ids[i] {
      assert entries[i] == EntryFor(records, revisions, ids[i]);
      SnapshotIds(w, files, records, revisions, ids[i]);
    }
    forall i, j | 0 <= i < j < |entries| ensures entries[i].id != entries[j].id { assert ids[i] != ids[j]; }
  }

  lemma SnapshotPath(w: World, files: Files, records: map<string, Loaded>, revisions: map<string, Revision>, p: Path)
    requires Snapshot(w, files, records, revisions) && p in files
    ensures Readable(w, p, files[p])
    ensures var id := ContentAt(w, files, p).id;
            && id in records && records[id] == Loaded(id, files[p].kind, p, ContentAt(w, files, p))
            && id in revisions && revisions[id] == Sha256(files[p].bytes)
  {}

  /** An entry that holds names a file of its kind and revision. */
  lemma HeldEntry(w: World, files: Files, e: IndexEntry)
    requires EntryHolds(w, files, e)
    ensures e.path in files && files[e.path].kind == e.kind && Sha256(files[e.path].bytes) == e.revision
  {}

  /** A file of the first state is the same in the second. */
  lemma FilePinned(w: World, files0: Files, files1: Files, records: map<string, Loaded>,
                   revisions: map<string, Revision>, p: Path)
    requires Snapshot(w, files0, records, revisions) && records.Keys == revisions.Keys
    requires forall e :: e in EntriesOf(records, revisions) ==> EntryHolds(w, files1, e)
    requires p in files0
    ensures p in files1 && files1[p] == files0[p]
  {
    hide Snapshot, EntriesOf, Readable, EntryHolds, SortedSet, StrictlyIncreasing, NoDuplicates;
    SnapshotPath(w, files0, records, revisions, p);
    var id := ContentAt(w, files0, p).id;
    EntryListed(records, revisions, id);
    HeldEntry(w, files1, EntryFor(records, revisions, id));
  }

  /** A path the entries name is a file of the first state. */
  lemma PathPinned(w: World, files0: Files, records: map<string, Loaded>, revisions: map<string, Revision>, p: Path)
    requires Snapshot(w, files0, records, revisions) && records.Keys == revisions.Keys
    requires p in PathsOf(EntriesOf(records, revisions))
    ensures p in files0
  {
    hide Snapshot, EntriesOf, Readable, EntryHolds, SortedSet, StrictlyIncreasing, NoDuplicates;
    var e :| e in EntriesOf(records, revisions) && e.path == p;
    ListedEntry(w, files0, records, revisions, e);
    HeldEntry(w, files0, e);
  }

  /** An entry list made from one state and accepted in another forces the files to be the same. */
  lemma EntriesPinFiles(w: World, files0: Files, files1: Files, records: map<string, Loaded>,
                        revisions: map<string, Revision>)
    requires Snapshot(w, files0, records, revisions) && records.Keys == revisions.Keys
    requires forall e :: e in EntriesOf(records, revisions) ==> EntryHolds(w, files1, e)
    requires PathsOf(EntriesOf(records, revisions)) == files1.Keys
    ensures files0 == files1
  {
    hide Snapshot, EntriesOf, Readable, EntryHolds, PathsOf, SortedSet, StrictlyIncreasing, NoDuplicates;
    forall p | p in files0 ensures p in files1 && files1[p] == files0[p] {
      FilePinned(w, files0, files1, records, revisions, p);
    }
    forall p | p in files1 ensures p in files0 { PathPinned(w, files0, records, revisions, p); }
  }

  /** The snapshot itself is what its entry list stands for, and every entry holds. */
  lemma SnapshotStands(w: World, files: Files, records: map<string, Loaded>, revisions: map<string, Revision>)
    requires Snapshot(w, files, records, revisions) && records.Keys == revisions.Keys
    ensures var entries := EntriesOf(records, revisions);
            && Stands(entries, records, revisions) && UniqueEntries(entries)
            && (forall e :: e in entries ==> EntryHolds(w, files, e))
            && PathsOf(entries) == files.Keys
  {
    hide Snapshot, EntriesOf, Readable, EntryHolds, UniqueEntries, PathsOf, Stands;
    var entries := EntriesOf(records, revisions);
    EntriesDistinct(w, files, records, revisions);
    EntryPaths(w, files, records, revisions);
    EntriesStand(w, files, records, revisions);
    forall e | e in entries ensures EntryHolds(w, files, e) { ListedEntry(w, files, records, revisions, e); }
  }

  lemma EntriesStand(w: World, files: Files, records: map<string, Loaded>, revisions: map<string, Revision>)
    requires Snapshot(w, files, records, revisions) && records.Keys == revisions.Keys
    ensures Stands(EntriesOf(records, revisions), records, revisions)
  {
    hide Snapshot, EntriesOf, Readable, EntryHolds, UniqueEntries, PathsOf, Stands, SortedSet, StrictlyIncreasing,
         NoDuplicates;
    EntryIds(w, files, records, revisions);
    forall e | e in EntriesOf(records, revisions) ensures StandsFor(e, records, revisions) {
      ListedEntry(w, files, records, revisions, e);
    }
    AllStand(EntriesOf(records, revisions), records, revisions);
  }

  ghost predicate StandsFor(e: IndexEntry, records: map<string, Loaded>, revisions: map<string, Revision>) {
    && e.id in records && records[e.id] == Loaded(e.id, e.kind, e.path, e.content)
    && e.id in revisions && revisions[e.id] == e.revision
  }

  lemma AllStand(entries: seq<IndexEntry>, records: map<string, Loaded>, revisions: map<string, Revision>)
    requires records.Keys == revisions.Keys == (set e | e in entries :: e.id)
    requires forall e :: e in entries ==> StandsFor(e, records, revisions)
    ensures Stands(entries, records, revisions)
  {}

  lemma EntryIds(w: World, files: Files, records: map<string, Loaded>, revisions: map<string, Revision>)
    requires Snapshot(w, files, records, revisions) && records.Keys == revisions.Keys
    ensures (set e | e in EntriesOf(records, revisions) :: e.id) == records.Keys
  {
    hide Snapshot, EntriesOf, Readable, EntryHolds;
    var entries := EntriesOf(records, revisions);
    forall e | e in entries ensures e.id in records { ListedEntry(w, files, records, revisions, e); }
    forall id | id in records
      ensures id in set e | e in entries :: e.id
    {
      EntryIdListed(w, files, records, revisions, id);
    }
  }

  lemma EntryPaths(w: World, files: Files, records: map<string, Loaded>, revisions: map<string, Revision>)
    requires Snapshot(w, files, records, revisions) && records.Keys == revisions.Keys
    ensures PathsOf(EntriesOf(records, revisions)) == files.Keys
  {
    hide Snapshot, EntriesOf, Readable, EntryHolds, SortedSet, StrictlyIncreasing, NoDuplicates;
    var entries := EntriesOf(records, revisions);
    forall e | e in entries ensures e.path in files {
      ListedEntry(w, files, records, revisions, e);
      EntryPath(w, files, e);
    }
    forall p | p in files ensures p in PathsOf(entries) {
      SnapshotPath(w, files, records, revisions, p);
      EntryListed(records, revisions, ContentAt(w, files, p).id);
    }
  }

  lemma EntryListed(records: map<string, Loaded>, revisions: map<string, Revision>, id: string)
    requires records.Keys == revisions.Keys && id in records
    ensures EntryFor(records, revisions, id) in EntriesOf(records, revisions)
  {
    hide StrictlyIncreasing, NoDuplicates, SortedSet;
    var entries, ids := EntriesOf(records, revisions), SortedSet(records.Keys);
    assert id in Elements(ids);
    var i :| 0 <= i < |ids| && ids[i] == id;
    assert entries[i] == EntryFor(records, revisions, ids[i]);
  }

  lemma EntryPath(w: World, files: Files, e: IndexEntry)
    requires EntryHolds(w, files, e)
    ensures e.path in files
  {}

  lemma EntryIdListed(w: World, files: Files, records: map<string, Loaded>, revisions: map<string, Revision>,
                      id: string)
    requires Snapshot(w, files, records, revisions) && records.Keys == revisions.Keys && id in records
    ensures id in set e | e in EntriesOf(records, revisions) :: e.id
  {
    hide EntriesOf, SortedSet, StrictlyIncreasing, NoDuplicates;
    EntryListed(records, revisions, id);
    ListedEntry(w, files, records, revisions, EntryFor(records, revisions, id));
    SnapshotIds(w, files, records, revisions, id);
  }

  // ----- saved again with sorted keys -----

  lemma ResavedSnapshot(w: World, files: Files, records: map<string, Loaded>, revisions: map<string, Revision>)
    requires Reparses(w) && Snapshot(w, files, records, revisions)
    ensures Snapshot(Resaving(w), files, Resaved(w, records), revisions)
  {
    hide Reparses;
    forall p | p in files
      ensures Readable(Resaving(w), p, files[p])
      ensures ContentAt(Resaving(w), files, p) == Stored(w, ContentAt(w, files, p))
      ensures SameValue(ContentAt(w, files, p), ContentAt(Resaving(w), files, p))
    {
      StoredSame(w, files[p].bytes);
    }
  }

  lemma StoredSame(w: World, b: Bytes)
    requires Reparses(w) && w.parse(b).Some?
    ensures SameValue(w.parse(b).value, Stored(w, w.parse(b).value))
  {}

  lemma HoldsAlike(w: World, files: Files, e: IndexEntry)
    ensures EntryHolds(Resaving(w), files, e) <==> EntryHolds(w, files, e)
  {}

  /** What an index was built from, and that an accepting state has the same files. */
  lemma BuiltFrom(w: World, r0: Repo, d0: Date, index: Index)
    returns (built: map<string, Loaded>, taken: map<string, Revision>)
    requires Reparses(w) && IsIndexOf(w, r0, d0, index)
    ensures built.Keys == taken.Keys && Snapshot(Resaving(w), r0.files, built, taken)
    ensures index.body.snapshot == Sha256(taken) && index.body.entries == EntriesOf(built, taken)
  {
    hide Snapshot, Loadable, Sort, EntriesOf, Reparses;
    var read: map<string, Loaded>, revisions: map<string, Revision> :|
      && read.Keys == revisions.Keys
      && Snapshot(w, r0.files, read, revisions)
      && index.body.snapshot == Sha256(revisions)
      && index.body.entries == EntriesOf(Resaved(w, read), revisions);
    ResavedSnapshot(w, r0.files, read, revisions);
    built, taken := Resaved(w, read), revisions;
  }

  /** Cache correctness: whenever an index written in state `r0` is accepted in a later state `r1`, that
      state is auditable for the date and the accepted records and revisions are exactly what its scan would
      load if every file were saved again with sorted keys; the review items and conflicts are those of its audit,
      sorted. */
  lemma IndexAgreesWithScan(w: World, r0: Repo, d0: Date, r1: Repo, d1: Date, index: Index,
                            records: map<string, Loaded>, revisions: map<string, Revision>)
    requires Reparses(w) && IsIndexOf(w, r0, d0, index) && Accepts(w, r1, d1, index)
    requires Stands(index.body.entries, records, revisions)
    ensures Auditable(w, r1, d1)
    ensures Snapshot(Resaving(w), r1.files, records, revisions)
    ensures index.body.review == Sort(w.audit(r1.config, r1.files, d1).review, ReviewLe)
    ensures index.body.conflicts == Sort(w.audit(r1.config, r1.files, d1).conflicts, ConflictLe)
  {
    hide Snapshot, Stands, EntryHolds, UniqueEntries, PathsOf, Loadable, Sort, EntriesOf, Reparses, Resaving;
    var built, taken := BuiltFrom(w, r0, d0, index);
    PinnedFiles(w, r0.files, r1.files, built, taken);
    SnapshotStands(Resaving(w), r0.files, built, taken);
    StandsUnique(index.body.entries, records, revisions, built, taken);
  }

  lemma PinnedFiles(w: World, files0: Files, files1: Files, built: map<string, Loaded>, taken: map<string, Revision>)
    requires Snapshot(Resaving(w), files0, built, taken) && built.Keys == taken.Keys
    requires forall e :: e in EntriesOf(built, taken) ==> EntryHolds(w, files1, e)
    requires PathsOf(EntriesOf(built, taken)) == files1.Keys
    ensures files0 == files1
  {
    hide Snapshot, EntryHolds, PathsOf, EntriesOf, Resaving;
    forall e | e in EntriesOf(built, taken) ensures EntryHolds(Resaving(w), files1, e) { HoldsAlike(w, files1, e); }
    EntriesPinFiles(Resaving(w), files0, files1, built, taken);
  }

  /** Exactly when a stored index is used: the configuration, the date and every record file are the
      same as when it was built, the layout and the transaction store are sound, and the file is not longer than
      the reader allows, which the writer does not check. */
  lemma AcceptedIffUnchanged(w: World, r0: Repo, d0: Date, r1: Repo, d1: Date, index: Index)
    requires Reparses(w) && IsIndexOf(w, r0, d0, index)
    ensures Accepts(w, r1, d1, index) <==>
              && r1.config == r0.config && d1 == d0 && r1.files == r0.files && r1.storeClean && r1.layoutSound
              && w.indexBytes(index) <= MAX_INDEX_BYTES
  {
    hide Snapshot, Stands, EntryHolds, UniqueEntries, PathsOf, Loadable, Sort, EntriesOf, Reparses, Resaving;
    var built, taken := BuiltFrom(w, r0, d0, index);
    SnapshotStands(Resaving(w), r0.files, built, taken);
    forall e ensures EntryHolds(Resaving(w), r0.files, e) <==> EntryHolds(w, r0.files, e) {
      HoldsAlike(w, r0.files, e);
    }
    if Accepts(w, r1, d1, index) { PinnedFiles(w, r0.files, r1.files, built, taken); }
  }

  /** The digest binds the body: of two index files with one digest, both accepted anywhere, no field of no entry
      differs except in key order; and a file whose digest is not that of its body is never accepted. */
  lemma DigestBindsBody(w: World, r0: Repo, d0: Date, r1: Repo, d1: Date, i: Index, j: Index)
    requires Accepts(w, r0, d0, i) && Accepts(w, r1, d1, j)
    ensures i.digest == j.digest ==>
              && i.body == j.body.(entries := i.body.entries)
              && |i.body.entries| == |j.body.entries|
              && forall k :: 0 <= k < |i.body.entries| ==>
                   SameValue(i.body.entries[k].content, j.body.entries[k].content)
                   && i.body.entries[k] == j.body.entries[k].(content := i.body.entries[k].content)
  {
    hide EntryHolds, UniqueEntries, PathsOf, Stands;
    if i.digest == j.digest {
      var a, b := Digested(i.body).of.entries, Digested(j.body).of.entries;
      assert a == b;
      forall k | 0 <= k < |a|
        ensures SameValue(i.body.entries[k].content, j.body.entries[k].content)
        ensures i.body.entries[k] == j.body.entries[k].(content := i.body.entries[k].content)
      {
        assert a[k] == Unprinted(i.body.entries[k]) && b[k] == Unprinted(j.body.entries[k]);
      }
    }
  }

  lemma ForgedDigestIsRefused(w: World, repo: Repo, date: Date, index: Index)
    ensures Accepts(w, repo, date, index) ==>
              && index.digest.of.config == index.body.config && index.digest.of.snapshot == index.body.snapshot
              && index.digest.of.date == index.body.date && index.digest.of.review == index.body.review
              && index.digest.of.conflicts == index.body.conflicts
              && |index.digest.of.entries| == |index.body.entries|
              && forall k :: 0 <= k < |index.body.entries| ==>
                   && index.digest.of.entries[k].revision == index.body.entries[k].revision
                   && index.digest.of.entries[k].content.doc.value == index.body.entries[k].content.doc.value
  {
    hide EntryHolds, UniqueEntries, PathsOf, Stands;
  }
}
