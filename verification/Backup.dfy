/** Backups: the manifest of a project's files, the archive that carries both, and reading it back. */
module Backups {
  import opened Evidence
  import opened Orders

  type Path = string
  type Files = map<Path, Bytes>

  const MANIFEST_NAME := "STATEWEAVE-BACKUP.json"
  const MAX_BACKUP_ENTRY_BYTES := 16 * 1024 * 1024
  const MAX_BACKUP_TOTAL_BYTES := 128 * 1024 * 1024

  datatype Entry = Entry(path: Path, size: nat, digest: Digest<Bytes>)
  datatype Manifest = Manifest(project: string, createdAt: string, files: seq<Entry>)

  /** One member of the archive; `regular` is false for links and directories. */
  datatype Member = Member(name: Path, body: Bytes, regular: bool)
  type Archive = seq<Member>

  /** The manifest's JSON form, and `safe_relative_path`, which refuses some names and normalizes others. */
  datatype Format = Format(
    encode: Manifest -> Bytes,
    decode: Bytes -> Option<Manifest>,
    normalize: Path -> Option<Path>)

  ghost predicate Lossless(f: Format) {
    && (forall m :: f.decode(f.encode(m)) == Some(m))
    && (forall p :: f.normalize(p).Some? ==> f.normalize(f.normalize(p).value) == f.normalize(p))
  }

  // ----- packing -----

  function EntryFor(files: Files, p: Path): Entry
    requires p in files
  {
    Entry(p, |files[p]|, Sha256(files[p]))
  }

  function EntriesFor(files: Files, paths: seq<Path>): (es: seq<Entry>)
    requires Elements(paths) <= files.Keys
    ensures |es| == |paths|
  {
    seq(|paths|, i requires 0 <= i < |paths| => assert paths[i] in Elements(paths); EntryFor(files, paths[i]))
  }

  function Total(files: Files, paths: seq<Path>): nat
    decreases |paths|
  {
    if paths == [] then 0
    else Total(files, paths[..|paths| - 1]) + if paths[|paths| - 1] in files then |files[paths[|paths| - 1]]| else 0
  }

  /** The total is a sum: it does not depend on how the listing is split, and one file counts its own length. */
  lemma {:induction false} TotalAdds(files: Files, a: seq<Path>, b: seq<Path>)
    ensures Total(files, a + b) == Total(files, a) + Total(files, b)
    ensures Total(files, []) == 0
    ensures forall p :: p in files ==> Total(files, [p]) == |files[p]|
    decreases |b|
  {
    if b == [] {
      assert a + b == a;
    } else {
      var rest := b[..|b| - 1];
      TotalAdds(files, a, rest);
      assert (a + b)[..|a + b| - 1] == a + rest;
    }
  }

  predicate SizesFit(files: Files) {
    && (forall p :: p in files ==> |files[p]| <= MAX_BACKUP_ENTRY_BYTES)
    && Total(files, SortedSet(files.Keys)) <= MAX_BACKUP_TOTAL_BYTES
  }

  function ManifestFor(files: Files, project: string, createdAt: string): Manifest {
    Manifest(project, createdAt, EntriesFor(files, SortedSet(files.Keys)))
  }

  /** The manifest loop after `i` paths. */
  ghost predicate PackedTo(files: Files, paths: seq<Path>, i: nat, members: Files, entries: seq<Entry>, total: int)
    requires Elements(paths) <= files.Keys && i <= |paths|
  {
    && total == Total(files, paths[..i]) <= MAX_BACKUP_TOTAL_BYTES
    && members.Keys == Elements(paths[..i]) && (forall p :: p in members ==> p in files && members[p] == files[p])
    && entries == EntriesFor(files, paths)[..i]
    && forall p :: p in members ==> |members[p]| <= MAX_BACKUP_ENTRY_BYTES
  }

  /** `_manifest`: the entries in path order and the members, or a refusal when a size limit is broken. */
  method MakeManifest(files: Files, project: string, createdAt: string) returns (made: Option<(Manifest, Files)>)
    ensures made.Some? <==> SizesFit(files)
    ensures made.Some? ==> made.value == (ManifestFor(files, project, createdAt), files)
  {
    hide StrictlyIncreasing, NoDuplicates, SizesFit, Total, PackedTo, EntriesFor, SortedSet, Elements;
    var paths := SortedSet(files.Keys);
    var members: Files, entries: seq<Entry>, total: int := map[], [], 0;
    PackStart(files, paths);
    var i := 0;
    while i < |paths|
      invariant 0 <= i <= |paths| && PackedTo(files, paths, i, members, entries, total)
    {
      PathAt(files, paths, i);
      var p := paths[i];
      var payload := files[p];
      PackStep(files, paths, i, members, entries, total);
      if |payload| > MAX_BACKUP_ENTRY_BYTES { TooLarge(files, p); return None; }
      total := total + |payload|;
      if total > MAX_BACKUP_TOTAL_BYTES { TooMuch(files, paths, i + 1); return None; }
      members := members[p := payload];
      entries := entries + [EntryFor(files, p)];
      i := i + 1;
    }
    PackEnd(files, paths, members, entries, total);
    made := Some((Manifest(project, createdAt, entries), members));
  }

  lemma PathAt(files: Files, paths: seq<Path>, i: nat)
    requires Elements(paths) <= files.Keys && i < |paths|
    ensures paths[i] in files
  {
    assert paths[i] in Elements(paths);
  }

  lemma PackStart(files: Files, paths: seq<Path>)
    requires Elements(paths) <= files.Keys
    ensures PackedTo(files, paths, 0, map[], [], 0)
  {}

  lemma PackStep(files: Files, paths: seq<Path>, i: nat, members: Files, entries: seq<Entry>, total: int)
    requires Elements(paths) <= files.Keys && i < |paths| && paths[i] in files
    requires PackedTo(files, paths, i, members, entries, total)
    ensures total + |files[paths[i]]| == Total(files, paths[..i + 1])
    ensures |files[paths[i]]| <= MAX_BACKUP_ENTRY_BYTES && total + |files[paths[i]]| <= MAX_BACKUP_TOTAL_BYTES ==>
              PackedTo(files, paths, i + 1, members[paths[i] := files[paths[i]]], entries + [EntryFor(files, paths[i])],
                       total + |files[paths[i]]|)
  {
    assert paths[..i + 1] == paths[..i] + [paths[i]];
    assert paths[..i + 1][..i] == paths[..i];
    assert EntriesFor(files, paths)[..i + 1] == EntriesFor(files, paths)[..i] + [EntryFor(files, paths[i])];
  }

  lemma PackEnd(files: Files, paths: seq<Path>, members: Files, entries: seq<Entry>, total: int)
    requires paths == SortedSet(files.Keys) && PackedTo(files, paths, |paths|, members, entries, total)
    ensures SizesFit(files) && members == files && entries == EntriesFor(files, paths)
  {
    hide SortedSet, StrictlyIncreasing, NoDuplicates, Total, EntriesFor;
    assert paths[..|paths|] == paths;
    assert EntriesFor(files, paths)[..|paths|] == EntriesFor(files, paths);
    assert members.Keys == files.Keys;
  }

  lemma TooLarge(files: Files, p: Path)
    requires p in files && |files[p]| > MAX_BACKUP_ENTRY_BYTES
    ensures !SizesFit(files)
  {}

  lemma {:induction false} TotalPrefix(files: Files, paths: seq<Path>, i: nat)
    requires i <= |paths|
    ensures Total(files, paths[..i]) <= Total(files, paths)
    decreases |paths|
  {
    if i == |paths| {
      assert paths[..i] == paths;
    } else {
      TotalPrefix(files, paths[..|paths| - 1], i);
      assert paths[..|paths| - 1][..i] == paths[..i];
    }
  }

  lemma TooMuch(files: Files, paths: seq<Path>, i: nat)
    requires paths == SortedSet(files.Keys) && i <= |paths| && Total(files, paths[..i]) > MAX_BACKUP_TOTAL_BYTES
    ensures !SizesFit(files)
  {
    TotalPrefix(files, paths, i);
  }

  /** The archive `create_backup` writes: the members in path order, then the manifest. */
  function ArchiveOf(files: Files, m: Manifest, f: Format): Archive {
    var paths := SortedSet(files.Keys);
    seq(|paths|, i requires 0 <= i < |paths| =>
      assert paths[i] in Elements(paths);
      Member(paths[i], files[paths[i]], true))
    + [Member(MANIFEST_NAME, f.encode(m), true)]
  }

  // ----- reading back -----

  function Names(a: Archive): seq<Path> {
    seq(|a|, i requires 0 <= i < |a| => a[i].name)
  }

  /** `archive.getinfo`. */
  function Find(a: Archive, name: Path): Option<Member> {
    if a == [] then None
    else if a[0].name == name then Some(a[0])
    else Find(a[1..], name)
  }

  /** What the entry loop accepts, given the names it has already taken. */
  predicate EntryHolds(a: Archive, f: Format, e: Entry) {
    && f.normalize(e.path).Some? && f.normalize(e.path).value != MANIFEST_NAME
    && var m := Find(a, f.normalize(e.path).value);
       && m.Some? && m.value.regular && |m.value.body| <= MAX_BACKUP_ENTRY_BYTES
       && e.size == |m.value.body| && e.digest == Sha256(m.value.body)
  }

  function Target(f: Format, e: Entry): Path {
    if f.normalize(e.path).Some? then f.normalize(e.path).value else ""
  }

  function Targets(f: Format, es: seq<Entry>): seq<Path> {
    seq(|es|, i requires 0 <= i < |es| => Target(f, es[i]))
  }

  function Sizes(es: seq<Entry>): nat {
    if es == [] then 0 else Sizes(es[..|es| - 1]) + es[|es| - 1].size
  }

  ghost predicate EntriesHold(a: Archive, f: Format, es: seq<Entry>) {
    && (forall i :: 0 <= i < |es| ==> EntryHolds(a, f, es[i]))
    && NoDuplicates(Targets(f, es)) && Sizes(es) <= MAX_BACKUP_TOTAL_BYTES
  }

  /** The payloads are what the archive holds under the normalized names, no more and no less. */
  ghost predicate Carries(a: Archive, f: Format, es: seq<Entry>, payloads: Files) {
    && payloads.Keys == Elements(Targets(f, es))
    && forall p :: p in payloads ==> Find(a, p).Some? && payloads[p] == Find(a, p).value.body
  }

  /** The manifest of an archive whose header passes. */
  function HeaderOf(a: Archive, f: Format): Option<Manifest> {
    if !NoDuplicates(Names(a)) then None
    else if Find(a, MANIFEST_NAME).None? then None
    else if |Find(a, MANIFEST_NAME).value.body| > MAX_BACKUP_ENTRY_BYTES then None
    else f.decode(Find(a, MANIFEST_NAME).value.body)
  }

  /** Everything a verified backup has to satisfy. */
  ghost predicate Intact(a: Archive, f: Format) {
    && HeaderOf(a, f).Some?
    && EntriesHold(a, f, HeaderOf(a, f).value.files)
    && Elements(Names(a)) == Elements(Targets(f, HeaderOf(a, f).value.files)) + {MANIFEST_NAME}
  }

  /** `_read_verified_backup`. */
  method ReadVerifiedBackup(a: Archive, f: Format) returns (read: Option<(Manifest, Files)>)
    ensures read.Some? <==> Intact(a, f)
    ensures read.Some? ==> Some(read.value.0) == HeaderOf(a, f) && Carries(a, f, read.value.0.files, read.value.1)
  {
    hide HeaderOf, EntriesHold, Carries, NoDuplicates;
    var header := HeaderOf(a, f);
    if header.None? { return None; }
    var ok, payloads := ReadEntries(a, f, header.value.files);
    if !ok { return None; }
    if Elements(Names(a)) != payloads.Keys + {MANIFEST_NAME} {
      CarriedKeys(a, f, header.value.files, payloads);
      return None;
    }
    CarriedKeys(a, f, header.value.files, payloads);
    read := Some((header.value, payloads));
  }

  lemma CarriedKeys(a: Archive, f: Format, es: seq<Entry>, payloads: Files)
    requires Carries(a, f, es, payloads)
    ensures payloads.Keys == Elements(Targets(f, es))
  {}

  /** The entry loop. */
  method ReadEntries(a: Archive, f: Format, es: seq<Entry>) returns (ok: bool, payloads: Files)
    ensures ok <==> EntriesHold(a, f, es)
    ensures ok ==> Carries(a, f, es, payloads)
  {
    hide EntriesHold, Carries, EntryHolds, NoDuplicates;
    payloads := map[];
    var total := 0;
    NothingRead(a, f);
    var i := 0;
    while i < |es|
      invariant 0 <= i <= |es| && EntriesHold(a, f, es[..i]) && Carries(a, f, es[..i], payloads)
      invariant total == Sizes(es[..i])
    {
      var e := es[i];
      assert es[..i + 1] == es[..i] + [e] && es[..i + 1][..i] == es[..i];
      ReadNext(a, f, es[..i], e, payloads);
      if !EntriesHold(a, f, es[..i + 1]) { PrefixHolds(a, f, es, i + 1); }
      var relative := f.normalize(e.path);
      if relative.None? { return false, payloads; }
      if relative.value == MANIFEST_NAME || relative.value in payloads { return false, payloads; }
      var info := Find(a, relative.value);
      if info.None? { return false, payloads; }
      if !info.value.regular { return false, payloads; }
      if |info.value.body| > MAX_BACKUP_ENTRY_BYTES { return false, payloads; }
      total := total + |info.value.body|;
      if total > MAX_BACKUP_TOTAL_BYTES { return false, payloads; }
      if e.size != |info.value.body| { return false, payloads; }
      if e.digest != Sha256(info.value.body) { return false, payloads; }
      payloads := payloads[relative.value := info.value.body];
      i := i + 1;
    }
    assert es[..i] == es;
    ok := true;
  }

  lemma NothingRead(a: Archive, f: Format)
    ensures EntriesHold(a, f, []) && Carries(a, f, [], map[]) && Sizes([]) == 0
  {}

  /** What one more entry needs. */
  lemma ReadNext(a: Archive, f: Format, es: seq<Entry>, e: Entry, payloads: Files)
    requires EntriesHold(a, f, es) && Carries(a, f, es, payloads)
    ensures EntriesHold(a, f, es + [e]) <==>
              && f.normalize(e.path).Some? && f.normalize(e.path).value != MANIFEST_NAME
              && f.normalize(e.path).value !in payloads
              && var m := Find(a, f.normalize(e.path).value);
                 && m.Some? && m.value.regular && |m.value.body| <= MAX_BACKUP_ENTRY_BYTES
                 && Sizes(es) + |m.value.body| <= MAX_BACKUP_TOTAL_BYTES
                 && e.size == |m.value.body| && e.digest == Sha256(m.value.body)
    ensures EntriesHold(a, f, es + [e]) ==>
              var relative := f.normalize(e.path).value;
              Carries(a, f, es + [e], payloads[relative := Find(a, relative).value.body])
    ensures Sizes(es + [e]) == Sizes(es) + e.size
  {
    hide EntryHolds;
    var next := es + [e];
    assert next[..|es|] == es;
    assert Targets(f, next) == Targets(f, es) + [Target(f, e)];
    AppendName(Targets(f, es), Target(f, e));
    NextHolds(a, f, es, e);
    OneEntry(a, f, e);
    assert Elements(Targets(f, next)) == Elements(Targets(f, es)) + {Target(f, e)};
  }

  lemma NextHolds(a: Archive, f: Format, es: seq<Entry>, e: Entry)
    requires forall i :: 0 <= i < |es| ==> EntryHolds(a, f, es[i])
    ensures (forall i :: 0 <= i < |es + [e]| ==> EntryHolds(a, f, (es + [e])[i])) <==> EntryHolds(a, f, e)
  {
    assert (es + [e])[|es|] == e;
  }

  lemma OneEntry(a: Archive, f: Format, e: Entry)
    ensures EntryHolds(a, f, e) <==>
              && f.normalize(e.path).Some? && f.normalize(e.path).value != MANIFEST_NAME
              && var m := Find(a, f.normalize(e.path).value);
                 && m.Some? && m.value.regular && |m.value.body| <= MAX_BACKUP_ENTRY_BYTES
                 && e.size == |m.value.body| && e.digest == Sha256(m.value.body)
  {}

  lemma {:induction false} SizesPrefix(es: seq<Entry>, n: nat)
    requires n <= |es|
    ensures Sizes(es[..n]) <= Sizes(es)
  {
    if n == |es| {
      assert es[..n] == es;
    } else {
      SizesPrefix(es[..|es| - 1], n);
      assert es[..|es| - 1][..n] == es[..n];
    }
  }

  lemma PrefixHolds(a: Archive, f: Format, es: seq<Entry>, n: nat)
    requires n <= |es|
    ensures EntriesHold(a, f, es) ==> EntriesHold(a, f, es[..n])
  {
    SizesPrefix(es, n);
    if EntriesHold(a, f, es) {
      assert Targets(f, es[..n]) == Targets(f, es)[..n];
    }
  }

  // ----- the round trip -----

  /** Every member name is accepted and already in normal form. */
  ghost predicate Portable(files: Files, f: Format) {
    forall p :: p in files ==> f.normalize(p) == Some(p)
  }

  lemma {:induction false} FindAt(a: Archive, i: nat)
    requires i < |a| && NoDuplicates(Names(a))
    ensures Find(a, a[i].name) == Some(a[i])
  {
    if i > 0 {
      assert Names(a)[0] != Names(a)[i];
      assert Names(a[1..]) == Names(a)[1..];
      FindAt(a[1..], i - 1);
    }
  }

  lemma ArchiveNames(files: Files, m: Manifest, f: Format)
    ensures Names(ArchiveOf(files, m, f)) == SortedSet(files.Keys) + [MANIFEST_NAME]
    ensures NoDuplicates(Names(ArchiveOf(files, m, f))) <==> MANIFEST_NAME !in files
    ensures Elements(Names(ArchiveOf(files, m, f))) == files.Keys + {MANIFEST_NAME}
  {
    hide StrictlyIncreasing, SortedSet, NoDuplicates, Elements;
    var a, paths := ArchiveOf(files, m, f), SortedSet(files.Keys);
    assert Names(a) == paths + [MANIFEST_NAME];
    AppendName(paths, MANIFEST_NAME);
  }

  lemma AppendName(paths: seq<Path>, name: Path)
    requires NoDuplicates(paths)
    ensures NoDuplicates(paths + [name]) <==> name !in Elements(paths)
    ensures Elements(paths + [name]) == Elements(paths) + {name}
  {
    if name in paths {
      var k :| 0 <= k < |paths| && paths[k] == name;
      assert (paths + [name])[k] == (paths + [name])[|paths|];
    } else {
      AppendNew(paths, name);
    }
  }

  lemma ArchiveMembers(files: Files, m: Manifest, f: Format)
    requires MANIFEST_NAME !in files
    ensures var a := ArchiveOf(files, m, f);
            && (forall p :: p in files ==> Find(a, p) == Some(Member(p, files[p], true)))
            && Find(a, MANIFEST_NAME) == Some(Member(MANIFEST_NAME, f.encode(m), true))
  {
    hide ArchiveOf, SortedSet, StrictlyIncreasing, NoDuplicates, Find, Names;
    forall p | p in files ensures Find(ArchiveOf(files, m, f), p) == Some(Member(p, files[p], true)) {
      MemberOf(files, m, f, p);
    }
    ManifestMember(files, m, f);
  }

  lemma MemberOf(files: Files, m: Manifest, f: Format, p: Path)
    requires MANIFEST_NAME !in files && p in files
    ensures Find(ArchiveOf(files, m, f), p) == Some(Member(p, files[p], true))
  {
    hide SortedSet, StrictlyIncreasing, NoDuplicates, Find, Names;
    var a, paths := ArchiveOf(files, m, f), SortedSet(files.Keys);
    ArchiveNames(files, m, f);
    assert p in Elements(paths);
    var k :| 0 <= k < |paths| && paths[k] == p;
    assert a[k] == Member(p, files[p], true);
    FindAt(a, k);
  }

  lemma ManifestMember(files: Files, m: Manifest, f: Format)
    requires MANIFEST_NAME !in files
    ensures Find(ArchiveOf(files, m, f), MANIFEST_NAME) == Some(Member(MANIFEST_NAME, f.encode(m), true))
  {
    hide SortedSet, StrictlyIncreasing, NoDuplicates, Find, Names;
    var a, paths := ArchiveOf(files, m, f), SortedSet(files.Keys);
    ArchiveNames(files, m, f);
    assert a[|paths|] == Member(MANIFEST_NAME, f.encode(m), true);
    FindAt(a, |paths|);
  }

  lemma {:induction false} EntrySizes(files: Files, paths: seq<Path>)
    requires Elements(paths) <= files.Keys
    ensures Sizes(EntriesFor(files, paths)) == Total(files, paths)
    decreases |paths|
  {
    if paths != [] {
      var n := |paths| - 1;
      assert paths[n] in Elements(paths);
      assert forall p :: p in Elements(paths[..n]) ==> p in Elements(paths);
      EntrySizes(files, paths[..n]);
      assert EntriesFor(files, paths)[..n] == EntriesFor(files, paths[..n]);
    }
  }

  /** With portable names the entries of the manifest hold in the archive made with it. */
  lemma PortableHolds(files: Files, m: Manifest, f: Format)
    requires SizesFit(files) && MANIFEST_NAME !in files && Portable(files, f)
    requires m.files == EntriesFor(files, SortedSet(files.Keys))
    ensures EntriesHold(ArchiveOf(files, m, f), f, m.files)
    ensures Elements(Targets(f, m.files)) == files.Keys
  {
    hide StrictlyIncreasing, NoDuplicates, Find, Names, ArchiveOf, SortedSet, Total, Sizes;
    var a, paths := ArchiveOf(files, m, f), SortedSet(files.Keys);
    ArchiveMembers(files, m, f);
    forall i | 0 <= i < |m.files| ensures EntryHolds(a, f, m.files[i]) && Target(f, m.files[i]) == paths[i] {
      PathAt(files, paths, i);
      assert m.files[i] == EntryFor(files, paths[i]);
    }
    assert Targets(f, m.files) == paths;
    EntrySizes(files, paths);
  }

  /** Reading back exactly what was packed. It works if and only if every name is portable, none is the
      manifest's, and the manifest itself fits; and then the manifest and the payloads are the originals. */
  lemma RoundTrip(files: Files, project: string, createdAt: string, f: Format)
    requires Lossless(f) && SizesFit(files)
    ensures var m := ManifestFor(files, project, createdAt);
            var a := ArchiveOf(files, m, f);
            && (Intact(a, f) <==>
                  Portable(files, f) && MANIFEST_NAME !in files && |f.encode(m)| <= MAX_BACKUP_ENTRY_BYTES)
            && (Intact(a, f) ==>
                  && HeaderOf(a, f) == Some(m)
                  && forall payloads :: Carries(a, f, m.files, payloads) ==> payloads == files)
  {
    hide SizesFit, EntriesHold, NoDuplicates, StrictlyIncreasing, Names, Find, Targets, ArchiveOf, SortedSet;
    var m := ManifestFor(files, project, createdAt);
    var a := ArchiveOf(files, m, f);
    ArchiveNames(files, m, f);
    if MANIFEST_NAME !in files && |f.encode(m)| <= MAX_BACKUP_ENTRY_BYTES {
      ArchiveMembers(files, m, f);
      assert HeaderOf(a, f) == Some(m);
      if Portable(files, f) { PortableHolds(files, m, f); }
      if Intact(a, f) {
        IntactPortable(files, m, f, a);
        PortableHolds(files, m, f);
        forall payloads | Carries(a, f, m.files, payloads) ensures payloads == files {
          assert payloads.Keys == files.Keys;
        }
      }
    } else if MANIFEST_NAME !in files {
      ArchiveMembers(files, m, f);
    }
  }

  lemma IntactPortable(files: Files, m: Manifest, f: Format, a: Archive)
    requires Lossless(f) && MANIFEST_NAME !in files
    requires Elements(Names(a)) == files.Keys + {MANIFEST_NAME}
    requires HeaderOf(a, f) == Some(m) && Intact(a, f)
    ensures Portable(files, f)
  {
    hide HeaderOf, NoDuplicates, Names, Find;
    forall p | p in files ensures f.normalize(p) == Some(p) {
      assert p in Elements(Targets(f, m.files));
      var i :| 0 <= i < |m.files| && Targets(f, m.files)[i] == p;
      assert EntryHolds(a, f, m.files[i]);
    }
  }
}
