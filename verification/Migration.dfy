/** Applying a migration plan: backup, journal, drift check and write per record, validation, and rollback
    through the backup. */
module Migrations {
  import opened Evidence
  import opened Orders
  import opened Backups

  /** A record to rewrite: the canonical form it must still have, and its new bytes. */
  datatype Planned = Planned(path: Path, before: Bytes, after: Bytes)
  datatype Plan = Plan(id: string, supported: bool, changes: seq<Planned>)

  datatype Status = Applying | Complete | RolledBackTo

  /** `canonical` reads a record and gives its canonical bytes, or nothing when it cannot be read. */
  datatype Rules = Rules(
    format: Format,
    project: string,
    createdAt: string,
    canonical: Bytes -> Option<Bytes>,
    layoutSound: Files -> bool,
    valid: Files -> bool,
    failAfter: Option<int>)

  datatype Outcome =
    | Returned
    | RaisedBefore    // before the first record is written: nothing to undo
    | RolledBack      // raised, after the backup was written back
    | RollbackFailed  // raised with the backup named in the error
    | RaisedAtClose   // raised by the write that marks the journal complete
    | Died

  // ----- what a plan does -----

  function ApplyPlan(files: Files, changes: seq<Planned>): Files {
    if changes == [] then files
    else ApplyPlan(files, changes[..|changes| - 1])[changes[|changes| - 1].path := changes[|changes| - 1].after]
  }

  /** The record still has the content the plan was made from. */
  predicate Current(files: Files, c: Planned, rules: Rules) {
    c.path in files && rules.canonical(files[c.path]) == Some(c.before)
  }

  /** Every planned file is there, can be read, and has exactly the canonical form the plan was made from. */
  ghost predicate Undrifted(files: Files, changes: seq<Planned>, rules: Rules) {
    forall i :: 0 <= i < |changes| ==>
      && changes[i].path in files && rules.canonical(files[changes[i].path]).Some?
      && rules.canonical(files[changes[i].path]).value == changes[i].before
  }

  ghost predicate DistinctPaths(changes: seq<Planned>) {
    forall i, j :: 0 <= i < j < |changes| ==> changes[i].path != changes[j].path
  }

  predicate NoDrift(files: Files, changes: seq<Planned>, rules: Rules) {
    if changes == [] then true
    else
      var n := |changes| - 1;
      NoDrift(files, changes[..n], rules) && Current(ApplyPlan(files, changes[..n]), changes[n], rules)
  }

  predicate Injected(rules: Rules, n: nat) {
    rules.failAfter.Some? && n >= 1 && n >= rules.failAfter.value
  }

  /** The plan runs to its end: no drift at any step, no injected failure, and a valid result. */
  predicate Succeeds(files: Files, changes: seq<Planned>, rules: Rules) {
    NoDrift(files, changes, rules) && !Injected(rules, |changes|) && rules.valid(ApplyPlan(files, changes))
  }

  function BackupOf(files: Files, rules: Rules): Archive {
    ArchiveOf(files, ManifestFor(files, rules.project, rules.createdAt), rules.format)
  }

  /** The same files; each holds its old bytes or bytes the plan names for it. */
  ghost predicate Between(files: Files, now: Files, changes: seq<Planned>) {
    && now.Keys == files.Keys
    && forall p :: p in files ==> now[p] == files[p] || Plans(changes, p, now[p])
  }

  ghost predicate Plans(changes: seq<Planned>, p: Path, body: Bytes) {
    exists i :: 0 <= i < |changes| && changes[i].path == p && changes[i].after == body
  }

  lemma {:induction false} ApplyOutside(files: Files, changes: seq<Planned>, p: Path)
    requires forall i :: 0 <= i < |changes| ==> changes[i].path != p
    ensures p in ApplyPlan(files, changes) <==> p in files
    ensures p in files ==> ApplyPlan(files, changes)[p] == files[p]
  {
    if changes != [] { ApplyOutside(files, changes[..|changes| - 1], p); }
  }

  lemma {:induction false} ApplyAt(files: Files, changes: seq<Planned>, k: nat)
    requires k < |changes| && forall i :: k < i < |changes| ==> changes[i].path != changes[k].path
    ensures changes[k].path in ApplyPlan(files, changes)
    ensures ApplyPlan(files, changes)[changes[k].path] == changes[k].after
  {
    if k < |changes| - 1 { ApplyAt(files, changes[..|changes| - 1], k); }
  }

  /** For distinct paths the drift checks along the way amount to one look at the files before the call. */
  lemma {:induction false} DriftIsSeenBefore(files: Files, changes: seq<Planned>, rules: Rules)
    requires DistinctPaths(changes)
    ensures NoDrift(files, changes, rules) <==> Undrifted(files, changes, rules)
  {
    if changes != [] {
      var n := |changes| - 1;
      DriftIsSeenBefore(files, changes[..n], rules);
      ApplyOutside(files, changes[..n], changes[n].path);
      if Undrifted(files, changes, rules) {
        forall i | 0 <= i < n
          ensures && changes[i].path in files && rules.canonical(files[changes[i].path]).Some?
                  && rules.canonical(files[changes[i].path]).value == changes[i].before
        {}
        assert Undrifted(files, changes[..n], rules);
      }
      if Undrifted(files, changes[..n], rules) {
        forall i | 0 <= i < n
          ensures && changes[i].path in files && rules.canonical(files[changes[i].path]).Some?
                  && rules.canonical(files[changes[i].path]).value == changes[i].before
        {
          assert changes[..n][i] == changes[i];
        }
      }
    }
  }

  /** A plan with distinct paths that ran to its end changed exactly its own files, each to its planned bytes, and
      each had the planned content before. */
  lemma {:induction false} PlannedExactly(files: Files, changes: seq<Planned>, rules: Rules)
    requires NoDrift(files, changes, rules) && DistinctPaths(changes)
    ensures var now := ApplyPlan(files, changes);
            && now.Keys == files.Keys
            && (forall i :: 0 <= i < |changes| ==> changes[i].path in now && now[changes[i].path] == changes[i].after)
            && Undrifted(files, changes, rules)
            && (forall p :: p in files && (forall i :: 0 <= i < |changes| ==> changes[i].path != p) ==>
                  now[p] == files[p])
  {
    KeysKept(files, changes, rules);
    DriftIsSeenBefore(files, changes, rules);
    forall i | 0 <= i < |changes|
      ensures changes[i].path in ApplyPlan(files, changes)
              && ApplyPlan(files, changes)[changes[i].path] == changes[i].after
    {
      ApplyAt(files, changes, i);
    }
    forall p | p in files && (forall i :: 0 <= i < |changes| ==> changes[i].path != p)
      ensures ApplyPlan(files, changes)[p] == files[p]
    {
      ApplyOutside(files, changes, p);
    }
  }

  lemma {:induction false} KeysKept(files: Files, changes: seq<Planned>, rules: Rules)
    requires NoDrift(files, changes, rules)
    ensures ApplyPlan(files, changes).Keys == files.Keys
  {
    if changes != [] { KeysKept(files, changes[..|changes| - 1], rules); }
  }

  /** For distinct paths, what has to hold before the call for the plan to run to its end. An injected failure strikes
      once as many records are written as it says, and never without a write. */
  lemma SucceedsIff(files: Files, changes: seq<Planned>, rules: Rules)
    requires DistinctPaths(changes)
    ensures Succeeds(files, changes, rules) <==>
              && Undrifted(files, changes, rules) && rules.valid(ApplyPlan(files, changes))
              && (changes == [] || rules.failAfter.None? || rules.failAfter.value > |changes|)
  {
    DriftIsSeenBefore(files, changes, rules);
  }

  lemma {:induction false} StepCurrent(files: Files, changes: seq<Planned>, rules: Rules, i: nat)
    requires i < |changes| && NoDrift(files, changes, rules)
    ensures Current(ApplyPlan(files, changes[..i]), changes[i], rules)
  {
    if i < |changes| - 1 {
      StepCurrent(files, changes[..|changes| - 1], rules, i);
      assert changes[..|changes| - 1][..i] == changes[..i];
    }
  }

  /** How the call ends when only its last write is left. */
  function Closing(f: Fault): Outcome {
    match f
    case Works => Returned
    case Fails => RaisedAtClose
    case Crashes => Died
  }

  ghost predicate WorkUntil(faults: nat -> Fault, from: nat, to: nat) {
    forall k :: from <= k < to ==> faults(k) == Works
  }

  /** The write that marks the journal complete: after the backup, the journal and one write per change. */
  function ClosingWrite(plan: Plan, tick: nat): nat {
    tick + 2 + |plan.changes|
  }

  /** Before the call: the plan will run to its end and every write before the closing one will work. */
  ghost predicate ReachesClose(files: Files, plan: Plan, rules: Rules, faults: nat -> Fault, tick: nat) {
    && plan.supported && rules.layoutSound(files) && SizesFit(files)
    && Succeeds(files, plan.changes, rules) && WorkUntil(faults, tick, ClosingWrite(plan, tick))
  }

  /** Before the call: only the closing write will fail. */
  ghost predicate CloseFails(files: Files, plan: Plan, rules: Rules, faults: nat -> Fault, tick: nat) {
    ReachesClose(files, plan, rules, faults, tick) && faults(ClosingWrite(plan, tick)) == Fails
  }

  /** The call raised, and not with a rollback-failed error. */
  ghost predicate RaisedCleanly(out: Outcome) {
    out == RaisedBefore || out == RolledBack || out == RaisedAtClose
  }

  // ----- the project object -----

  class Project {
    var files: Files
    var backups: seq<Archive>
    var journals: map<string, Status>
    var tick: nat
    const faults: nat -> Fault

    constructor (files: Files, faults: nat -> Fault)
      ensures this.files == files && backups == [] && journals == map[] && tick == 0 && this.faults == faults
    {
      this.files, this.faults := files, faults;
      backups, journals, tick := [], map[], 0;
    }

    method WriteFile(p: Path, body: Bytes) returns (f: Fault)
      modifies `files, `tick
      ensures f == faults(old(tick)) && tick == old(tick) + 1
      ensures files == if f == Works then old(files)[p := body] else old(files)
    {
      f := faults(tick);
      tick := tick + 1;
      if f == Works { files := files[p := body]; }
    }

    method WriteBackup(a: Archive) returns (f: Fault)
      modifies `backups, `tick
      ensures f == faults(old(tick)) && tick == old(tick) + 1
      ensures backups == if f == Works then old(backups) + [a] else old(backups)
    {
      f := faults(tick);
      tick := tick + 1;
      if f == Works { backups := backups + [a]; }
    }

    method WriteJournal(id: string, status: Status) returns (f: Fault)
      modifies `journals, `tick
      ensures f == faults(old(tick)) && tick == old(tick) + 1
      ensures journals == if f == Works then old(journals)[id := status] else old(journals)
    {
      f := faults(tick);
      tick := tick + 1;
      if f == Works { journals := journals[id := status]; }
    }

    /** The loop over the planned records: how many it wrote, and what stopped it. */
    method WriteRecords(changes: seq<Planned>, rules: Rules) returns (n: nat, ok: bool, died: bool)
      modifies `files, `tick
      ensures n <= |changes| && tick >= old(tick)
      ensures NoDrift(old(files), changes[..n], rules) && files == ApplyPlan(old(files), changes[..n])
      ensures ok ==> n == |changes| && !Injected(rules, n) && !died && tick == old(tick) + n
      ensures ok ==> WorkUntil(faults, old(tick), tick)
      ensures WorkUntil(faults, old(tick), old(tick) + |changes|) ==>
                !died && (ok <==> NoDrift(old(files), changes, rules) && !Injected(rules, |changes|))
      ensures died <==> Last(faults, old(tick), tick) == Crashes
    {
      hide Current;
      n, ok, died := 0, false, false;
      while n < |changes|
        invariant 0 <= n <= |changes| && tick == old(tick) + n
        invariant NoDrift(old(files), changes[..n], rules) && files == ApplyPlan(old(files), changes[..n])
        invariant !Injected(rules, n) && WorkUntil(faults, old(tick), tick)
        invariant !died && Last(faults, old(tick), tick) != Crashes
      {
        var c := changes[n];
        assert changes[..n + 1][..n] == changes[..n];
        if !Current(files, c, rules) {
          if NoDrift(old(files), changes, rules) { StepCurrent(old(files), changes, rules, n); }
          return;
        }
        var f := WriteFile(c.path, c.after);
        if f != Works { died := f == Crashes; return; }
        n := n + 1;
        if Injected(rules, n) { return; }
      }
      assert changes[..n] == changes;
      ok := true;
    }

    /** `restore_backup_over_project`. */
    method RestoreOver(a: Archive, rules: Rules) returns (f: Fault, ghost read: Option<Files>)
      modifies `files, `tick
      ensures tick >= old(tick)
      ensures read.Some? <==> Intact(a, rules.format)
      ensures read.Some? ==> Carries(a, rules.format, HeaderOf(a, rules.format).value.files, read.value)
      ensures read.None? ==> f == Fails && files == old(files)
      ensures read.Some? ==> Overlaid(old(files), files, read.value)
      ensures f == Works ==> read.Some? && files == old(files) + read.value
      ensures Calm(faults, old(tick)) ==> (f == if Intact(a, rules.format) then Works else Fails)
      ensures f == Crashes <==> Last(faults, old(tick), tick) == Crashes
    {
      hide Intact, Carries, HeaderOf, StrictlyIncreasing, NoDuplicates, Elements, Overlaid, WrittenBack, SortedSet;
      var backup := ReadVerifiedBackup(a, rules.format);
      if backup.None? { return Fails, None; }
      var members := backup.value.1;
      read := Some(members);
      var paths := SortedSet(members.Keys);
      var i := 0;
      f := Works;
      NothingWritten(files, members, paths);
      while i < |paths|
        invariant 0 <= i <= |paths| && tick >= old(tick) && f == Works
        invariant WrittenBack(old(files), members, Elements(paths[..i]), files)
        invariant Last(faults, old(tick), tick) != Crashes
      {
        MemberWritten(old(files), members, paths, i, files);
        f := WriteFile(paths[i], members[paths[i]]);
        if f != Works { return; }
        i := i + 1;
      }
      assert paths[..i] == paths;
      AllWritten(old(files), members, files);
    }

    /** `apply_migration` with the writer lock held. */
    method ApplyMigration(plan: Plan, rules: Rules) returns (out: Outcome)
      requires Lossless(rules.format)
      modifies this
      // Returned: the plan ran to its end, and the files are exactly its result.
      ensures out == Returned || out == RaisedAtClose ==>
                Succeeds(old(files), plan.changes, rules) && files == ApplyPlan(old(files), plan.changes)
      ensures out == Returned ==> plan.id in journals && journals[plan.id] == Complete
      // Raised without a rollback-failed error, except by the closing write: every file as before the call.
      ensures out == RaisedBefore || out == RolledBack ==> files == old(files)
      ensures out == RolledBack ==> plan.id in journals && journals[plan.id] == RolledBackTo
      // However it ended: no file outside the plan changed, and what changed is in the backup.
      ensures Between(old(files), files, plan.changes)
      ensures backups == old(backups) + [BackupOf(old(files), rules)]
              || (backups == old(backups) && files == old(files))
      // Without faults.
      ensures Calm(faults, old(tick)) ==>
                out == if !plan.supported || !rules.layoutSound(old(files)) || !SizesFit(old(files)) then RaisedBefore
                       else if Succeeds(old(files), plan.changes, rules) then Returned
                       else if Intact(BackupOf(old(files), rules), rules.format) then RolledBack
                       else RollbackFailed
      // The write that marks the journal complete is outside the rollback. Exactly when it is the one that
      // fails, the call raises with the migration in place.
      ensures out == RaisedAtClose <==> CloseFails(old(files), plan, rules, faults, old(tick))
      ensures out == Returned <==>
                ReachesClose(old(files), plan, rules, faults, old(tick))
                  && faults(ClosingWrite(plan, old(tick))) == Works
      // A planned file that is missing, unreadable or edited: the migration never takes effect, and without faults
      // an intact backup puts every file back.
      ensures DistinctPaths(plan.changes) && !Undrifted(old(files), plan.changes, rules) ==>
                && out != Returned && out != RaisedAtClose
                && (Calm(faults, old(tick)) && Intact(BackupOf(old(files), rules), rules.format) ==>
                      files == old(files))
      // The process dies exactly when the last write it got to ended it.
      ensures tick >= old(tick) && (out == Died <==> Last(faults, old(tick), tick) == Crashes)
      ensures RaisedCleanly(out) ==>
                (files != old(files) <==>
                   CloseFails(old(files), plan, rules, faults, old(tick))
                   && ApplyPlan(old(files), plan.changes) != old(files))
    {
      hide Lossless, Intact, SizesFit, Between, ApplyPlan, Succeeds, BackupOf, Undrifted, NoDrift;
      Untouched(files, plan.changes);
      if DistinctPaths(plan.changes) { SucceedsIff(files, plan.changes, rules); }
      var stop, archive := Begin(plan, rules);
      if stop.Some? { return stop.value; }
      out := Perform(plan, rules, archive);
    }

    /** Everything up to the journal that says applying; no record file is touched. */
    method Begin(plan: Plan, rules: Rules) returns (stop: Option<Outcome>, archive: Archive)
      modifies `backups, `journals, `tick
      ensures stop.None? <==>
                && plan.supported && rules.layoutSound(files) && SizesFit(files)
                && WorkUntil(faults, old(tick), old(tick) + 2)
      ensures stop.None? ==> tick == old(tick) + 2 && archive == BackupOf(files, rules)
      ensures stop.None? ==> backups == old(backups) + [archive]
      ensures backups == old(backups) || backups == old(backups) + [BackupOf(files, rules)]
      ensures stop.Some? ==> stop.value == RaisedBefore || stop.value == Died
      ensures stop.Some? && Calm(faults, old(tick)) ==> stop.value == RaisedBefore
      ensures tick >= old(tick) && (stop == Some(Died) <==> Last(faults, old(tick), tick) == Crashes)
    {
      hide SizesFit, BackupOf, ManifestFor;
      archive := [];
      if !plan.supported { return Some(RaisedBefore), archive; }
      if !rules.layoutSound(files) { return Some(RaisedBefore), archive; }
      var made := MakeManifest(files, rules.project, rules.createdAt);
      if made.None? { return Some(RaisedBefore), archive; }
      archive := ArchiveOf(files, made.value.0, rules.format);
      BackupIs(files, rules, made.value.0);
      var f := WriteDown(plan.id, archive);
      stop := match f case Works => None case Fails => Some(RaisedBefore) case Crashes => Some(Died);
    }

    /** The backup and the journal that says applying. */
    method WriteDown(id: string, archive: Archive) returns (f: Fault)
      modifies `backups, `journals, `tick
      ensures old(tick) < tick && f == Last(faults, old(tick), tick)
      ensures f == Works ==> tick == old(tick) + 2 && backups == old(backups) + [archive]
      ensures f == Works <==> WorkUntil(faults, old(tick), old(tick) + 2)
      ensures backups == old(backups) || backups == old(backups) + [archive]
    {
      f := WriteBackup(archive);
      if f != Works { return; }
      f := WriteJournal(id, Applying);
    }

    /** Everything after the journal says applying. */
    method Perform(plan: Plan, rules: Rules, archive: Archive) returns (out: Outcome)
      requires Lossless(rules.format) && SizesFit(files) && archive == BackupOf(files, rules)
      modifies `files, `journals, `tick
      ensures out != RaisedBefore
      ensures out == Returned || out == RaisedAtClose ==>
                Succeeds(old(files), plan.changes, rules) && files == ApplyPlan(old(files), plan.changes)
      ensures out == Returned ==> plan.id in journals && journals[plan.id] == Complete
      ensures out == RolledBack ==> files == old(files) && plan.id in journals && journals[plan.id] == RolledBackTo
      ensures Between(old(files), files, plan.changes)
      ensures Calm(faults, old(tick)) ==>
                out == if Succeeds(old(files), plan.changes, rules) then Returned
                       else if Intact(archive, rules.format) then RolledBack
                       else RollbackFailed
      ensures var close := old(tick) + |plan.changes|;
              var reached := Succeeds(old(files), plan.changes, rules) && WorkUntil(faults, old(tick), close);
              && (out == RaisedAtClose <==> reached && faults(close) == Fails)
              && (out == Returned <==> reached && faults(close) == Works)
      ensures tick >= old(tick) && (out == Died <==> Last(faults, old(tick), tick) == Crashes)
    {
      hide Lossless, Intact, Carries, HeaderOf, SizesFit, Between, ApplyPlan, NoDrift, Injected, BackupOf;
      ghost var before := files;
      var n, ok, died := WriteRecords(plan.changes, rules);
      PrefixBetween(before, plan.changes, rules, n);
      if died { return Died; }
      assert n == |plan.changes| ==> plan.changes[..n] == plan.changes;
      if ok && rules.valid(files) {
        var f := WriteJournal(plan.id, Complete);
        return Closing(f);
      }
      ghost var moved := files;
      var f; ghost var read;
      f, read := RestoreOver(archive, rules);
      if read.Some? { RestoreBetween(before, moved, files, plan.changes, rules, read.value); }
      if f == Crashes { return Died; }
      if f == Fails { return RollbackFailed; }
      f := WriteJournal(plan.id, RolledBackTo);
      return if f == Works then RolledBack else if f == Crashes then Died else RollbackFailed;
    }
  }

  /** Every file is as it was or as the backup has it. */
  ghost predicate Overlaid(before: Files, now: Files, members: Files) {
    && before.Keys <= now.Keys <= before.Keys + members.Keys
    && forall p :: p in now ==> (p in before && now[p] == before[p]) || (p in members && now[p] == members[p])
  }

  /** The members under the given paths are written, and nothing else has changed. */
  ghost predicate WrittenBack(before: Files, members: Files, ps: set<Path>, now: Files) {
    now == before + (map p | p in members && p in ps :: members[p])
  }

  lemma NothingWritten(files: Files, members: Files, paths: seq<Path>)
    ensures WrittenBack(files, members, Elements(paths[..0]), files)
  {}

  lemma MemberWritten(before: Files, members: Files, paths: seq<Path>, i: nat, now: Files)
    requires Elements(paths) == members.Keys && i < |paths|
    requires WrittenBack(before, members, Elements(paths[..i]), now)
    ensures paths[i] in members && Overlaid(before, now, members)
    ensures WrittenBack(before, members, Elements(paths[..i + 1]), now[paths[i] := members[paths[i]]])
  {
    hide Elements, Overlaid;
    WrittenOverlays(before, members, Elements(paths[..i]), now);
    var p := paths[i];
    var done, more := Elements(paths[..i]), Elements(paths[..i + 1]);
    PathWritten(paths, i);
    assert (map q | q in members && q in more :: members[q])
        == (map q | q in members && q in done :: members[q])[p := members[p]];
  }

  lemma WrittenOverlays(before: Files, members: Files, ps: set<Path>, now: Files)
    requires WrittenBack(before, members, ps, now)
    ensures Overlaid(before, now, members)
  {}

  lemma PathWritten(paths: seq<Path>, i: nat)
    requires i < |paths|
    ensures paths[i] in Elements(paths) && Elements(paths[..i + 1]) == Elements(paths[..i]) + {paths[i]}
  {
    assert paths[..i + 1] == paths[..i] + [paths[i]];
    ElementsJoin(paths[..i], [paths[i]]);
    assert Elements([paths[i]]) == {paths[i]};
  }

  lemma AllWritten(before: Files, members: Files, now: Files)
    requires WrittenBack(before, members, members.Keys, now)
    ensures now == before + members && Overlaid(before, now, members)
  {
    WrittenOverlays(before, members, members.Keys, now);
    assert (map p | p in members && p in members.Keys :: members[p]) == members;
  }

  lemma Untouched(files: Files, changes: seq<Planned>)
    ensures Between(files, files, changes)
  {}

  lemma BackupIs(files: Files, rules: Rules, m: Manifest)
    requires m == ManifestFor(files, rules.project, rules.createdAt)
    ensures ArchiveOf(files, m, rules.format) == BackupOf(files, rules)
  {}

  lemma {:induction false} ApplyNames(files: Files, changes: seq<Planned>, p: Path)
    requires p in ApplyPlan(files, changes) && p in files
    ensures ApplyPlan(files, changes)[p] == files[p] || Plans(changes, p, ApplyPlan(files, changes)[p])
  {
    if changes != [] {
      var n := |changes| - 1;
      if changes[n].path != p {
        ApplyNames(files, changes[..n], p);
        if Plans(changes[..n], p, ApplyPlan(files, changes)[p]) {
          var i :| 0 <= i < n && changes[..n][i].path == p && changes[..n][i].after == ApplyPlan(files, changes)[p];
          assert changes[i].path == p;
        }
      }
    }
  }

  lemma PrefixBetween(files: Files, changes: seq<Planned>, rules: Rules, n: nat)
    requires n <= |changes| && NoDrift(files, changes[..n], rules)
    ensures Between(files, ApplyPlan(files, changes[..n]), changes)
  {
    hide ApplyPlan;
    var part := changes[..n];
    KeysKept(files, part, rules);
    forall p | p in files
      ensures ApplyPlan(files, part)[p] == files[p] || Plans(changes, p, ApplyPlan(files, part)[p])
    {
      ApplyNames(files, part, p);
      if Plans(part, p, ApplyPlan(files, part)[p]) {
        var i :| 0 <= i < n && part[i].path == p && part[i].after == ApplyPlan(files, part)[p];
        assert changes[i].path == p && changes[i].after == ApplyPlan(files, part)[p];
      }
    }
  }

  /** A rollback writes the old bytes, file by file. */
  lemma RestoreBetween(before: Files, moved: Files, now: Files, changes: seq<Planned>, rules: Rules, read: Files)
    requires Lossless(rules.format) && SizesFit(before) && Between(before, moved, changes)
    requires Intact(BackupOf(before, rules), rules.format)
    requires Carries(BackupOf(before, rules), rules.format,
                     HeaderOf(BackupOf(before, rules), rules.format).value.files, read)
    requires Overlaid(moved, now, read)
    ensures Between(before, now, changes) && moved + read == before
  {
    hide Intact, Carries, HeaderOf, SizesFit, Lossless, ManifestFor, ArchiveOf;
    RoundTrip(before, rules.project, rules.createdAt, rules.format);
    assert read == before;
  }

  /** With portable names the backup of a migration always reads back, so without faults a failed migration
      is always rolled back; with one name that is not portable it never is. */
  lemma RollbackNeedsPortableNames(files: Files, rules: Rules)
    requires Lossless(rules.format) && SizesFit(files)
    ensures Intact(BackupOf(files, rules), rules.format) <==>
              && Portable(files, rules.format) && MANIFEST_NAME !in files
              && |rules.format.encode(ManifestFor(files, rules.project, rules.createdAt))| <= MAX_BACKUP_ENTRY_BYTES
  {
    hide Intact, Portable, SizesFit, Lossless;
    RoundTrip(files, rules.project, rules.createdAt, rules.format);
  }

  // ----- a raise that leaves the migration in place -----

  const FACT := "memory/facts/F-1.json"

  const ONE_FILE: Files := map[FACT := [0]]

  const ONE_CHANGE := Plan("MIG-1", true, [Planned(FACT, [0], [1])])

  /** Every file is canonical, every result valid. */
  function AnyResult(f: Format): Rules {
    Rules(f, "project", "now", (b: Bytes) => Some(b), (files: Files) => true, (files: Files) => true, None)
  }

  /** The fourth write fails: after backup, journal and the one record, the closing one. */
  const FOURTH_FAILS: nat -> Fault := n => if n == 3 then Fails else Works

  lemma OneChangeCloseFails(f: Format)
    ensures CloseFails(ONE_FILE, ONE_CHANGE, AnyResult(f), FOURTH_FAILS, 0)
    ensures ApplyPlan(ONE_FILE, ONE_CHANGE.changes) == map[FACT := [1]] != ONE_FILE
  {
    var changes, rules := ONE_CHANGE.changes, AnyResult(f);
    assert changes[..0] == [];
    assert ApplyPlan(ONE_FILE, changes[..0]) == ONE_FILE;
    assert Current(ONE_FILE, changes[0], rules);
    assert NoDrift(ONE_FILE, changes[..0], rules);
    assert ApplyPlan(ONE_FILE, changes) == ONE_FILE[FACT := [1]];
    assert ONE_FILE[FACT] != [1];
    OneFileFits();
  }

  lemma OneFileFits()
    ensures SizesFit(ONE_FILE)
  {
    hide SortedSet, StrictlyIncreasing, NoDuplicates;
    var paths := SortedSet(ONE_FILE.Keys);
    assert |paths| == 1;
    assert paths[0] in Elements(paths);
    assert paths[..0] == [];
    assert Total(ONE_FILE, paths) == Total(ONE_FILE, paths[..0]) + 1;
  }

  /** Whatever the backup format, this call raises, reports no failed rollback, and has changed the file. */
  method RaiseAfterMigrating(f: Format) returns (project: Project, out: Outcome)
    requires Lossless(f)
    ensures fresh(project) && out == RaisedAtClose && RaisedCleanly(out) && project.files == map[FACT := [1]]
  {
    project := new Project(ONE_FILE, FOURTH_FAILS);
    OneChangeCloseFails(f);
    out := project.ApplyMigration(ONE_CHANGE, AnyResult(f));
  }
}
