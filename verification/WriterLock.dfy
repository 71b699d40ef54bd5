/** The writer lock as a protocol: any number of processes take and release a lock directory, some of
    them crash, and stale locks are quarantined and removed. One action is one filesystem operation,
    and actions of different processes interleave freely.

    A process is one `WriterLock` object. Its token is unique, so the process number serves as token. */
module WriterLocks {
  import opened Evidence

  type Proc = nat

  /** The content of `owner.json`: the token and everything else (pid, host, time). */
  datatype Owner = Owner(token: Proc, rest: nat)

  /** A lock directory, with or without its owner file. `maker` records whose `mkdir` or owner write
      created it; no step of the protocol reads it. */
  datatype Dir = Dir(owner: Option<Owner>, maker: Proc)

  datatype Pc =
    | Idle          // not in the lock
    | Made          // mkdir succeeded
    | Failing       // an exception other than FileExistsError is being handled
    | Sweeping      // the handler saw a directory without owner file
    | Holding       // acquired, at work
    | Verified      // releasing: the owner file carries this process's token
    | Unlinked      // releasing: the owner file is gone
    | Stopped       // crashed, or gave up on a release error

  /** One call of `recover_stale_writer_lock`. */
  datatype Recovery =
    | NotStarted
    | Confirmed(fingerprint: Digest<Option<Owner>>, token: Option<Proc>)
    | Moved(fingerprint: Digest<Option<Owner>>, token: Option<Proc>)
    | Reverified(fingerprint: Digest<Option<Owner>>, token: Option<Proc>)
    | Emptied
    | Finished
    | Preserved
    | Abandoned

  datatype State = State(
    lock: Option<Dir>,
    procs: seq<Pc>,
    recoveries: seq<Recovery>,
    quarantine: map<nat, Dir>)

  datatype Action =
    | Mkdir(p: Proc)
    | MkdirError(p: Proc)
    | WriteOwner(p: Proc, rest: nat)
    | WriteError(p: Proc)
    | HandlerLook(p: Proc)
    | HandlerRmdir(p: Proc)
    | VerifyToken(p: Proc)
    | UnlinkOwner(p: Proc)
    | Rmdir(p: Proc)
    | Crash(p: Proc)
    | Inspect(r: nat, expected: Digest<Option<Owner>>, expectedToken: Option<Proc>, stale: bool)
    | Rename(r: nat)
    | Reinspect(r: nat)
    | DeleteOwner(r: nat)
    | DeleteDir(r: nat)
    | AbandonRecovery(r: nat)

  function TokenOf(owner: Option<Owner>): Option<Proc> {
    match owner
    case None => None
    case Some(o) => Some(o.token)
  }

  /** The directory carries the confirmed fingerprint and token. */
  predicate Carries(d: Dir, fingerprint: Digest<Option<Owner>>, token: Option<Proc>) {
    Sha256(d.owner) == fingerprint && TokenOf(d.owner) == token
  }

  predicate EmptyLock(s: State) {
    s.lock.Some? && s.lock.value.owner == None
  }

  function SetPc(s: State, p: Proc, pc: Pc): State
    requires p < |s.procs|
  {
    s.(procs := s.procs[p := pc])
  }

  function SetRecovery(s: State, r: nat, rec: Recovery): State
    requires r < |s.recoveries|
  {
    s.(recoveries := s.recoveries[r := rec])
  }

  /** One action. An action whose process is not at that point changes nothing. */
  function Next(s: State, a: Action): State {
    match a
    case Mkdir(p) =>
      if p < |s.procs| && s.procs[p] == Idle && s.lock == None
      then SetPc(s, p, Made).(lock := Some(Dir(None, p))) else s
    case MkdirError(p) =>
      if p < |s.procs| && s.procs[p] == Idle then SetPc(s, p, Failing) else s
    case WriteOwner(p, rest) =>
      // Writing the file recreates a missing directory and replaces whatever file is there.
      if p < |s.procs| && s.procs[p] == Made
      then SetPc(s, p, Holding).(lock := Some(Dir(Some(Owner(p, rest)),
                                                  if s.lock.Some? then s.lock.value.maker else p)))
      else s
    case WriteError(p) =>
      if p < |s.procs| && s.procs[p] == Made then SetPc(s, p, Failing) else s
    case HandlerLook(p) =>
      if p < |s.procs| && s.procs[p] == Failing then SetPc(s, p, if EmptyLock(s) then Sweeping else Idle) else s
    case HandlerRmdir(p) =>
      if p < |s.procs| && s.procs[p] == Sweeping
      then SetPc(s, p, Idle).(lock := if EmptyLock(s) then None else s.lock) else s
    case VerifyToken(p) =>
      if p < |s.procs| && s.procs[p] == Holding
      then SetPc(s, p, if s.lock.Some? && TokenOf(s.lock.value.owner) == Some(p) then Verified else Stopped) else s
    case UnlinkOwner(p) =>
      if p < |s.procs| && s.procs[p] == Verified then
        if s.lock.Some? && s.lock.value.owner.Some?
        then SetPc(s, p, Unlinked).(lock := Some(s.lock.value.(owner := None)))
        else SetPc(s, p, Stopped)
      else s
    case Rmdir(p) =>
      if p < |s.procs| && s.procs[p] == Unlinked then
        if EmptyLock(s) then SetPc(s, p, Idle).(lock := None) else SetPc(s, p, Stopped)
      else s
    case Crash(p) =>
      if p < |s.procs| then SetPc(s, p, Stopped) else s
    case Inspect(r, expected, expectedToken, stale) =>
      if r < |s.recoveries| && s.recoveries[r] == NotStarted then
        if s.lock.Some? && stale && Carries(s.lock.value, expected, expectedToken)
        then SetRecovery(s, r, Confirmed(expected, expectedToken))
        else SetRecovery(s, r, Abandoned)
      else s
    case Rename(r) =>
      if r < |s.recoveries| && s.recoveries[r].Confirmed? then
        if s.lock.Some?
        then SetRecovery(s, r, Moved(s.recoveries[r].fingerprint, s.recoveries[r].token))
             .(lock := None, quarantine := s.quarantine[r := s.lock.value])
        else SetRecovery(s, r, Abandoned)
      else s
    case Reinspect(r) =>
      if r < |s.recoveries| && s.recoveries[r].Moved? && r in s.quarantine then
        var rec := s.recoveries[r];
        if Carries(s.quarantine[r], rec.fingerprint, rec.token)
        then SetRecovery(s, r, Reverified(rec.fingerprint, rec.token))
        else SetRecovery(s, r, Preserved)
      else s
    case DeleteOwner(r) =>
      if r < |s.recoveries| && s.recoveries[r].Reverified? && r in s.quarantine
      then SetRecovery(s, r, Emptied).(quarantine := s.quarantine[r := s.quarantine[r].(owner := None)]) else s
    case DeleteDir(r) =>
      if r < |s.recoveries| && s.recoveries[r].Emptied? && r in s.quarantine
      then SetRecovery(s, r, Finished).(quarantine := s.quarantine - {r}) else s
    case AbandonRecovery(r) =>
      if r < |s.recoveries| then SetRecovery(s, r, Abandoned) else s
  }

  function Exec(s: State, run: seq<Action>): State
    decreases |run|
  {
    if run == [] then s else Exec(Next(s, run[0]), run[1..])
  }

  function Start(processes: nat, recoveries: nat): State {
    State(None, seq(processes, _ => Idle), seq(recoveries, _ => NotStarted), map[])
  }

  // ----- mutual exclusion -----

  /** The process is between its own successful mkdir and the end of its release. */
  predicate Inside(s: State, p: Proc) {
    p < |s.procs| && s.procs[p] in {Made, Failing, Sweeping, Holding, Verified, Unlinked}
  }

  ghost predicate MutualExclusion(s: State) {
    forall p: Proc, q: Proc :: Inside(s, p) && Inside(s, q) ==> p == q
  }

  ghost predicate MakerStopped(s: State) {
    s.lock.Some? && s.lock.value.maker < |s.procs| && s.procs[s.lock.value.maker] == Stopped
  }

  ghost predicate RenamePending(s: State, r: nat) {
    r < |s.recoveries| && s.recoveries[r].Confirmed?
  }

  /** What the protocol needs from its surroundings, in three parts.
      `mkdir` fails only because the directory exists. */
  ghost predicate PlainMkdir(s: State, a: Action) {
    !a.MkdirError?
  }

  /** A recovery starts only against a lock whose owner has stopped. */
  ghost predicate OwnerStopped(s: State, a: Action) {
    a.Inspect? && s.lock.Some? ==> MakerStopped(s)
  }

  /** A recovery starts only when no other one stands between its inspection and its rename. */
  ghost predicate OneRecovery(s: State, a: Action) {
    a.Inspect? ==> forall r: nat :: !RenamePending(s, r)
  }

  ghost predicate Disciplined(s: State, a: Action) {
    PlainMkdir(s, a) && OwnerStopped(s, a) && OneRecovery(s, a)
  }

  ghost predicate Obeys(s: State, run: seq<Action>, rule: (State, Action) -> bool)
    decreases |run|
  {
    run != [] ==> rule(s, run[0]) && Obeys(Next(s, run[0]), run[1..], rule)
  }

  ghost predicate LockInv(s: State) {
    && (forall p: Proc :: Inside(s, p) ==>
          && s.lock.Some? && s.lock.value.maker == p
          && (s.procs[p] in {Made, Failing, Sweeping, Unlinked} ==> s.lock.value.owner == None)
          && (s.procs[p] in {Holding, Verified} ==> TokenOf(s.lock.value.owner) == Some(p)))
    && (s.lock.Some? ==> s.lock.value.maker < |s.procs|)
    && (s.lock.Some? ==> Inside(s, s.lock.value.maker) || MakerStopped(s))
    && (forall r: nat :: RenamePending(s, r) ==> MakerStopped(s))
    && (forall r: nat, q: nat :: RenamePending(s, r) && RenamePending(s, q) ==> r == q)
  }

  lemma ProcStepKeepsInv(s: State, a: Action)
    requires LockInv(s) && Disciplined(s, a)
    requires !a.Inspect? && !a.Rename? && !a.Reinspect? && !a.DeleteOwner? && !a.DeleteDir? && !a.AbandonRecovery?
    ensures LockInv(Next(s, a))
  {
    var t := Next(s, a);
    assert t.recoveries == s.recoveries;
    forall r: nat ensures RenamePending(t, r) == RenamePending(s, r) {}
    forall p: Proc | p != a.p ensures Inside(t, p) == Inside(s, p) {}
    assert a.p < |s.procs| ==> t != s ==> (Inside(s, a.p) || s.procs[a.p] == Idle || a.Crash?);
  }

  lemma RecoveryStepKeepsInv(s: State, a: Action)
    requires LockInv(s) && Disciplined(s, a)
    requires a.Inspect? || a.Rename? || a.Reinspect? || a.DeleteOwner? || a.DeleteDir? || a.AbandonRecovery?
    ensures LockInv(Next(s, a))
  {
    var t := Next(s, a);
    assert t.procs == s.procs;
    forall p: Proc ensures Inside(t, p) == Inside(s, p) {}
    forall r: nat | r != a.r ensures RenamePending(t, r) == RenamePending(s, r) {}
    assert RenamePending(s, a.r) ==> MakerStopped(s) && !Inside(s, s.lock.value.maker);
  }

  lemma {:induction false} RunKeepsInv(s: State, run: seq<Action>)
    requires LockInv(s) && Obeys(s, run, Disciplined)
    ensures LockInv(Exec(s, run))
    decreases |run|
  {
    hide LockInv, Next;
    if run != [] {
      var a := run[0];
      if a.Inspect? || a.Rename? || a.Reinspect? || a.DeleteOwner? || a.DeleteDir? || a.AbandonRecovery? {
        RecoveryStepKeepsInv(s, a);
      } else {
        ProcStepKeepsInv(s, a);
      }
      RunKeepsInv(Next(s, a), run[1..]);
    }
  }

  /** However many processes interleave, crash and are recovered, at most one is inside the lock. */
  lemma AtMostOneHolder(processes: nat, recoveries: nat, run: seq<Action>)
    requires Obeys(Start(processes, recoveries), run, Disciplined)
    ensures MutualExclusion(Exec(Start(processes, recoveries), run))
  {
    assert LockInv(Start(processes, recoveries));
    RunKeepsInv(Start(processes, recoveries), run);
  }

  // ----- acquire and release -----

  lemma ExecThree(s: State, a: Action, b: Action, c: Action)
    ensures Exec(s, [a, b, c]) == Next(Next(Next(s, a), b), c)
  {
    hide Next;
    assert [a, b, c][1..] == [b, c] && [b, c][1..] == [c] && [c][1..] == [];
    var s1 := Next(s, a);
    var s2 := Next(s1, b);
    assert Exec(s2, [c]) == Next(s2, c);
    assert Exec(s1, [b, c]) == Exec(s2, [c]);
  }

  /** In every state a disciplined run reaches in which the lock is free, nobody is inside, and any idle process
      that is not interrupted gets the lock, with its own token in the owner file, and is then alone inside. */
  lemma FreeLockAdmits(processes: nat, recoveries: nat, run: seq<Action>, p: Proc, rest: nat)
    requires Obeys(Start(processes, recoveries), run, Disciplined)
    requires var s := Exec(Start(processes, recoveries), run); s.lock == None && p < |s.procs| && s.procs[p] == Idle
    ensures var s := Exec(Start(processes, recoveries), run);
            var t := Next(Next(s, Mkdir(p)), WriteOwner(p, rest));
            && (forall q: Proc :: !Inside(s, q))
            && t.procs[p] == Holding && t.lock == Some(Dir(Some(Owner(p, rest)), p))
            && (forall q: Proc :: Inside(t, q) <==> q == p)
  {
    var s := Exec(Start(processes, recoveries), run);
    assert LockInv(Start(processes, recoveries));
    RunKeepsInv(Start(processes, recoveries), run);
    forall q: Proc ensures !Inside(s, q) {}
    forall q: Proc | q != p ensures !Inside(SetPc(s, p, Holding), q) { assert !Inside(s, q); }
  }

  /** In every state a disciplined run reaches, a release that is not interrupted verifies its token, removes
      the owner file and the directory, and leaves the lock free; no other process is affected. */
  lemma HolderCanRelease(processes: nat, recoveries: nat, run: seq<Action>, p: Proc)
    requires Obeys(Start(processes, recoveries), run, Disciplined)
    requires var s := Exec(Start(processes, recoveries), run); p < |s.procs| && s.procs[p] == Holding
    ensures var s := Exec(Start(processes, recoveries), run);
            Exec(s, [VerifyToken(p), UnlinkOwner(p), Rmdir(p)]) == SetPc(s, p, Idle).(lock := None)
  {
    hide Next, Exec;
    var s := Exec(Start(processes, recoveries), run);
    assert LockInv(Start(processes, recoveries));
    RunKeepsInv(Start(processes, recoveries), run);
    ExecThree(s, VerifyToken(p), UnlinkOwner(p), Rmdir(p));
    ReleaseSteps(s, p);
  }

  lemma ReleaseSteps(s: State, p: Proc)
    requires p < |s.procs| && s.procs[p] == Holding && s.lock.Some? && TokenOf(s.lock.value.owner) == Some(p)
    ensures Next(Next(Next(s, VerifyToken(p)), UnlinkOwner(p)), Rmdir(p)) == SetPc(s, p, Idle).(lock := None)
  {}

  // ----- release under no discipline at all -----

  /** The lock directory carries an owner file with this process's token. */
  ghost predicate Owns(s: State, p: Proc) {
    match s.lock
    case None => false
    case Some(d) => match d.owner { case None => false case Some(o) => o.token == p }
  }

  /** Whatever has happened: a holder that does not find its own token stops, and its release touches neither the
      lock nor anybody else. */
  lemma ForeignLockIsKept(s: State, p: Proc)
    requires p < |s.procs| && s.procs[p] == Holding && !Owns(s, p)
    ensures Exec(s, [VerifyToken(p), UnlinkOwner(p), Rmdir(p)]) == s.(procs := s.procs[p := Stopped])
  {
    hide Next, Exec;
    ExecThree(s, VerifyToken(p), UnlinkOwner(p), Rmdir(p));
    StoppedRelease(s, p);
  }

  lemma StoppedRelease(s: State, p: Proc)
    requires p < |s.procs| && s.procs[p] == Holding && !Owns(s, p)
    ensures Next(Next(Next(s, VerifyToken(p)), UnlinkOwner(p)), Rmdir(p)) == s.(procs := s.procs[p := Stopped])
  {}

  /** In any run at all a process gets as far as removing the owner file exactly by checking, while it holds the lock,
      that the file carries its own token at that moment. */
  lemma VerifiedIffOwn(processes: nat, recoveries: nat, run: seq<Action>, a: Action, p: Proc)
    ensures var s := Exec(Start(processes, recoveries), run);
            var t := Next(s, a);
            p < |t.procs| && t.procs[p] == Verified && !(p < |s.procs| && s.procs[p] == Verified)
            <==> a == VerifyToken(p) && p < |s.procs| && s.procs[p] == Holding && Owns(s, p)
  {
    hide Exec, Start;
    VerifiedStep(Exec(Start(processes, recoveries), run), a, p);
  }

  lemma VerifiedStep(s: State, a: Action, p: Proc)
    ensures var t := Next(s, a);
            p < |t.procs| && t.procs[p] == Verified && !(p < |s.procs| && s.procs[p] == Verified)
            <==> a == VerifyToken(p) && p < |s.procs| && s.procs[p] == Holding && Owns(s, p)
  {}

  // ----- a crashed holder blocks everyone until recovery -----

  predicate TouchesNoLock(a: Action) {
    !a.Rename? && !a.MkdirError?
  }

  ghost predicate Blocked(s: State) {
    s.lock.Some? && forall p: Proc :: !Inside(s, p)
  }

  lemma BlockedStep(s: State, a: Action)
    requires Blocked(s) && TouchesNoLock(a)
    ensures Next(s, a).lock == s.lock && Blocked(Next(s, a))
  {
    forall p: Proc | p < |s.procs| ensures s.procs[p] in {Idle, Stopped} {
      assert !Inside(s, p);
      match s.procs[p] { case Idle => case Stopped => case _ => }
    }
  }

  lemma {:induction false} BlockedRun(s: State, run: seq<Action>)
    requires Blocked(s) && forall k :: 0 <= k < |run| ==> TouchesNoLock(run[k])
    ensures Exec(s, run).lock == s.lock && Blocked(Exec(s, run))
    decreases |run|
  {
    hide Next;
    if run != [] {
      assert TouchesNoLock(run[0]);
      BlockedStep(s, run[0]);
      forall k | 0 <= k < |run[1..]| ensures TouchesNoLock(run[1..][k]) { assert TouchesNoLock(run[k + 1]); }
      BlockedRun(Next(s, run[0]), run[1..]);
    }
  }

  /** From a crashed holder on, and as long as nobody renames the lock away, no process gets in. */
  lemma CrashedHolderBlocks(s: State, run: seq<Action>)
    requires LockInv(s) && MakerStopped(s)
    requires forall k :: 0 <= k < |run| ==> TouchesNoLock(run[k])
    ensures Exec(s, run).lock == s.lock
    ensures forall p: Proc :: !Inside(Exec(s, run), p)
  {
    forall p: Proc ensures !Inside(s, p) {}
    BlockedRun(s, run);
  }

  /** One undisturbed recovery frees the lock again, and the next process gets in. */
  lemma RecoveryUnblocks(s: State, r: nat, p: Proc)
    requires LockInv(s) && MakerStopped(s)
    requires r < |s.recoveries| && s.recoveries[r] == NotStarted
    requires p < |s.procs| && s.procs[p] == Idle
    ensures var owner := s.lock.value.owner;
            Inside(Next(Next(Next(s, Inspect(r, Sha256(owner), TokenOf(owner), true)), Rename(r)), Mkdir(p)), p)
  {}

  /** Left alone, a recovery against unchanged evidence goes through: lock and quarantined directory are gone. */
  lemma RecoveryCompletes(s: State, r: nat)
    requires s.lock.Some? && r < |s.recoveries| && s.recoveries[r] == NotStarted && r !in s.quarantine
    ensures var owner := s.lock.value.owner;
            var moved := Next(Next(s, Inspect(r, Sha256(owner), TokenOf(owner), true)), Rename(r));
            Next(Next(Next(moved, Reinspect(r)), DeleteOwner(r)), DeleteDir(r))
            == s.(lock := None, recoveries := s.recoveries[r := Finished])
  {
    hide Next;
    var d := s.lock.value;
    var moved := Next(Next(s, Inspect(r, Sha256(d.owner), TokenOf(d.owner), true)), Rename(r));
    RecoveryMoves(s, r);
    RecoveryDeletes(moved, r);
    assert s.quarantine[r := d] - {r} == s.quarantine;
  }

  lemma RecoveryMoves(s: State, r: nat)
    requires s.lock.Some? && r < |s.recoveries| && s.recoveries[r] == NotStarted
    ensures var d := s.lock.value;
            Next(Next(s, Inspect(r, Sha256(d.owner), TokenOf(d.owner), true)), Rename(r))
            == s.(lock := None, recoveries := s.recoveries[r := Moved(Sha256(d.owner), TokenOf(d.owner))],
                  quarantine := s.quarantine[r := d])
  {}

  lemma RecoveryDeletes(s: State, r: nat)
    requires r in s.quarantine && r < |s.recoveries|
    requires s.recoveries[r] == Moved(Sha256(s.quarantine[r].owner), TokenOf(s.quarantine[r].owner))
    ensures Next(Next(Next(s, Reinspect(r)), DeleteOwner(r)), DeleteDir(r))
            == s.(recoveries := s.recoveries[r := Finished], quarantine := s.quarantine - {r})
  {}

  // ----- what happens to lock and quarantine under any schedule whatever -----

  /** An owner file disappears or changes only when a process that made its directory writes it, when a process that
      verified its own token removes it, or when a confirmed recovery moves the directory, as it is, aside. */
  lemma OwnerFileStays(s: State, a: Action)
    requires s.lock.Some? && s.lock.value.owner.Some? && Next(s, a).lock != s.lock
    ensures || (a.WriteOwner? && a.p < |s.procs| && s.procs[a.p] == Made)
            || (a.UnlinkOwner? && a.p < |s.procs| && s.procs[a.p] == Verified
                && Next(s, a).lock == Some(Dir(None, s.lock.value.maker)))
            || (a.Rename? && RenamePending(s, a.r) && Next(s, a).lock == None
                && Next(s, a).quarantine == s.quarantine[a.r := s.lock.value])
  {}

  /** A process comes inside only from outside any acquisition and by its own `mkdir`, and unless that failed with an
      error, the lock was free; it ends inside a release only after an owner file was there for it to remove. */
  lemma EnteredOnlyByMkdir(s: State, a: Action, p: Proc)
    ensures Inside(Next(s, a), p) && !Inside(s, p) ==>
              && p < |s.procs| && s.procs[p] == Idle && (a == Mkdir(p) || a == MkdirError(p))
              && (a == Mkdir(p) ==> s.lock == None && Next(s, a).lock == Some(Dir(None, p)))
    ensures p < |s.procs| && s.procs[p] != Unlinked && Next(s, a).procs[p] == Unlinked ==>
              a == UnlinkOwner(p) && s.procs[p] == Verified && s.lock.Some? && s.lock.value.owner.Some?
  {}

  /** The recovery acts on evidence it has confirmed. */
  ghost predicate Confirming(r: Recovery) {
    r.Confirmed? || r.Moved? || r.Reverified?
  }

  /** At some point of the run the recovery was started as stale, with the fingerprint and token it was given, and the
      lock then held an owner file, or none, of exactly this fingerprint and token. */
  ghost predicate WasConfirmed(s: State, run: seq<Action>, r: nat, mark: Digest<Option<Owner>>, token: Option<Proc>) {
    exists k :: 0 <= k < |run| && run[k] == Inspect(r, mark, token, true)
                && var found := Exec(s, run[..k]).lock;
                   found.Some? && Sha256(found.value.owner) == mark && TokenOf(found.value.owner) == token
  }

  lemma {:induction false} ExecSplit(s: State, run: seq<Action>)
    requires run != []
    ensures Exec(s, run) == Next(Exec(s, run[..|run| - 1]), run[|run| - 1])
    decreases |run|
  {
    hide Next;
    if |run| > 1 {
      ExecSplit(Next(s, run[0]), run[1..]);
      assert run[1..][..|run| - 2] == run[..|run| - 1][1..];
    }
  }

  lemma ConfirmingStep(s: State, a: Action, r: nat)
    requires var t := Next(s, a); r < |t.recoveries| && Confirming(t.recoveries[r])
    ensures r < |s.recoveries|
    ensures var now := Next(s, a).recoveries[r];
            || (&& Confirming(s.recoveries[r]) && s.recoveries[r].fingerprint == now.fingerprint
                && s.recoveries[r].token == now.token)
            || (&& a == Inspect(r, now.fingerprint, now.token, true) && s.lock.Some?
                && Sha256(s.lock.value.owner) == now.fingerprint && TokenOf(s.lock.value.owner) == now.token)
  {}

  lemma {:induction false} ConfirmedOnce(s: State, run: seq<Action>, r: nat)
    requires forall q :: 0 <= q < |s.recoveries| ==> !Confirming(s.recoveries[q])
    requires var t := Exec(s, run); r < |t.recoveries| && Confirming(t.recoveries[r])
    ensures var rec := Exec(s, run).recoveries[r]; WasConfirmed(s, run, r, rec.fingerprint, rec.token)
    decreases |run|
  {
    hide Next;
    if run != [] {
      var n := |run| - 1;
      ExecSplit(s, run);
      var before := Exec(s, run[..n]);
      var rec := Exec(s, run).recoveries[r];
      ConfirmingStep(before, run[n], r);
      if Confirming(before.recoveries[r]) && before.recoveries[r].fingerprint == rec.fingerprint
         && before.recoveries[r].token == rec.token {
        ConfirmedOnce(s, run[..n], r);
        var k :| 0 <= k < n && run[..n][k] == Inspect(r, rec.fingerprint, rec.token, true)
                 && var found := Exec(s, run[..n][..k]).lock;
                    found.Some? && Sha256(found.value.owner) == rec.fingerprint
                    && TokenOf(found.value.owner) == rec.token;
        assert run[..n][..k] == run[..k];
        assert run[k] == Inspect(r, rec.fingerprint, rec.token, true);
      } else {
        assert run[n] == Inspect(r, rec.fingerprint, rec.token, true);
      }
    }
  }

  /** The renamed directory is still there. */
  ghost predicate InQuarantine(r: Recovery) {
    r.Moved? || r.Preserved? || r.Emptied?
  }

  /** A recovery that has checked a second time finds the owner file it confirmed. */
  ghost predicate Unchanged(s: State, r: nat)
    requires r < |s.recoveries| && s.recoveries[r].Reverified? && r in s.quarantine
  {
    && Sha256(s.quarantine[r].owner) == s.recoveries[r].fingerprint
    && TokenOf(s.quarantine[r].owner) == s.recoveries[r].token
  }

  ghost predicate QuarantineInv(s: State) {
    && (forall r: nat :: r < |s.recoveries| && s.recoveries[r].Reverified? ==> r in s.quarantine && Unchanged(s, r))
    && (forall r: nat :: r < |s.recoveries| && InQuarantine(s.recoveries[r]) ==>
          r in s.quarantine && (s.recoveries[r].Emptied? ==> s.quarantine[r].owner == None))
    && (forall r: nat :: r < |s.recoveries| && (s.recoveries[r].NotStarted? || s.recoveries[r].Confirmed?) ==>
          r !in s.quarantine)
  }

  lemma QuarantineStep(s: State, a: Action)
    requires QuarantineInv(s)
    ensures QuarantineInv(Next(s, a))
  {
    if a.Inspect? || a.Rename? || a.AbandonRecovery? {
      MoveKeepsEvidence(s, a);
    } else if a.Reinspect? || a.DeleteOwner? || a.DeleteDir? {
      RemovalKeepsEvidence(s, a);
    } else {
      assert Next(s, a).quarantine == s.quarantine && Next(s, a).recoveries == s.recoveries;
      forall r: nat | r < |s.recoveries| && s.recoveries[r].Reverified? ensures Unchanged(Next(s, a), r) {
        assert Unchanged(s, r);
      }
    }
  }

  lemma MoveKeepsEvidence(s: State, a: Action)
    requires a.Inspect? || a.Rename? || a.AbandonRecovery?
    requires QuarantineInv(s)
    ensures QuarantineInv(Next(s, a))
  {}

  lemma RemovalKeepsEvidence(s: State, a: Action)
    requires a.Reinspect? || a.DeleteOwner? || a.DeleteDir?
    requires QuarantineInv(s)
    ensures QuarantineInv(Next(s, a))
  {}

  lemma {:induction false} QuarantineRun(s: State, run: seq<Action>)
    requires QuarantineInv(s)
    ensures QuarantineInv(Exec(s, run))
    decreases |run|
  {
    hide QuarantineInv, Next;
    if run != [] {
      QuarantineStep(s, run[0]);
      QuarantineRun(Next(s, run[0]), run[1..]);
    }
  }

  /** Whenever recovery removes an owner file, in any run at all, it is the very file the recovery was started with
      when it stood in the lock and was taken for stale; and evidence that changed is kept. */
  lemma DeletesOnlyConfirmed(processes: nat, recoveries: nat, run: seq<Action>, r: nat)
    requires r < |Exec(Start(processes, recoveries), run).recoveries|
    ensures var s := Exec(Start(processes, recoveries), run);
            && (Next(s, DeleteOwner(r)) != s ==>
                  && r in s.quarantine
                  && WasConfirmed(Start(processes, recoveries), run, r, Sha256(s.quarantine[r].owner),
                                  TokenOf(s.quarantine[r].owner)))
            && (s.recoveries[r].Preserved? ==> r in s.quarantine)
  {
    hide WasConfirmed;
    var s := Exec(Start(processes, recoveries), run);
    assert QuarantineInv(Start(processes, recoveries));
    QuarantineRun(Start(processes, recoveries), run);
    if Next(s, DeleteOwner(r)) != s {
      ConfirmedOnce(Start(processes, recoveries), run, r);
      assert s.recoveries[r].Reverified? && Unchanged(s, r);
    }
  }

  /** In any run at all a quarantined owner file goes only when its own recovery deletes it, so only as confirmed. */
  lemma QuarantineIsKept(processes: nat, recoveries: nat, run: seq<Action>, a: Action, r: nat)
    requires var s := Exec(Start(processes, recoveries), run);
             r < |s.recoveries| && r in s.quarantine && s.quarantine[r].owner.Some?
    ensures var s := Exec(Start(processes, recoveries), run);
            var t := Next(s, a);
            !(r in t.quarantine && t.quarantine[r] == s.quarantine[r]) ==>
              && a == DeleteOwner(r)
              && WasConfirmed(Start(processes, recoveries), run, r, Sha256(s.quarantine[r].owner),
                              TokenOf(s.quarantine[r].owner))
  {
    hide WasConfirmed, Exec;
    assert QuarantineInv(Start(processes, recoveries));
    QuarantineRun(Start(processes, recoveries), run);
    DeletesOnlyConfirmed(processes, recoveries, run, r);
  }

  // ----- each part of the discipline is needed -----

  ghost predicate AllButPlainMkdir(s: State, a: Action) { OwnerStopped(s, a) && OneRecovery(s, a) }
  ghost predicate AllButOwnerStopped(s: State, a: Action) { PlainMkdir(s, a) && OneRecovery(s, a) }
  ghost predicate AllButOneRecovery(s: State, a: Action) { PlainMkdir(s, a) && OwnerStopped(s, a) }

  ghost predicate Reaches(s: State, t: State, rule: (State, Action) -> bool) {
    exists run :: Obeys(s, run, rule) && Exec(s, run) == t
  }

  lemma ReachesItself(s: State, rule: (State, Action) -> bool)
    ensures Reaches(s, s, rule)
  {
    assert Obeys(s, [], rule) && Exec(s, []) == s;
  }

  lemma ReachesFirst(s: State, a: Action, t: State, rule: (State, Action) -> bool)
    requires rule(s, a) && Reaches(Next(s, a), t, rule)
    ensures Reaches(s, t, rule)
  {
    var run :| Obeys(Next(s, a), run, rule) && Exec(Next(s, a), run) == t;
    assert ([a] + run)[1..] == run;
    assert Obeys(s, [a] + run, rule) && Exec(s, [a] + run) == t;
  }

  /** Process 0 has made its directory, and the handler of process 1 has removed it. */
  function Swept(): State { State(None, [Made, Idle, Idle], [], map[]) }

  lemma SweptLetsTwoIn() returns (t: State)
    ensures Reaches(Swept(), t, AllButPlainMkdir) && |t.procs| == 3 && t.procs[0] == t.procs[2] == Holding
  {
    hide Reaches, MakerStopped, RenamePending;
    var s4 := Swept();
    var s5 := State(Some(Dir(None, 2)), [Made, Idle, Made], [], map[]);
    var s6 := State(Some(Dir(Some(Owner(0, 0)), 2)), [Holding, Idle, Made], [], map[]);
    t := State(Some(Dir(Some(Owner(2, 0)), 2)), [Holding, Idle, Holding], [], map[]);
    assert s5 == Next(s4, Mkdir(2));
    assert s6 == Next(s5, WriteOwner(0, 0));
    assert t == Next(s6, WriteOwner(2, 0));
    ReachesItself(t, AllButPlainMkdir);
    ReachesFirst(s6, WriteOwner(2, 0), t, AllButPlainMkdir);
    ReachesFirst(s5, WriteOwner(0, 0), t, AllButPlainMkdir);
    ReachesFirst(s4, Mkdir(2), t, AllButPlainMkdir);
  }

  /** `mkdir` failing with another error sends a process into the handler, whose `rmdir` can remove the
      directory of a process that has not written its owner file yet. */
  lemma MkdirErrorBreaksExclusion()
    ensures exists t ::
              Reaches(Start(3, 0), t, AllButPlainMkdir) && |t.procs| == 3 && t.procs[0] == t.procs[2] == Holding
  {
    hide Reaches, MakerStopped, RenamePending;
    var t := SweptLetsTwoIn();
    var s0 := Start(3, 0);
    var s1 := State(Some(Dir(None, 0)), [Made, Idle, Idle], [], map[]);
    var s2 := s1.(procs := [Made, Failing, Idle]);
    var s3 := s1.(procs := [Made, Sweeping, Idle]);
    assert s1 == Next(s0, Mkdir(0));
    assert s2 == Next(s1, MkdirError(1));
    assert s3 == Next(s2, HandlerLook(1));
    assert Swept() == Next(s3, HandlerRmdir(1));
    ReachesFirst(s3, HandlerRmdir(1), t, AllButPlainMkdir);
    ReachesFirst(s2, HandlerLook(1), t, AllButPlainMkdir);
    ReachesFirst(s1, MkdirError(1), t, AllButPlainMkdir);
    ReachesFirst(s0, Mkdir(0), t, AllButPlainMkdir);
  }

  /** Process 0 holds the lock, and a recovery has confirmed its owner file. */
  function LiveConfirmed(): State {
    State(Some(Dir(Some(Owner(0, 0)), 0)), [Holding, Idle], [Confirmed(Sha256(Some(Owner(0, 0))), Some(0))], map[])
  }

  lemma LiveConfirmedLetsTwoIn() returns (t: State)
    ensures Reaches(LiveConfirmed(), t, AllButOwnerStopped) && |t.procs| == 2 && t.procs[0] == t.procs[1] == Holding
  {
    hide Reaches, MakerStopped, RenamePending;
    var owner := Some(Owner(0, 0));
    var s3 := LiveConfirmed();
    var s4 := State(None, [Holding, Idle], [Moved(Sha256(owner), Some(0))], map[0 := Dir(owner, 0)]);
    var s5 := s4.(lock := Some(Dir(None, 1)), procs := [Holding, Made]);
    t := s4.(lock := Some(Dir(Some(Owner(1, 0)), 1)), procs := [Holding, Holding]);
    assert s4 == Next(s3, Rename(0));
    assert s5 == Next(s4, Mkdir(1));
    assert t == Next(s5, WriteOwner(1, 0));
    ReachesItself(t, AllButOwnerStopped);
    ReachesFirst(s5, WriteOwner(1, 0), t, AllButOwnerStopped);
    ReachesFirst(s4, Mkdir(1), t, AllButOwnerStopped);
    ReachesFirst(s3, Rename(0), t, AllButOwnerStopped);
  }

  /** Recovering the lock of a live owner lets a second process in. */
  lemma RecoveringALiveOwnerBreaksExclusion()
    ensures exists t ::
              Reaches(Start(2, 1), t, AllButOwnerStopped) && |t.procs| == 2 && t.procs[0] == t.procs[1] == Holding
  {
    hide Reaches, MakerStopped;
    var t := LiveConfirmedLetsTwoIn();
    var owner := Some(Owner(0, 0));
    var s0 := Start(2, 1);
    var s1 := State(Some(Dir(None, 0)), [Made, Idle], [NotStarted], map[]);
    var s2 := State(Some(Dir(owner, 0)), [Holding, Idle], [NotStarted], map[]);
    assert s1 == Next(s0, Mkdir(0));
    assert s2 == Next(s1, WriteOwner(0, 0));
    assert LiveConfirmed() == Next(s2, Inspect(0, Sha256(owner), Some(0), true));
    ReachesFirst(s2, Inspect(0, Sha256(owner), Some(0), true), t, AllButOwnerStopped);
    ReachesFirst(s1, WriteOwner(0, 0), t, AllButOwnerStopped);
    ReachesFirst(s0, Mkdir(0), t, AllButOwnerStopped);
  }

  /** The owner has stopped, and two recoveries have confirmed its lock. */
  function TwiceConfirmed(): State {
    var mark := Sha256(Some(Owner(0, 0)));
    State(Some(Dir(Some(Owner(0, 0)), 0)), [Stopped, Idle, Idle],
          [Confirmed(mark, Some(0)), Confirmed(mark, Some(0))], map[])
  }

  /** The first recovery is through, the next process holds the lock, and the second rename takes it. */
  function LockTaken(): State {
    var mark := Sha256(Some(Owner(0, 0)));
    State(None, [Stopped, Holding, Idle], [Moved(mark, Some(0)), Moved(mark, Some(0))],
          map[0 := Dir(Some(Owner(0, 0)), 0), 1 := Dir(Some(Owner(1, 0)), 1)])
  }

  lemma LockTakenLetsTwoIn() returns (t: State)
    ensures Reaches(LockTaken(), t, AllButOneRecovery) && |t.procs| == 3 && t.procs[1] == t.procs[2] == Holding
  {
    hide Reaches, MakerStopped;
    var s9 := LockTaken();
    var s10 := s9.(lock := Some(Dir(None, 2)), procs := [Stopped, Holding, Made]);
    t := s9.(lock := Some(Dir(Some(Owner(2, 0)), 2)), procs := [Stopped, Holding, Holding]);
    assert s10 == Next(s9, Mkdir(2));
    assert t == Next(s10, WriteOwner(2, 0));
    ReachesItself(t, AllButOneRecovery);
    ReachesFirst(s10, WriteOwner(2, 0), t, AllButOneRecovery);
    ReachesFirst(s9, Mkdir(2), t, AllButOneRecovery);
  }

  lemma TwiceConfirmedLosesTheLock(t: State)
    requires Reaches(LockTaken(), t, AllButOneRecovery)
    ensures Reaches(TwiceConfirmed(), t, AllButOneRecovery)
  {
    hide Reaches, MakerStopped;
    var mark := Sha256(Some(Owner(0, 0)));
    var s5 := TwiceConfirmed();
    var s6 := State(None, [Stopped, Idle, Idle], [Moved(mark, Some(0)), Confirmed(mark, Some(0))],
                    map[0 := Dir(Some(Owner(0, 0)), 0)]);
    var s7 := s6.(lock := Some(Dir(None, 1)), procs := [Stopped, Made, Idle]);
    var s8 := s6.(lock := Some(Dir(Some(Owner(1, 0)), 1)), procs := [Stopped, Holding, Idle]);
    assert s6 == Next(s5, Rename(0));
    assert s7 == Next(s6, Mkdir(1));
    assert s8 == Next(s7, WriteOwner(1, 0));
    assert LockTaken() == Next(s8, Rename(1));
    ReachesFirst(s8, Rename(1), t, AllButOneRecovery);
    ReachesFirst(s7, WriteOwner(1, 0), t, AllButOneRecovery);
    ReachesFirst(s6, Mkdir(1), t, AllButOneRecovery);
    ReachesFirst(s5, Rename(0), t, AllButOneRecovery);
  }

  /** Two recoveries of the same stopped owner: the second rename takes the lock of the next holder. */
  lemma ConcurrentRecoveriesBreakExclusion()
    ensures exists t ::
              Reaches(Start(3, 2), t, AllButOneRecovery) && |t.procs| == 3 && t.procs[1] == t.procs[2] == Holding
  {
    hide Reaches;
    var t := LockTakenLetsTwoIn();
    TwiceConfirmedLosesTheLock(t);
    var owner := Some(Owner(0, 0));
    var mark := Sha256(owner);
    var s0 := Start(3, 2);
    var s1 := State(Some(Dir(None, 0)), [Made, Idle, Idle], [NotStarted, NotStarted], map[]);
    var s2 := State(Some(Dir(owner, 0)), [Holding, Idle, Idle], [NotStarted, NotStarted], map[]);
    var s3 := s2.(procs := [Stopped, Idle, Idle]);
    var s4 := s3.(recoveries := [Confirmed(mark, Some(0)), NotStarted]);
    assert s1 == Next(s0, Mkdir(0));
    assert s2 == Next(s1, WriteOwner(0, 0));
    assert s3 == Next(s2, Crash(0));
    assert s4 == Next(s3, Inspect(0, mark, Some(0), true));
    assert TwiceConfirmed() == Next(s4, Inspect(1, mark, Some(0), true));
    ReachesFirst(s4, Inspect(1, mark, Some(0), true), t, AllButOneRecovery);
    ReachesFirst(s3, Inspect(0, mark, Some(0), true), t, AllButOneRecovery);
    ReachesFirst(s2, Crash(0), t, AllButOneRecovery);
    ReachesFirst(s1, WriteOwner(0, 0), t, AllButOneRecovery);
    ReachesFirst(s0, Mkdir(0), t, AllButOneRecovery);
  }
}
