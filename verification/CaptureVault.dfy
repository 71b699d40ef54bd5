/** The capture store object with its ingest, and the audit of the cursor chains. */
module CaptureVaults {
  import opened Evidence
  import opened Orders
  import opened Candidates
  import opened CandidateInboxes
  import opened Captures

  datatype Receipt = Ingested(envelope: Envelope) | Denied | Died

  class CaptureVault {
    const inbox: CandidateInbox
    var envelopes: map<EnvelopeId, Envelope>
    var checkpoints: map<string, Checkpoint>

    function State(): Vault
      reads this, inbox
    {
      Vault(inbox.candidates, envelopes, checkpoints)
    }

    constructor (inbox: CandidateInbox)
      ensures this.inbox == inbox && State() == Vault(inbox.candidates, map[], map[])
      ensures Filed(State()) && VaultSound(State())
    {
      this.inbox := inbox;
      envelopes, checkpoints := map[], map[];
    }

    method WriteEnvelope(e: Envelope) returns (f: Fault)
      modifies `envelopes, inbox.store`tick
      ensures f == inbox.store.faults(old(inbox.store.tick)) && inbox.store.tick == old(inbox.store.tick) + 1
      ensures envelopes == if f == Works then old(envelopes)[e.Id() := e] else old(envelopes)
    {
      f := inbox.store.faults(inbox.store.tick);
      inbox.store.tick := inbox.store.tick + 1;
      if f == Works { envelopes := envelopes[e.Id() := e]; }
    }

    method WriteCheckpoint(source: string, c: Checkpoint) returns (f: Fault)
      modifies `checkpoints, inbox.store`tick
      ensures f == inbox.store.faults(old(inbox.store.tick)) && inbox.store.tick == old(inbox.store.tick) + 1
      ensures checkpoints == if f == Works then old(checkpoints)[source := c] else old(checkpoints)
    {
      f := inbox.store.faults(inbox.store.tick);
      inbox.store.tick := inbox.store.tick + 1;
      if f == Works { checkpoints := checkpoints[source := c]; }
    }

    /** The candidates of a request, in order, stopping at the first that cannot be persisted. */
    method PersistCandidates(ps: seq<Candidate>) returns (n: nat, stop: Option<Receipt>)
      requires forall p :: p in ps ==> p.status == Pending && WellFormed(p.proposal)
      modifies inbox`candidates, inbox.store`tick
      ensures n <= |ps| && inbox.candidates == PersistAll(old(inbox.candidates), ps[..n])
      ensures inbox.store.tick >= old(inbox.store.tick) && inbox.store.State() == old(inbox.store.State())
      ensures stop.None? ==> n == |ps| && !Clashes(old(inbox.candidates), ps)
      ensures stop.Some? ==> !stop.value.Ingested?
      ensures stop == Some(Died) <==> Last(inbox.store.faults, old(inbox.store.tick), inbox.store.tick) == Crashes
      ensures Calm(inbox.store.faults, old(inbox.store.tick)) && !Clashes(old(inbox.candidates), ps) ==> stop.None?
      ensures InboxInv(old(inbox.State())) ==> InboxInv(inbox.State())
    {
      hide WellFormed, InboxInv, CaptureEffect, PersistAll, ClashesAt;
      ghost var cs := inbox.candidates;
      NonePersisted(cs, ps);
      n := 0;
      while n < |ps|
        invariant 0 <= n <= |ps| && inbox.candidates == PersistAll(cs, ps[..n])
        invariant inbox.store.tick >= old(inbox.store.tick) && inbox.store.State() == old(inbox.store.State())
        invariant forall k :: 0 <= k < n ==> !ClashesAt(cs, ps, k)
        invariant Last(inbox.store.faults, old(inbox.store.tick), inbox.store.tick) != Crashes
        invariant InboxInv(old(inbox.State())) ==> InboxInv(inbox.State())
      {
        PersistNext(cs, ps, n);
        ghost var b := inbox.State();
        var reply := inbox.Persist(ps[n]);
        CapturedKeepsInv(b, inbox.State(), ps[n]);
        if reply == Refused {
          assert Calm(inbox.store.faults, old(inbox.store.tick)) ==> ClashesAt(cs, ps, n);
          return n, Some(Denied);
        }
        if reply == Stopped { return n, Some(Died); }
        n := n + 1;
      }
      assert ps[..n] == ps;
      stop := None;
    }

    /** `ingest_capture_request`: whatever faults strike, the vault is left after some number of the steps
        of one ingest, and after all of them when it returns. */
    method Ingest(r: CaptureRequest, policy: Policy) returns (receipt: Receipt)
      modifies this, inbox`candidates, inbox.store`tick
      ensures var e, ps := EnvelopeFor(r, policy), Prepare(r, policy);
              && (exists n :: 0 <= n <= Steps(ps) && State() == After(old(State()), e, ps, n))
              && (State() != old(State()) ==> Acceptable(r, policy) && Admitted(old(State()), e))
              && (receipt.Ingested? ==>
                    && Acceptable(r, policy) && Admitted(old(State()), e) && !Clashes(old(inbox.candidates), ps)
                    && receipt.envelope == e && State() == After(old(State()), e, ps, Steps(ps)))
              && (Calm(inbox.store.faults, old(inbox.store.tick)) ==>
                    (receipt.Ingested? <==>
                       Acceptable(r, policy) && Admitted(old(State()), e) && !Clashes(old(inbox.candidates), ps)))
      ensures receipt == Died <==> Last(inbox.store.faults, old(inbox.store.tick), inbox.store.tick) == Crashes
      ensures inbox.store.State() == old(inbox.store.State())
      ensures InboxInv(old(inbox.State())) ==> InboxInv(inbox.State())
    {
      hide Clashes, PersistAll, InboxInv;
      var e, ps := EnvelopeFor(r, policy), Prepare(r, policy);
      ghost var v := State();
      NoSteps(v, e, ps);
      if !Acceptable(r, policy) { return Denied; }
      var existing := e.Id() in envelopes;
      if existing && envelopes[e.Id()] != e { return Denied; }
      var observed := Observed(State(), r.source);
      if observed != r.before && !existing { return Denied; }
      var n, stop := PersistCandidates(ps);
      assert ps[..|ps|] == ps;
      assert State() == After(v, e, ps, n);
      if stop.Some? { return stop.value; }
      if !existing {
        var f := WriteEnvelope(e);
        if f != Works { return if f == Crashes then Died else Denied; }
      }
      assert State() == After(v, e, ps, |ps| + 1);
      if observed == r.before {
        var f := WriteCheckpoint(r.source, CheckpointFor(e));
        if f != Works { return if f == Crashes then Died else Denied; }
      }
      assert State() == After(v, e, ps, Steps(ps));
      receipt := Ingested(e);
    }
  }

  lemma CapturedKeepsInv(b0: Inbox, b1: Inbox, c: Candidate)
    requires CaptureEffect(b0, b1, c)
    ensures InboxInv(b0) ==> InboxInv(b1)
  {
    if InboxInv(b0) { StepKeepsInv(b0, b1, Capture(c)); }
  }

  // ----- the methods perform the traces of Captures -----

  /** One call: a capture request, or any operation on the inbox and the records below it. */
  datatype Call = IngestCall(request: CaptureRequest, policy: Policy) | InboxCall(op: Candidates.Op)

  ghost function ActOf(call: Call): Act {
    match call
    case IngestCall(r, policy) => Captures.Request(EnvelopeFor(r, policy), Prepare(r, policy))
    case InboxCall(_) => Elsewhere
  }

  predicate Servable(call: Call) {
    call.InboxCall? && call.op.Capture? ==>
        call.op.candidate.status == Pending && WellFormed(call.op.candidate.proposal)
  }

  method Perform(vault: CaptureVault, call: Call)
    requires InboxInv(vault.inbox.State()) && Servable(call)
    modifies vault, vault.inbox, vault.inbox.store
    ensures InboxInv(vault.inbox.State())
    ensures Performs(old(vault.State()), vault.State(), ActOf(call))
  {
    hide InboxInv, After, Admitted, Effect;
    match call {
      case IngestCall(r, policy) => var receipt := vault.Ingest(r, policy);
      case InboxCall(op) =>
        ghost var b := vault.inbox.State();
        Handle(vault.inbox, op);
        StepKeepsInv(b, vault.inbox.State(), op);
    }
  }

  /** Whatever the faults, serving calls on one store is a valid trace. */
  method Serve(vault: CaptureVault, calls: seq<Call>) returns (ghost trace: Trace)
    requires InboxInv(vault.inbox.State())
    requires forall k :: 0 <= k < |calls| ==> Servable(calls[k])
    modifies vault, vault.inbox, vault.inbox.store
    ensures InboxInv(vault.inbox.State())
    ensures ValidTrace(trace) && |trace.acts| == |calls|
    ensures forall k :: 0 <= k < |calls| ==> trace.acts[k] == ActOf(calls[k])
    ensures trace.states[0] == old(vault.State()) && trace.states[|calls|] == vault.State()
  {
    hide InboxInv, Performs, ActOf;
    trace := Trace([vault.State()], []);
    for k := 0 to |calls|
      invariant InboxInv(vault.inbox.State())
      invariant |trace.states| == k + 1 && |trace.acts| == k
      invariant trace.states[0] == old(vault.State()) && trace.states[k] == vault.State()
      invariant forall i :: 0 <= i < k ==> trace.acts[i] == ActOf(calls[i])
      invariant forall i :: 0 <= i < k ==> Performs(trace.states[i], trace.states[i + 1], trace.acts[i])
    {
      Perform(vault, calls[k]);
      trace := Trace(trace.states + [vault.State()], trace.acts + [ActOf(calls[k])]);
    }
  }

  lemma NoSteps(v: Vault, e: Envelope, ps: seq<Candidate>)
    ensures After(v, e, ps, 0) == v
  {}

  lemma PersistNext(cs: map<CandidateId, Candidate>, ps: seq<Candidate>, n: nat)
    requires n < |ps|
    ensures var kept, p := PersistAll(cs, ps[..n]), ps[n];
            && PersistAll(cs, ps[..n + 1]) == (if p.id in kept then kept else kept[p.id := p])
            && (ClashesAt(cs, ps, n) <==> p.id in kept && kept[p.id].proposal != p.proposal)
  {
    assert ps[..n + 1][..n] == ps[..n];
  }

  lemma NonePersisted(cs: map<CandidateId, Candidate>, ps: seq<Candidate>)
    ensures PersistAll(cs, ps[..0]) == cs
  {}

  // ----- the audit of the chains -----

  datatype ChainError =
    | Forks(envelope: EnvelopeId, at: Option<string>)
    | Cycles(envelope: EnvelopeId)
    | Disconnected(source: string)
    | CheckpointMissing(source: string)
    | CheckpointMismatch(source: string)
    | NoEnvelope(source: string)

  type ByBefore = map<Option<string>, Envelope>

  /** What the audit promises of one source: its envelopes are one path of distinct cursors from the null
      cursor that covers all of them, and the checkpoint is at its end. */
  ghost predicate OnePath(es: seq<Envelope>, c: Option<Checkpoint>) {
    exists p :: Chain(p) && Elements(p) == Elements(es) && |p| == |es| && HeadOf(p, c)
  }

  ghost predicate DistinctBefores(es: seq<Envelope>) {
    forall i, j :: 0 <= i < j < |es| ==> es[i].request.before != es[j].request.before
  }

  /** One envelope for every cursor that some envelope starts at. */
  ghost predicate Indexes(starts: ByBefore, es: seq<Envelope>) {
    && (forall k :: k in starts ==> starts[k] in es && starts[k].request.before == k)
    && (forall e :: e in es ==> e.request.before in starts)
  }

  function CursorAfter(path: seq<Envelope>): Option<string> {
    if path == [] then None else Some(path[|path| - 1].request.after)
  }

  /** The envelopes met so far, each looked up at the cursor of the one before. */
  ghost predicate Follows(starts: ByBefore, path: seq<Envelope>) {
    && (forall i :: 0 <= i < |path| ==> CursorAfter(path[..i]) in starts && path[i] == starts[CursorAfter(path[..i])])
    && (forall i, j :: 0 <= i < j < |path| ==> path[i].Id() != path[j].Id())
  }

  function IdsOf(es: seq<Envelope>): set<EnvelopeId> {
    set e | e in es :: e.Id()
  }

  lemma {:induction false} IdsSize(es: seq<Envelope>)
    ensures |IdsOf(es)| <= |es|
    ensures (forall i, j :: 0 <= i < j < |es| ==> es[i].Id() != es[j].Id()) ==> |IdsOf(es)| == |es|
  {
    if es != [] {
      var rest, last := es[..|es| - 1], es[|es| - 1];
      IdsSize(rest);
      assert es == rest + [last];
      assert IdsOf(es) == IdsOf(rest) + {last.Id()};
    }
  }

  lemma FollowsNext(starts: ByBefore, path: seq<Envelope>)
    requires Follows(starts, path) && CursorAfter(path) in starts && starts[CursorAfter(path)].Id() !in IdsOf(path)
    ensures var next := path + [starts[CursorAfter(path)]];
            Follows(starts, next) && IdsOf(next) == IdsOf(path) + {starts[CursorAfter(path)].Id()}
  {
    hide CursorAfter, IdsOf;
    var e := starts[CursorAfter(path)];
    var next := path + [e];
    assert path[..|path|] == path;
    forall i | 0 <= i < |next| ensures CursorAfter(next[..i]) in starts && next[i] == starts[CursorAfter(next[..i])] {
      assert next[..i] == path[..i];
    }
    IdsNext(path, e);
  }

  lemma IdsNext(path: seq<Envelope>, e: Envelope)
    ensures IdsOf(path + [e]) == IdsOf(path) + {e.Id()}
    ensures forall i :: 0 <= i < |path| ==> path[i].Id() in IdsOf(path)
  {
    forall d ensures d in path + [e] <==> d in path || d == e {}
  }

  lemma FollowsWithin(starts: ByBefore, es: seq<Envelope>, path: seq<Envelope>)
    requires Indexes(starts, es) && Follows(starts, path)
    ensures Elements(path) <= Elements(es) && IdsOf(path) <= IdsOf(es) && |IdsOf(path)| == |path| <= |es|
  {
    forall e | e in path ensures e in es {
      var i :| 0 <= i < |path| && path[i] == e;
    }
    IdsSize(path);
    IdsSize(es);
    SubsetSize(IdsOf(path), IdsOf(es));
  }

  /** A walk that ends outside the index without a cycle, over all envelopes, is the path. */
  lemma WalkIsChain(starts: ByBefore, es: seq<Envelope>, path: seq<Envelope>)
    requires Indexes(starts, es) && Follows(starts, path) && CursorAfter(path) !in starts && path != []
    ensures Chain(path)
  {
    forall i | 0 <= i < |path|
      ensures path[i].request.before == if i == 0 then None else Some(path[i - 1].request.after)
    {
      assert CursorAfter(path[..i]) in starts;
    }
    forall i, j | 0 <= i < j < |path| ensures path[i].request.after != path[j].request.after {
      assert CursorAfter(path[..i + 1]) in starts;
      if j + 1 < |path| {
        assert path[i + 1] == starts[CursorAfter(path[..i + 1])];
        assert path[j + 1] == starts[CursorAfter(path[..j + 1])];
      }
    }
  }

  lemma WalkCovers(starts: ByBefore, es: seq<Envelope>, path: seq<Envelope>)
    requires Indexes(starts, es) && Follows(starts, path) && |path| == |es|
    ensures Elements(path) == Elements(es)
  {
    FollowsWithin(starts, es, path);
    ElementsSize(path);
    ElementsBound(es);
    SubsetSize(Elements(path), Elements(es));
  }

  /** If there is such a path, no two envelopes start at the same cursor. */
  lemma PathIsUnforked(es: seq<Envelope>, p: seq<Envelope>)
    requires Chain(p) && Elements(p) == Elements(es) && |p| == |es|
    ensures DistinctBefores(es)
  {
    ChainDistinct(p);
    ElementsSize(p);
    DistinctBySize(es);
    forall i, j | 0 <= i < j < |es| ensures es[i].request.before != es[j].request.before {
      assert es[i] in Elements(es) && es[j] in Elements(es);
      ChainInjective(p, es[i], es[j]);
    }
  }

  lemma ChainDistinct(p: seq<Envelope>)
    requires Chain(p)
    ensures NoDuplicates(p)
  {
    forall i, j | 0 <= i < j < |p| ensures p[i] != p[j] { assert p[i].request.after != p[j].request.after; }
  }

  /** Where there is such a path, the walk can only run along it. */
  lemma {:induction false} WalkAlong(starts: ByBefore, es: seq<Envelope>, p: seq<Envelope>, path: seq<Envelope>)
    requires Indexes(starts, es) && Chain(p) && Elements(p) == Elements(es) && Follows(starts, path)
    ensures |path| <= |p| && path == p[..|path|]
  {
    hide Follows, Chain, Indexes, Elements, CursorAfter;
    if path != [] {
      var n := |path| - 1;
      FollowsButLast(starts, path);
      WalkAlong(starts, es, p, path[..n]);
      NextAlong(starts, es, p, n);
      assert path == path[..n] + [path[n]];
    }
  }

  lemma FollowsButLast(starts: ByBefore, path: seq<Envelope>)
    requires Follows(starts, path) && path != []
    ensures var n := |path| - 1;
            Follows(starts, path[..n]) && CursorAfter(path[..n]) in starts && path[n] == starts[CursorAfter(path[..n])]
  {
    var n := |path| - 1;
    assert CursorAfter(path[..n]) in starts;
    forall i | 0 <= i < n
      ensures CursorAfter(path[..n][..i]) in starts && path[..n][i] == starts[CursorAfter(path[..n][..i])]
    {
      assert path[..n][..i] == path[..i];
    }
  }

  lemma NextAlong(starts: ByBefore, es: seq<Envelope>, p: seq<Envelope>, n: nat)
    requires Indexes(starts, es) && Chain(p) && Elements(p) == Elements(es) && n <= |p|
    ensures CursorAfter(p[..n]) in starts <==> n < |p|
    ensures n < |p| ==> starts[CursorAfter(p[..n])] == p[n]
  {
    var cursor := CursorAfter(p[..n]);
    if n < |p| {
      assert p[n] in Elements(es) && p[n].request.before == cursor;
      assert starts[cursor] in Elements(p);
      ChainInjective(p, starts[cursor], p[n]);
    } else {
      assert p[..n] == p;
      forall e | e in Elements(p) ensures e.request.before != cursor {
        var j :| 0 <= j < |p| && p[j] == e;
        if j > 0 { assert p[j - 1].request.after != p[|p| - 1].request.after; }
      }
      forall k | k in starts ensures k != cursor { assert starts[k] in Elements(p); }
    }
  }

  /** The walk has followed `path`. */
  ghost predicate Walked(starts: ByBefore, es: seq<Envelope>, path: seq<Envelope>, seen: set<EnvelopeId>,
                         cursor: Option<string>, head: Option<Envelope>)
  {
    && Follows(starts, path) && seen == IdsOf(path) && |seen| == |path| <= |es|
    && cursor == CursorAfter(path)
    && head == if path == [] then None else Some(path[|path| - 1])
  }

  lemma WalkGoesOn(starts: ByBefore, es: seq<Envelope>, path: seq<Envelope>, seen: set<EnvelopeId>,
                   cursor: Option<string>, head: Option<Envelope>)
    requires Indexes(starts, es) && Walked(starts, es, path, seen, cursor, head)
    requires cursor in starts && starts[cursor].Id() !in seen
    ensures var e := starts[cursor];
            Walked(starts, es, path + [e], seen + {e.Id()}, Some(e.request.after), Some(e))
    ensures |path| < |es|
  {
    hide Follows, Indexes, IdsOf;
    FollowsNext(starts, path);
    FollowsWithin(starts, es, path + [starts[cursor]]);
  }

  /** The walk from the null cursor, until no envelope starts at the cursor or one comes up again. */
  method WalkChain(starts: ByBefore, ghost es: seq<Envelope>)
    returns (count: nat, head: Option<Envelope>, cycles: seq<ChainError>, ghost path: seq<Envelope>)
    requires Indexes(starts, es)
    ensures Follows(starts, path) && count == |path| <= |es|
    ensures head == if path == [] then None else Some(path[|path| - 1])
    ensures cycles == [] ==> CursorAfter(path) !in starts
    ensures cycles != [] ==> CursorAfter(path) in starts && starts[CursorAfter(path)].Id() in IdsOf(path)
  {
    path, cycles := [], [];
    var seen: set<EnvelopeId>, cursor: Option<string> := {}, None;
    head := None;
    while cursor in starts
      invariant Walked(starts, es, path, seen, cursor, head)
      decreases |es| - |path|
    {
      hide *;
      var e := starts[cursor];
      if e.Id() in seen {
        cycles := [Cycles(e.Id())];
        break;
      }
      WalkGoesOn(starts, es, path, seen, cursor, head);
      seen := seen + {e.Id()};
      head := Some(e);
      cursor := Some(e.request.after);
      path := path + [e];
    }
    hide Follows, Indexes, IdsOf, CursorAfter;
    count := |seen|;
  }

  /** `_audit_chains` for one source. */
  method AuditSource(source: string, es: seq<Envelope>, checkpoint: Option<Checkpoint>)
    returns (errors: seq<ChainError>)
    requires es != []
    ensures errors == [] <==> OnePath(es, checkpoint)
  {
    hide Chain, Follows, OnePath, Indexes, DistinctBefores, IdsOf, Elements, CursorAfter;
    var forks, starts := IndexStarts(es);
    var count, head, cycles; ghost var path;
    count, head, cycles, path := WalkChain(starts, es);
    Verdict(starts, es, path, checkpoint, forks == [], cycles != []);
    errors := forks + cycles;
    if count != |es| { errors := errors + [Disconnected(source)]; }
    if checkpoint.None? {
      errors := errors + [CheckpointMissing(source)];
    } else if head.Some? && (checkpoint.value.cursor != head.value.request.after
                             || checkpoint.value.envelope != head.value.Id()) {
      errors := errors + [CheckpointMismatch(source)];
    }
  }

  /** What the finished walk says about the source. */
  lemma Verdict(starts: ByBefore, es: seq<Envelope>, path: seq<Envelope>, c: Option<Checkpoint>, unforked: bool,
                cycled: bool)
    requires es != [] && Indexes(starts, es) && Follows(starts, path) && (unforked <==> DistinctBefores(es))
    requires cycled ==> CursorAfter(path) in starts && starts[CursorAfter(path)].Id() in IdsOf(path)
    requires !cycled ==> CursorAfter(path) !in starts
    ensures OnePath(es, c) <==> unforked && !cycled && |path| == |es| && path != [] && HeadOf(path, c)
  {
    hide Follows, Indexes, DistinctBefores, Chain;
    if OnePath(es, c) {
      var p: seq<Envelope> :| Chain(p) && Elements(p) == Elements(es) && |p| == |es| && HeadOf(p, c);
      PathIsUnforked(es, p);
      WalkAlong(starts, es, p, path);
      NextAlong(starts, es, p, |path|);
      if |path| < |p| { NextIsFresh(p, |path|); }
      assert p[..|p|] == p;
    }
    if unforked && !cycled && |path| == |es| && path != [] && HeadOf(path, c) {
      WalkIsChain(starts, es, path);
      WalkCovers(starts, es, path);
    }
  }

  lemma NextIsFresh(p: seq<Envelope>, n: nat)
    requires Chain(p) && n < |p|
    ensures p[n].Id() !in IdsOf(p[..n])
  {
    forall i | 0 <= i < n ensures p[i].Id() != p[n].Id() {
      assert p[i].request.after != p[n].request.after;
    }
  }

  /** The fork check: the first envelope for each cursor, and an error for every other. */
  method IndexStarts(es: seq<Envelope>) returns (errors: seq<ChainError>, starts: ByBefore)
    ensures Indexes(starts, es)
    ensures errors == [] <==> DistinctBefores(es)
  {
    hide Indexes, DistinctBefores;
    errors, starts := [], map[];
    NothingIndexed();
    var i := 0;
    while i < |es|
      invariant 0 <= i <= |es| && Indexes(starts, es[..i])
      invariant errors == [] <==> DistinctBefores(es[..i])
    {
      var e := es[i];
      assert es[..i + 1] == es[..i] + [e];
      IndexNext(starts, es[..i], e);
      if e.request.before in starts {
        errors := errors + [Forks(e.Id(), e.request.before)];
      } else {
        starts := starts[e.request.before := e];
      }
      i := i + 1;
    }
    assert es[..i] == es;
  }

  lemma NothingIndexed()
    ensures Indexes(map[], []) && DistinctBefores([])
  {}

  lemma IndexNext(starts: ByBefore, es: seq<Envelope>, e: Envelope)
    requires Indexes(starts, es)
    ensures Indexes(if e.request.before in starts then starts else starts[e.request.before := e], es + [e])
    ensures DistinctBefores(es + [e]) <==> DistinctBefores(es) && e.request.before !in starts
  {
    hide Indexes;
    IndexGrows(starts, es, e);
    BeforesGrow(starts, es, e);
  }

  lemma IndexGrows(starts: ByBefore, es: seq<Envelope>, e: Envelope)
    requires Indexes(starts, es)
    ensures Indexes(if e.request.before in starts then starts else starts[e.request.before := e], es + [e])
  {
    forall d | d in es + [e] && d != e ensures d in es {}
    forall d | d in es ensures d in es + [e] {}
    assert (es + [e])[|es|] == e;
  }

  lemma BeforesGrow(starts: ByBefore, es: seq<Envelope>, e: Envelope)
    requires Indexes(starts, es)
    ensures DistinctBefores(es + [e]) <==> DistinctBefores(es) && e.request.before !in starts
  {
    var next := es + [e];
    if e.request.before in starts {
      var k :| 0 <= k < |es| && es[k] == starts[e.request.before];
      assert next[k].request.before == next[|es|].request.before;
    } else {
      forall k | 0 <= k < |es| ensures es[k].request.before != e.request.before { assert es[k] in es; }
    }
    if DistinctBefores(next) {
      forall i, j | 0 <= i < j < |es| ensures es[i].request.before != es[j].request.before {
        assert next[i].request.before != next[j].request.before;
      }
    }
  }

  // ----- all sources -----

  function FromSource(es: seq<Envelope>, source: string): seq<Envelope> {
    if es == [] then []
    else FromSource(es[..|es| - 1], source) + if es[|es| - 1].request.source == source then [es[|es| - 1]] else []
  }

  function SourcesOf(es: seq<Envelope>): set<string> {
    set e | e in es :: e.request.source
  }

  /** Every source with envelopes has its one path, and no checkpoint is without envelopes. */
  ghost predicate ChainsSound(es: seq<Envelope>, checkpoints: map<string, Checkpoint>) {
    && (forall source :: source in SourcesOf(es) ==> OnePath(FromSource(es, source), Get(checkpoints, source)))
    && checkpoints.Keys <= SourcesOf(es)
  }

  lemma {:induction false} FromSourceMembers(es: seq<Envelope>, source: string)
    ensures forall e :: e in FromSource(es, source) <==> e in es && e.request.source == source
  {
    if es != [] {
      var rest, last := es[..|es| - 1], es[|es| - 1];
      FromSourceMembers(rest, source);
      assert es == rest + [last];
    }
  }

  lemma FromSourceMeaning(es: seq<Envelope>, source: string)
    ensures Elements(FromSource(es, source)) == set e | e in Elements(es) && e.request.source == source
    ensures source in SourcesOf(es) <==> FromSource(es, source) != []
  {
    hide FromSource;
    FromSourceMembers(es, source);
    if FromSource(es, source) != [] { assert FromSource(es, source)[0] in es; }
  }

  /** The envelopes grouped by source. */
  method GroupBySource(es: seq<Envelope>) returns (groups: map<string, seq<Envelope>>)
    ensures groups.Keys == SourcesOf(es)
    ensures forall source :: source in groups ==> groups[source] == FromSource(es, source)
  {
    groups := map[];
    var i := 0;
    while i < |es|
      invariant 0 <= i <= |es| && groups.Keys == SourcesOf(es[..i])
      invariant forall source :: source in groups ==> groups[source] == FromSource(es[..i], source)
    {
      GroupNext(es, i, groups);
      var source := es[i].request.source;
      groups := groups[source := (if source in groups then groups[source] else []) + [es[i]]];
      i := i + 1;
    }
    assert es[..i] == es;
  }

  lemma GroupNext(es: seq<Envelope>, i: nat, groups: map<string, seq<Envelope>>)
    requires i < |es| && groups.Keys == SourcesOf(es[..i])
    requires forall source :: source in groups ==> groups[source] == FromSource(es[..i], source)
    ensures var s := es[i].request.source;
            && SourcesOf(es[..i + 1]) == SourcesOf(es[..i]) + {s}
            && FromSource(es[..i + 1], s) == (if s in groups then groups[s] else []) + [es[i]]
            && forall other :: other != s ==> FromSource(es[..i + 1], other) == FromSource(es[..i], other)
  {
    assert es[..i + 1] == es[..i] + [es[i]];
    assert es[..i + 1][..i] == es[..i];
    FromSourceMeaning(es[..i], es[i].request.source);
  }

  /** The chain of each source in turn. */
  method AuditSources(es: seq<Envelope>, groups: map<string, seq<Envelope>>, sources: seq<string>,
                      checkpoints: map<string, Checkpoint>)
    returns (errors: seq<ChainError>)
    requires Elements(sources) == groups.Keys
    requires forall source :: source in groups ==> groups[source] == FromSource(es, source) != []
    ensures errors == [] <==> forall k :: 0 <= k < |sources| ==>
              OnePath(FromSource(es, sources[k]), Get(checkpoints, sources[k]))
  {
    hide OnePath, FromSource, Get;
    errors := [];
    var i := 0;
    while i < |sources|
      invariant 0 <= i <= |sources|
      invariant errors == [] <==> forall k :: 0 <= k < i ==>
                  OnePath(FromSource(es, sources[k]), Get(checkpoints, sources[k]))
    {
      assert sources[i] in Elements(sources);
      var found := AuditSource(sources[i], groups[sources[i]], Get(checkpoints, sources[i]));
      errors := errors + found;
      i := i + 1;
    }
  }

  /** `_audit_chains`. */
  method AuditChains(es: seq<Envelope>, checkpoints: map<string, Checkpoint>) returns (errors: seq<ChainError>)
    ensures errors == [] <==> ChainsSound(es, checkpoints)
  {
    hide OnePath, FromSource, StrictlyIncreasing, NoDuplicates, SourcesOf, Get, Elements;
    var groups := GroupBySource(es);
    var sources := SortedSet(groups.Keys);
    forall source | source in groups ensures FromSource(es, source) != [] { FromSourceMeaning(es, source); }
    errors := AuditSources(es, groups, sources, checkpoints);
    AllSources(es, checkpoints, sources);
    ghost var sound := errors == [];
    var bare := SortedSet(checkpoints.Keys - groups.Keys);
    var i := 0;
    while i < |bare|
      invariant 0 <= i <= |bare|
      invariant errors == [] <==> sound && i == 0
    {
      errors := errors + [NoEnvelope(bare[i])];
      i := i + 1;
    }
    NoneLeft(checkpoints.Keys, groups.Keys);
  }

  lemma NoneLeft(a: set<string>, b: set<string>)
    ensures |a - b| == 0 <==> a <= b
  {
    if !(a <= b) {
      var x :| x in a && x !in b;
      assert x in a - b;
    } else {
      assert a - b == {};
    }
  }

  lemma AllSources(es: seq<Envelope>, checkpoints: map<string, Checkpoint>, sources: seq<string>)
    requires Elements(sources) == SourcesOf(es)
    ensures (forall k :: 0 <= k < |sources| ==> OnePath(FromSource(es, sources[k]), Get(checkpoints, sources[k])))
            <==> forall source :: source in SourcesOf(es) ==> OnePath(FromSource(es, source), Get(checkpoints, source))
  {
    hide OnePath, FromSource, SourcesOf;
    forall source | source in SourcesOf(es) ensures exists k :: 0 <= k < |sources| && sources[k] == source {
      assert source in Elements(sources);
    }
    forall k | 0 <= k < |sources| ensures sources[k] in SourcesOf(es) { assert sources[k] in Elements(sources); }
  }

  /** The audit of a store's envelopes, listed in any order, passes exactly when every chain is sound. */
  lemma AuditSeesVault(v: Vault, es: seq<Envelope>)
    requires Filed(v) && |IdsOf(es)| == |es|
    requires forall e :: e in es <==> e.Id() in v.envelopes && v.envelopes[e.Id()] == e
    ensures ChainsSound(es, v.checkpoints) <==> VaultSound(v)
  {
    hide Sound, OnePath, FromSource;
    forall source ensures Sound(EnvelopesOf(v.envelopes, source), Get(v.checkpoints, source)) <==>
                            if source in SourcesOf(es) then OnePath(FromSource(es, source), Get(v.checkpoints, source))
                            else source !in v.checkpoints
    {
      SourceAgrees(v, es, source);
    }
    if VaultSound(v) {
      forall source | source in v.checkpoints ensures source in SourcesOf(es) {
        assert Sound(EnvelopesOf(v.envelopes, source), Get(v.checkpoints, source));
      }
    }
  }

  lemma SourceAgrees(v: Vault, es: seq<Envelope>, source: string)
    requires Filed(v) && |IdsOf(es)| == |es|
    requires forall e :: e in es <==> e.Id() in v.envelopes && v.envelopes[e.Id()] == e
    ensures Sound(EnvelopesOf(v.envelopes, source), Get(v.checkpoints, source)) <==>
              if source in SourcesOf(es) then OnePath(FromSource(es, source), Get(v.checkpoints, source))
              else source !in v.checkpoints
  {
    hide Chain, IdsOf;
    var part, c := FromSource(es, source), Get(v.checkpoints, source);
    FromSourceMeaning(es, source);
    assert Elements(part) == EnvelopesOf(v.envelopes, source);
    if part != [] {
      assert part[0] in Elements(part);
      PartDistinct(es, source);
      if Sound(Elements(part), c) {
        var p: seq<Envelope> :| Chain(p) && Elements(p) == Elements(part) && HeadOf(p, c);
        ChainDistinct(p);
        ElementsSize(p);
      }
    } else {
      assert Elements(part) == {};
    }
  }

  lemma {:induction false} PartDistinct(es: seq<Envelope>, source: string)
    requires |IdsOf(es)| == |es|
    ensures |Elements(FromSource(es, source))| == |FromSource(es, source)|
  {
    if es != [] {
      var rest, last := es[..|es| - 1], es[|es| - 1];
      LastIsNew(es);
      PartDistinct(rest, source);
      FromSourceMeaning(rest, source);
      var part := FromSource(rest, source);
      assert last !in Elements(part);
      assert Elements(part + [last]) == Elements(part) + {last};
      assert part + [] == part;
    }
  }

  lemma LastIsNew(es: seq<Envelope>)
    requires |IdsOf(es)| == |es| > 0
    ensures |IdsOf(es[..|es| - 1])| == |es| - 1 && es[|es| - 1] !in es[..|es| - 1]
  {
    var rest, last := es[..|es| - 1], es[|es| - 1];
    assert es == rest + [last];
    assert IdsOf(es) == IdsOf(rest) + {last.Id()};
    IdsSize(rest);
    assert last.Id() in IdsOf(rest) ==> IdsOf(es) == IdsOf(rest);
  }
}
