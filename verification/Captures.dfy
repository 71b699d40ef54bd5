/** Capture: envelopes chained by cursor per source, the checkpoint at the head of each chain, and what an
    ingest, a crash inside it and a replay do to them. The store object and the audit are in CaptureVault. */
module Captures {
  import opened Evidence
  import opened Orders
  import opened Candidates

  datatype Event = Event(
    id: string, record: string, body: Bytes, operation: Operation, expected: Option<Digest<Bytes>>,
    derivations: set<string>, rest: Bytes)

  datatype CaptureRequest = CaptureRequest(
    source: string, before: Option<string>, after: string, capturedAt: string, events: seq<Event>)

  type EnvelopeId = Digest<CaptureRequest>

  datatype Binding = Binding(event: string, candidate: CandidateId, request: Digest<Proposal>, record: Digest<Bytes>)

  datatype Envelope = Envelope(request: CaptureRequest, bindings: seq<Binding>, findings: seq<string>) {
    function Id(): EnvelopeId { Sha256(request) }
  }

  datatype Checkpoint = Checkpoint(cursor: string, envelope: EnvelopeId, updatedAt: string)

  datatype Vault = Vault(
    candidates: map<CandidateId, Candidate>,
    envelopes: map<EnvelopeId, Envelope>,
    checkpoints: map<string, Checkpoint>)

  /** How names are spelled, and what the content inspector finds. */
  datatype Policy = Policy(
    candidateId: (EnvelopeId, string) -> CandidateId,
    envelopeName: EnvelopeId -> string,
    findings: CaptureRequest -> seq<string>,
    recordFindings: Bytes -> seq<string>,
    blocks: seq<string> -> bool)

  // ----- what a request prepares -----

  /** Event ids are unique and the cursor advances. */
  predicate ValidRequest(r: CaptureRequest) {
    && (forall i, j :: 0 <= i < j < |r.events| ==> r.events[i].id != r.events[j].id)
    && r.before != Some(r.after)
  }

  function PrepareEvent(r: CaptureRequest, e: Event, p: Policy): Candidate {
    Candidate(p.candidateId(Sha256(r), e.id),
              Proposal(e.record, e.body, e.operation, e.expected, e.derivations + {p.envelopeName(Sha256(r))},
                       r.capturedAt, p.recordFindings(e.body), e.rest),
              Pending)
  }

  function Prepare(r: CaptureRequest, p: Policy): seq<Candidate> {
    seq(|r.events|, i requires 0 <= i < |r.events| => PrepareEvent(r, r.events[i], p))
  }

  function EnvelopeFor(r: CaptureRequest, p: Policy): Envelope {
    var bindings :=
      seq(|r.events|, i requires 0 <= i < |r.events| => BindingFor(r.events[i], PrepareEvent(r, r.events[i], p)));
    Envelope(r, bindings, p.findings(r))
  }

  function BindingFor(e: Event, c: Candidate): Binding {
    Binding(e.id, c.id, Sha256(c.proposal), Sha256(c.proposal.body))
  }

  function CheckpointFor(e: Envelope): Checkpoint {
    Checkpoint(e.request.after, e.Id(), e.request.capturedAt)
  }

  /** Everything that is checked before the lock is taken. */
  predicate Acceptable(r: CaptureRequest, p: Policy) {
    && ValidRequest(r) && !p.blocks(p.findings(r))
    && forall i :: 0 <= i < |r.events| ==>
        !p.blocks(p.recordFindings(r.events[i].body)) && WellFormed(PrepareEvent(r, r.events[i], p).proposal)
  }

  // ----- one ingest, write by write -----

  function Observed(v: Vault, source: string): Option<string> {
    if source in v.checkpoints then Some(v.checkpoints[source].cursor) else None
  }

  /** A new envelope must start at the checkpoint; an envelope on disk must be this very one. */
  predicate Admitted(v: Vault, e: Envelope) {
    if e.Id() in v.envelopes then v.envelopes[e.Id()] == e else Observed(v, e.request.source) == e.request.before
  }

  /** Candidates already on disk are kept, whatever has become of them. */
  function PersistAll(cs: map<CandidateId, Candidate>, ps: seq<Candidate>): map<CandidateId, Candidate>
    decreases |ps|
  {
    if ps == [] then cs
    else
      var kept, p := PersistAll(cs, ps[..|ps| - 1]), ps[|ps| - 1];
      if p.id in kept then kept else kept[p.id := p]
  }

  /** Some candidate id is taken by a different request. */
  ghost predicate Clashes(cs: map<CandidateId, Candidate>, ps: seq<Candidate>) {
    exists k :: 0 <= k < |ps| && ClashesAt(cs, ps, k)
  }

  ghost predicate ClashesAt(cs: map<CandidateId, Candidate>, ps: seq<Candidate>, k: nat)
    requires k < |ps|
  {
    var kept := PersistAll(cs, ps[..k]);
    ps[k].id in kept && kept[ps[k].id].proposal != ps[k].proposal
  }

  /** The number of steps of an ingest: its candidates, the envelope, the checkpoint. */
  function Steps(ps: seq<Candidate>): nat { |ps| + 2 }

  /** The vault after the first `n` steps of ingesting `e`. */
  function After(v: Vault, e: Envelope, ps: seq<Candidate>, n: nat): Vault {
    Vault(
      PersistAll(v.candidates, if n < |ps| then ps[..n] else ps),
      if n > |ps| then v.envelopes[e.Id() := e] else v.envelopes,
      if n > |ps| + 1 && Observed(v, e.request.source) == e.request.before
      then v.checkpoints[e.request.source := CheckpointFor(e)] else v.checkpoints)
  }

  // ----- what is captured -----

  /** A request is taken exactly when its event ids differ, its cursor moves, and neither the request nor the record of
      any event is blocked by the content policy; an event creates exactly when it expects no revision. */
  lemma AcceptedContent(r: CaptureRequest, p: Policy)
    ensures Acceptable(r, p) <==>
              && (forall i, j :: 0 <= i < j < |r.events| ==> r.events[i].id != r.events[j].id)
              && (r.before.Some? ==> r.before.value != r.after)
              && !p.blocks(p.findings(r))
              && (forall i :: 0 <= i < |r.events| ==> !p.blocks(p.recordFindings(r.events[i].body)))
              && (forall i :: 0 <= i < |r.events| ==>
                    (r.events[i].operation == Create <==> r.events[i].expected.None?))
  {}

  /** After an ingest that took no candidate id of another request, the envelope holds the request with one binding per
      event, and for each event there is a candidate that proposes just what the event says and names the envelope it
      came from. The checkpoint moves to the request's after cursor if it stood at the before cursor. */
  lemma StoredAsSent(v: Vault, r: CaptureRequest, p: Policy)
    requires !Clashes(v.candidates, Prepare(r, p))
    ensures var e, ps := EnvelopeFor(r, p), Prepare(r, p);
            var w := After(v, e, ps, Steps(ps));
            && Sha256(r) in w.envelopes && w.envelopes[Sha256(r)].request == r
            && |w.envelopes[Sha256(r)].bindings| == |r.events|
            && (forall i :: 0 <= i < |r.events| ==>
                  var event, id := r.events[i], p.candidateId(Sha256(r), r.events[i].id);
                  && id in w.candidates
                  && Proposes(w.candidates[id].proposal, event, p.envelopeName(Sha256(r)))
                  && w.candidates[id].proposal.capturedAt == r.capturedAt
                  && w.candidates[id].proposal.findings == p.recordFindings(event.body)
                  && w.envelopes[Sha256(r)].bindings[i]
                     == Binding(event.id, id, Sha256(w.candidates[id].proposal), Sha256(event.body)))
            && (Observed(v, r.source) == r.before ==>
                  && r.source in w.checkpoints && w.checkpoints[r.source].cursor == r.after
                  && w.checkpoints[r.source].envelope == Sha256(r)
                  && w.checkpoints[r.source].updatedAt == r.capturedAt)
  {
    hide PersistAll, Clashes;
    var ps := Prepare(r, p);
    forall i | 0 <= i < |r.events|
      ensures var id := p.candidateId(Sha256(r), r.events[i].id);
              && id in PersistAll(v.candidates, ps)
              && PersistAll(v.candidates, ps)[id].proposal == PrepareEvent(r, r.events[i], p).proposal
    {
      assert ps[i] == PrepareEvent(r, r.events[i], p);
      StoredProposal(v.candidates, ps, |ps|, i);
      assert ps[..|ps|] == ps;
    }
  }

  /** The proposal says what the event says and is derived from the envelope too. */
  ghost predicate Proposes(q: Proposal, event: Event, envelope: string) {
    && q.record == event.record && q.body == event.body
    && q.operation == event.operation && q.expected == event.expected && q.rest == event.rest
    && event.derivations <= q.derivations && envelope in q.derivations
  }

  lemma {:induction false} StoredProposal(cs: map<CandidateId, Candidate>, ps: seq<Candidate>, n: nat, k: nat)
    requires !Clashes(cs, ps) && k < n <= |ps|
    ensures ps[k].id in PersistAll(cs, ps[..n]) && PersistAll(cs, ps[..n])[ps[k].id].proposal == ps[k].proposal
    decreases n
  {
    assert ps[..n][..n - 1] == ps[..n - 1];
    if k == n - 1 {
      assert !ClashesAt(cs, ps, k);
    } else {
      StoredProposal(cs, ps, n - 1, k);
    }
  }

  // ----- crash and replay -----

  /** Candidates may be promoted and others may appear, as long as nobody else takes an id of `ps`. */
  ghost predicate Progressed(cs: map<CandidateId, Candidate>, ds: map<CandidateId, Candidate>, ps: seq<Candidate>) {
    && (forall id :: id in cs ==> id in ds && ds[id].proposal == cs[id].proposal)
    && (forall p :: p in ps && p.id in ds ==> p.id in cs)
  }

  /** What may happen between a crash and the replay: anything except another request from this source. */
  ghost predicate Meanwhile(v: Vault, w: Vault, e: Envelope, ps: seq<Candidate>) {
    && Progressed(v.candidates, w.candidates, ps)
    && (e.Id() in v.envelopes <==> e.Id() in w.envelopes)
    && (e.Id() in v.envelopes ==> w.envelopes[e.Id()] == v.envelopes[e.Id()])
    && (e.request.source in v.checkpoints <==> e.request.source in w.checkpoints)
    && (e.request.source in v.checkpoints ==> w.checkpoints[e.request.source] == v.checkpoints[e.request.source])
  }

  /** The first candidate of `ps` with this id. */
  function FirstWith(ps: seq<Candidate>, id: CandidateId): Option<Candidate>
    decreases |ps|
  {
    if ps == [] then None
    else if FirstWith(ps[..|ps| - 1], id).Some? then FirstWith(ps[..|ps| - 1], id)
    else if ps[|ps| - 1].id == id then Some(ps[|ps| - 1])
    else None
  }

  lemma {:induction false} FirstIsListed(ps: seq<Candidate>, id: CandidateId)
    ensures FirstWith(ps, id).Some? ==> FirstWith(ps, id).value in ps && FirstWith(ps, id).value.id == id
    ensures FirstWith(ps, id).None? ==> forall k :: 0 <= k < |ps| ==> ps[k].id != id
    decreases |ps|
  {
    if ps != [] { FirstIsListed(ps[..|ps| - 1], id); }
  }

  lemma {:induction false} FirstStays(ps: seq<Candidate>, id: CandidateId, k: nat)
    requires k <= |ps| && FirstWith(ps[..k], id).Some?
    ensures FirstWith(ps, id) == FirstWith(ps[..k], id)
    decreases |ps|
  {
    if k == |ps| {
      assert ps[..k] == ps;
    } else {
      assert ps[..|ps| - 1][..k] == ps[..k];
      FirstStays(ps[..|ps| - 1], id, k);
    }
  }

  function Get<K, V>(m: map<K, V>, k: K): Option<V> {
    if k in m then Some(m[k]) else None
  }

  lemma {:induction false} PersistLookup(cs: map<CandidateId, Candidate>, ps: seq<Candidate>, id: CandidateId)
    ensures Get(PersistAll(cs, ps), id) == if id in cs then Some(cs[id]) else FirstWith(ps, id)
    decreases |ps|
  {
    if ps != [] { PersistLookup(cs, ps[..|ps| - 1], id); }
  }

  /** Persisting again, from any state the first attempt may have left and others have moved on,
      completes the same candidates and resets none. */
  lemma PersistResumes(cs: map<CandidateId, Candidate>, ds: map<CandidateId, Candidate>, ps: seq<Candidate>,
                       n: nat, m: nat, id: CandidateId)
    requires n <= |ps| && m <= |ps|
    requires Progressed(PersistAll(cs, ps[..n]), ds, ps)
    ensures var once, twice := Get(PersistAll(cs, ps[..m]), id), Get(PersistAll(ds, ps[..m]), id);
            && (once.Some? ==> twice.Some? && twice.value.proposal == once.value.proposal)
            && (id in ds ==> twice == Some(ds[id]))
            && (id !in ds ==> twice == once)
  {
    var first := PersistAll(cs, ps[..n]);
    PersistLookup(cs, ps[..n], id);
    PersistLookup(cs, ps[..m], id);
    PersistLookup(ds, ps[..m], id);
    assert id in cs ==> id in first && first[id] == cs[id];
    if id !in cs && FirstWith(ps[..m], id).Some? && id in ds {
      FirstIsListed(ps[..m], id);
      assert FirstWith(ps[..m], id).value in ps;
      assert id in first;
      FirstStays(ps, id, m);
      FirstStays(ps, id, n);
    }
  }

  lemma ResumesWithoutClash(cs: map<CandidateId, Candidate>, ds: map<CandidateId, Candidate>, ps: seq<Candidate>,
                            n: nat)
    requires n <= |ps| && Progressed(PersistAll(cs, ps[..n]), ds, ps)
    ensures Clashes(ds, ps) ==> Clashes(cs, ps)
  {
    if Clashes(ds, ps) {
      var k :| 0 <= k < |ps| && ClashesAt(ds, ps, k);
      PersistResumes(cs, ds, ps, n, k, ps[k].id);
      var id := ps[k].id;
      PersistLookup(cs, ps[..k], id);
      PersistLookup(ds, ps[..k], id);
      if id in ds && Get(PersistAll(cs, ps[..k]), id).None? {
        FirstTaken(cs, ds, ps, n, k);
      }
      assert ClashesAt(cs, ps, k);
    }
  }

  /** The first candidate with an id that nobody took before is found later with its own proposal. */
  lemma FirstTaken(cs: map<CandidateId, Candidate>, ds: map<CandidateId, Candidate>, ps: seq<Candidate>, n: nat, k: nat)
    requires n <= |ps| && k < |ps| && Progressed(PersistAll(cs, ps[..n]), ds, ps)
    requires ps[k].id in ds && Get(PersistAll(cs, ps[..k]), ps[k].id).None?
    ensures ds[ps[k].id].proposal == ps[k].proposal
  {
    var id, first := ps[k].id, PersistAll(cs, ps[..n]);
    PersistLookup(cs, ps[..k], id);
    PersistLookup(cs, ps[..n], id);
    assert ps[k] in ps && id in first;
    assert ps[..k + 1][..k] == ps[..k];
    assert FirstWith(ps[..k + 1], id) == Some(ps[k]);
    FirstStays(ps, id, k + 1);
    FirstStays(ps, id, n);
  }

  /** If ingesting `e` stops after any number of its durable writes and the same request is replayed before
      any other request from that source, the replay is admitted, clashes only if the first attempt did,
      and then leaves the envelope, the checkpoint and the request's candidates of an uninterrupted run.
      What others did meanwhile stays: a candidate promoted in between is not reset. */
  lemma CrashThenReplay(v: Vault, w: Vault, e: Envelope, ps: seq<Candidate>, n: nat)
    requires ValidRequest(e.request) && Admitted(v, e) && n <= Steps(ps)
    requires Meanwhile(After(v, e, ps, n), w, e, ps)
    ensures Admitted(w, e)
    ensures Clashes(w.candidates, ps) ==> Clashes(v.candidates, ps)
    ensures var replayed, whole := After(w, e, ps, Steps(ps)), After(v, e, ps, Steps(ps));
            && Get(replayed.envelopes, e.Id()) == Get(whole.envelopes, e.Id())
            && Get(replayed.checkpoints, e.request.source) == Get(whole.checkpoints, e.request.source)
            && (forall id :: id in whole.candidates ==>
                  id in replayed.candidates && replayed.candidates[id].proposal == whole.candidates[id].proposal)
            && (forall id :: id in w.candidates ==>
                  id in replayed.candidates && replayed.candidates[id] == w.candidates[id])
            && (forall id :: id in replayed.candidates && id !in w.candidates ==>
                  id in whole.candidates && replayed.candidates[id] == whole.candidates[id])
  {
    var k := if n < |ps| then n else |ps|;
    assert ps[..|ps|] == ps;
    assert After(v, e, ps, n).candidates == PersistAll(v.candidates, ps[..k]);
    ResumesWithoutClash(v.candidates, w.candidates, ps, k);
    forall id
      ensures var once, twice := Get(PersistAll(v.candidates, ps), id), Get(PersistAll(w.candidates, ps), id);
              && (once.Some? ==> twice.Some? && twice.value.proposal == once.value.proposal)
              && (id in w.candidates ==> twice == Some(w.candidates[id]))
              && (id !in w.candidates ==> twice == once)
    {
      PersistResumes(v.candidates, w.candidates, ps, k, |ps|, id);
    }
    FromLookups(v, w, ps);
  }

  lemma FromLookups(v: Vault, w: Vault, ps: seq<Candidate>)
    requires forall id ::
               var once, twice := Get(PersistAll(v.candidates, ps), id), Get(PersistAll(w.candidates, ps), id);
               && (once.Some? ==> twice.Some? && twice.value.proposal == once.value.proposal)
               && (id in w.candidates ==> twice == Some(w.candidates[id]))
               && (id !in w.candidates ==> twice == once)
    ensures var whole, replayed := PersistAll(v.candidates, ps), PersistAll(w.candidates, ps);
            && (forall id :: id in whole ==> id in replayed && replayed[id].proposal == whole[id].proposal)
            && (forall id :: id in w.candidates ==> id in replayed && replayed[id] == w.candidates[id])
            && (forall id :: id in replayed && id !in w.candidates ==> id in whole && replayed[id] == whole[id])
  {
    var whole, replayed := PersistAll(v.candidates, ps), PersistAll(w.candidates, ps);
    forall id | id in whole ensures id in replayed && replayed[id].proposal == whole[id].proposal {
      assert Get(whole, id).Some?;
    }
    forall id | id in w.candidates ensures id in replayed && replayed[id] == w.candidates[id] {
      assert Get(replayed, id) == Some(w.candidates[id]);
    }
    forall id | id in replayed && id !in w.candidates ensures id in whole && replayed[id] == whole[id] {
      assert Get(replayed, id) == Get(whole, id);
    }
  }

  /** With nothing in between, crash and replay is the uninterrupted run. */
  lemma ReplayIsWholeRun(v: Vault, e: Envelope, ps: seq<Candidate>, n: nat)
    requires ValidRequest(e.request) && Admitted(v, e) && n <= Steps(ps)
    ensures Admitted(After(v, e, ps, n), e)
    ensures After(After(v, e, ps, n), e, ps, Steps(ps)) == After(v, e, ps, Steps(ps))
  {
    var w := After(v, e, ps, n);
    var k := if n < |ps| then n else |ps|;
    assert ps[..|ps|] == ps;
    PersistTwice(v.candidates, ps, k);
    assert After(w, e, ps, Steps(ps)).envelopes == After(v, e, ps, Steps(ps)).envelopes;
    assert After(w, e, ps, Steps(ps)).checkpoints == After(v, e, ps, Steps(ps)).checkpoints;
  }

  lemma PersistTwice(cs: map<CandidateId, Candidate>, ps: seq<Candidate>, k: nat)
    requires k <= |ps|
    ensures PersistAll(PersistAll(cs, ps[..k]), ps) == PersistAll(cs, ps)
  {
    var part := PersistAll(cs, ps[..k]);
    forall id ensures Get(PersistAll(part, ps), id) == Get(PersistAll(cs, ps), id) {
      PersistLookup(cs, ps, id);
      PersistLookup(cs, ps[..k], id);
      PersistLookup(part, ps, id);
      if FirstWith(ps[..k], id).Some? { FirstStays(ps, id, k); }
    }
    SameLookups(PersistAll(part, ps), PersistAll(cs, ps));
  }

  lemma SameLookups<K, V>(a: map<K, V>, b: map<K, V>)
    requires forall k :: Get(a, k) == Get(b, k)
    ensures a == b
  {
    forall k ensures k in a <==> k in b { assert Get(a, k) == Get(b, k); }
    forall k | k in a ensures a[k] == b[k] { assert Get(a, k) == Get(b, k); }
  }

  // ----- the chain of a source -----

  /** A path of envelopes from the null cursor that never comes back to a cursor. */
  ghost predicate Chain(p: seq<Envelope>) {
    && p != [] && p[0].request.before == None
    && (forall i {:trigger p[i]} :: 0 < i < |p| ==> p[i].request.before == Some(p[i - 1].request.after))
    && (forall i, j :: 0 <= i < j < |p| ==> p[i].request.after != p[j].request.after)
  }

  ghost predicate HeadOf(p: seq<Envelope>, c: Option<Checkpoint>)
    requires p != []
  {
    var head := p[|p| - 1];
    c.Some? && c.value.cursor == head.request.after && c.value.envelope == head.Id()
  }

  /** The envelopes are exactly one such path and the checkpoint is at its end. */
  ghost predicate Sound(es: set<Envelope>, c: Option<Checkpoint>) {
    if es == {} then c == None else exists p :: Chain(p) && Elements(p) == es && HeadOf(p, c)
  }

  function EnvelopesOf(envelopes: map<EnvelopeId, Envelope>, source: string): set<Envelope> {
    set id | id in envelopes && envelopes[id].request.source == source :: envelopes[id]
  }

  ghost predicate VaultSound(v: Vault) {
    forall source :: Sound(EnvelopesOf(v.envelopes, source), Get(v.checkpoints, source))
  }

  /** Envelopes are stored under their own ids. */
  ghost predicate Filed(v: Vault) {
    forall id :: id in v.envelopes ==> v.envelopes[id].Id() == id
  }

  /** No envelope of the source has this cursor yet. */
  ghost predicate NewCursor(v: Vault, source: string, cursor: string) {
    forall e: Envelope :: e in EnvelopesOf(v.envelopes, source) ==> e.request.after != cursor
  }

  /** Along a path, an envelope is determined by either of its cursors. */
  lemma ChainInjective(p: seq<Envelope>, a: Envelope, b: Envelope)
    requires Chain(p) && a in Elements(p) && b in Elements(p)
    ensures a.request.before == b.request.before ==> a == b
    ensures a.request.after == b.request.after ==> a == b
  {
    var i :| 0 <= i < |p| && p[i] == a;
    var j :| 0 <= j < |p| && p[j] == b;
    if 0 < i < j {
      assert p[i - 1].request.after != p[j - 1].request.after;
    } else if 0 < j < i {
      assert p[j - 1].request.after != p[i - 1].request.after;
    }
  }

  /** Two envelopes that start at the same cursor, or end at the same cursor: no later ingest can mend it. */
  lemma ForksAreUnsound(es: set<Envelope>, c: Option<Checkpoint>, a: Envelope, b: Envelope)
    requires a in es && b in es && a != b
    requires a.request.before == b.request.before || a.request.after == b.request.after
    ensures !Sound(es, c)
  {
    if Sound(es, c) {
      var p: seq<Envelope> :| Chain(p) && Elements(p) == es && HeadOf(p, c);
      ChainInjective(p, a, b);
    }
  }

  /** Of a sound source, the cursors in use are those of its envelopes, and the checkpoint's is the one
      that no envelope starts from. */
  lemma SoundCursors(es: set<Envelope>, c: Option<Checkpoint>)
    requires Sound(es, c)
    ensures es == {} <==> c == None
    ensures forall e: Envelope :: e in es && e.request.before.Some? ==>
              exists d: Envelope :: d in es && Some(d.request.after) == e.request.before
    ensures forall e: Envelope :: e in es ==> e.request.before != (if c.Some? then Some(c.value.cursor) else None)
    ensures c.Some? ==> exists d: Envelope :: d in es && d.request.after == c.value.cursor
  {
    if es != {} {
      var p: seq<Envelope> :| Chain(p) && Elements(p) == es && HeadOf(p, c);
      forall e | e in es
        ensures e.request.before != Some(c.value.cursor)
        ensures e.request.before.Some? ==> exists d: Envelope :: d in es && Some(d.request.after) == e.request.before
      {
        var i :| 0 <= i < |p| && p[i] == e;
        if i > 0 { assert p[i - 1] in Elements(p); }
      }
      assert p[|p| - 1] in Elements(p);
    }
  }

  /** Extending a sound source with an envelope that starts at its checkpoint. */
  lemma ExtendSound(es: set<Envelope>, c: Option<Checkpoint>, e: Envelope)
    requires Sound(es, c) && e.request.before == (if c.Some? then Some(c.value.cursor) else None)
    requires forall d: Envelope :: d in es ==> d.request.after != e.request.after
    ensures Sound(es + {e}, Some(CheckpointFor(e)))
  {
    if es == {} {
      assert Chain([e]) && Elements([e]) == es + {e} && HeadOf([e], Some(CheckpointFor(e)));
    } else {
      var p: seq<Envelope> :| Chain(p) && Elements(p) == es && HeadOf(p, c);
      ExtendChain(p, e);
      ElementsJoin(p, [e]);
      assert Elements([e]) == {e};
      assert HeadOf(p + [e], Some(CheckpointFor(e)));
    }
  }

  lemma ExtendChain(p: seq<Envelope>, e: Envelope)
    requires Chain(p) && e.request.before == Some(p[|p| - 1].request.after)
    requires forall d: Envelope :: d in Elements(p) ==> d.request.after != e.request.after
    ensures Chain(p + [e])
  {
    forall i | 0 <= i < |p| ensures p[i].request.after != e.request.after { assert p[i] in Elements(p); }
  }

  lemma EnvelopesAfter(v: Vault, e: Envelope, ps: seq<Candidate>, n: nat, source: string)
    requires Filed(v) && n > |ps|
    requires e.Id() in v.envelopes ==> v.envelopes[e.Id()] == e
    ensures EnvelopesOf(After(v, e, ps, n).envelopes, source) == EnvelopesOf(v.envelopes, source)
            + (if source == e.request.source then {e} else {})
    ensures Filed(After(v, e, ps, n))
  {
    hide PersistAll;
    var w := After(v, e, ps, n);
    forall d | d in EnvelopesOf(v.envelopes, source) ensures d in EnvelopesOf(w.envelopes, source) {
      assert w.envelopes[d.Id()] == d;
    }
    forall d | d in EnvelopesOf(w.envelopes, source) && d != e ensures d in EnvelopesOf(v.envelopes, source) {
      assert v.envelopes[d.Id()] == d;
    }
    if source == e.request.source { assert w.envelopes[e.Id()] == e; }
  }

  /** An uninterrupted ingest on sound chains: a request that is already there changes neither envelopes nor
      checkpoints; a new one keeps every chain sound if and only if its `after` cursor is new to its source. */
  lemma IngestKeepsSound(v: Vault, e: Envelope, ps: seq<Candidate>)
    requires Filed(v) && VaultSound(v) && Admitted(v, e) && ValidRequest(e.request)
    ensures var w := After(v, e, ps, Steps(ps));
            && Filed(w)
            && (e.Id() in v.envelopes ==> w.envelopes == v.envelopes && w.checkpoints == v.checkpoints && VaultSound(w))
            && (e.Id() !in v.envelopes ==> (VaultSound(w) <==> NewCursor(v, e.request.source, e.request.after)))
  {
    hide PersistAll, Chain, Sound, NewCursor, EnvelopesOf;
    var w, src := After(v, e, ps, Steps(ps)), e.request.source;
    EnvelopesAfter(v, e, ps, Steps(ps), src);
    if e.Id() in v.envelopes {
      ReplayChangesNothing(v, e, ps);
    } else if NewCursor(v, src, e.request.after) {
      NewCursorSound(v, e, ps);
    } else {
      OldCursorUnsound(v, e, ps);
    }
  }

  lemma ReplayChangesNothing(v: Vault, e: Envelope, ps: seq<Candidate>)
    requires Filed(v) && VaultSound(v) && Admitted(v, e) && e.Id() in v.envelopes
    ensures var w := After(v, e, ps, Steps(ps));
            w.envelopes == v.envelopes && w.checkpoints == v.checkpoints && VaultSound(w)
  {
    hide PersistAll;
    var es, c := EnvelopesOf(v.envelopes, e.request.source), Get(v.checkpoints, e.request.source);
    assert Sound(es, c) && e in es;
    SoundCursors(es, c);
    var w := After(v, e, ps, Steps(ps));
    assert w.envelopes == v.envelopes && w.checkpoints == v.checkpoints;
  }

  lemma NewCursorSound(v: Vault, e: Envelope, ps: seq<Candidate>)
    requires Filed(v) && VaultSound(v) && Admitted(v, e) && e.Id() !in v.envelopes
    requires NewCursor(v, e.request.source, e.request.after)
    ensures VaultSound(After(v, e, ps, Steps(ps)))
  {
    hide PersistAll, Chain, Sound;
    var w, src := After(v, e, ps, Steps(ps)), e.request.source;
    assert Sound(EnvelopesOf(v.envelopes, src), Get(v.checkpoints, src));
    ExtendSound(EnvelopesOf(v.envelopes, src), Get(v.checkpoints, src), e);
    forall other ensures Sound(EnvelopesOf(w.envelopes, other), Get(w.checkpoints, other)) {
      EnvelopesAfter(v, e, ps, Steps(ps), other);
      assert Sound(EnvelopesOf(v.envelopes, other), Get(v.checkpoints, other));
      assert Get(w.checkpoints, other) == if other == src then Some(CheckpointFor(e)) else Get(v.checkpoints, other);
      assert EnvelopesOf(v.envelopes, other) + {} == EnvelopesOf(v.envelopes, other);
    }
  }

  lemma OldCursorUnsound(v: Vault, e: Envelope, ps: seq<Candidate>)
    requires Filed(v) && Admitted(v, e) && e.Id() !in v.envelopes
    requires !NewCursor(v, e.request.source, e.request.after)
    ensures !VaultSound(After(v, e, ps, Steps(ps)))
  {
    hide PersistAll, Chain, Sound;
    var w, src := After(v, e, ps, Steps(ps)), e.request.source;
    var d :| d in EnvelopesOf(v.envelopes, src) && d.request.after == e.request.after;
    EnvelopesAfter(v, e, ps, Steps(ps), src);
    ForksAreUnsound(EnvelopesOf(w.envelopes, src), Get(w.checkpoints, src), d, e);
  }

  /** Envelopes are never removed. */
  ghost predicate Includes(later: Vault, v: Vault) {
    forall id :: id in v.envelopes ==> id in later.envelopes && later.envelopes[id] == v.envelopes[id]
  }

  /** The interrupted ingest that is not replayed: after a crash between the envelope and the checkpoint the
      chain is reported as unsound; a different request from the same cursor is nevertheless admitted, and
      whatever is ingested later, the chain stays forked. */
  lemma UnreplayedCrashForks(v: Vault, e: Envelope, ps: seq<Candidate>, other: Envelope, qs: seq<Candidate>,
                             later: Vault)
    requires Filed(v) && VaultSound(v) && e.Id() !in v.envelopes && Admitted(v, e)
    requires other != e && other.request.source == e.request.source && other.request.before == e.request.before
    requires other.Id() != e.Id()
    ensures var crashed := After(v, e, ps, |ps| + 1);
            !VaultSound(crashed) && Admitted(crashed, other)
    ensures Includes(later, After(After(v, e, ps, |ps| + 1), other, qs, Steps(qs))) ==> !VaultSound(later)
  {
    hide PersistAll;
    var crashed, src := After(v, e, ps, |ps| + 1), e.request.source;
    var es, c := EnvelopesOf(v.envelopes, src), Get(v.checkpoints, src);
    assert Sound(es, c);
    SoundCursors(es, c);
    EnvelopesAfter(v, e, ps, |ps| + 1, src);
    assert Get(crashed.checkpoints, src) == c;
    CrashedHead(es, c, e);
    forall id | id in v.envelopes && v.envelopes[id].request.source == src
      ensures v.envelopes[id].request.before != e.request.before
    {
      assert v.envelopes[id] in es;
    }
    var forked := After(crashed, other, qs, Steps(qs));
    assert forked.envelopes[e.Id()] == e && forked.envelopes[other.Id()] == other;
    if Includes(later, forked) {
      assert later.envelopes[e.Id()] == e && later.envelopes[other.Id()] == other;
      ForksAreUnsound(EnvelopesOf(later.envelopes, src), Get(later.checkpoints, src), e, other);
    }
  }

  lemma CrashedHead(es: set<Envelope>, c: Option<Checkpoint>, e: Envelope)
    requires Sound(es, c) && e !in es && e.request.before == (if c.Some? then Some(c.value.cursor) else None)
    ensures !Sound(es + {e}, c)
  {
    SoundCursors(es, c);
    if Sound(es + {e}, c) { SoundCursors(es + {e}, c); }
  }

  // ----- runs -----

  /** A request, cut short anywhere or not, or anything that leaves envelopes and checkpoints alone. */
  datatype Act = Request(envelope: Envelope, prepared: seq<Candidate>) | Elsewhere

  /** Candidates stay, keep their proposals, and keep every outcome. */
  ghost predicate Kept(cs: map<CandidateId, Candidate>, ds: map<CandidateId, Candidate>) {
    forall id :: id in cs ==>
      id in ds && ds[id].proposal == cs[id].proposal && (cs[id].status != Pending ==> ds[id] == cs[id])
  }

  ghost predicate Performs(v: Vault, w: Vault, act: Act) {
    match act
    case Request(e, ps) =>
      && (exists n :: 0 <= n <= Steps(ps) && w == After(v, e, ps, n))
      && (w != v ==> ValidRequest(e.request) && Admitted(v, e))
    case Elsewhere => w.envelopes == v.envelopes && w.checkpoints == v.checkpoints && Kept(v.candidates, w.candidates)
  }

  /** `states[k]` is what act `k` finds on disk; it may be what a crash left there. */
  datatype Trace = Trace(states: seq<Vault>, acts: seq<Act>)

  ghost predicate ValidTrace(t: Trace) {
    && |t.states| == |t.acts| + 1
    && forall k :: 0 <= k < |t.acts| ==> Performs(t.states[k], t.states[k + 1], t.acts[k])
  }

  /** Act `k` wrote something for `source`. */
  ghost predicate Wrote(t: Trace, k: nat, source: string)
    requires ValidTrace(t) && k < |t.acts|
  {
    t.acts[k].Request? && t.acts[k].envelope.request.source == source && t.states[k + 1] != t.states[k]
  }

  ghost predicate Completes(v: Vault, w: Vault, act: Act) {
    act.Request? && w == After(v, act.envelope, act.prepared, Steps(act.prepared))
  }

  /** An envelope starts where the checkpoint stands: it is written, and its own checkpoint is not. */
  ghost predicate HalfWritten(v: Vault, source: string) {
    exists e :: e in EnvelopesOf(v.envelopes, source) && e.request.before == Observed(v, source)
  }

  /** Act `k` files a new envelope although its source is half-written or has had the cursor before. */
  ghost predicate Derails(t: Trace, k: nat)
    requires ValidTrace(t) && k < |t.acts|
  {
    && t.acts[k].Request?
    && var e := t.acts[k].envelope;
       && e.Id() !in t.states[k].envelopes && e.Id() in t.states[k + 1].envelopes
       && (HalfWritten(t.states[k], e.request.source)
           || !NewCursor(t.states[k], e.request.source, e.request.after))
  }

  /** `e` is written, its checkpoint is not, and the chain is sound without it. */
  ghost predicate Halfway(es: set<Envelope>, c: Option<Checkpoint>, e: Envelope) {
    && e in es && Sound(es - {e}, c)
    && e.request.before == (if c.Some? then Some(c.value.cursor) else None)
    && forall d :: d in es - {e} ==> d.request.after != e.request.after
  }

  /** The source is one path with its checkpoint at the end, or lacks just the checkpoint of the last envelope. */
  ghost predicate OnTrack(v: Vault, source: string) {
    var es, c := EnvelopesOf(v.envelopes, source), Get(v.checkpoints, source);
    Sound(es, c) || exists e :: Halfway(es, c, e)
  }

  lemma SoundIffNotHalfWritten(v: Vault, source: string)
    requires OnTrack(v, source)
    ensures Sound(EnvelopesOf(v.envelopes, source), Get(v.checkpoints, source)) <==> !HalfWritten(v, source)
  {
    hide Chain, Sound;
    var es, c := EnvelopesOf(v.envelopes, source), Get(v.checkpoints, source);
    if Sound(es, c) {
      SoundCursors(es, c);
    } else {
      var e :| Halfway(es, c, e);
      assert e in es && e.request.before == Observed(v, source);
    }
  }

  /** Ingesting an envelope that is already filed, or a new one with a new cursor while the chain is sound. */
  lemma OwnSource(v: Vault, e: Envelope, ps: seq<Candidate>, n: nat)
    requires Filed(v) && Admitted(v, e) && n <= Steps(ps) && OnTrack(v, e.request.source)
    requires n > |ps| && e.Id() !in v.envelopes ==>
               !HalfWritten(v, e.request.source) && NewCursor(v, e.request.source, e.request.after)
    ensures OnTrack(After(v, e, ps, n), e.request.source)
  {
    hide PersistAll, Chain, Sound, NewCursor, HalfWritten, Halfway;
    var src, w := e.request.source, After(v, e, ps, n);
    if n > |ps| {
      if e.Id() in v.envelopes {
        Refiled(v, e, ps, n);
      } else {
        SoundIffNotHalfWritten(v, src);
        NewlyFiled(v, e, ps, n);
      }
    } else {
      assert w.envelopes == v.envelopes && w.checkpoints == v.checkpoints;
    }
  }

  lemma NewlyFiled(v: Vault, e: Envelope, ps: seq<Candidate>, n: nat)
    requires Filed(v) && Admitted(v, e) && |ps| < n <= Steps(ps) && e.Id() !in v.envelopes
    requires Sound(EnvelopesOf(v.envelopes, e.request.source), Get(v.checkpoints, e.request.source))
    requires NewCursor(v, e.request.source, e.request.after)
    ensures OnTrack(After(v, e, ps, n), e.request.source)
  {
    hide PersistAll, Chain, Sound;
    var src, w := e.request.source, After(v, e, ps, n);
    var es, c := EnvelopesOf(v.envelopes, src), Get(v.checkpoints, src);
    EnvelopesAfter(v, e, ps, n, src);
    assert es + {e} - {e} == es;
    if n == Steps(ps) {
      ExtendSound(es, c, e);
    } else {
      assert Halfway(es + {e}, c, e);
    }
  }

  lemma Refiled(v: Vault, e: Envelope, ps: seq<Candidate>, n: nat)
    requires Filed(v) && Admitted(v, e) && |ps| < n <= Steps(ps) && e.Id() in v.envelopes
    requires OnTrack(v, e.request.source)
    ensures OnTrack(After(v, e, ps, n), e.request.source)
  {
    hide PersistAll, Chain, Sound;
    var src, w := e.request.source, After(v, e, ps, n);
    var es, c := EnvelopesOf(v.envelopes, src), Get(v.checkpoints, src);
    EnvelopesAfter(v, e, ps, n, src);
    assert e in es && es + {e} == es;
    if Sound(es, c) {
      SoundCursors(es, c);
    } else {
      var f :| Halfway(es, c, f);
      SoundCursors(es - {f}, c);
      if e == f {
        ExtendSound(es - {e}, c, e);
        assert es - {e} + {e} == es;
      } else {
        assert e in es - {f};
      }
    }
  }

  lemma OtherSource(v: Vault, e: Envelope, ps: seq<Candidate>, n: nat, source: string)
    requires Filed(v) && Admitted(v, e) && source != e.request.source
    ensures EnvelopesOf(After(v, e, ps, n).envelopes, source) == EnvelopesOf(v.envelopes, source)
    ensures Get(After(v, e, ps, n).checkpoints, source) == Get(v.checkpoints, source)
  {
    hide PersistAll;
    if n > |ps| { EnvelopesAfter(v, e, ps, n, source); }
  }

  /** One act that does not derail keeps every source on track. */
  lemma TraceStep(t: Trace, k: nat, source: string)
    requires ValidTrace(t) && k < |t.acts| && !Derails(t, k)
    requires Filed(t.states[k]) && OnTrack(t.states[k], source)
    ensures OnTrack(t.states[k + 1], source)
  {
    hide Sound, Halfway, NewCursor, HalfWritten, ValidRequest, Admitted, PersistAll;
    var v, w, act := t.states[k], t.states[k + 1], t.acts[k];
    assert Performs(v, w, act);
    if act.Request? && w != v {
      var n :| 0 <= n <= Steps(act.prepared) && w == After(v, act.envelope, act.prepared, n);
      if act.envelope.request.source == source {
        OwnSource(v, act.envelope, act.prepared, n);
      } else {
        OtherSource(v, act.envelope, act.prepared, n, source);
      }
    }
  }

  lemma ActFiles(v: Vault, w: Vault, act: Act)
    requires Filed(v) && Performs(v, w, act)
    ensures Filed(w) && Includes(w, v)
  {
    hide PersistAll;
  }

  /** Two envelopes of one source start or end at the same cursor. */
  ghost predicate Forked(v: Vault) {
    exists i, j :: i in v.envelopes && j in v.envelopes && Collide(v.envelopes[i], v.envelopes[j])
  }

  predicate Collide(a: Envelope, b: Envelope) {
    && a != b && a.request.source == b.request.source
    && (a.request.before == b.request.before || a.request.after == b.request.after)
  }

  lemma ForkedStays(v: Vault, w: Vault)
    requires Forked(v) && Includes(w, v)
    ensures Forked(w) && !VaultSound(w)
  {
    hide Sound;
    var i, j :| i in v.envelopes && j in v.envelopes && Collide(v.envelopes[i], v.envelopes[j]);
    assert Collide(w.envelopes[i], w.envelopes[j]);
    var a, b := w.envelopes[i], w.envelopes[j];
    var es, c := EnvelopesOf(w.envelopes, a.request.source), Get(w.checkpoints, a.request.source);
    assert a in es && b in es;
    ForksAreUnsound(es, c, a, b);
  }

  lemma DerailedForks(t: Trace, k: nat)
    requires ValidTrace(t) && k < |t.acts| && Derails(t, k) && Filed(t.states[k])
    ensures Forked(t.states[k + 1])
  {
    hide PersistAll;
    var v, w, e := t.states[k], t.states[k + 1], t.acts[k].envelope;
    assert Performs(v, w, t.acts[k]);
    ActFiles(v, w, t.acts[k]);
    var d :| d in EnvelopesOf(v.envelopes, e.request.source)
             && (d.request.before == e.request.before || d.request.after == e.request.after);
    assert v.envelopes[d.Id()] == d && w.envelopes[d.Id()] == d && w.envelopes[e.Id()] == e;
    assert Collide(w.envelopes[d.Id()], w.envelopes[e.Id()]);
  }

  /** Exactly when the chains are sound, over every run of requests cut short anywhere and of anything else: no
      source is half-written now, and never has a new envelope been filed for a half-written source or with a
      cursor its source had used. Until the first such envelope every source is on track; after it none of the
      later acts can mend the fork. */
  lemma {:induction false} SoundIffOnTrack(t: Trace, n: nat)
    requires ValidTrace(t) && n <= |t.acts| && Filed(t.states[0]) && VaultSound(t.states[0])
    ensures Filed(t.states[n])
    ensures (forall k :: 0 <= k < n ==> !Derails(t, k)) ==> forall source :: OnTrack(t.states[n], source)
    ensures (exists k :: 0 <= k < n && Derails(t, k)) ==> Forked(t.states[n])
    ensures VaultSound(t.states[n]) <==>
              && (forall k :: 0 <= k < n ==> !Derails(t, k))
              && (forall source :: !HalfWritten(t.states[n], source))
  {
    hide Performs, OnTrack, Derails, Forked, HalfWritten, Sound, Filed, Includes;
    if n == 0 {
      forall source ensures OnTrack(t.states[0], source) { SoundIsOnTrack(t.states[0], source); }
    } else {
      SoundIffOnTrack(t, n - 1);
      var v, w := t.states[n - 1], t.states[n];
      assert Performs(v, w, t.acts[n - 1]);
      ActFiles(v, w, t.acts[n - 1]);
      if Derails(t, n - 1) {
        DerailedForks(t, n - 1);
      } else if forall k :: 0 <= k < n - 1 ==> !Derails(t, k) {
        forall source ensures OnTrack(w, source) { TraceStep(t, n - 1, source); }
      } else {
        ForkedStays(v, w);
      }
    }
    if exists k :: 0 <= k < n && Derails(t, k) {
      SameIncludes(t.states[n]);
      ForkedStays(t.states[n], t.states[n]);
    } else {
      forall source
        ensures Sound(EnvelopesOf(t.states[n].envelopes, source), Get(t.states[n].checkpoints, source))
                <==> !HalfWritten(t.states[n], source)
      {
        SoundIffNotHalfWritten(t.states[n], source);
      }
    }
  }

  lemma SoundIsOnTrack(v: Vault, source: string)
    requires VaultSound(v)
    ensures OnTrack(v, source)
  {}

  lemma SameIncludes(v: Vault)
    ensures Includes(v, v)
  {}

  // ----- a cut request inside a run -----

  /** The vault has got as far as some cut of this ingest, whatever else has happened. */
  ghost predicate Toward(v: Vault, w: Vault, e: Envelope, ps: seq<Candidate>) {
    exists n :: 0 <= n <= Steps(ps) && Meanwhile(After(v, e, ps, n), w, e, ps)
  }

  lemma MeanwhileOn(v: Vault, w: Vault, u: Vault, e: Envelope, ps: seq<Candidate>)
    requires Meanwhile(v, w, e, ps) && Meanwhile(w, u, e, ps)
    ensures Meanwhile(v, u, e, ps)
  {}

  /** Cut again: the vault is still on the way of the first attempt. */
  lemma CutAgain(v: Vault, w: Vault, e: Envelope, ps: seq<Candidate>, n: nat, m: nat)
    requires ValidRequest(e.request) && Admitted(v, e) && n <= Steps(ps) && m <= Steps(ps)
    requires Meanwhile(After(v, e, ps, n), w, e, ps)
    ensures Meanwhile(After(v, e, ps, if n < m then m else n), After(w, e, ps, m), e, ps)
  {
    hide PersistAll, Progressed;
    CutAgainCandidates(v, w, e, ps, n, m);
  }

  lemma CutAgainCandidates(v: Vault, w: Vault, e: Envelope, ps: seq<Candidate>, n: nat, m: nat)
    requires n <= Steps(ps) && m <= Steps(ps) && Progressed(After(v, e, ps, n).candidates, w.candidates, ps)
    ensures Progressed(After(v, e, ps, if n < m then m else n).candidates, After(w, e, ps, m).candidates, ps)
  {
    hide PersistAll, Progressed, After;
    CandidatesAfter(v, e, ps, n);
    CandidatesAfter(v, e, ps, if n < m then m else n);
    CandidatesAfter(w, e, ps, m);
    ProgressedAgain(v.candidates, w.candidates, ps, Taken(ps, n), Taken(ps, m));
  }

  function Taken(ps: seq<Candidate>, n: nat): nat {
    if n < |ps| then n else |ps|
  }

  lemma CandidatesAfter(v: Vault, e: Envelope, ps: seq<Candidate>, n: nat)
    ensures After(v, e, ps, n).candidates == PersistAll(v.candidates, ps[..Taken(ps, n)])
  {
    hide PersistAll;
    assert ps[..|ps|] == ps;
  }

  lemma ProgressedAgain(cs: map<CandidateId, Candidate>, ds: map<CandidateId, Candidate>, ps: seq<Candidate>,
                        i: nat, j: nat)
    requires i <= |ps| && j <= |ps| && Progressed(PersistAll(cs, ps[..i]), ds, ps)
    ensures Progressed(PersistAll(cs, ps[..if i < j then j else i]), PersistAll(ds, ps[..j]), ps)
  {
    hide PersistAll;
    var once, twice := PersistAll(cs, ps[..if i < j then j else i]), PersistAll(ds, ps[..j]);
    forall id | id in once ensures id in twice && twice[id].proposal == once[id].proposal {
      KeepsProposal(cs, ds, ps, i, j, id);
    }
    forall p | p in ps && p.id in twice ensures p.id in once { TakesNoMore(cs, ds, ps, i, j, p); }
  }

  lemma KeepsProposal(cs: map<CandidateId, Candidate>, ds: map<CandidateId, Candidate>, ps: seq<Candidate>,
                      i: nat, j: nat, id: CandidateId)
    requires i <= |ps| && j <= |ps| && Progressed(PersistAll(cs, ps[..i]), ds, ps)
    requires id in PersistAll(cs, ps[..if i < j then j else i])
    ensures id in PersistAll(ds, ps[..j])
    ensures PersistAll(ds, ps[..j])[id].proposal == PersistAll(cs, ps[..if i < j then j else i])[id].proposal
  {
    if i < j {
      PersistResumes(cs, ds, ps, i, j, id);
      assert Get(PersistAll(cs, ps[..j]), id).Some?;
      assert Get(PersistAll(ds, ps[..j]), id) == Some(PersistAll(ds, ps[..j])[id]);
    } else {
      PersistLookup(ds, ps[..j], id);
    }
  }

  lemma TakesNoMore(cs: map<CandidateId, Candidate>, ds: map<CandidateId, Candidate>, ps: seq<Candidate>,
                    i: nat, j: nat, p: Candidate)
    requires i <= |ps| && j <= |ps| && Progressed(PersistAll(cs, ps[..i]), ds, ps)
    requires p in ps && p.id in PersistAll(ds, ps[..j])
    ensures p.id in PersistAll(cs, ps[..if i < j then j else i])
  {
    hide PersistAll, FirstWith;
    var l := if i < j then j else i;
    PersistLookup(ds, ps[..j], p.id);
    PersistLookup(cs, ps[..l], p.id);
    PersistLookup(cs, ps[..i], p.id);
    if p.id !in cs {
      assert ps[..l][..i] == ps[..i] && ps[..l][..j] == ps[..j];
      if FirstWith(ps[..i], p.id).Some? { FirstStays(ps[..l], p.id, i); }
      if FirstWith(ps[..j], p.id).Some? { FirstStays(ps[..l], p.id, j); }
    }
  }

  /** Act `k` does not interfere with this request: it is the request itself, or writes nothing for its source, and
      takes none of its candidate ids. */
  ghost predicate LeavesAlone(t: Trace, k: nat, e: Envelope, ps: seq<Candidate>)
    requires ValidTrace(t) && k < |t.acts|
  {
    || t.acts[k] == Request(e, ps)
    || (&& !Wrote(t, k, e.request.source)
        && forall p :: p in ps && p.id in t.states[k + 1].candidates ==> p.id in t.states[k].candidates)
  }

  lemma OtherAct(t: Trace, k: nat, e: Envelope, ps: seq<Candidate>)
    requires ValidTrace(t) && k < |t.acts| && t.acts[k] != Request(e, ps) && LeavesAlone(t, k, e, ps)
    ensures Meanwhile(t.states[k], t.states[k + 1], e, ps)
  {
    var v, w, act := t.states[k], t.states[k + 1], t.acts[k];
    assert Performs(v, w, act);
    if act.Request? && w != v {
      var n :| 0 <= n <= Steps(act.prepared) && w == After(v, act.envelope, act.prepared, n);
      assert act.envelope.request.source != e.request.source;
      PersistKeeps(v, act.envelope, act.prepared, n);
    }
  }

  lemma PersistKeeps(v: Vault, e: Envelope, ps: seq<Candidate>, n: nat)
    ensures forall id :: id in v.candidates ==>
              id in After(v, e, ps, n).candidates && After(v, e, ps, n).candidates[id] == v.candidates[id]
  {
    var part := if n < |ps| then ps[..n] else ps;
    forall id | id in v.candidates
      ensures id in PersistAll(v.candidates, part) && PersistAll(v.candidates, part)[id] == v.candidates[id]
    {
      PersistLookup(v.candidates, part, id);
      assert Get(PersistAll(v.candidates, part), id) == Some(v.candidates[id]);
    }
  }

  lemma {:induction false} TowardInTrace(t: Trace, i: nat, j: nat, e: Envelope, ps: seq<Candidate>)
    requires ValidTrace(t) && i <= j <= |t.acts|
    requires ValidRequest(e.request) && Admitted(t.states[i], e)
    requires forall k :: i <= k < j ==> LeavesAlone(t, k, e, ps)
    ensures Toward(t.states[i], t.states[j], e, ps)
    decreases j
  {
    hide ValidRequest, Admitted, Meanwhile, After, LeavesAlone;
    if i == j {
      NothingCut(t.states[i], e, ps);
    } else {
      TowardInTrace(t, i, j - 1, e, ps);
      var v, w, u := t.states[i], t.states[j - 1], t.states[j];
      var n :| 0 <= n <= Steps(ps) && Meanwhile(After(v, e, ps, n), w, e, ps);
      assert LeavesAlone(t, j - 1, e, ps) && Performs(w, u, t.acts[j - 1]);
      if t.acts[j - 1] == Request(e, ps) {
        var m :| 0 <= m <= Steps(ps) && u == After(w, e, ps, m);
        CutAgain(v, w, e, ps, n, m);
      } else {
        OtherAct(t, j - 1, e, ps);
        MeanwhileOn(After(v, e, ps, n), w, u, e, ps);
      }
    }
  }

  lemma NothingCut(v: Vault, e: Envelope, ps: seq<Candidate>)
    ensures Meanwhile(After(v, e, ps, 0), v, e, ps)
  {
    assert PersistAll(v.candidates, ps[..0]) == v.candidates;
  }

  /** A request first admitted at `i` and completed at `j`, however often it was cut short in between and whatever
      other sources and people did meanwhile, leaves the envelope, the checkpoint and the candidates of an
      uninterrupted run at `i`, and resets no candidate that was promoted before the completing replay. */
  lemma CompletedInTrace(t: Trace, i: nat, j: nat)
    requires ValidTrace(t) && i <= j < |t.acts| && t.acts[j].Request?
    requires ValidRequest(t.acts[j].envelope.request) && Admitted(t.states[i], t.acts[j].envelope)
    requires forall k :: i <= k < j ==> LeavesAlone(t, k, t.acts[j].envelope, t.acts[j].prepared)
    requires Completes(t.states[j], t.states[j + 1], t.acts[j])
    ensures var e, ps := t.acts[j].envelope, t.acts[j].prepared;
            var whole, now := After(t.states[i], e, ps, Steps(ps)), t.states[j + 1];
            && Get(now.envelopes, e.Id()) == Get(whole.envelopes, e.Id())
            && Get(now.checkpoints, e.request.source) == Get(whole.checkpoints, e.request.source)
            && (forall id :: id in whole.candidates ==>
                  id in now.candidates && now.candidates[id].proposal == whole.candidates[id].proposal)
            && (forall id :: id in t.states[j].candidates ==>
                  id in now.candidates && now.candidates[id] == t.states[j].candidates[id])
  {
    hide ValidRequest, Admitted, Meanwhile, After, LeavesAlone, Performs;
    var e, ps := t.acts[j].envelope, t.acts[j].prepared;
    TowardInTrace(t, i, j, e, ps);
    var n :| 0 <= n <= Steps(ps) && Meanwhile(After(t.states[i], e, ps, n), t.states[j], e, ps);
    CrashThenReplay(t.states[i], t.states[j], e, ps, n);
  }
}
