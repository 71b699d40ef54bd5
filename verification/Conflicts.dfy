/** The reciprocity checks and the structured-conflict rule of the repository audit. */
module Conflicts {
  import opened Evidence
  import opened Orders
  import opened Supersession

  // ----- reciprocity -----

  datatype SupersessionError =
    | WrongStatus(id: string)
    | SupersedesMissing(id: string, target: string)
    | SupersedesOtherKind(id: string, target: string)
    | NotReciprocal(id: string, target: string)
    | SuccessorMissing(id: string)
    | SuccessorOtherKind(id: string)
    | ReverseEdgeMissing(id: string)

  function TargetError(records: Records, id: string, target: string, reciprocal: bool): Option<SupersessionError>
    requires id in records
  {
    if target !in records then Some(SupersedesMissing(id, target))
    else if records[target].kind != records[id].kind then Some(SupersedesOtherKind(id, target))
    else if reciprocal && records[target].supersededBy != Some(id) then Some(NotReciprocal(id, target))
    else None
  }

  function SuccessorError(records: Records, id: string, reciprocal: bool): Option<SupersessionError>
    requires id in records
  {
    match records[id].supersededBy
    case None => None
    case Some(successor) =>
      if successor !in records then Some(SuccessorMissing(id))
      else if records[successor].kind != records[id].kind then Some(SuccessorOtherKind(id))
      else if reciprocal && id !in records[successor].supersedes then Some(ReverseEdgeMissing(id))
      else None
  }

  predicate StatusFits(r: Record) {
    r.supersededBy.Some? ==> r.status == (if r.kind == Fact then "deprecated" else "superseded")
  }

  ghost predicate SameKindAs(records: Records, id: string, other: string)
    requires id in records
  {
    other in records && records[other].kind == records[id].kind
  }

  /** What the supersession checks ask of a fact or decision: a superseded one has the status that says so; what it
      supersedes and what supersedes it are records of its kind; and under reciprocity each names the other. */
  ghost predicate RecordSound(records: Records, id: string, reciprocal: bool)
    requires id in records
  {
    var r := records[id];
    r.kind != Situation ==>
      && (r.supersededBy.Some? && r.kind == Fact ==> r.status == "deprecated")
      && (r.supersededBy.Some? && r.kind != Fact ==> r.status == "superseded")
      && (forall t :: t in Elements(r.supersedes) ==>
            SameKindAs(records, id, t) && (reciprocal ==> records[t].supersededBy == Some(id)))
      && (r.supersededBy.Some? ==>
            && SameKindAs(records, id, r.supersededBy.value)
            && (reciprocal ==> id in Elements(records[r.supersededBy.value].supersedes)))
  }

  /** The audit finds no supersession error. */
  ghost predicate SupersessionSound(records: Records, reciprocal: bool) {
    forall id :: id in records ==> RecordSound(records, id, reciprocal)
  }

  /** What each error says: of a fact or decision, that it is superseded with the wrong status, that it supersedes no
      record, one of another kind, or one that does not name it back, or the like of its successor. */
  ghost predicate Complaint(records: Records, reciprocal: bool, e: SupersessionError) {
    e.id in records && records[e.id].kind != Situation &&
    var r := records[e.id];
    match e
    case WrongStatus(_) =>
      r.supersededBy.Some? && r.status != (if r.kind == Fact then "deprecated" else "superseded")
    case SupersedesMissing(_, t) => t in Elements(r.supersedes) && t !in records
    case SupersedesOtherKind(_, t) => t in Elements(r.supersedes) && t in records && records[t].kind != r.kind
    case NotReciprocal(id, t) =>
      reciprocal && t in Elements(r.supersedes) && SameKindAs(records, id, t) && records[t].supersededBy != Some(id)
    case SuccessorMissing(_) => r.supersededBy.Some? && r.supersededBy.value !in records
    case SuccessorOtherKind(_) =>
      r.supersededBy.Some? && r.supersededBy.value in records && records[r.supersededBy.value].kind != r.kind
    case ReverseEdgeMissing(id) =>
      reciprocal && r.supersededBy.Some? && SameKindAs(records, id, r.supersededBy.value)
        && id !in Elements(records[r.supersededBy.value].supersedes)
  }

  method RecordErrors(records: Records, id: string, reciprocal: bool) returns (errors: seq<SupersessionError>)
    requires id in records
    ensures forall e: SupersessionError :: e in errors <==> e.id == id && Complaint(records, reciprocal, e)
  {
    hide Complaint, TargetError, SuccessorError;
    var r := records[id];
    errors := [];
    if r.kind == Situation {
      NoComplaint(records, id, reciprocal);
      return;
    }
    if !StatusFits(r) { errors := errors + [WrongStatus(id)]; }
    var i := 0;
    while i < |r.supersedes|
      invariant 0 <= i <= |r.supersedes|
      invariant forall e: SupersessionError :: e in errors <==>
                  || (e == WrongStatus(id) && !StatusFits(r))
                  || TargetErrorIn(records, id, r.supersedes[..i], reciprocal, e)
    {
      var e := TargetError(records, id, r.supersedes[i], reciprocal);
      NextTarget(records, id, r.supersedes, i, reciprocal);
      if e.Some? { errors := errors + [e.value]; }
      i := i + 1;
    }
    assert r.supersedes[..i] == r.supersedes;
    var e := SuccessorError(records, id, reciprocal);
    if e.Some? { errors := errors + [e.value]; }
    ComplaintsFound(records, id, reciprocal);
  }

  ghost predicate TargetErrorIn(records: Records, id: string, targets: seq<string>, reciprocal: bool,
                                e: SupersessionError)
    requires id in records
  {
    exists t :: t in Elements(targets) && TargetError(records, id, t, reciprocal) == Some(e)
  }

  lemma NextTarget(records: Records, id: string, targets: seq<string>, i: nat, reciprocal: bool)
    requires id in records && i < |targets|
    ensures forall e: SupersessionError :: TargetErrorIn(records, id, targets[..i + 1], reciprocal, e) <==>
              TargetErrorIn(records, id, targets[..i], reciprocal, e)
              || TargetError(records, id, targets[i], reciprocal) == Some(e)
  {
    hide TargetError;
    assert targets[..i + 1] == targets[..i] + [targets[i]];
    ElementsJoin(targets[..i], [targets[i]]);
    assert targets[i] in Elements([targets[i]]);
  }

  lemma NoComplaint(records: Records, id: string, reciprocal: bool)
    requires id in records && records[id].kind == Situation
    ensures forall e: SupersessionError :: e.id == id ==> !Complaint(records, reciprocal, e)
  {}

  lemma ComplaintsFound(records: Records, id: string, reciprocal: bool)
    requires id in records && records[id].kind != Situation
    ensures forall e: SupersessionError :: e.id == id && Complaint(records, reciprocal, e) <==>
              || (e == WrongStatus(id) && !StatusFits(records[id]))
              || TargetErrorIn(records, id, records[id].supersedes, reciprocal, e)
              || SuccessorError(records, id, reciprocal) == Some(e)
  {
    forall e: SupersessionError | e.id == id && Complaint(records, reciprocal, e)
      && (e.SupersedesMissing? || e.SupersedesOtherKind? || e.NotReciprocal?)
      ensures TargetErrorIn(records, id, records[id].supersedes, reciprocal, e)
    {
      assert TargetError(records, id, e.target, reciprocal) == Some(e);
    }
  }

  /** The supersession part of `audit_repository`: every complaint and nothing else, so silent exactly on a store in
      which every record is sound. */
  method AuditSupersession(records: Records, reciprocal: bool) returns (errors: seq<SupersessionError>)
    ensures forall e: SupersessionError :: e in errors <==> Complaint(records, reciprocal, e)
    ensures errors == [] <==> SupersessionSound(records, reciprocal)
  {
    hide Complaint, StrictlyIncreasing, SupersessionSound;
    errors := [];
    var names := SortedSet(records.Keys);
    var i := 0;
    while i < |names|
      invariant 0 <= i <= |names|
      invariant forall e: SupersessionError :: e in errors <==>
                  e.id in Elements(names[..i]) && Complaint(records, reciprocal, e)
    {
      assert names[i] in Elements(names);
      NextIsNew(names, i);
      var more := RecordErrors(records, names[i], reciprocal);
      errors := errors + more;
      i := i + 1;
    }
    assert names[..i] == names;
    ComplaintsKnow(records, reciprocal);
    SilentIffSound(records, reciprocal);
    if errors != [] { assert errors[0] in errors; }
  }

  lemma ComplaintsKnow(records: Records, reciprocal: bool)
    ensures forall e: SupersessionError :: Complaint(records, reciprocal, e) ==> e.id in records
  {}

  lemma SilentIffSound(records: Records, reciprocal: bool)
    ensures SupersessionSound(records, reciprocal) <==>
              forall e: SupersessionError :: !Complaint(records, reciprocal, e)
  {
    if forall e: SupersessionError :: !Complaint(records, reciprocal, e) {
      forall id | id in records ensures RecordSound(records, id, reciprocal) {
        RecordSilent(records, id, reciprocal);
      }
    } else {
      var e :| Complaint(records, reciprocal, e);
      assert !RecordSound(records, e.id, reciprocal);
    }
  }

  lemma RecordSilent(records: Records, id: string, reciprocal: bool)
    requires id in records && forall e: SupersessionError :: e.id == id ==> !Complaint(records, reciprocal, e)
    ensures RecordSound(records, id, reciprocal)
  {
    var r := records[id];
    assert !Complaint(records, reciprocal, WrongStatus(id));
    assert !Complaint(records, reciprocal, SuccessorMissing(id));
    assert !Complaint(records, reciprocal, SuccessorOtherKind(id));
    assert !Complaint(records, reciprocal, ReverseEdgeMissing(id));
    forall t | t in Elements(r.supersedes)
      ensures r.kind != Situation ==>
                SameKindAs(records, id, t) && (reciprocal ==> records[t].supersededBy == Some(id))
    {
      assert !Complaint(records, reciprocal, SupersedesMissing(id, t));
      assert !Complaint(records, reciprocal, SupersedesOtherKind(id, t));
      assert !Complaint(records, reciprocal, NotReciprocal(id, t));
    }
  }

  /** Under reciprocity the audit is silent exactly when `supersedes` and `superseded_by` are converse relations among
      the facts and decisions, and superseded ones have the right status. */
  lemma SoundIffConverse(records: Records)
    ensures SupersessionSound(records, true) <==>
              && (forall a :: a in records && records[a].kind != Situation && records[a].supersededBy.Some? ==>
                    && SameKindAs(records, a, records[a].supersededBy.value)
                    && records[a].status == (if records[a].kind == Fact then "deprecated" else "superseded"))
              && (forall a, t ::
                    a in records && records[a].kind != Situation && t in Elements(records[a].supersedes) ==>
                    SameKindAs(records, a, t))
              && (forall a, b :: a in records && b in records && records[a].kind != Situation
                                 && records[b].kind != Situation ==>
                    (b in Elements(records[a].supersedes) <==> records[b].supersededBy == Some(a)))
  {
    if SupersessionSound(records, true) {
      forall a | a in records ensures RecordSound(records, a, true) {}
    }
    forall a | a in records && records[a].kind != Situation
      ensures RecordSound(records, a, true) <==>
                && (records[a].supersededBy.Some? ==>
                      && SameKindAs(records, a, records[a].supersededBy.value)
                      && records[a].status == (if records[a].kind == Fact then "deprecated" else "superseded")
                      && a in Elements(records[records[a].supersededBy.value].supersedes))
                && (forall t :: t in Elements(records[a].supersedes) ==>
                      SameKindAs(records, a, t) && records[t].supersededBy == Some(a))
    {}
  }

  // ----- reciprocity protects active records -----

  lemma EdgeSupersedes(records: Records, a: string, b: string)
    requires SupersessionSound(records, true) && a in records && records[a].kind != Situation
    requires b in Elements(records[a].supersedes)
    ensures b in records && records[b].kind == records[a].kind && records[b].supersededBy == Some(a)
  {
    assert RecordSound(records, a, true);
  }

  /** Under reciprocity a path from a fact or decision stays among records of its kind, and everything
      it reaches has been superseded. */
  lemma {:induction false} PathSupersedes(records: Records, p: seq<string>, i: nat)
    requires SupersessionSound(records, true) && SupersedesPath(records, p) && i < |p| - 1
    requires records[p[0]].kind != Situation
    ensures p[i] in records && records[p[i]].kind == records[p[0]].kind
    ensures p[i + 1] in records && records[p[i + 1]].supersededBy == Some(p[i])
    ensures records[p[i + 1]].kind == records[p[0]].kind
  {
    hide SupersessionSound, Elements;
    if i > 0 { PathSupersedes(records, p, i - 1); }
    EdgeSupersedes(records, p[i], p[i + 1]);
  }

  lemma ActiveIsNotReached(records: Records, a: string, b: string)
    requires SupersessionSound(records, true)
    requires a in records && records[a].kind != Situation
    requires b in records && records[b].supersededBy == None
    ensures !Reaches(records, a, b)
  {
    forall p | SupersedesPath(records, p) && p[0] == a ensures p[|p| - 1] != b {
      PathSupersedes(records, p, |p| - 2);
    }
  }

  // ----- the conflict rule -----

  datatype Key = Key(subject: string, predicate_: string, scope: string)
  datatype Conflict = Conflict(left: string, right: string, key: Key)

  predicate KeyLe(a: Key, b: Key) {
    TripleLe((a.subject, a.predicate_, a.scope), (b.subject, b.predicate_, b.scope))
  }

  /** An active verified fact with a complete claim key. */
  predicate Claims(r: Record) {
    && r.kind == Fact && r.status == "verified" && r.supersededBy == None
    && r.claim.Some? && r.claim.value.subject != "" && r.claim.value.predicate_ != "" && r.claim.value.scope != ""
  }

  function KeyOf(r: Record): Key
    requires Claims(r)
  {
    Key(r.claim.value.subject, r.claim.value.predicate_, r.claim.value.scope)
  }

  function ObjectOf(records: Records, id: string): string
    requires id in records && Claims(records[id])
  {
    records[id].claim.value.asserted
  }

  /** The facts that assert something for a key. */
  function Group(records: Records, key: Key): set<string> {
    set id | id in records && Claims(records[id]) && KeyOf(records[id]) == key
  }

  /** Who takes part in the conflict rule: facts with status "verified" that name no successor, whose claim has the
      subject, predicate and scope of the key, none of them empty. */
  lemma GroupedFacts(records: Records, key: Key, id: string)
    ensures id in Group(records, key) <==>
              && id in records && records[id].kind == Fact && records[id].status == "verified"
              && records[id].supersededBy == None && records[id].claim.Some?
              && records[id].claim.value.subject == key.subject && key.subject != ""
              && records[id].claim.value.predicate_ == key.predicate_ && key.predicate_ != ""
              && records[id].claim.value.scope == key.scope && key.scope != ""
  {}

  function Objects(records: Records, key: Key): set<string> {
    set id | id in Group(records, key) :: ObjectOf(records, id)
  }

  function WithObject(records: Records, key: Key, asserted: string): set<string> {
    set id | id in Group(records, key) && ObjectOf(records, id) == asserted
  }

  /** The least fact among those asserting the least object. */
  function Base(records: Records, key: Key): (b: string)
    requires Group(records, key) != {}
    ensures b in Group(records, key)
  {
    assert Objects(records, key) != {} by {
      var id :| id in Group(records, key);
      assert ObjectOf(records, id) in Objects(records, key);
    }
    var asserted := Least(Objects(records, key));
    assert WithObject(records, key, asserted) != {} by {
      var id :| id in Group(records, key) && ObjectOf(records, id) == asserted;
      assert id in WithObject(records, key, asserted);
    }
    Least(WithObject(records, key, asserted))
  }

  ghost predicate Disagree(records: Records, key: Key) {
    exists a, b :: a in Group(records, key) && b in Group(records, key) && ObjectOf(records, a) != ObjectOf(records, b)
  }

  /** The records paired with the base fact: another object, and no supersession either way. */
  ghost function Paired(records: Records, key: Key): set<string>
    requires Group(records, key) != {}
  {
    set id | id in Group(records, key)
             && ObjectOf(records, id) != ObjectOf(records, Base(records, key))
             && !Reaches(records, Base(records, key), id) && !Reaches(records, id, Base(records, key))
  }

  // ----- the completeness theorem -----

  /** With reciprocity required and no supersession error, the exemption for superseded facts never
      applies, so comparing each fact with the base fact alone loses nothing: the paired facts are all
      facts whose object differs from the base's, and there are some exactly when two facts disagree. */
  lemma BaseComparisonIsComplete(records: Records, key: Key)
    requires SupersessionSound(records, true) && Group(records, key) != {}
    ensures Paired(records, key) ==
              set id | id in Group(records, key) && ObjectOf(records, id) != ObjectOf(records, Base(records, key))
    ensures Paired(records, key) != {} <==> Disagree(records, key)
  {
    var base := Base(records, key);
    forall id | id in Group(records, key) ensures !Reaches(records, base, id) && !Reaches(records, id, base) {
      ActiveIsNotReached(records, base, id);
      ActiveIsNotReached(records, id, base);
    }
    if Disagree(records, key) {
      var a, b :| a in Group(records, key) && b in Group(records, key) && ObjectOf(records, a) != ObjectOf(records, b);
      assert a in Paired(records, key) || b in Paired(records, key);
    }
    if Paired(records, key) != {} {
      var id :| id in Paired(records, key);
      assert Disagree(records, key);
    }
  }

  /** What the audit concludes for one key: an error exactly when two active facts disagree. */
  ghost predicate HasConflict(records: Records, key: Key) {
    Group(records, key) != {} && Paired(records, key) != {}
  }

  lemma ErrorIffDisagreement(records: Records, key: Key)
    requires SupersessionSound(records, true)
    ensures HasConflict(records, key) <==> Disagree(records, key)
  {
    if Group(records, key) != {} { BaseComparisonIsComplete(records, key); }
  }

  /** Whatever the policy, a reported pair really disagrees and neither side supersedes the other. */
  lemma ReportedDisagrees(records: Records, c: Conflict)
    requires Reported(records, c)
    ensures c.left in Group(records, c.key) && c.right in Group(records, c.key)
    ensures ObjectOf(records, c.left) != ObjectOf(records, c.right)
    ensures !Reaches(records, c.left, c.right) && !Reaches(records, c.right, c.left)
    ensures HasConflict(records, c.key) && Disagree(records, c.key)
  {}

  // ----- without reciprocity the shortcut is not complete -----

  function Claiming(asserted: string, supersedes: seq<string>): Record {
    Record(Fact, "verified", supersedes, None, Some(Claim("s", "p", "global", asserted)))
  }

  /** "1" supersedes "2" and "3" one-sidedly, and all three are active with different objects. */
  function OneSided(): Records {
    map["1" := Claiming("a", ["2", "3"]), "2" := Claiming("b", []), "3" := Claiming("c", [])]
  }

  lemma OneSidedSound()
    ensures SupersessionSound(OneSided(), false)
  {
    forall t | t in Elements(["2", "3"]) ensures t in OneSided() {}
  }

  lemma OneSidedGroup()
    ensures Group(OneSided(), Key("s", "p", "global")) == {"1", "2", "3"}
  {}

  lemma OneSidedBase()
    ensures Group(OneSided(), Key("s", "p", "global")) != {}
    ensures Base(OneSided(), Key("s", "p", "global")) == "1"
  {
    hide Least;
    var records, key := OneSided(), Key("s", "p", "global");
    OneSidedGroup();
    assert ObjectOf(records, "1") == "a" && ObjectOf(records, "2") == "b" && ObjectOf(records, "3") == "c";
    assert "a" in Objects(records, key);
    var least := Least(Objects(records, key));
    assert StrLe(least, "a");
    assert least in {"a", "b", "c"};
    assert !StrLe("b", "a") && !StrLe("c", "a");
    assert WithObject(records, key, "a") == {"1"};
  }

  /** Facts "2" and "3" disagree and neither supersedes the other, yet the audit reports no conflict
      when reciprocity is not required; nothing else in the supersession audit objects either. */
  lemma OneSidedHidesConflict()
    ensures var records, key := OneSided(), Key("s", "p", "global");
            && SupersessionSound(records, false)
            && Disagree(records, key)
            && !Reaches(records, "2", "3") && !Reaches(records, "3", "2")
            && !HasConflict(records, key)
  {
    hide SupersessionSound, HasConflict, Disagree, OneSided;
    OneSidedSound();
    OneSidedApart();
    OneSidedDisagree();
    OneSidedUnreported();
  }

  lemma OneSidedApart()
    ensures !Reaches(OneSided(), "2", "3") && !Reaches(OneSided(), "3", "2")
  {
    ShutOut(OneSided(), {"2"}, "2", "3");
    ShutOut(OneSided(), {"3"}, "3", "2");
  }

  /** The base fact "1" reaches the other two, so it is paired with nothing. */
  lemma OneSidedUnreported()
    ensures !HasConflict(OneSided(), Key("s", "p", "global"))
  {
    hide SupersessionSound, Base, Group, Reaches;
    var records := OneSided();
    OneSidedGroup();
    OneSidedBase();
    assert "2" in ["2", "3"] && "3" in ["2", "3"];
    ReachesOne(records, "1", "2");
    ReachesOne(records, "1", "3");
  }

  lemma OneSidedDisagree()
    ensures Disagree(OneSided(), Key("s", "p", "global"))
  {
    var records, key := OneSided(), Key("s", "p", "global");
    OneSidedGroup();
    assert ObjectOf(records, "2") == "b" && ObjectOf(records, "3") == "c";
  }

  // ----- exactly when the shortcut is complete -----

  /** The documented rule: two facts of the key disagree and neither supersedes the other. */
  ghost predicate UnrelatedDisagreement(records: Records, key: Key) {
    exists a, b ::
      && a in Group(records, key) && b in Group(records, key) && ObjectOf(records, a) != ObjectOf(records, b)
      && !Reaches(records, a, b) && !Reaches(records, b, a)
  }

  /** What the audit concludes is the documented rule for every store that passes the supersession audit, if
      and only if the policy requires reciprocity. */
  lemma RuleHoldsIffReciprocal(reciprocal: bool)
    ensures (forall records, key :: SupersessionSound(records, reciprocal) ==>
               (HasConflict(records, key) <==> UnrelatedDisagreement(records, key)))
            <==> reciprocal
  {
    hide SupersessionSound, HasConflict, UnrelatedDisagreement;
    if reciprocal {
      forall records, key | SupersessionSound(records, true)
        ensures HasConflict(records, key) <==> UnrelatedDisagreement(records, key)
      {
        ErrorIffDisagreement(records, key);
        DisagreementIsUnrelated(records, key);
      }
    } else {
      OneSidedHidesConflict();
      OneSidedUnrelated();
    }
  }

  lemma DisagreementIsUnrelated(records: Records, key: Key)
    requires SupersessionSound(records, true)
    ensures Disagree(records, key) <==> UnrelatedDisagreement(records, key)
  {
    hide SupersessionSound, Reaches;
    forall a, b | a in Group(records, key) && b in Group(records, key) ensures !Reaches(records, a, b) {
      ActiveIsNotReached(records, a, b);
    }
  }

  lemma OneSidedUnrelated()
    ensures UnrelatedDisagreement(OneSided(), Key("s", "p", "global"))
  {
    hide Reaches;
    var records, key := OneSided(), Key("s", "p", "global");
    OneSidedHidesConflict();
    OneSidedGroup();
    assert ObjectOf(records, "2") == "b" && ObjectOf(records, "3") == "c";
  }

  // ----- the algorithm -----

  /** The groups built from all records but those still to do. */
  ghost predicate Grouped(records: Records, todo: set<string>, groups: map<Key, set<string>>) {
    && (forall key :: key in groups <==> Group(records, key) - todo != {})
    && (forall key :: key in groups ==> groups[key] == Group(records, key) - todo)
  }

  lemma GroupOne(records: Records, todo: set<string>, id: string, key: Key)
    requires id in todo && id in records
    ensures Group(records, key) - (todo - {id})
         == Group(records, key) - todo + if Claims(records[id]) && KeyOf(records[id]) == key then {id} else {}
  {}

  lemma GroupSkips(records: Records, todo: set<string>, id: string, groups: map<Key, set<string>>)
    requires Grouped(records, todo, groups) && id in todo && id in records && !Claims(records[id])
    ensures Grouped(records, todo - {id}, groups)
  {
    hide Group, Claims;
    forall key
      ensures Group(records, key) - (todo - {id}) == Group(records, key) - todo
    {
      GroupOne(records, todo, id, key);
    }
  }

  lemma GroupGrows(records: Records, todo: set<string>, id: string, groups: map<Key, set<string>>)
    requires Grouped(records, todo, groups) && id in todo && id in records && Claims(records[id])
    ensures var key := KeyOf(records[id]);
            Grouped(records, todo - {id}, groups[key := (if key in groups then groups[key] else {}) + {id}])
  {
    hide Group, Claims;
    var mine := KeyOf(records[id]);
    var more := groups[mine := (if mine in groups then groups[mine] else {}) + {id}];
    forall key ensures key in more <==> Group(records, key) - (todo - {id}) != {} {
      GroupOne(records, todo, id, key);
      if key == mine { assert id in Group(records, key) - (todo - {id}); }
    }
    forall key | key in more
      ensures more[key] == Group(records, key) - (todo - {id})
    {
      GroupOne(records, todo, id, key);
    }
  }

  /** Group the claiming facts by key, and list the keys as they first appear. */
  method GroupFacts(records: Records) returns (groups: map<Key, set<string>>, keys: seq<Key>)
    ensures Grouped(records, {}, groups)
    ensures Elements(keys) == groups.Keys && NoDuplicates(keys)
  {
    hide Grouped, Group, StrLe;
    groups, keys := map[], [];
    var todo := records.Keys;
    NothingGrouped(records);
    while todo != {}
      invariant todo <= records.Keys
      invariant Grouped(records, todo, groups)
      invariant Elements(keys) == groups.Keys && NoDuplicates(keys)
      decreases |todo|
    {
      var id := Least(todo);
      var r := records[id];
      if Claims(r) {
        var key := KeyOf(r);
        GroupGrows(records, todo, id, groups);
        if key in groups {
          groups := groups[key := groups[key] + {id}];
        } else {
          assert {} + {id} == {id};
          AppendNew(keys, key);
          groups, keys := groups[key := {id}], keys + [key];
        }
      } else {
        GroupSkips(records, todo, id, groups);
      }
      todo := todo - {id};
    }
  }

  lemma NothingGrouped(records: Records)
    ensures Grouped(records, records.Keys, map[])
  {}

  /** The paired facts that assert one of the given objects. */
  ghost function PairedWith(records: Records, key: Key, objects: set<string>): set<string>
    requires Group(records, key) != {}
  {
    set id | id in Paired(records, key) && ObjectOf(records, id) in objects
  }

  lemma PairedWithAll(records: Records, key: Key)
    requires Group(records, key) != {}
    ensures var objects := SortedSet(Objects(records, key));
            objects != [] && PairedWith(records, key, {objects[0]}) == {}
    ensures PairedWith(records, key, Objects(records, key)) == Paired(records, key)
  {
    hide StrLe, Reaches;
    var b := Base(records, key);
    assert ObjectOf(records, b) in Objects(records, key);
  }

  lemma PairedWithMore(records: Records, key: Key, objects: set<string>, another: string)
    requires Group(records, key) != {}
    ensures PairedWith(records, key, objects + {another})
         == PairedWith(records, key, objects) + PairedWith(records, key, {another})
  {}

  lemma FirstIsBase(records: Records, key: Key)
    requires Group(records, key) != {}
    ensures var objects := SortedSet(Objects(records, key));
            objects != [] && objects[0] == ObjectOf(records, Base(records, key))
  {
    hide StrLe;
    assert ObjectOf(records, Base(records, key)) in Objects(records, key);
  }

  lemma PairMeaning(records: Records, key: Key, id: string, asserted: string)
    requires id in WithObject(records, key, asserted) && asserted != ObjectOf(records, Base(records, key))
    ensures id in Paired(records, key) <==>
              !Reaches(records, Base(records, key), id) && !Reaches(records, id, Base(records, key))
  {}

  lemma PairedOfObject(records: Records, key: Key, asserted: string)
    requires Group(records, key) != {}
    ensures WithObject(records, key, asserted) * Paired(records, key) == PairedWith(records, key, {asserted})
  {}

  /** The facts asserting one object, other than the base's, that no supersession exempts. */
  method PairObject(records: Records, key: Key, base: string, asserted: string) returns (rights: seq<string>)
    requires Group(records, key) != {} && base == Base(records, key) && asserted != ObjectOf(records, base)
    ensures Elements(rights) == PairedWith(records, key, {asserted})
  {
    hide Reaches, StrLe, StrictlyIncreasing, Base, Group, Paired, WithObject, PairedWith, NoDuplicates, SortedSet,
         ObjectOf;
    var names := SortedSet(WithObject(records, key, asserted));
    rights := [];
    var i := 0;
    while i < |names|
      invariant 0 <= i <= |names|
      invariant Elements(rights) == Elements(names[..i]) * Paired(records, key)
    {
      NextIsNew(names, i);
      assert names[i] in Elements(names);
      PairMeaning(records, key, names[i], asserted);
      var down := TransitivelySupersedes(base, names[i], records);
      var up := TransitivelySupersedes(names[i], base, records);
      if !(down || up) {
        ElementsJoin(rights, [names[i]]);
        assert Elements([names[i]]) == {names[i]};
        rights := rights + [names[i]];
      }
      i := i + 1;
    }
    assert names[..i] == names;
    PairedOfObject(records, key, asserted);
  }

  /** Pair the base fact of one key with every other fact it is not ordered with by supersession. */
  method PairWithBase(records: Records, key: Key) returns (base: string, rights: seq<string>)
    requires Group(records, key) != {}
    ensures base == Base(records, key) && Elements(rights) == Paired(records, key)
  {
    hide Reaches, StrLe, StrictlyIncreasing, Base, Group, Objects, Paired, PairedWith, SortedSet;
    var objects := SortedSet(Objects(records, key));
    base := Base(records, key);
    rights := [];
    PairedWithAll(records, key);
    FirstIsBase(records, key);
    assert Elements(objects[..1]) == {objects[0]};
    var i := 1;
    while i < |objects|
      invariant 1 <= i <= |objects|
      invariant Elements(rights) == PairedWith(records, key, Elements(objects[..i]))
      decreases |objects| - i
    {
      NextIsNew(objects, i);
      PairedWithMore(records, key, Elements(objects[..i]), objects[i]);
      var more := PairObject(records, key, base, objects[i]);
      ElementsJoin(rights, more);
      rights := rights + more;
      i := i + 1;
    }
    assert objects[..i] == objects;
  }

  ghost predicate Reported(records: Records, c: Conflict) {
    Group(records, c.key) != {} && c.left == Base(records, c.key) && c.right in Paired(records, c.key)
  }

  function ConflictsWith(base: string, rights: seq<string>, key: Key): (cs: seq<Conflict>)
    ensures |cs| == |rights|
    ensures forall c :: c in cs <==> c.left == base && c.key == key && c.right in Elements(rights)
  {
    if rights == [] then []
    else
      var front, last := rights[..|rights| - 1], rights[|rights| - 1];
      assert rights == front + [last];
      ElementsJoin(front, [last]);
      ConflictsWith(base, front, key) + [Conflict(base, last, key)]
  }

  /** By subject, then predicate, then scope, each key once. */
  ghost predicate KeysInOrder(keys: seq<Key>) {
    forall i, j :: 0 <= i < j < |keys| ==>
      && keys[i] != keys[j] && StrLe(keys[i].subject, keys[j].subject)
      && (keys[i].subject == keys[j].subject ==>
            && StrLe(keys[i].predicate_, keys[j].predicate_)
            && (keys[i].predicate_ == keys[j].predicate_ ==> StrLe(keys[i].scope, keys[j].scope)))
  }

  lemma KeyOrder()
    ensures TotalPreorder(KeyLe) && SortedBy<Key>([], KeyLe)
  {
    hide TripleLe;
    TripleOrder();
    forall a: Key, b: Key ensures KeyLe(a, b) || KeyLe(b, a) {
      assert TripleLe((a.subject, a.predicate_, a.scope), (b.subject, b.predicate_, b.scope))
             || TripleLe((b.subject, b.predicate_, b.scope), (a.subject, a.predicate_, a.scope));
    }
  }

  lemma SortedKeys(keys: seq<Key>)
    requires SortedBy(keys, KeyLe) && NoDuplicates(keys)
    ensures KeysInOrder(keys)
  {
    hide StrLe, TripleLe;
    forall i, j | 0 <= i < j < |keys|
      ensures && StrLe(keys[i].subject, keys[j].subject)
              && (keys[i].subject == keys[j].subject ==>
                    && StrLe(keys[i].predicate_, keys[j].predicate_)
                    && (keys[i].predicate_ == keys[j].predicate_ ==> StrLe(keys[i].scope, keys[j].scope)))
    {
      assert KeyLe(keys[i], keys[j]);
      TripleMeaning((keys[i].subject, keys[i].predicate_, keys[i].scope),
                    (keys[j].subject, keys[j].predicate_, keys[j].scope));
    }
  }

  lemma NextError(ordered: seq<Key>, i: nat, errors: seq<Key>)
    requires SortedBy(ordered, KeyLe) && NoDuplicates(ordered) && i < |ordered|
    requires SortedBy(errors, KeyLe) && NoDuplicates(errors) && Elements(errors) <= Elements(ordered[..i])
    ensures SortedBy(errors + [ordered[i]], KeyLe) && NoDuplicates(errors + [ordered[i]])
  {
    hide KeyLe;
    forall k | 0 <= k < |errors| ensures KeyLe(errors[k], ordered[i]) && errors[k] != ordered[i] {
      assert errors[k] in Elements(errors);
      assert errors[k] in Elements(ordered[..i]);
    }
  }

  /** What `_audit_conflicts` reports: for each key the base fact with each paired fact, and an error
      for each key that has such a pair. */
  method AuditConflicts(records: Records) returns (conflicts: seq<Conflict>, errors: seq<Key>)
    ensures forall c :: c in conflicts <==> Reported(records, c)
    ensures forall key :: key in errors <==> HasConflict(records, key)
    ensures KeysInOrder(errors)
  {
    hide KeysInOrder, KeyLe, TotalPreorder, SortedBy, Reported, Paired, Base, Group, Grouped, Sort, StrLe;
    conflicts, errors := [], [];
    var groups, keys := GroupFacts(records);
    GroupedKeys(records, groups);
    var ordered := Sort(keys, KeyLe);
    SameKeys(keys, ordered);
    KeyOrder();
    SortIsSorted(keys, KeyLe);
    ghost var done: set<Key> := {};
    var i := 0;
    while i < |ordered|
      invariant 0 <= i <= |ordered|
      invariant done == Elements(ordered[..i])
      invariant forall c :: c in conflicts <==> Reported(records, c) && c.key in done
      invariant forall key :: key in errors <==> HasConflict(records, key) && key in done
      invariant SortedBy(errors, KeyLe) && NoDuplicates(errors)
    {
      var key := ordered[i];
      assert key in ordered;
      NextIsNew(ordered, i);
      var base, rights := PairWithBase(records, key);
      var more := ConflictsWith(base, rights, key);
      KeyReported(records, key, base, rights);
      NoneOrSome(rights);
      NextError(ordered, i, errors);
      conflicts := conflicts + more;
      // An error is raised when some conflict carries this key.
      if rights != [] { errors := errors + [key]; }
      done := done + {key};
      i := i + 1;
    }
    assert ordered[..i] == ordered;
    SortedKeys(errors);
    forall c | Reported(records, c) ensures c.key in done { ReportedHasGroup(records, c); }
  }

  lemma GroupedKeys(records: Records, groups: map<Key, set<string>>)
    requires Grouped(records, {}, groups)
    ensures forall key :: key in groups <==> Group(records, key) != {}
  {
    forall key ensures Group(records, key) - {} == Group(records, key) {}
  }

  lemma SameKeys(a: seq<Key>, b: seq<Key>)
    requires multiset(a) == multiset(b) && NoDuplicates(a)
    ensures Elements(a) == Elements(b) && NoDuplicates(b)
  {
    forall key ensures key in a <==> key in b {
      assert key in a <==> key in multiset(a);
      assert key in b <==> key in multiset(b);
    }
    assert |b| == |multiset(b)| == |multiset(a)| == |a|;
    assert Elements(a) == Elements(b);
    ElementsSize(a);
    DistinctBySize(b);
  }

  lemma KeyReported(records: Records, key: Key, base: string, rights: seq<string>)
    requires Group(records, key) != {} && base == Base(records, key) && Elements(rights) == Paired(records, key)
    ensures forall c: Conflict :: c.key == key ==>
              (Reported(records, c) <==> c.left == base && c.right in Elements(rights))
  {}

  lemma NoneOrSome(rights: seq<string>)
    ensures rights == [] <==> Elements(rights) == {}
  {
    if rights != [] { assert rights[0] in Elements(rights); }
  }

  lemma ReportedHasGroup(records: Records, c: Conflict)
    requires Reported(records, c)
    ensures Group(records, c.key) != {}
  {}
}
