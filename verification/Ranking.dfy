/** Retrieval: relation graph, layered expansion of the direct matches, and the ranking. */
module Ranking {
  import opened Evidence
  import opened Orders

  /** What retrieval reads of a record: its JSON value, written canonically; the text lexical scoring searches, in
      which a claim or the state's items are printed in the key order the record was read with; its outgoing
      references and, for the state record, its items' sources. */
  datatype Doc = Doc(
    value: Bytes,
    text: string,
    references: seq<string>,
    supersedes: seq<string>,
    supersededBy: Option<string>,
    isState: bool,
    sources: seq<string>)

  type Docs = map<string, Doc>

  /** A lexical score and the reasons it is explained with. */
  datatype Hit = Hit(score: int, reasons: seq<string>)

  /** The filter test, which reads only the value; the lexical score of a record, none if nothing matches; and the
      relation depth. */
  datatype Query = Query(matches: Bytes -> bool, direct: Doc -> Option<Hit>, depth: nat)

  datatype Reason = Lexical(reasons: seq<string>) | Related(source: string, depth: nat)
  datatype Entry = Entry(score: int, reason: Reason)

  function Targets(d: Doc): seq<string> {
    d.references + d.supersedes + (if d.supersededBy.Some? then [d.supersededBy.value] else [])
    + (if d.isState then d.sources else [])
  }

  /** Two known records are related when one of them names the other. */
  ghost predicate Linked(docs: Docs, a: string, b: string) {
    a in docs && b in docs && (b in Elements(Targets(docs[a])) || a in Elements(Targets(docs[b])))
  }

  /** A record names what it refers to, what it supersedes, what supersedes it, and, as the state record, the sources
      of its items. */
  ghost predicate Names(d: Doc, b: string) {
    || (exists i :: 0 <= i < |d.references| && d.references[i] == b)
    || (exists i :: 0 <= i < |d.supersedes| && d.supersedes[i] == b)
    || d.supersededBy == Some(b)
    || (d.isState && exists i :: 0 <= i < |d.sources| && d.sources[i] == b)
  }

  /** Two records are linked exactly when both are known and one names the other. */
  lemma LinkedIffNamed(docs: Docs, a: string, b: string)
    ensures Linked(docs, a, b) <==> a in docs && b in docs && (Names(docs[a], b) || Names(docs[b], a))
  {
    if a in docs && b in docs {
      TargetsAreNamed(docs[a], b);
      TargetsAreNamed(docs[b], a);
    }
  }

  lemma TargetsAreNamed(d: Doc, b: string)
    ensures b in Elements(Targets(d)) <==> Names(d, b)
  {
    assert b in d.references <==> exists i :: 0 <= i < |d.references| && d.references[i] == b;
    assert b in d.supersedes <==> exists i :: 0 <= i < |d.supersedes| && d.supersedes[i] == b;
    assert b in d.sources <==> exists i :: 0 <= i < |d.sources| && d.sources[i] == b;
  }

  ghost function Neighbours(docs: Docs, a: string): set<string> {
    set b | b in docs && Linked(docs, a, b)
  }

  function Eligible(docs: Docs, q: Query): set<string> {
    set id | id in docs && q.matches(docs[id].value)
  }

  function Direct(docs: Docs, q: Query): map<string, Entry> {
    map id | id in Eligible(docs, q) && q.direct(docs[id]).Some? :: DirectEntry(q.direct(docs[id]).value)
  }

  function DirectEntry(h: Hit): Entry { Entry(h.score, Lexical(h.reasons)) }

  // ----- distance from the direct matches -----

  /** A walk over related eligible records that starts at a direct match. */
  ghost predicate Walk(docs: Docs, q: Query, p: seq<string>) {
    && p != [] && p[0] in Direct(docs, q)
    && Elements(p) <= Eligible(docs, q)
    && forall i {:trigger p[i]} :: 0 <= i < |p| - 1 ==> Linked(docs, p[i], p[i + 1])
  }

  /** `id` is at most `k` links away from a direct match. */
  ghost predicate Within(docs: Docs, q: Query, id: string, k: nat) {
    exists p :: Walk(docs, q, p) && |p| <= k + 1 && p[|p| - 1] == id
  }

  /** The same, computed layer by layer. */
  ghost function UpTo(docs: Docs, q: Query, k: nat): set<string> {
    if k == 0 then Direct(docs, q).Keys
    else
      var u := UpTo(docs, q, k - 1);
      u + set t | t in Eligible(docs, q) && exists s :: s in u && Linked(docs, s, t)
  }

  lemma {:induction false} UpToEligible(docs: Docs, q: Query, k: nat)
    ensures UpTo(docs, q, k) <= Eligible(docs, q)
  {
    if k > 0 { UpToEligible(docs, q, k - 1); }
  }

  lemma {:induction false} UpToMonotone(docs: Docs, q: Query, j: nat, k: nat)
    requires j <= k
    ensures UpTo(docs, q, j) <= UpTo(docs, q, k)
    decreases k
  {
    if j < k { UpToMonotone(docs, q, j, k - 1); }
  }

  lemma {:induction false} UpToIsWithin(docs: Docs, q: Query, k: nat, id: string)
    requires id in UpTo(docs, q, k)
    ensures Within(docs, q, id, k)
  {
    hide Linked, Eligible;
    if id in Direct(docs, q) {
    } else if id in UpTo(docs, q, k - 1) {
      UpToIsWithin(docs, q, k - 1, id);
      var p :| Walk(docs, q, p) && |p| <= k && p[|p| - 1] == id;
    } else {
      var s :| s in UpTo(docs, q, k - 1) && Linked(docs, s, id);
      UpToIsWithin(docs, q, k - 1, s);
      var p :| Walk(docs, q, p) && |p| <= k && p[|p| - 1] == s;
      assert |p + [id]| <= k + 1;
    }
  }

  lemma {:induction false} WalkStaysUpTo(docs: Docs, q: Query, p: seq<string>, i: nat)
    requires Walk(docs, q, p) && i < |p|
    ensures p[i] in UpTo(docs, q, i)
  {
    hide Linked, Eligible, Direct;
    if i > 0 {
      WalkStaysUpTo(docs, q, p, i - 1);
      assert Linked(docs, p[i - 1], p[i - 1 + 1]);
      assert p[i] in Elements(p);
    }
  }

  /** Layer `k` and below are exactly the eligible records at distance at most `k`. */
  lemma UpToIffWithin(docs: Docs, q: Query, k: nat, id: string)
    ensures id in UpTo(docs, q, k) <==> Within(docs, q, id, k)
  {
    if id in UpTo(docs, q, k) { UpToIsWithin(docs, q, k, id); }
    if Within(docs, q, id, k) {
      var p :| Walk(docs, q, p) && |p| <= k + 1 && p[|p| - 1] == id;
      WalkStaysUpTo(docs, q, p, |p| - 1);
      UpToMonotone(docs, q, |p| - 1, k);
    }
  }

  // ----- what the expansion must compute -----

  ghost function Layer(docs: Docs, q: Query, k: nat): set<string> {
    if k == 0 then UpTo(docs, q, 0) else UpTo(docs, q, k) - UpTo(docs, q, k - 1)
  }

  /** The records of the previous layer that lead to `t`. */
  ghost function Parents(docs: Docs, layer: set<string>, t: string): set<string> {
    set s | s in layer && Linked(docs, s, t)
  }

  function Max(a: int, b: int): int { if a > b then a else b }

  /** The entry of a record first reached in round `k`. */
  ghost function RelatedEntry(docs: Docs, layer: set<string>, m: map<string, Entry>, t: string, k: nat): Entry
    requires Parents(docs, layer, t) != {} && layer <= m.Keys
  {
    var parent := Least(Parents(docs, layer, t));
    Entry(Max(1, m[parent].score - 20), Related(parent, k))
  }

  /** Entries after `k` rounds: each new record is scored from its least parent in the last layer. */
  ghost function Expanded(docs: Docs, q: Query, k: nat): (m: map<string, Entry>)
    ensures m.Keys == UpTo(docs, q, k)
  {
    if k == 0 then Direct(docs, q)
    else
      var m := Expanded(docs, q, k - 1);
      var layer := Layer(docs, q, k - 1);
      NextLayer(docs, q, k);
      assert layer <= m.Keys;
      m + map t | t in Layer(docs, q, k) :: RelatedEntry(docs, layer, m, t, k)
  }

  /** A record first reached in round `k` hangs off the layer just before it. */
  lemma NextLayer(docs: Docs, q: Query, k: nat)
    requires k > 0
    ensures forall t :: t in Layer(docs, q, k) ==> Parents(docs, Layer(docs, q, k - 1), t) != {}
    ensures Layer(docs, q, k) == set t | t in Eligible(docs, q) && t !in UpTo(docs, q, k - 1)
                                         && Parents(docs, Layer(docs, q, k - 1), t) != {}
  {
    hide Linked, Eligible, Direct;
    forall t | t in Layer(docs, q, k) ensures Parents(docs, Layer(docs, q, k - 1), t) != {} {
      UpToEligible(docs, q, k);
      if k == 1 {
        var s :| s in UpTo(docs, q, 0) && Linked(docs, s, t);
        assert s in Parents(docs, Layer(docs, q, 0), t);
      } else {
        var s :| s in UpTo(docs, q, k - 1) && Linked(docs, s, t);
        assert s !in UpTo(docs, q, k - 2);
        assert s in Parents(docs, Layer(docs, q, k - 1), t);
      }
    }
    UpToEligible(docs, q, k);
    forall t | t in Eligible(docs, q) && t !in UpTo(docs, q, k - 1) && Parents(docs, Layer(docs, q, k - 1), t) != {}
      ensures t in Layer(docs, q, k)
    {
      var s :| s in Parents(docs, Layer(docs, q, k - 1), t);
      assert s in UpTo(docs, q, k - 1) && Linked(docs, s, t);
    }
  }

  /** What an entry says: a lexical match, or its shortest distance from one, the least parent at the
      distance before, and that parent's score less twenty, but at least one. */
  ghost predicate EntryMeaning(docs: Docs, q: Query, m: map<string, Entry>, id: string)
    requires id in m
  {
    match m[id].reason
    case Lexical(_) => id in Direct(docs, q) && m[id] == Direct(docs, q)[id]
    case Related(s, d) =>
      && d > 0 && id !in Direct(docs, q)
      && Within(docs, q, id, d) && !Within(docs, q, id, d - 1)
      && s in m && Linked(docs, s, id)
      && Within(docs, q, s, d - 1) && (d > 1 ==> !Within(docs, q, s, d - 2))
      && (forall r :: Linked(docs, r, id) && Within(docs, q, r, d - 1) && (d > 1 ==> !Within(docs, q, r, d - 2)) ==>
            StrLe(s, r))
      && m[id].score == Max(1, m[s].score - 20)
  }

  lemma LayerIffShortest(docs: Docs, q: Query, k: nat, id: string)
    ensures id in Layer(docs, q, k) <==> Within(docs, q, id, k) && (k > 0 ==> !Within(docs, q, id, k - 1))
  {
    hide Within, UpTo;
    UpToIffWithin(docs, q, k, id);
    if k > 0 { UpToIffWithin(docs, q, k - 1, id); }
  }

  lemma ExpandedUnfolds(docs: Docs, q: Query, k: nat)
    requires k > 0
    ensures Layer(docs, q, k - 1) <= Expanded(docs, q, k - 1).Keys
    ensures forall t :: t in Layer(docs, q, k) ==> Parents(docs, Layer(docs, q, k - 1), t) != {}
    ensures Expanded(docs, q, k) == Expanded(docs, q, k - 1) +
              map t | t in Layer(docs, q, k) ::
                  RelatedEntry(docs, Layer(docs, q, k - 1), Expanded(docs, q, k - 1), t, k)
  {
    hide Linked, Eligible, Direct, StrLe, Least, UpTo, Parents, Layer, RelatedEntry;
    NextLayer(docs, q, k);
    LayersApart(docs, q, k);
  }

  lemma ExpandedStep(docs: Docs, q: Query, k: nat)
    requires k > 0
    ensures forall id :: id in Expanded(docs, q, k - 1) ==>
              id in Expanded(docs, q, k) && Expanded(docs, q, k)[id] == Expanded(docs, q, k - 1)[id]
    ensures forall id :: id in Layer(docs, q, k) ==>
              var parents := Parents(docs, Layer(docs, q, k - 1), id);
              && parents != {} && Least(parents) in Expanded(docs, q, k - 1)
              && id in Expanded(docs, q, k)
              && Expanded(docs, q, k)[id] ==
                 Entry(Max(1, Expanded(docs, q, k - 1)[Least(parents)].score - 20), Related(Least(parents), k))
  {
    hide Linked, Eligible, Direct, StrLe, Least, UpTo, Parents, Layer, Expanded;
    ExpandedUnfolds(docs, q, k);
    LayersApart(docs, q, k);
    forall id | id in Layer(docs, q, k)
      ensures Least(Parents(docs, Layer(docs, q, k - 1), id)) in Expanded(docs, q, k - 1)
    {
      ParentsInLayer(docs, Layer(docs, q, k - 1), id);
    }
  }

  lemma LayersApart(docs: Docs, q: Query, k: nat)
    requires k > 0
    ensures Layer(docs, q, k) !! UpTo(docs, q, k - 1) && Layer(docs, q, k - 1) <= UpTo(docs, q, k - 1)
  {}

  lemma ParentsInLayer(docs: Docs, layer: set<string>, id: string)
    ensures Parents(docs, layer, id) <= layer
  {}

  lemma EntryCarries(docs: Docs, q: Query, m: map<string, Entry>, m': map<string, Entry>, id: string)
    requires id in m && EntryMeaning(docs, q, m, id)
    requires forall x :: x in m ==> x in m' && m'[x] == m[x]
    ensures EntryMeaning(docs, q, m', id)
  {
    hide Linked, Direct, Within, StrLe;
  }

  lemma {:induction false} ExpandedMeaning(docs: Docs, q: Query, k: nat, id: string)
    requires id in Expanded(docs, q, k)
    ensures EntryMeaning(docs, q, Expanded(docs, q, k), id)
  {
    hide Linked, Eligible, Direct, Within, StrLe, Least, UpTo, Expanded, EntryMeaning;
    if k == 0 {
      FirstLayer(docs, q);
      LexicalMeaning(docs, q, id);
    } else {
      ExpandedStep(docs, q, k);
      if id in UpTo(docs, q, k - 1) {
        ExpandedMeaning(docs, q, k - 1, id);
        EntryCarries(docs, q, Expanded(docs, q, k - 1), Expanded(docs, q, k), id);
      } else {
        RelatedMeaning(docs, q, k, id);
      }
    }
  }

  lemma LexicalMeaning(docs: Docs, q: Query, id: string)
    requires id in Direct(docs, q)
    ensures EntryMeaning(docs, q, Direct(docs, q), id)
  {}

  lemma RelatedMeaning(docs: Docs, q: Query, k: nat, id: string)
    requires k > 0 && id in Layer(docs, q, k)
    ensures id in Expanded(docs, q, k) && EntryMeaning(docs, q, Expanded(docs, q, k), id)
  {
    hide Linked, Eligible, Direct, Within, StrLe, Least, UpTo, Expanded;
    ExpandedStep(docs, q, k);
    var layer := Layer(docs, q, k - 1);
    var s := Least(Parents(docs, layer, id));
    LayerIffShortest(docs, q, k, id);
    LayerIffShortest(docs, q, k - 1, s);
    forall r | Linked(docs, r, id) && Within(docs, q, r, k - 1) && (k > 1 ==> !Within(docs, q, r, k - 2))
      ensures StrLe(s, r)
    {
      LayerIffShortest(docs, q, k - 1, r);
      assert r in Parents(docs, layer, id);
    }
    DirectIsUpTo(docs, q, k - 1, id);
  }

  lemma DirectIsUpTo(docs: Docs, q: Query, k: nat, id: string)
    ensures id in Direct(docs, q) ==> id in UpTo(docs, q, k)
  {
    UpToMonotone(docs, q, 0, k);
  }

  // ----- what the searched text decides -----

  /** The same records, but possibly read with another key order. */
  ghost predicate Alike(docs: Docs, docs': Docs) {
    && docs.Keys == docs'.Keys
    && forall id :: id in docs ==> docs'[id] == docs[id].(text := docs'[id].text)
  }

  lemma AlikeLinks(docs: Docs, docs': Docs, q: Query)
    requires Alike(docs, docs')
    ensures Eligible(docs, q) == Eligible(docs', q)
    ensures forall a, b :: Linked(docs, a, b) <==> Linked(docs', a, b)
  {
    forall id | id in docs ensures Targets(docs[id]) == Targets(docs'[id]) {}
  }

  lemma AlikeBack(docs: Docs, docs': Docs)
    requires Alike(docs, docs')
    ensures Alike(docs', docs)
  {}

  lemma {:induction false} AlikeWithin(docs: Docs, docs': Docs, q: Query, k: nat, id: string)
    requires Alike(docs, docs') && Direct(docs, q) == Direct(docs', q) && id in UpTo(docs, q, k)
    ensures id in UpTo(docs', q, k)
    decreases k
  {
    hide Linked, Eligible, Direct, Alike;
    if k > 0 {
      if id in UpTo(docs, q, k - 1) {
        AlikeWithin(docs, docs', q, k - 1, id);
      } else {
        var s :| s in UpTo(docs, q, k - 1) && Linked(docs, s, id);
        AlikeWithin(docs, docs', q, k - 1, s);
        AlikeLinks(docs, docs', q);
      }
    }
  }

  lemma AlikeUpTo(docs: Docs, docs': Docs, q: Query, k: nat)
    requires Alike(docs, docs') && Direct(docs, q) == Direct(docs', q)
    ensures UpTo(docs, q, k) == UpTo(docs', q, k)
  {
    hide Direct, Alike, UpTo;
    AlikeBack(docs, docs');
    forall id | id in UpTo(docs, q, k) ensures id in UpTo(docs', q, k) { AlikeWithin(docs, docs', q, k, id); }
    forall id | id in UpTo(docs', q, k) ensures id in UpTo(docs, q, k) { AlikeWithin(docs', docs, q, k, id); }
  }

  lemma AlikeLayer(docs: Docs, docs': Docs, q: Query, k: nat)
    requires Alike(docs, docs') && Direct(docs, q) == Direct(docs', q)
    ensures Layer(docs, q, k) == Layer(docs', q, k)
  {
    hide Direct, Alike, UpTo;
    AlikeUpTo(docs, docs', q, k);
    if k > 0 { AlikeUpTo(docs, docs', q, k - 1); }
  }

  lemma AlikeParents(docs: Docs, docs': Docs, q: Query, layer: set<string>, id: string)
    requires Alike(docs, docs')
    ensures Parents(docs, layer, id) == Parents(docs', layer, id)
  {
    hide Linked, Alike;
    AlikeLinks(docs, docs', q);
  }

  lemma {:induction false} AlikeEntry(docs: Docs, docs': Docs, q: Query, k: nat, id: string)
    requires Alike(docs, docs') && Direct(docs, q) == Direct(docs', q) && id in Expanded(docs, q, k)
    ensures id in Expanded(docs', q, k) && Expanded(docs, q, k)[id] == Expanded(docs', q, k)[id]
    decreases k
  {
    hide Linked, Eligible, Direct, Alike, Least, StrLe, UpTo, Expanded, Parents, Layer;
    AlikeUpTo(docs, docs', q, k);
    if k == 0 {
      FirstLayer(docs, q);
      FirstLayer(docs', q);
    } else {
      ExpandedStep(docs, q, k);
      ExpandedStep(docs', q, k);
      LayerOrBefore(docs, q, k, id);
      if id in UpTo(docs, q, k - 1) {
        AlikeEntry(docs, docs', q, k - 1, id);
      } else {
        AlikeLayer(docs, docs', q, k - 1);
        AlikeLayer(docs, docs', q, k);
        AlikeParents(docs, docs', q, Layer(docs, q, k - 1), id);
        AlikeEntry(docs, docs', q, k - 1, Least(Parents(docs, Layer(docs, q, k - 1), id)));
      }
    }
  }

  lemma LayerOrBefore(docs: Docs, q: Query, k: nat, id: string)
    requires k > 0 && id in UpTo(docs, q, k)
    ensures id in Layer(docs, q, k) || id in UpTo(docs, q, k - 1)
  {
    hide UpTo;
  }

  /** Equal direct matches expand to equal entries. */
  lemma AlikeExpanded(docs: Docs, docs': Docs, q: Query, k: nat)
    requires Alike(docs, docs') && Direct(docs, q) == Direct(docs', q)
    ensures Expanded(docs, q, k) == Expanded(docs', q, k)
  {
    hide Direct, Alike, UpTo, Expanded;
    AlikeUpTo(docs, docs', q, k);
    forall id | id in Expanded(docs, q, k) ensures Expanded(docs, q, k)[id] == Expanded(docs', q, k)[id] {
      AlikeEntry(docs, docs', q, k, id);
    }
  }

  /** And the entries show the direct matches. */
  lemma ExpandedShowsDirect(docs: Docs, docs': Docs, q: Query, k: nat)
    requires Expanded(docs, q, k) == Expanded(docs', q, k)
    ensures Direct(docs, q) == Direct(docs', q)
  {
    hide Linked, Eligible, Direct, Within, StrLe, Least, UpTo, Expanded;
    DirectShown(docs, q, k);
    DirectShown(docs', q, k);
  }

  lemma DirectShown(docs: Docs, q: Query, k: nat)
    ensures forall id :: id in Expanded(docs, q, k) && Expanded(docs, q, k)[id].reason.Lexical? ==>
              id in Direct(docs, q) && Direct(docs, q)[id] == Expanded(docs, q, k)[id]
    ensures forall id :: id in Direct(docs, q) ==>
              id in Expanded(docs, q, k) && Expanded(docs, q, k)[id].reason.Lexical?
  {
    hide Linked, Eligible, Direct, Within, StrLe, Least, UpTo, Expanded;
    forall id | id in Expanded(docs, q, k) ensures EntryMeaning(docs, q, Expanded(docs, q, k), id) {
      ExpandedMeaning(docs, q, k, id);
    }
    forall id | id in Direct(docs, q) ensures id in Expanded(docs, q, k) { DirectIsUpTo(docs, q, k, id); }
  }

  // ----- a related record can outrank its source -----

  /** The score of a related record exceeds that of the record it was reached from exactly when the latter is a
      direct match whose lexical score is not positive: further out every score is at least 1. */
  lemma RelatedExceedsSource(docs: Docs, q: Query, k: nat, id: string)
    requires id in Expanded(docs, q, k) && Expanded(docs, q, k)[id].reason.Related?
    ensures var m := Expanded(docs, q, k);
            var source := m[id].reason.source;
            && source in m && source in docs
            && (m[id].score > m[source].score <==>
                  && q.matches(docs[source].value)
                  && q.direct(docs[source]).Some? && q.direct(docs[source]).value.score <= 0)
  {
    hide Expanded, Within, StrLe;
    ExpandedMeaning(docs, q, k, id);
    ExpandedMeaning(docs, q, k, Expanded(docs, q, k)[id].reason.source);
  }

  /** A deprecated record whose body holds one search term, and a record that refers to it. */
  const DEPRECATED_AND_RELATED: Docs := map[
    "A" := Doc([1], "old term", [], [], None, false, []),
    "B" := Doc([2], "other", ["A"], [], None, false, [])]

  /** The status counts -20 and the term 4; the other record does not match the term. */
  const ONE_TERM := Query((value: Bytes) => true,
                          (d: Doc) => if d.text == "old term" then Some(Hit(-20 + 4, ["term:term:body"])) else None, 1)

  /** The source is scored -16 and the related record 1, so the related record is ranked first. */
  lemma RelatedOutranksSource(order: seq<string>)
    requires IsRanking(Expanded(DEPRECATED_AND_RELATED, ONE_TERM, 1), order)
    ensures var m := Expanded(DEPRECATED_AND_RELATED, ONE_TERM, 1);
            && m.Keys == {"A", "B"}
            && m["A"] == Entry(-16, Lexical(["term:term:body"])) && m["B"] == Entry(1, Related("A", 1))
            && order == ["B", "A"]
  {
    hide Expanded, IsRanking;
    OutrankingEntries();
    TwoRanked(Expanded(DEPRECATED_AND_RELATED, ONE_TERM, 1), "A", "B", order);
  }

  lemma TwoRanked(m: map<string, Entry>, low: string, high: string, order: seq<string>)
    requires m.Keys == {low, high} && m[low].score < m[high].score && IsRanking(m, order)
    ensures order == [high, low]
  {
    hide StrLe;
    assert Elements([high, low]) == m.Keys;
    RankingUnique(m, order, [high, low]);
  }

  lemma OutrankingEntries()
    ensures var m := Expanded(DEPRECATED_AND_RELATED, ONE_TERM, 1);
            && m.Keys == {"A", "B"}
            && m["A"] == Entry(-16, Lexical(["term:term:body"])) && m["B"] == Entry(1, Related("A", 1))
  {
    hide StrLe, Least, Expanded;
    var docs, q := DEPRECATED_AND_RELATED, ONE_TERM;
    assert Eligible(docs, q) == {"A", "B"};
    assert Direct(docs, q) == map["A" := Entry(-16, Lexical(["term:term:body"]))];
    FirstLayer(docs, q);
    assert docs["B"] == Doc([2], "other", ["A"], [], None, false, []);
    assert Targets(docs["B"])[0] == "A";
    assert Linked(docs, "A", "B");
    assert UpTo(docs, q, 1) == {"A", "B"};
    assert Layer(docs, q, 1) == {"B"};
    assert Parents(docs, {"A"}, "B") == {"A"};
    ExpandedStep(docs, q, 1);
  }

  // ----- the loops -----

  /** The neighbour set of `a` once `id` is linked with each of `known`. */
  ghost function WithLinks(base: set<string>, a: string, id: string, known: set<string>): set<string> {
    base + (if a == id then known else {}) + (if a in known then {id} else {})
  }

  lemma WithNoLinks(base: set<string>, a: string, id: string)
    ensures WithLinks(base, a, id, {}) == base
  {}

  lemma WithOneLink(base: set<string>, a: string, id: string, known: set<string>, target: string)
    ensures WithLinks(base, a, id, known + {target}) ==
            WithLinks(base, a, id, known) + (if a == id then {target} else {}) + (if a == target then {id} else {})
  {}

  /** The neighbours known once the records outside `todo` have added their targets. */
  ghost function NeighboursBut(docs: Docs, a: string, todo: set<string>): set<string>
    requires a in docs
  {
    set b | b in docs && ((a !in todo && b in Elements(Targets(docs[a])))
                          || (b !in todo && a in Elements(Targets(docs[b]))))
  }

  lemma NeighboursOne(docs: Docs, a: string, todo: set<string>, id: string)
    requires a in docs && id in docs && id in todo && todo <= docs.Keys
    ensures var known := Elements(Targets(docs[id])) * docs.Keys;
            NeighboursBut(docs, a, todo - {id})
            == WithLinks(NeighboursBut(docs, a, todo), a, id, known)
  {
    hide Targets, Elements;
  }

  lemma NeighboursAll(docs: Docs, a: string)
    requires a in docs
    ensures NeighboursBut(docs, a, docs.Keys) == {} && NeighboursBut(docs, a, {}) == Neighbours(docs, a)
  {}

  /** `_relations`: every known target is linked both ways. */
  method Relations(docs: Docs) returns (adjacency: map<string, set<string>>)
    ensures adjacency.Keys == docs.Keys
    ensures forall a :: a in docs ==> adjacency[a] == Neighbours(docs, a)
  {
    hide StrLe, Least, Neighbours, NeighboursBut, Targets, WithLinks;
    adjacency := map id | id in docs :: {};
    var todo := docs.Keys;
    forall a | a in docs ensures NeighboursBut(docs, a, todo) == {} { NeighboursAll(docs, a); }
    while todo != {}
      invariant todo <= docs.Keys && adjacency.Keys == docs.Keys
      invariant forall a :: a in docs ==> adjacency[a] == NeighboursBut(docs, a, todo)
      decreases |todo|
    {
      var id := Least(todo);
      adjacency := AddTargets(docs, id, adjacency);
      forall a | a in docs
        ensures adjacency[a] == NeighboursBut(docs, a, todo - {id})
      {
        NeighboursOne(docs, a, todo, id);
      }
      todo := todo - {id};
    }
    forall a | a in docs ensures NeighboursBut(docs, a, {}) == Neighbours(docs, a) { NeighboursAll(docs, a); }
  }

  /** Every neighbour set has gained the links of `id` with each of `known`. */
  ghost predicate LinksAdded(docs: Docs, id: string, adjacency0: map<string, set<string>>, known: set<string>,
                             adjacency: map<string, set<string>>) {
    && adjacency0.Keys == adjacency.Keys == docs.Keys
    && forall a :: a in docs ==> adjacency[a] == WithLinks(adjacency0[a], a, id, known)
  }

  lemma NothingAdded(docs: Docs, id: string, adjacency: map<string, set<string>>)
    requires adjacency.Keys == docs.Keys
    ensures LinksAdded(docs, id, adjacency, {}, adjacency)
  {
    hide WithLinks;
    forall a | a in docs ensures adjacency[a] == WithLinks(adjacency[a], a, id, {}) {
      WithNoLinks(adjacency[a], a, id);
    }
  }

  /** `adjacency[id]` gains `target`, then `adjacency[target]` gains `id`. */
  function LinkBoth(adjacency: map<string, set<string>>, id: string, target: string): map<string, set<string>>
    requires id in adjacency && target in adjacency
  {
    var once := adjacency[id := adjacency[id] + {target}];
    once[target := once[target] + {id}]
  }

  lemma OneAdded(docs: Docs, id: string, adjacency0: map<string, set<string>>, known: set<string>,
                 adjacency: map<string, set<string>>, target: string)
    requires LinksAdded(docs, id, adjacency0, known, adjacency) && id in docs && target in docs
    ensures LinksAdded(docs, id, adjacency0, known + {target}, LinkBoth(adjacency, id, target))
  {
    hide WithLinks;
    var added := LinkBoth(adjacency, id, target);
    forall a | a in docs ensures added[a] == WithLinks(adjacency0[a], a, id, known + {target}) {
      WithOneLink(adjacency0[a], a, id, known, target);
    }
  }

  method AddTargets(docs: Docs, id: string, adjacency0: map<string, set<string>>)
    returns (adjacency: map<string, set<string>>)
    requires id in docs && adjacency0.Keys == docs.Keys
    ensures LinksAdded(docs, id, adjacency0, Elements(Targets(docs[id])) * docs.Keys, adjacency)
  {
    hide Targets, WithLinks;
    var targets := Targets(docs[id]);
    NothingAdded(docs, id, adjacency0);
    adjacency := adjacency0;
    ghost var known: set<string> := {};
    var i := 0;
    while i < |targets|
      invariant 0 <= i <= |targets|
      invariant known == Elements(targets[..i]) * docs.Keys
      invariant LinksAdded(docs, id, adjacency0, known, adjacency)
    {
      assert targets[..i + 1] == targets[..i] + [targets[i]];
      ElementsJoin(targets[..i], [targets[i]]);
      assert Elements([targets[i]]) == {targets[i]};
      var target := targets[i];
      if target in docs {
        OneAdded(docs, id, adjacency0, known, adjacency, target);
        adjacency := LinkBoth(adjacency, id, target);
        known := known + {target};
      }
      i := i + 1;
    }
    assert targets[..i] == targets;
  }

  ghost function Sub(m: map<string, Entry>, keys: set<string>): map<string, Entry> {
    map k | k in m && k in keys :: m[k]
  }

  /** The records of layer `k` that hang off one of the sources done so far. */
  ghost function Discovered(docs: Docs, q: Query, k: nat, done: set<string>): set<string>
    requires k > 0
  {
    set t | t in Layer(docs, q, k) && Parents(docs, done, t) != {}
  }

  ghost predicate LayerSoFar(docs: Docs, q: Query, k: nat, expanded: map<string, Entry>, found: set<string>)
    requires k > 0
  {
    expanded == Sub(Expanded(docs, q, k), UpTo(docs, q, k - 1) + found)
  }

  /** The first source of a sorted layer that is linked to a new record is its least parent. */
  lemma FirstParent(docs: Docs, q: Query, k: nat, frontier: seq<string>, i: nat, t: string)
    requires k > 0 && i < |frontier|
    requires StrictlyIncreasing(frontier) && Elements(frontier) == Layer(docs, q, k - 1)
    requires t in Neighbours(docs, frontier[i]) && t in Eligible(docs, q) && t !in UpTo(docs, q, k - 1)
    requires Parents(docs, Elements(frontier[..i]), t) == {}
    ensures t in Layer(docs, q, k)
    ensures Parents(docs, Layer(docs, q, k - 1), t) != {}
    ensures Least(Parents(docs, Layer(docs, q, k - 1), t)) == frontier[i]
  {
    hide Linked, Eligible, StrLe, UpTo;
    var parents := Parents(docs, Layer(docs, q, k - 1), t);
    assert frontier[i] in Elements(frontier);
    assert frontier[i] in parents;
    NextLayer(docs, q, k);
    forall j | 0 <= j < i ensures frontier[j] !in parents {
      assert frontier[..i][j] == frontier[j] && frontier[j] in Elements(frontier[..i]);
      assert frontier[j] !in Parents(docs, Elements(frontier[..i]), t);
    }
    var l := Least(parents);
    assert l in Elements(frontier);
    var j :| 0 <= j < |frontier| && frontier[j] == l;
    assert StrLe(l, frontier[i]);
    if i < j { assert StrLt(frontier[i], frontier[j]); }
    StrTotal(l, frontier[i]);
  }

  /** Following the sorted layer and each source's sorted neighbours, the first to reach a record wins. */
  method ExpandLayer(docs: Docs, q: Query, k: nat, eligible: set<string>, adjacency: map<string, set<string>>,
                     expanded0: map<string, Entry>, frontier: seq<string>)
    returns (expanded: map<string, Entry>, next: seq<string>)
    requires k > 0 && eligible == Eligible(docs, q)
    requires adjacency.Keys == docs.Keys && forall a :: a in docs ==> adjacency[a] == Neighbours(docs, a)
    requires expanded0 == Expanded(docs, q, k - 1)
    requires StrictlyIncreasing(frontier) && NoDuplicates(frontier) && Elements(frontier) == Layer(docs, q, k - 1)
    ensures expanded == Expanded(docs, q, k) && Elements(next) == Layer(docs, q, k)
  {
    hide Eligible, Expanded, Layer, UpTo, Neighbours, StrictlyIncreasing, NoDuplicates, Discovered, Sub;
    expanded, next := expanded0, [];
    NothingDiscovered(docs, q, k);
    var i := 0;
    while i < |frontier|
      invariant 0 <= i <= |frontier|
      invariant LayerSoFar(docs, q, k, expanded, Elements(next))
      invariant Elements(next) == Discovered(docs, q, k, Elements(frontier[..i]))
    {
      SourceKnown(docs, q, k, frontier, i);
      NextIsNew(frontier, i);
      var targets := SortedSet(adjacency[frontier[i]]);
      expanded, next := ExpandSource(docs, q, k, eligible, targets, expanded, next, frontier, i);
      i := i + 1;
    }
    assert frontier[..i] == frontier;
    AllDiscovered(docs, q, k);
  }

  /** Follow one source's neighbours in order. */
  method ExpandSource(docs: Docs, q: Query, k: nat, eligible: set<string>, targets: seq<string>,
                      expanded0: map<string, Entry>, next0: seq<string>, frontier: seq<string>, i: nat)
    returns (expanded: map<string, Entry>, next: seq<string>)
    requires k > 0 && i < |frontier| && eligible == Eligible(docs, q)
    requires frontier[i] in docs && frontier[i] in UpTo(docs, q, k - 1)
    requires Elements(targets) == Neighbours(docs, frontier[i])
    requires StrictlyIncreasing(frontier) && Elements(frontier) == Layer(docs, q, k - 1)
    requires LayerSoFar(docs, q, k, expanded0, Elements(next0))
    requires Elements(next0) == Discovered(docs, q, k, Elements(frontier[..i]))
    ensures LayerSoFar(docs, q, k, expanded, Elements(next))
    ensures Elements(next) == Discovered(docs, q, k, Elements(frontier[..i]) + {frontier[i]})
  {
    hide Eligible, Expanded, Layer, UpTo, Neighbours, StrictlyIncreasing, Discovered, Sub, LayerSoFar;
    expanded, next := expanded0, next0;
    ghost var done := Elements(frontier[..i]);
    var j := 0;
    while j < |targets|
      invariant 0 <= j <= |targets|
      invariant LayerSoFar(docs, q, k, expanded, Elements(next))
      invariant Elements(next) == Discovered(docs, q, k, done) + Elements(targets[..j]) * Layer(docs, q, k)
    {
      var target := targets[j];
      assert target in Elements(targets);
      assert targets[..j + 1] == targets[..j] + [target];
      ElementsJoin(targets[..j], [target]);
      assert Elements([target]) == {target};
      SourceScore(docs, q, k, expanded, Elements(next), frontier[i]);
      if target !in eligible || target in expanded {
        OldTarget(docs, q, k, expanded, Elements(next), target);
      } else {
        NewTarget(docs, q, k, expanded, Elements(next), frontier, i, target);
        expanded := expanded[target := Entry(Max(1, expanded[frontier[i]].score - 20), Related(frontier[i], k))];
        ElementsJoin(next, [target]);
        next := next + [target];
      }
      j := j + 1;
    }
    assert targets[..j] == targets;
    DiscoveredOne(docs, q, k, done, frontier[i]);
  }

  lemma SourceScore(docs: Docs, q: Query, k: nat, expanded: map<string, Entry>, found: set<string>, s: string)
    requires k > 0 && LayerSoFar(docs, q, k, expanded, found) && s in UpTo(docs, q, k - 1)
    ensures s in expanded && s in Expanded(docs, q, k - 1) && expanded[s] == Expanded(docs, q, k - 1)[s]
  {
    hide Linked, Eligible, Direct, StrLe, Least, UpTo;
    ExpandedStep(docs, q, k);
  }

  /** A target that is filtered out, or that already has an entry, adds nothing to the layer. */
  lemma OldTarget(docs: Docs, q: Query, k: nat, expanded: map<string, Entry>, found: set<string>, t: string)
    requires k > 0 && LayerSoFar(docs, q, k, expanded, found)
    requires t !in Eligible(docs, q) || t in expanded
    ensures t in Layer(docs, q, k) ==> t in found
  {
    hide Linked, Eligible, Direct, StrLe, Least, UpTo;
    UpToEligible(docs, q, k);
  }

  lemma NewTarget(docs: Docs, q: Query, k: nat, expanded: map<string, Entry>, found: set<string>,
                  frontier: seq<string>, i: nat, t: string)
    requires k > 0 && i < |frontier| && LayerSoFar(docs, q, k, expanded, found)
    requires StrictlyIncreasing(frontier) && Elements(frontier) == Layer(docs, q, k - 1)
    requires Discovered(docs, q, k, Elements(frontier[..i])) <= found
    requires t in Neighbours(docs, frontier[i]) && t in Eligible(docs, q) && t !in expanded
    ensures t in Layer(docs, q, k)
    ensures frontier[i] in Expanded(docs, q, k - 1)
    ensures LayerSoFar(docs, q, k,
              expanded[t := Entry(Max(1, Expanded(docs, q, k - 1)[frontier[i]].score - 20), Related(frontier[i], k))],
              found + {t})
  {
    hide Linked, Eligible, StrLe, Least, StrictlyIncreasing, UpTo, Expanded, Direct;
    UpToMonotone(docs, q, k - 1, k);
    assert t !in UpTo(docs, q, k - 1);
    assert frontier[i] in Elements(frontier);
    assert frontier[i] in Parents(docs, Layer(docs, q, k - 1), t);
    ReachedIsNew(docs, q, k, t);
    FirstParent(docs, q, k, frontier, i, t);
    ExpandedStep(docs, q, k);
  }

  lemma ReachedIsNew(docs: Docs, q: Query, k: nat, t: string)
    requires k > 0 && t in Eligible(docs, q) && Parents(docs, Layer(docs, q, k - 1), t) != {}
    ensures t in UpTo(docs, q, k)
  {
    hide Linked, Eligible;
    NextLayer(docs, q, k);
  }

  lemma DiscoveredOne(docs: Docs, q: Query, k: nat, done: set<string>, s: string)
    requires k > 0
    ensures Discovered(docs, q, k, done + {s}) == Discovered(docs, q, k, done) + Neighbours(docs, s) * Layer(docs, q, k)
  {
    hide Eligible, UpTo;
    UpToEligible(docs, q, k);
    forall t
      ensures Parents(docs, done + {s}, t) == Parents(docs, done, t) + (if Linked(docs, s, t) then {s} else {})
    {}
  }

  lemma SourceKnown(docs: Docs, q: Query, k: nat, frontier: seq<string>, i: nat)
    requires k > 0 && i < |frontier| && Elements(frontier) == Layer(docs, q, k - 1)
    ensures frontier[i] in docs && frontier[i] in UpTo(docs, q, k - 1)
  {
    assert frontier[i] in Elements(frontier);
    UpToEligible(docs, q, k - 1);
  }

  lemma NothingDiscovered(docs: Docs, q: Query, k: nat)
    requires k > 0
    ensures LayerSoFar(docs, q, k, Expanded(docs, q, k - 1), Elements<string>([]))
    ensures Elements<string>([]) == {} == Discovered(docs, q, k, {})
  {
    hide StrLe, Least, Linked, Expanded, UpTo, Layer, Parents;
    ExpandedStep(docs, q, k);
    LayerSplits(docs, q, k);
    forall t ensures Parents(docs, {}, t) == {} { ParentsInLayer(docs, {}, t); }
    assert Expanded(docs, q, k - 1) == Sub(Expanded(docs, q, k), UpTo(docs, q, k - 1) + {});
  }

  lemma AllDiscovered(docs: Docs, q: Query, k: nat)
    requires k > 0
    ensures Discovered(docs, q, k, Layer(docs, q, k - 1)) == Layer(docs, q, k)
    ensures Sub(Expanded(docs, q, k), UpTo(docs, q, k - 1) + Layer(docs, q, k)) == Expanded(docs, q, k)
  {
    hide StrLe, Least, Linked, Parents;
    NextLayer(docs, q, k);
    UpToMonotone(docs, q, k - 1, k);
  }

  lemma LayerSplits(docs: Docs, q: Query, k: nat)
    requires k > 0
    ensures UpTo(docs, q, k) == UpTo(docs, q, k - 1) + Layer(docs, q, k)
  {
    hide Linked, Eligible;
    UpToMonotone(docs, q, k - 1, k);
  }

  lemma {:induction false} EmptyLayerStops(docs: Docs, q: Query, k: nat, n: nat)
    requires k <= n && Layer(docs, q, k) == {}
    ensures Expanded(docs, q, n) == Expanded(docs, q, k) && Layer(docs, q, n) == {}
    decreases n
  {
    hide *;
    if k < n {
      EmptyLayerStops(docs, q, k, n - 1);
      NextLayer(docs, q, n);
      forall t ensures Parents(docs, {}, t) == {} { ParentsInLayer(docs, {}, t); }
      assert Layer(docs, q, n) == {};
      LayerSplits(docs, q, n);
      ExpandedStep(docs, q, n);
      assert Expanded(docs, q, n) == Expanded(docs, q, n - 1);
    }
  }

  /** The expansion loop of `_rank_records`. */
  method Expand(docs: Docs, q: Query) returns (expanded: map<string, Entry>)
    ensures expanded == Expanded(docs, q, q.depth)
  {
    hide Expanded, Direct, Eligible, Layer, UpTo, Neighbours, StrictlyIncreasing, NoDuplicates, StrLe, Least;
    var eligible := Eligible(docs, q);
    expanded := Direct(docs, q);
    var adjacency := Relations(docs);
    var frontier := SortedSet(expanded.Keys);
    FirstLayer(docs, q);
    var depth := 1;
    while depth <= q.depth
      invariant 1 <= depth <= q.depth + 1
      invariant expanded == Expanded(docs, q, depth - 1)
      invariant StrictlyIncreasing(frontier) && NoDuplicates(frontier)
                && Elements(frontier) == Layer(docs, q, depth - 1)
    {
      var next;
      expanded, next := ExpandLayer(docs, q, depth, eligible, adjacency, expanded, frontier);
      frontier := SortedSet(Elements(next));
      if frontier == [] {
        EmptyLayerStops(docs, q, depth, q.depth);
        return;
      }
      depth := depth + 1;
    }
  }

  lemma FirstLayer(docs: Docs, q: Query)
    ensures Expanded(docs, q, 0) == Direct(docs, q) && Layer(docs, q, 0) == Direct(docs, q).Keys
  {}

  // ----- the ranking -----

  function ScoreOf(entries: map<string, Entry>, id: string): int {
    if id in entries then entries[id].score else 0
  }

  /** Higher score first, then smaller id. */
  predicate RankLe(entries: map<string, Entry>, a: string, b: string) {
    ScoreOf(entries, a) > ScoreOf(entries, b) || (ScoreOf(entries, a) == ScoreOf(entries, b) && StrLe(a, b))
  }

  function RankOrder(entries: map<string, Entry>): (string, string) -> bool {
    (a, b) => RankLe(entries, a, b)
  }

  lemma RankTotal(entries: map<string, Entry>)
    ensures TotalOrder(RankOrder(entries))
  {
    var le := RankOrder(entries);
    forall a: string, b: string ensures (le(a, b) || le(b, a)) && (le(a, b) && le(b, a) ==> a == b) { StrTotal(a, b); }
    forall a: string, b: string, c: string | le(a, b) && le(b, c) ensures le(a, c) {
      if StrLe(a, b) && StrLe(b, c) { StrTransitive(a, b, c); }
    }
  }

  /** Each entry once, strictly by falling score and then rising id. */
  ghost predicate IsRanking(entries: map<string, Entry>, order: seq<string>) {
    && NoDuplicates(order) && Elements(order) == entries.Keys
    && forall i, j :: 0 <= i < j < |order| ==>
         || entries[order[i]].score > entries[order[j]].score
         || (entries[order[i]].score == entries[order[j]].score && StrLt(order[i], order[j]))
  }

  /** Whatever order the entries are listed in, sorting them gives the ranking, and there is only one. */
  lemma RankingIsSorting(entries: map<string, Entry>, listed: seq<string>)
    requires NoDuplicates(listed) && Elements(listed) == entries.Keys
    ensures IsRanking(entries, Sort(listed, RankOrder(entries)))
  {
    hide Sort, StrLe, TotalOrder, NoDuplicates;
    var le, order := RankOrder(entries), Sort(listed, RankOrder(entries));
    RankTotal(entries);
    SortIsSorted(listed, le);
    SameDistinct(listed, order);
  }

  lemma RankingUnique(entries: map<string, Entry>, a: seq<string>, b: seq<string>)
    requires IsRanking(entries, a) && IsRanking(entries, b)
    ensures a == b
  {
    var le := RankOrder(entries);
    RankTotal(entries);
    SameMultiset(a, b);
    hide *;
    SortedUnique(a, b, le);
  }

  lemma {:induction false} SameMultiset(a: seq<string>, b: seq<string>)
    requires NoDuplicates(a) && NoDuplicates(b) && Elements(a) == Elements(b)
    ensures multiset(a) == multiset(b)
  {
    OnceEach(a);
    OnceEach(b);
  }

  lemma {:induction false} OnceEach(s: seq<string>)
    requires NoDuplicates(s)
    ensures multiset(s) == multiset(Elements(s))
  {
    if s != [] {
      hide NoDuplicates, Elements;
      var rest, last := s[..|s| - 1], s[|s| - 1];
      DropLast(s);
      OnceEach(rest);
      assert s == rest + [last];
      assert multiset(s) == multiset(rest) + multiset{last};
      assert multiset(Elements(rest) + {last}) == multiset(Elements(rest)) + multiset{last};
    }
  }

  datatype Excluded = Excluded(filtered: int, noMatch: int)

  /** `_rank_records`. */
  method RankRecords(docs: Docs, q: Query) returns (order: seq<string>, entries: map<string, Entry>, excluded: Excluded)
    ensures entries == Expanded(docs, q, q.depth)
    ensures IsRanking(entries, order)
    ensures excluded == Excluded(|docs| - |Eligible(docs, q)|, |Eligible(docs, q)| - |order|)
    ensures excluded.filtered >= 0 && excluded.noMatch >= 0
    ensures |order| + excluded.filtered + excluded.noMatch == |docs|
  {
    hide Expanded, IsRanking, Sort, StrictlyIncreasing;
    entries := Expand(docs, q);
    var listed := SortedSet(entries.Keys);
    RankingIsSorting(entries, listed);
    order := Sort(listed, RankOrder(entries));
    var eligible := Eligible(docs, q);
    excluded := Excluded(|docs| - |eligible|, |eligible| - |entries|);
    RankSizes(docs, q, entries);
  }

  lemma RankSizes(docs: Docs, q: Query, entries: map<string, Entry>)
    requires entries == Expanded(docs, q, q.depth)
    ensures |entries.Keys| == |entries| <= |Eligible(docs, q)| <= |docs|
  {
    hide Expanded, UpTo;
    UpToEligible(docs, q, q.depth);
    SubsetSize(entries.Keys, Eligible(docs, q));
    SubsetSize(Eligible(docs, q), docs.Keys);
    assert |docs.Keys| == |docs|;
  }
}
