/** `compile_context`: greedy packing of the ranking under an item budget and a byte budget. */
module Packing {
  /** The query's budget, and what the compiler asks about a ranked record. */
  datatype Budget = Budget(
    maxItems: nat,
    maxBytes: nat,
    blocked: string -> bool,
    notes: string -> seq<string>,
    size: string -> nat)

  /** What happened to one ranked record. */
  datatype Verdict = Chosen | OverItems | Blocked | OverBytes

  datatype Skipped = Skipped(itemLimit: nat, contentPolicy: nat, contentBudget: nat)

  function Picked(order: seq<string>, verdicts: seq<Verdict>): seq<string>
    requires |order| == |verdicts|
    decreases |order|
  {
    if order == [] then []
    else
      var n := |order| - 1;
      Picked(order[..n], verdicts[..n]) + if verdicts[n] == Chosen then [order[n]] else []
  }

  function Weight(items: seq<string>, size: string -> nat): nat {
    if items == [] then 0 else Weight(items[..|items| - 1], size) + size(items[|items| - 1])
  }

  function Count(verdicts: seq<Verdict>, v: Verdict): nat {
    if verdicts == [] then 0
    else Count(verdicts[..|verdicts| - 1], v) + if verdicts[|verdicts| - 1] == v then 1 else 0
  }

  /** Content warnings come from every record that was inspected and not blocked, also from those
      that then did not fit. */
  function Noted(order: seq<string>, verdicts: seq<Verdict>, b: Budget): seq<string>
    requires |order| == |verdicts|
    decreases |order|
  {
    if order == [] then []
    else
      var n := |order| - 1;
      Noted(order[..n], verdicts[..n], b) + if verdicts[n] in {Chosen, OverBytes} then b.notes(order[n]) else []
  }

  /** The verdict on the next record, given what has been taken. */
  function Judge(taken: seq<string>, id: string, b: Budget): Verdict {
    if |taken| >= b.maxItems then OverItems
    else if b.blocked(id) then Blocked
    else if Weight(taken, b.size) + b.size(id) > b.maxBytes then OverBytes
    else Chosen
  }

  ghost predicate Justified(order: seq<string>, verdicts: seq<Verdict>, b: Budget) {
    && |order| == |verdicts|
    && forall k :: 0 <= k < |order| ==> verdicts[k] == Judge(Picked(order[..k], verdicts[..k]), order[k], b)
  }

  /** `a` keeps some positions of `s`, in order. */
  ghost predicate Subsequence(a: seq<string>, s: seq<string>)
    decreases |s|
  {
    if a == [] then true
    else if s == [] then false
    else if a[|a| - 1] == s[|s| - 1] && Subsequence(a[..|a| - 1], s[..|s| - 1]) then true
    else Subsequence(a, s[..|s| - 1])
  }

  lemma {:induction false} PickedIsSubsequence(order: seq<string>, verdicts: seq<Verdict>)
    requires |order| == |verdicts|
    ensures Subsequence(Picked(order, verdicts), order)
    decreases |order|
  {
    if order != [] {
      var n := |order| - 1;
      PickedIsSubsequence(order[..n], verdicts[..n]);
      var below, p := Picked(order[..n], verdicts[..n]), Picked(order, verdicts);
      if verdicts[n] == Chosen {
        assert p[..|p| - 1] == below;
      } else {
        assert p == below;
      }
    }
  }

  /** Both budgets hold whatever the ranking, and a record left out for its size would have overflowed the
      bytes taken before it. */
  lemma {:induction false} WithinBudget(order: seq<string>, verdicts: seq<Verdict>, b: Budget)
    requires Justified(order, verdicts, b)
    ensures var p := Picked(order, verdicts); |p| <= b.maxItems && Weight(p, b.size) <= b.maxBytes
    ensures forall k :: 0 <= k < |order| && verdicts[k] == OverBytes ==>
              Weight(Picked(order[..k], verdicts[..k]), b.size) + b.size(order[k]) > b.maxBytes
    decreases |order|
  {
    if order != [] {
      var n := |order| - 1;
      JustifiedPrefix(order, verdicts, b, n);
      WithinBudget(order[..n], verdicts[..n], b);
      var below, p := Picked(order[..n], verdicts[..n]), Picked(order, verdicts);
      assert verdicts[n] == Judge(below, order[n], b);
      if verdicts[n] == Chosen { assert p[..|p| - 1] == below; } else { assert p == below; }
    }
  }

  lemma JustifiedPrefix(order: seq<string>, verdicts: seq<Verdict>, b: Budget, n: nat)
    requires Justified(order, verdicts, b) && n <= |order|
    ensures Justified(order[..n], verdicts[..n], b)
  {
    forall k | 0 <= k < n
      ensures verdicts[..n][k] == Judge(Picked(order[..n][..k], verdicts[..n][..k]), order[..n][k], b)
    {
      assert order[..n][..k] == order[..k] && verdicts[..n][..k] == verdicts[..k];
    }
  }

  /** The ranking and the budget determine every verdict. */
  lemma {:induction false} VerdictsUnique(order: seq<string>, v: seq<Verdict>, w: seq<Verdict>, b: Budget)
    requires Justified(order, v, b) && Justified(order, w, b)
    ensures v == w
    decreases |order|
  {
    if order != [] {
      var n := |order| - 1;
      JustifiedPrefix(order, v, b, n);
      JustifiedPrefix(order, w, b, n);
      VerdictsUnique(order[..n], v[..n], w[..n], b);
      assert v == v[..n] + [v[n]] && w == w[..n] + [w[n]];
    }
  }

  /** Every ranked record is counted once. */
  lemma {:induction false} CountsAddUp(order: seq<string>, verdicts: seq<Verdict>)
    requires |order| == |verdicts|
    ensures |Picked(order, verdicts)| + Count(verdicts, OverItems) + Count(verdicts, Blocked)
            + Count(verdicts, OverBytes)
         == |order|
    decreases |order|
  {
    if order != [] {
      var n := |order| - 1;
      CountsAddUp(order[..n], verdicts[..n]);
    }
  }

  /** The item budget is looked at first: a record is passed over for it exactly when as many items as allowed have
      been taken, and a record is blocked only before that. */
  lemma ItemLimitComesFirst(order: seq<string>, verdicts: seq<Verdict>, b: Budget, k: nat)
    requires Justified(order, verdicts, b) && k < |order|
    ensures var taken := |Picked(order[..k], verdicts[..k])|;
            && taken <= b.maxItems
            && (verdicts[k] == OverItems <==> taken == b.maxItems)
            && (verdicts[k] == Blocked <==> taken < b.maxItems && b.blocked(order[k]))
  {
    hide Picked, Weight;
    JustifiedPrefix(order, verdicts, b, k);
    WithinBudget(order[..k], verdicts[..k], b);
  }

  /** Once the items are used up, every later record is passed over for that, blocked or not. */
  lemma {:induction false} LimitStays(order: seq<string>, verdicts: seq<Verdict>, b: Budget, j: nat, k: nat)
    requires Justified(order, verdicts, b) && j <= k < |order| == |verdicts| && verdicts[j] == OverItems
    ensures verdicts[k] == OverItems
    decreases k
  {
    hide *;
    if j < k {
      LimitStays(order, verdicts, b, j, k - 1);
      LimitStep(order, verdicts, b, k);
    }
  }

  lemma LimitStep(order: seq<string>, verdicts: seq<Verdict>, b: Budget, k: nat)
    requires Justified(order, verdicts, b) && 0 < k < |order| == |verdicts| && verdicts[k - 1] == OverItems
    ensures verdicts[k] == OverItems
  {
    hide Weight, Judge, Picked;
    ItemLimitComesFirst(order, verdicts, b, k - 1);
    ItemLimitComesFirst(order, verdicts, b, k);
    NothingPicked(order, verdicts, k - 1);
  }

  lemma NothingPicked(order: seq<string>, verdicts: seq<Verdict>, k: nat)
    requires k < |order| == |verdicts| && verdicts[k] != Chosen
    ensures Picked(order[..k + 1], verdicts[..k + 1]) == Picked(order[..k], verdicts[..k])
  {
    assert order[..k + 1][..k] == order[..k] && verdicts[..k + 1][..k] == verdicts[..k];
  }

  // ----- warnings about records that are not in the bundle -----

  /** A position adds content warnings and no item exactly when there was an item left, its record is not blocked
      and has warnings, and its size goes over the byte budget. */
  lemma WarnedButLeftOut(order: seq<string>, verdicts: seq<Verdict>, b: Budget, k: nat)
    requires k < |order| && Justified(order, verdicts, b)
    ensures var before, after := (order[..k], verdicts[..k]), (order[..k + 1], verdicts[..k + 1]);
            var taken := Picked(before.0, before.1);
            Noted(after.0, after.1, b) != Noted(before.0, before.1, b) && Picked(after.0, after.1) == taken
            <==> && |taken| < b.maxItems && !b.blocked(order[k]) && b.notes(order[k]) != []
                 && Weight(taken, b.size) + b.size(order[k]) > b.maxBytes
    ensures Noted(order[..k + 1], verdicts[..k + 1], b) <= Noted(order, verdicts, b)
  {
    assert order[..k + 1][..k] == order[..k] && verdicts[..k + 1][..k] == verdicts[..k];
    var noted, more := Noted(order[..k], verdicts[..k], b), b.notes(order[k]);
    assert |noted + more| == |noted| + |more|;
    assert |Picked(order[..k], verdicts[..k]) + [order[k]]| == |Picked(order[..k], verdicts[..k])| + 1;
    NotesStay(order, verdicts, b, k + 1);
  }

  lemma {:induction false} NotesStay(order: seq<string>, verdicts: seq<Verdict>, b: Budget, k: nat)
    requires k <= |order| == |verdicts|
    ensures Noted(order[..k], verdicts[..k], b) <= Noted(order, verdicts, b)
    decreases |order|
  {
    if k == |order| {
      assert order[..k] == order && verdicts[..k] == verdicts;
    } else {
      var n := |order| - 1;
      NotesStay(order[..n], verdicts[..n], b, k);
      assert order[..n][..k] == order[..k] && verdicts[..n][..k] == verdicts[..k];
    }
  }

  /** A budget without room for the only record, which has one warning. */
  const NO_ROOM := Budget(1, 0, (id: string) => false, (id: string) => ["warning"], (id: string) => 1)

  /** Whatever that record is, the bundle is empty and carries its warning. */
  lemma EmptyBundleWarns(id: string)
    ensures Justified([id], [OverBytes], NO_ROOM)
    ensures Picked([id], [OverBytes]) == [] && Noted([id], [OverBytes], NO_ROOM) == ["warning"]
  {
    assert [id][..0] == [] && [OverBytes][..0] == [];
    assert Judge([], id, NO_ROOM) == OverBytes;
  }

  // ----- the loop -----

  /** The packing loop of `compile_context`. The ghost verdicts say what became of each record. */
  method Pack(order: seq<string>, b: Budget)
    returns (items: seq<string>, bytes: nat, skipped: Skipped, warnings: seq<string>, ghost verdicts: seq<Verdict>)
    ensures |verdicts| == |order| && Justified(order, verdicts, b)
    ensures items == Picked(order, verdicts) && Subsequence(items, order)
    ensures bytes == Weight(items, b.size)
    ensures |items| <= b.maxItems && bytes <= b.maxBytes
    ensures skipped == Skipped(Count(verdicts, OverItems), Count(verdicts, Blocked), Count(verdicts, OverBytes))
    ensures |items| + skipped.itemLimit + skipped.contentPolicy + skipped.contentBudget == |order|
    ensures warnings == Noted(order, verdicts, b)
  {
    hide Picked, Noted, Count, Justified, Weight, Subsequence;
    items, bytes, skipped, warnings, verdicts := [], 0, Skipped(0, 0, 0), [], [];
    NothingPacked(b);
    assert order[..0] == [];
    var i := 0;
    while i < |order|
      invariant 0 <= i <= |order| && |verdicts| == i
      invariant Justified(order[..i], verdicts, b)
      invariant items == Picked(order[..i], verdicts) && bytes == Weight(items, b.size)
      invariant skipped == Skipped(Count(verdicts, OverItems), Count(verdicts, Blocked), Count(verdicts, OverBytes))
      invariant warnings == Noted(order[..i], verdicts, b)
    {
      var id := order[i];
      ghost var v := Judge(items, id, b);
      OneMore(order, i, verdicts, v, b);
      if |items| >= b.maxItems {
        skipped := skipped.(itemLimit := skipped.itemLimit + 1);
      } else if b.blocked(id) {
        skipped := skipped.(contentPolicy := skipped.contentPolicy + 1);
      } else {
        warnings := warnings + b.notes(id);
        if bytes + b.size(id) > b.maxBytes {
          skipped := skipped.(contentBudget := skipped.contentBudget + 1);
        } else {
          WeightOne(items, id, b.size);
          items := items + [id];
          bytes := bytes + b.size(id);
        }
      }
      verdicts := verdicts + [v];
      i := i + 1;
    }
    assert order[..i] == order;
    PickedIsSubsequence(order, verdicts);
    WithinBudget(order, verdicts, b);
    CountsAddUp(order, verdicts);
  }

  lemma NothingPacked(b: Budget)
    ensures Justified([], [], b) && Picked([], []) == [] && Weight([], b.size) == 0 && Noted([], [], b) == []
    ensures forall v :: Count([], v) == 0
  {}

  lemma WeightOne(items: seq<string>, id: string, size: string -> nat)
    ensures Weight(items + [id], size) == Weight(items, size) + size(id)
  {
    assert (items + [id])[..|items|] == items;
  }

  lemma OneMore(order: seq<string>, i: nat, verdicts: seq<Verdict>, v: Verdict, b: Budget)
    requires i < |order| && |verdicts| == i && Justified(order[..i], verdicts, b)
    requires v == Judge(Picked(order[..i], verdicts), order[i], b)
    ensures var next := verdicts + [v];
            && Justified(order[..i + 1], next, b)
            && Picked(order[..i + 1], next) == Picked(order[..i], verdicts) + (if v == Chosen then [order[i]] else [])
            && (forall w :: Count(next, w) == Count(verdicts, w) + if v == w then 1 else 0)
            && Noted(order[..i + 1], next, b)
               == Noted(order[..i], verdicts, b) + (if v in {Chosen, OverBytes} then b.notes(order[i]) else [])
  {
    var next := verdicts + [v];
    assert order[..i + 1][..i] == order[..i] && next[..i] == verdicts;
    forall k | 0 <= k < i + 1 ensures next[k] == Judge(Picked(order[..i + 1][..k], next[..k]), order[..i + 1][k], b) {
      assert order[..i + 1][..k] == order[..i][..k] && next[..k] == verdicts[..k];
      if k < i { assert verdicts[k] == Judge(Picked(order[..i][..k], verdicts[..k]), order[..i][k], b); }
      else { assert order[..i][..k] == order[..i] && verdicts[..k] == verdicts; }
    }
  }
}
