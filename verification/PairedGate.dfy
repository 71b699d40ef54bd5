/** The paired comparison of the value experiment: the one-sided exact binomial tail and the gate on it. */
module PairedGates {
  import opened Orders

  function Pow2(n: nat): (r: nat)
    ensures r > 0
  {
    if n == 0 then 1 else 2 * Pow2(n - 1)
  }

  function Factorial(n: nat): (r: nat)
    ensures r > 0
  {
    if n == 0 then 1 else n * Factorial(n - 1)
  }

  /** `math.comb`, by Pascal's rule. */
  function Choose(n: nat, k: nat): nat {
    if k == 0 then 1
    else if n == 0 then 0
    else Choose(n - 1, k - 1) + Choose(n - 1, k)
  }

  /** The number of outcomes with at least `w` wins among `n` discordant pairs. */
  function Tail(n: nat, w: nat): nat
    decreases n + 1 - w
  {
    if w > n then 0 else Choose(n, w) + Tail(n, w + 1)
  }

  /** `_one_sided_binomial_pvalue` over exact rationals. */
  function PValue(wins: nat, losses: nat): real {
    if wins + losses == 0 then 1.0
    else Tail(wins + losses, wins) as real / Pow2(wins + losses) as real
  }

  lemma {:induction false} ChooseSupport(n: nat, k: nat)
    ensures Choose(n, k) > 0 <==> k <= n
    ensures k == n ==> Choose(n, k) == 1
  {
    if n > 0 && k > 0 {
      ChooseSupport(n - 1, k - 1);
      ChooseSupport(n - 1, k);
    }
  }

  /** Pascal's rule gives the quotient of factorials. */
  lemma {:induction false} ChooseIsFactorials(n: nat, k: nat)
    requires k <= n
    ensures Choose(n, k) * Factorial(k) * Factorial(n - k) == Factorial(n)
  {
    hide Factorial;
    if k == 0 {
      NoFactors();
    } else if k == n {
      NoFactors();
      ChooseSupport(n, n);
    } else {
      ChooseIsFactorials(n - 1, k - 1);
      ChooseIsFactorials(n - 1, k);
      FactorialStep(k);
      FactorialStep(n - k);
      FactorialStep(n);
      Combine(Choose(n - 1, k - 1), Choose(n - 1, k), Factorial(k - 1), Factorial(n - k - 1), k, n - k,
              Factorial(n - 1));
    }
  }

  lemma NoFactors()
    ensures Factorial(0) == 1
  {}

  lemma FactorialStep(n: nat)
    requires n > 0
    ensures Factorial(n) == n * Factorial(n - 1)
  {}

  lemma Combine(a: int, b: int, f: int, g: int, k: int, m: int, t: int)
    requires a * f * (m * g) == t && b * (k * f) * g == t
    ensures (a + b) * (k * f) * (m * g) == (k + m) * t
  {
    assert a * (k * f) * (m * g) == k * (a * f * (m * g));
    assert b * (k * f) * (m * g) == m * (b * (k * f) * g);
  }

  // ----- the tail -----

  lemma {:induction false} TailRule(n: nat, w: nat)
    requires n > 0 && w > 0
    ensures Tail(n, w) == Tail(n - 1, w) + Tail(n - 1, w - 1)
    decreases n + 1 - w
  {
    if w <= n {
      TailRule(n, w + 1);
      ChooseSupport(n - 1, w);
    }
  }

  lemma {:induction false} TailAll(n: nat)
    ensures Tail(n, 0) == Pow2(n)
  {
    if n > 0 {
      TailAll(n - 1);
      TailRule(n, 1);
      assert Tail(n, 0) == 1 + Tail(n, 1);
      assert Tail(n - 1, 0) == 1 + Tail(n - 1, 1);
    }
  }

  lemma {:induction false} TailFalls(n: nat, v: nat, w: nat)
    requires v <= w
    ensures Tail(n, v) >= Tail(n, w)
    ensures v < w && v <= n ==> Tail(n, v) > Tail(n, w)
    decreases w - v
  {
    if v < w {
      ChooseSupport(n, v);
      TailFalls(n, v + 1, w);
    }
  }

  /** At least `w` wins, or at least `n + 1 - w` losses: every outcome is exactly one of the two, and the two
      counts mirror each other. */
  lemma {:induction false} TailMirror(n: nat, w: nat)
    requires w <= n + 1
    ensures Tail(n, w) + Tail(n, n + 1 - w) == Pow2(n)
  {
    TailAll(n);
    if n > 0 && 0 < w <= n {
      TailMirror(n - 1, w);
      TailMirror(n - 1, w - 1);
      TailRule(n, w);
      TailRule(n, n + 1 - w);
    }
  }

  // ----- the p-value -----

  lemma PValueAsTail(wins: nat, losses: nat)
    ensures PValue(wins, losses) == Tail(wins + losses, wins) as real / Pow2(wins + losses) as real
  {
    if wins + losses == 0 { assert Tail(0, 0) == 1; }
  }

  /** Comparing a quotient is comparing its numerator. */
  lemma Quotient(a: nat, d: nat, c: real)
    requires d > 0
    ensures a as real / d as real <= c <==> a as real <= c * d as real
    ensures c < a as real / d as real <==> c * d as real < a as real
  {
    var q := a as real / d as real;
    assert q * d as real == a as real;
  }

  lemma Smaller(a: nat, b: nat, d: nat)
    requires d > 0 && a < b
    ensures a as real / d as real < b as real / d as real
  {
    var q := a as real / d as real;
    assert q * d as real == a as real;
    Quotient(b, d, q);
  }

  /** A probability, and never zero. */
  lemma PValueInRange(wins: nat, losses: nat)
    ensures 0.0 < PValue(wins, losses) <= 1.0
  {
    var n := wins + losses;
    PValueAsTail(wins, losses);
    TailAll(n);
    TailFalls(n, 0, wins);
    TailFalls(n, wins, n + 1);
    Quotient(Tail(n, wins), Pow2(n), 1.0);
    Quotient(Tail(n, wins), Pow2(n), 0.0);
  }

  /** Turning a loss into a win makes the value strictly smaller. */
  lemma PValueFalls(wins: nat, losses: nat)
    requires losses > 0
    ensures PValue(wins + 1, losses - 1) < PValue(wins, losses)
  {
    var n := wins + losses;
    PValueAsTail(wins, losses);
    PValueAsTail(wins + 1, losses - 1);
    TailFalls(n, wins, wins + 1);
    Smaller(Tail(n, wins + 1), Tail(n, wins), Pow2(n));
  }

  /** The value is at most one half exactly when wins outnumber losses. */
  lemma HalfIffAdvantage(wins: nat, losses: nat)
    ensures PValue(wins, losses) <= 0.5 <==> wins > losses
  {
    var n := wins + losses;
    PValueAsTail(wins, losses);
    TailMirror(n, wins);
    if wins > losses { TailFalls(n, n + 1 - wins, wins); } else { TailFalls(n, wins, n + 1 - wins); }
    Quotient(Tail(n, wins), Pow2(n), 0.5);
  }

  // ----- the gate -----

  /** The `bundle_paired_advantage` check. */
  predicate PairedAdvantage(wins: nat, losses: nat) {
    wins > losses && PValue(wins, losses) <= 0.05
  }

  /** The first conjunct of the check is implied by the second. */
  lemma AdvantageIsImplied(wins: nat, losses: nat)
    ensures PairedAdvantage(wins, losses) <==> PValue(wins, losses) <= 0.05
  {
    HalfIffAdvantage(wins, losses);
  }

  lemma FewLosses(n: nat)
    ensures Tail(n, n) == 1
    ensures n >= 1 ==> Tail(n, n - 1) == n + 1
    ensures n >= 2 ==> 2 * Tail(n, n - 2) == n * (n - 1) + 2 * n + 2
  {
    if n >= 2 {
      FewLosses(n - 1);
      TailRule(n, n);
      TailRule(n, n - 1);
      if n >= 3 { TailRule(n, n - 2); }
    }
    ChooseSupport(n, n);
  }

  /** In a campaign of at most nine pairs, the outcomes that pass: at least five wins without a loss, or at
      least seven with one. */
  lemma NinePairs(wins: nat, losses: nat)
    requires wins + losses <= 9
    ensures PairedAdvantage(wins, losses) <==> (losses == 0 && wins >= 5) || (losses == 1 && wins >= 7)
  {
    hide PValue, PairedAdvantage, Pow2, Tail;
    var n := wins + losses;
    AdvantageIsImplied(wins, losses);
    PValueAsTail(wins, losses);
    Quotient(Tail(n, wins), Pow2(n), 0.05);
    FewLosses(n);
    SmallPowers();
    if losses >= 2 { TailFalls(n, wins, n - 2); }
    assert n in {0, 1, 2, 3, 4, 5, 6, 7, 8, 9};
  }

  lemma SmallPowers()
    ensures Pow2(0) == 1 && Pow2(1) == 2 && Pow2(2) == 4 && Pow2(3) == 8 && Pow2(4) == 16
    ensures Pow2(5) == 32 && Pow2(6) == 64 && Pow2(7) == 128 && Pow2(8) == 256 && Pow2(9) == 512
  {}

  // ----- counting the pairs -----

  /** Success of the two compared arms in one cell, when both were run. */
  datatype Pair = Pair(bundle: bool, none: bool)
  type Cells = map<(string, nat), Pair>

  predicate Wins(cells: Cells, cell: (string, nat)) {
    cell in cells && cells[cell].bundle && !cells[cell].none
  }

  predicate Loses(cells: Cells, cell: (string, nat)) {
    cell in cells && cells[cell].none && !cells[cell].bundle
  }

  /** The cells visited before task `i`, repetition `r` of that task. */
  function Before(tasks: seq<string>, i: nat, r: nat): set<(string, nat)>
    requires i <= |tasks| && (i == |tasks| ==> r <= 1)
  {
    (set k: nat, q: nat | 0 <= k < i && 1 <= q <= 3 :: (tasks[k], q))
    + (set q: nat | 1 <= q < r :: (tasks[i], q))
  }

  /** The paired counts of `_gate`: every cell that was run in both arms and came out differently is counted
      once, on the side of the arm that succeeded. */
  method CountPairs(tasks: seq<string>, cells: Cells) returns (wins: nat, losses: nat)
    requires NoDuplicates(tasks)
    ensures wins == |set c | c in Before(tasks, |tasks|, 1) && Wins(cells, c)|
    ensures losses == |set c | c in Before(tasks, |tasks|, 1) && Loses(cells, c)|
    ensures wins + losses <= 3 * |tasks|
  {
    wins, losses := 0, 0;
    var i := 0;
    assert Before(tasks, 0, 1) == {};
    while i < |tasks|
      invariant 0 <= i <= |tasks|
      invariant Counted(tasks, cells, i, 1, wins, losses)
    {
      var r := 1;
      while r <= 3
        invariant 1 <= r <= 4
        invariant Counted(tasks, cells, i, r, wins, losses)
      {
        CountNext(tasks, cells, i, r, wins, losses);
        var cell := (tasks[i], r);
        if cell in cells {
          if cells[cell].bundle && !cells[cell].none {
            wins := wins + 1;
          } else if cells[cell].none && !cells[cell].bundle {
            losses := losses + 1;
          }
        }
        r := r + 1;
      }
      NextTask(tasks, i);
      i := i + 1;
    }
  }

  ghost predicate Counted(tasks: seq<string>, cells: Cells, i: nat, r: nat, wins: nat, losses: nat)
    requires i <= |tasks| && 1 <= r && (i == |tasks| ==> r <= 1)
  {
    && wins == |set c | c in Before(tasks, i, r) && Wins(cells, c)|
    && losses == |set c | c in Before(tasks, i, r) && Loses(cells, c)|
    && wins + losses <= 3 * i + r - 1
  }

  lemma NextTask(tasks: seq<string>, i: nat)
    requires i < |tasks|
    ensures Before(tasks, i, 4) == Before(tasks, i + 1, 1)
  {
    forall c | c in Before(tasks, i + 1, 1) ensures c in Before(tasks, i, 4) {
      var k: nat, q: nat :| 0 <= k < i + 1 && 1 <= q <= 3 && c == (tasks[k], q);
    }
    forall c | c in Before(tasks, i, 4) ensures c in Before(tasks, i + 1, 1) {}
  }

  lemma CountNext(tasks: seq<string>, cells: Cells, i: nat, r: nat, wins: nat, losses: nat)
    requires NoDuplicates(tasks)
    requires i < |tasks| && 1 <= r <= 3 && Counted(tasks, cells, i, r, wins, losses)
    ensures var c := (tasks[i], r);
            Counted(tasks, cells, i, r + 1, wins + (if Wins(cells, c) then 1 else 0),
                    losses + (if Loses(cells, c) then 1 else 0))
  {
    hide Before, Wins, Loses;
    BeforeGrows(tasks, i, r);
    WinsGrow(cells, Before(tasks, i, r), (tasks[i], r));
    LossesGrow(cells, Before(tasks, i, r), (tasks[i], r));
    BothWays(cells, (tasks[i], r));
  }

  lemma BeforeGrows(tasks: seq<string>, i: nat, r: nat)
    requires NoDuplicates(tasks)
    requires i < |tasks| && 1 <= r <= 3
    ensures (tasks[i], r) !in Before(tasks, i, r)
    ensures Before(tasks, i, r + 1) == Before(tasks, i, r) + {(tasks[i], r)}
  {}

  lemma WinsGrow(cells: Cells, seen: set<(string, nat)>, c: (string, nat))
    requires c !in seen
    ensures |set d | d in seen + {c} && Wins(cells, d)| ==
              |set d | d in seen && Wins(cells, d)| + if Wins(cells, c) then 1 else 0
  {
    var won := set d | d in seen && Wins(cells, d);
    assert (set d | d in seen + {c} && Wins(cells, d)) == won + (if Wins(cells, c) then {c} else {});
  }

  lemma LossesGrow(cells: Cells, seen: set<(string, nat)>, c: (string, nat))
    requires c !in seen
    ensures |set d | d in seen + {c} && Loses(cells, d)| ==
              |set d | d in seen && Loses(cells, d)| + if Loses(cells, c) then 1 else 0
  {
    var lost := set d | d in seen && Loses(cells, d);
    assert (set d | d in seen + {c} && Loses(cells, d)) == lost + (if Loses(cells, c) then {c} else {});
  }

  lemma BothWays(cells: Cells, c: (string, nat))
    ensures !(Wins(cells, c) && Loses(cells, c))
  {}

  /** The paired part of `_gate` for three tasks. */
  method PairedCheck(tasks: seq<string>, cells: Cells) returns (passed: bool)
    requires |tasks| == 3 && NoDuplicates(tasks)
    ensures var wins := |set c | c in Before(tasks, 3, 1) && Wins(cells, c)|;
            var losses := |set c | c in Before(tasks, 3, 1) && Loses(cells, c)|;
            passed <==> (losses == 0 && wins >= 5) || (losses == 1 && wins >= 7)
  {
    var wins, losses := CountPairs(tasks, cells);
    NinePairs(wins, losses);
    passed := PairedAdvantage(wins, losses);
  }
}
