/** Orders on identifiers, and the sorting the source does before it iterates.

    Identifiers are strings compared character by character, as Python compares `str`. */
module Orders {

  /** `le` compares a sort key: total and transitive, but different values may tie. */
  ghost predicate TotalPreorder<T(!new)>(le: (T, T) -> bool) {
    && (forall a, b :: le(a, b) || le(b, a))
    && (forall a, b, c :: le(a, b) && le(b, c) ==> le(a, c))
  }

  /** No ties: what a sort key must be for the sorted result to be unique. */
  ghost predicate TotalOrder<T(!new)>(le: (T, T) -> bool) {
    TotalPreorder(le) && forall a, b :: le(a, b) && le(b, a) ==> a == b
  }

  ghost predicate SortedBy<T(!new)>(s: seq<T>, le: (T, T) -> bool) {
    forall i, j :: 0 <= i < j < |s| ==> le(s[i], s[j])
  }

  // ----- strings -----

  predicate StrLe(a: string, b: string) {
    if a == [] then true
    else if b == [] then false
    else if a[0] == b[0] then StrLe(a[1..], b[1..])
    else a[0] < b[0]
  }

  predicate StrLt(a: string, b: string) {
    a != b && StrLe(a, b)
  }

  /** The strings agree up to position `k`, where `a` has the smaller character. */
  ghost predicate LessAt(a: string, b: string, k: nat) {
    k < |a| && k < |b| && a[..k] == b[..k] && a[k] < b[k]
  }

  lemma LessLater(a: string, b: string, k: nat)
    requires a != [] && b != [] && a[0] == b[0]
    ensures LessAt(a, b, k + 1) <==> LessAt(a[1..], b[1..], k)
  {
    if k < |a| - 1 && k < |b| - 1 {
      assert a[..k + 1] == [a[0]] + a[1..][..k] && b[..k + 1] == [b[0]] + b[1..][..k];
      assert a[1..][..k] == a[..k + 1][1..] && b[1..][..k] == b[..k + 1][1..];
    }
  }

  /** A string stands before its extensions, and otherwise the first difference decides. */
  lemma {:induction false} StrOrder(a: string, b: string)
    ensures StrLe(a, b) <==> a <= b || exists k :: LessAt(a, b, k)
  {
    if a != [] && b != [] {
      if a[0] == b[0] {
        StrOrder(a[1..], b[1..]);
        assert a <= b <==> a[1..] <= b[1..] by { assert a == [a[0]] + a[1..] && b == [b[0]] + b[1..]; }
        if k: nat :| LessAt(a[1..], b[1..], k) { LessLater(a, b, k); }
        if k: nat :| LessAt(a, b, k) {
          assert k > 0;
          LessLater(a, b, k - 1);
        }
      } else {
        assert a[..0] == b[..0];
        assert LessAt(a, b, 0) <==> a[0] < b[0];
        forall k | k > 0 && k < |a| && k < |b| ensures a[..k] != b[..k] {
          assert a[0] == a[..k][0] && b[0] == b[..k][0];
        }
      }
    }
  }

  lemma {:induction false} StrTotal(a: string, b: string)
    ensures StrLe(a, b) || StrLe(b, a)
    ensures StrLe(a, b) && StrLe(b, a) ==> a == b
  {
    if a != [] && b != [] && a[0] == b[0] {
      StrTotal(a[1..], b[1..]);
      assert a == [a[0]] + a[1..] && b == [b[0]] + b[1..];
    }
  }

  lemma {:induction false} StrTransitive(a: string, b: string, c: string)
    requires StrLe(a, b) && StrLe(b, c)
    ensures StrLe(a, c)
  {
    if a != [] && b != [] && c != [] && a[0] == b[0] == c[0] {
      StrTransitive(a[1..], b[1..], c[1..]);
    }
  }

  lemma StrTotalOrder()
    ensures TotalOrder(StrLe)
  {
    forall a: string, b: string ensures (StrLe(a, b) || StrLe(b, a)) && (StrLe(a, b) && StrLe(b, a) ==> a == b) {
      StrTotal(a, b);
    }
    forall a: string, b: string, c: string | StrLe(a, b) && StrLe(b, c) ensures StrLe(a, c) {
      StrTransitive(a, b, c);
    }
  }

  /** Strictly before means not after. */
  lemma StrLtMeaning(a: string, b: string)
    ensures StrLt(a, b) <==> !StrLe(b, a)
  {
    StrTotal(a, b);
  }

  // ----- numbers as text -----

  function Decimal(n: nat): string {
    if n < 10 then ["0123456789"[n]] else Decimal(n / 10) + ["0123456789"[n % 10]]
  }

  /** The number a text of digits stands for. */
  ghost function Number(s: string): int {
    if s == "" then 0 else 10 * Number(s[..|s| - 1]) + (s[|s| - 1] as int - '0' as int)
  }

  /** A number is written with digits only, without leading zeros, and reads back as itself. */
  lemma {:induction false} DecimalReadsBack(n: nat)
    ensures var s := Decimal(n);
            && s != "" && (forall i :: 0 <= i < |s| ==> '0' <= s[i] <= '9')
            && (n > 0 ==> s[0] != '0') && Number(s) == n
  {
    var s := Decimal(n);
    if n < 10 {
      assert s[..0] == "" && Number(s) == s[0] as int - '0' as int;
    } else {
      DecimalReadsBack(n / 10);
      assert s[..|s| - 1] == Decimal(n / 10);
    }
  }

  // ----- sort keys of up to three strings -----

  type Triple = (string, string, string)

  predicate TripleLe(a: Triple, b: Triple) {
    if a.0 != b.0 then StrLe(a.0, b.0) else if a.1 != b.1 then StrLe(a.1, b.1) else StrLe(a.2, b.2)
  }

  /** The first component that differs decides. */
  lemma TripleMeaning(a: Triple, b: Triple)
    ensures TripleLe(a, b) <==>
              && StrLe(a.0, b.0)
              && (a.0 == b.0 ==> StrLe(a.1, b.1) && (a.1 == b.1 ==> StrLe(a.2, b.2)))
  {
    StrTotal(a.0, a.0);
    StrTotal(a.1, a.1);
  }

  lemma TripleOrder()
    ensures TotalOrder(TripleLe)
  {
    hide StrLe;
    forall a: Triple, b: Triple
      ensures TripleLe(a, b) || TripleLe(b, a)
      ensures TripleLe(a, b) && TripleLe(b, a) ==> a == b
    {
      StrTotal(a.0, b.0);
      StrTotal(a.1, b.1);
      StrTotal(a.2, b.2);
    }
    forall a: Triple, b: Triple, c: Triple | TripleLe(a, b) && TripleLe(b, c) ensures TripleLe(a, c) {
      if a.0 != b.0 && b.0 != c.0 {
        StrTransitive(a.0, b.0, c.0);
        StrTotal(a.0, b.0);
      } else if a.0 == b.0 == c.0 {
        if a.1 != b.1 && b.1 != c.1 {
          StrTransitive(a.1, b.1, c.1);
          StrTotal(a.1, b.1);
        } else if a.1 == b.1 == c.1 {
          StrTransitive(a.2, b.2, c.2);
        }
      }
    }
  }

  // ----- sequences without repetition -----

  predicate NoDuplicates<T(==)>(s: seq<T>) {
    forall i, j :: 0 <= i < j < |s| ==> s[i] != s[j]
  }

  function Elements<T(==)>(s: seq<T>): set<T> {
    set x | x in s
  }

  lemma {:induction false} ElementsSize<T>(s: seq<T>)
    requires NoDuplicates(s)
    ensures |Elements(s)| == |s|
  {
    if s != [] {
      var rest := s[..|s| - 1];
      ElementsSize(rest);
      assert s == rest + [s[|s| - 1]];
      assert Elements(s) == Elements(rest) + {s[|s| - 1]};
      assert s[|s| - 1] !in rest;
    }
  }

  lemma SubsetSize<T>(a: set<T>, b: set<T>)
    requires a <= b
    ensures |a| <= |b|
    ensures |a| == |b| ==> a == b
  {
    assert b == a + (b - a);
    if a != b {
      var x :| x in b && x !in a;
      assert x in b - a;
    }
  }

  lemma NextIsNew<T>(names: seq<T>, i: nat)
    requires NoDuplicates(names) && i < |names|
    ensures names[i] !in Elements(names[..i])
    ensures Elements(names[..i + 1]) == Elements(names[..i]) + {names[i]}
  {
    assert names[..i + 1] == names[..i] + [names[i]];
  }

  lemma AppendNew<T>(s: seq<T>, x: T)
    requires NoDuplicates(s) && x !in Elements(s)
    ensures NoDuplicates(s + [x]) && Elements(s + [x]) == Elements(s) + {x}
  {}

  lemma DropFirst<T>(s: seq<T>)
    requires NoDuplicates(s) && s != []
    ensures NoDuplicates(s[1..]) && Elements(s[1..]) == Elements(s) - {s[0]}
  {
    assert s == [s[0]] + s[1..];
  }

  lemma SameDistinct<T>(a: seq<T>, b: seq<T>)
    requires NoDuplicates(a) && multiset(a) == multiset(b)
    ensures NoDuplicates(b) && Elements(a) == Elements(b)
  {
    forall x ensures x in Elements(a) <==> x in Elements(b) {
      assert x in a <==> x in multiset(a);
      assert x in b <==> x in multiset(b);
    }
    assert Elements(a) == Elements(b);
    ElementsSize(a);
    assert |a| == |multiset(a)| == |multiset(b)| == |b|;
    DistinctBySize(b);
  }

  lemma DropLast<T>(s: seq<T>)
    requires NoDuplicates(s) && s != []
    ensures var rest, last := s[..|s| - 1], s[|s| - 1];
            NoDuplicates(rest) && Elements(s) == Elements(rest) + {last} && last !in Elements(rest)
  {
    assert s == s[..|s| - 1] + [s[|s| - 1]];
  }

  lemma ElementsJoin<T>(a: seq<T>, b: seq<T>)
    ensures Elements(a + b) == Elements(a) + Elements(b)
  {
    forall x ensures x in Elements(a + b) <==> x in Elements(a) || x in Elements(b) {
      assert x in a + b <==> x in a || x in b;
    }
  }

  lemma AddOne<T>(s: set<T>, x: T)
    ensures |s + {x}| == |s| + if x in s then 0 else 1
  {
    if x in s { assert s + {x} == s; }
  }

  /** A sequence with as many different elements as positions repeats none. */
  lemma {:induction false} DistinctBySize<T>(b: seq<T>)
    requires |Elements(b)| == |b|
    ensures NoDuplicates(b)
  {
    if b != [] {
      var rest, last := b[..|b| - 1], b[|b| - 1];
      assert b == rest + [last];
      assert Elements(b) == Elements(rest) + {last};
      ElementsBound(rest);
      AddOne(Elements(rest), last);
      assert last in rest ==> last in Elements(rest);
      DistinctBySize(rest);
    }
  }

  lemma {:induction false} ElementsBound<T>(s: seq<T>)
    ensures |Elements(s)| <= |s|
  {
    if s != [] {
      var rest := s[..|s| - 1];
      assert s == rest + [s[|s| - 1]];
      assert Elements(s) == Elements(rest) + {s[|s| - 1]};
      ElementsBound(rest);
    }
  }

  // ----- stable insertion sort: `sorted(items, key=...)` -----

  function Insert<T>(x: T, s: seq<T>, le: (T, T) -> bool): (r: seq<T>)
    ensures multiset(r) == multiset(s) + multiset{x}
    ensures |r| == |s| + 1
  {
    if s == [] || le(x, s[0]) then
      assert [x] + s == [x] + s;
      [x] + s
    else
      assert s == [s[0]] + s[1..];
      [s[0]] + Insert(x, s[1..], le)
  }

  function Sort<T>(s: seq<T>, le: (T, T) -> bool): (r: seq<T>)
    ensures multiset(r) == multiset(s)
    ensures |r| == |s|
  {
    if s == [] then []
    else
      assert s == [s[0]] + s[1..];
      Insert(s[0], Sort(s[1..], le), le)
  }

  lemma {:induction false} InsertSorted<T(!new)>(x: T, s: seq<T>, le: (T, T) -> bool)
    requires TotalPreorder(le) && SortedBy(s, le)
    ensures SortedBy(Insert(x, s, le), le)
  {
    if s != [] && !le(x, s[0]) {
      InsertSorted(x, s[1..], le);
      var t := Insert(x, s[1..], le);
      forall i | 0 <= i < |t| ensures le(s[0], t[i]) {
        assert t[i] in multiset(t);
        assert multiset(t) == multiset(s[1..]) + multiset{x};
        if t[i] != x { assert t[i] in s[1..]; }
      }
    }
  }

  lemma {:induction false} SortIsSorted<T(!new)>(s: seq<T>, le: (T, T) -> bool)
    requires TotalPreorder(le)
    ensures SortedBy(Sort(s, le), le)
  {
    if s != [] {
      SortIsSorted(s[1..], le);
      InsertSorted(s[0], Sort(s[1..], le), le);
    }
  }

  lemma SameLeast<T(!new)>(a: seq<T>, b: seq<T>, le: (T, T) -> bool)
    requires TotalOrder(le) && SortedBy(a, le) && SortedBy(b, le)
    requires multiset(a) == multiset(b) && a != []
    ensures b != [] && a[0] == b[0]
  {
    assert a[0] in multiset(b);
    assert b[0] in multiset(a);
    assert le(a[0], b[0]) && le(b[0], a[0]);
  }

  lemma SortedTail<T(!new)>(a: seq<T>, le: (T, T) -> bool)
    requires SortedBy(a, le) && a != []
    ensures SortedBy(a[1..], le)
  {}

  lemma SameTails<T>(a: seq<T>, b: seq<T>)
    requires a != [] && b != [] && a[0] == b[0] && multiset(a) == multiset(b)
    ensures multiset(a[1..]) == multiset(b[1..])
  {
    assert a == [a[0]] + a[1..] && b == [b[0]] + b[1..];
    assert multiset(a[1..]) == multiset(a) - multiset{a[0]} == multiset(b[1..]);
  }

  /** A sorted sequence is determined by its elements, so sorting forgets the input order. */
  lemma {:induction false} SortedUnique<T(!new)>(a: seq<T>, b: seq<T>, le: (T, T) -> bool)
    requires TotalOrder(le) && SortedBy(a, le) && SortedBy(b, le)
    requires multiset(a) == multiset(b)
    ensures a == b
  {
    hide TotalOrder, SortedBy;
    assert |b| == |multiset(b)| == |multiset(a)| == |a|;
    if a != [] {
      SameLeast(a, b, le);
      SameTails(a, b);
      SortedTail(a, le);
      SortedTail(b, le);
      SortedUnique(a[1..], b[1..], le);
      assert a == [a[0]] + a[1..] && b == [b[0]] + b[1..];
    }
  }

  /** Sorting is stable, so sorting a sorted sequence returns it unchanged, ties included. */
  lemma {:induction false} SortOfSorted<T(!new)>(s: seq<T>, le: (T, T) -> bool)
    requires SortedBy(s, le)
    ensures Sort(s, le) == s
  {
    if s != [] {
      SortOfSorted(s[1..], le);
      assert s == [s[0]] + s[1..];
    }
  }

  // ----- sorted enumeration of a set of strings: `sorted(names)` -----

  predicate IsLeast(m: string, s: set<string>) {
    m in s && forall x :: x in s ==> StrLe(m, x)
  }

  lemma {:induction false} LeastExists(s: set<string>) returns (m: string)
    requires s != {}
    ensures IsLeast(m, s)
  {
    var y :| y in s;
    var rest := s - {y};
    assert forall x :: x in s ==> x == y || x in rest;
    StrTotal(y, y);
    if rest == {} {
      m := y;
    } else {
      m := LeastExists(rest);
      StrTotal(m, y);
      StrTotal(m, m);
      var l := if StrLe(m, y) then m else y;
      forall x | x in s ensures StrLe(l, x) {
        if x != y {
          assert x in rest;
          StrTransitive(l, m, x);
        }
      }
      m := l;
    }
  }

  lemma LeastUnique(m: string, n: string, s: set<string>)
    requires IsLeast(m, s) && IsLeast(n, s)
    ensures m == n
  {
    StrTotal(m, n);
  }

  function Least(s: set<string>): (m: string)
    requires s != {}
    ensures m in s && forall x :: x in s ==> StrLe(m, x)
  {
    assert exists m :: IsLeast(m, s) by { var m := LeastExists(s); }
    assert forall m, n | IsLeast(m, s) && IsLeast(n, s) :: m == n by {
      forall m, n | IsLeast(m, s) && IsLeast(n, s) ensures m == n { LeastUnique(m, n, s); }
    }
    var m :| m in s && IsLeast(m, s);
    m
  }

  ghost predicate StrictlyIncreasing(r: seq<string>) {
    forall i, j :: 0 <= i < j < |r| ==> StrLt(r[i], r[j])
  }

  function SortedSet(s: set<string>): (r: seq<string>)
    ensures Elements(r) == s && NoDuplicates(r)
    ensures StrictlyIncreasing(r)
    ensures |r| == |s|
  {
    if s == {} then []
    else
      var m := Least(s);
      var rest := SortedSet(s - {m});
      PrependLeast(m, s, rest);
      [m] + rest
  }

  lemma PrependLeast(m: string, s: set<string>, rest: seq<string>)
    requires m in s && forall x :: x in s ==> StrLe(m, x)
    requires Elements(rest) == s - {m} && NoDuplicates(rest) && StrictlyIncreasing(rest)
    ensures Elements([m] + rest) == s && NoDuplicates([m] + rest) && StrictlyIncreasing([m] + rest)
  {
    hide StrLe;
    var r := [m] + rest;
    forall i, j | 0 <= i < j < |r| ensures StrLt(r[i], r[j]) && r[i] != r[j] {
      assert r[j] == rest[j - 1] && rest[j - 1] in Elements(rest);
      if i > 0 { assert r[i] == rest[i - 1]; }
    }
    ElementsJoin([m], rest);
    assert Elements([m]) == {m};
  }
}
