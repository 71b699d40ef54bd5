/** The baseline content inspector: a bounded walk of a JSON tree with an explicit stack. */
module ContentInspection {
  import opened Orders

  datatype Json =
    | Null
    | Bool(truth: bool)
    | Num(value: int)
    | Str(text: string)
    | Arr(items: seq<Json>)
    | Obj(fields: map<string, Json>)

  datatype Node = Node(path: string, value: Json)

  /** In the alphabetical order of code and message. All but the second block. */
  datatype Code = NodeLimit | TextLimit | InstructionShaped | PossibleSecret

  datatype Finding = Finding(code: Code, path: string) {
    predicate Blocks() { code != InstructionShaped }
    predicate Limit() { code == NodeLimit || code == TextLimit }
  }

  /** The two bounds and the two pattern tests. */
  datatype Inspector = Inspector(
    maxNodes: nat, maxText: nat, secret: string -> bool, instruction: string -> bool)

  function FieldNode(path: string, v: Json, key: string): Node
    requires v.Obj? && key in v.fields
  {
    Node(path + "." + key, v.fields[key])
  }

  function ItemNode(path: string, v: Json, i: nat): Node
    requires v.Arr? && i < |v.items|
  {
    Node(path + "[" + Decimal(i) + "]", v.items[i])
  }

  // ----- the recursive walk -----

  /** The nodes of a tree: a value before its parts, fields by ascending key, items by index. */
  function Walk(path: string, v: Json): seq<Node>
    decreases v, 1, 0
  {
    [Node(path, v)] +
    match v {
      case Obj(fields) => WalkFields(path, v, SortedSet(fields.Keys))
      case Arr(items) => WalkItems(path, v, 0)
      case _ => []
    }
  }

  function WalkFields(path: string, v: Json, keys: seq<string>): seq<Node>
    requires v.Obj? && Elements(keys) <= v.fields.Keys
    decreases v, 0, |keys|
  {
    if keys == [] then []
    else
      assert keys[0] in Elements(keys);
      var n := FieldNode(path, v, keys[0]);
      assert forall k :: k in keys[1..] ==> k in Elements(keys);
      Walk(n.path, n.value) + WalkFields(path, v, keys[1..])
  }

  function WalkItems(path: string, v: Json, i: nat): seq<Node>
    requires v.Arr? && i <= |v.items|
    decreases v, 0, |v.items| - i
  {
    if i == |v.items| then []
    else
      var n := ItemNode(path, v, i);
      Walk(n.path, n.value) + WalkItems(path, v, i + 1)
  }

  // ----- what the inspector should report of a walk -----

  function TextOf(v: Json): nat {
    if v.Str? then |v.text| else 0
  }

  function Text(w: seq<Node>): nat {
    if w == [] then 0 else Text(w[..|w| - 1]) + TextOf(w[|w| - 1].value)
  }

  function At(n: Node, p: Inspector): set<Finding> {
    if !n.value.Str? then {}
    else
      (if p.secret(n.value.text) then {Finding(PossibleSecret, n.path)} else {})
      + (if p.instruction(n.value.text) then {Finding(InstructionShaped, n.path)} else {})
  }

  function FindingsOf(w: seq<Node>, p: Inspector): set<Finding> {
    if w == [] then {} else FindingsOf(w[..|w| - 1], p) + At(w[|w| - 1], p)
  }

  /** The walk fits within both bounds. */
  predicate Fits(w: seq<Node>, p: Inspector) {
    |w| <= p.maxNodes && Text(w) <= p.maxText
  }

  /** The findings of the longest part of the walk that fits, and which bound the next node breaks. */
  function Reported(w: seq<Node>, p: Inspector): set<Finding>
    decreases |w|
  {
    if Fits(w, p) then FindingsOf(w, p)
    else
      var n := |w| - 1;
      if !Fits(w[..n], p) then Reported(w[..n], p)
      else FindingsOf(w[..n], p) + {Finding(if |w| > p.maxNodes then NodeLimit else TextLimit, "$")}
  }

  predicate Unblocked(findings: set<Finding>) {
    forall f :: f in findings ==> !f.Blocks()
  }

  // ----- what that report means -----

  lemma {:induction false} FitsPrefix(w: seq<Node>, p: Inspector, n: nat)
    requires n <= |w| && Fits(w, p)
    ensures Fits(w[..n], p)
  {
    if n == |w| {
      assert w[..n] == w;
    } else {
      var m := |w| - 1;
      FitsPrefix(w[..m], p, n);
      assert w[..m][..n] == w[..n];
    }
  }

  lemma {:induction false} FindingsAt(w: seq<Node>, p: Inspector)
    ensures forall f :: f in FindingsOf(w, p) <==> exists i :: 0 <= i < |w| && f in At(w[i], p)
  {
    if w != [] {
      var n := |w| - 1;
      FindingsAt(w[..n], p);
      forall f ensures f in FindingsOf(w, p) <==> exists i :: 0 <= i < |w| && f in At(w[i], p) {
        if f in FindingsOf(w[..n], p) {
          var i :| 0 <= i < n && f in At(w[..n][i], p);
          assert f in At(w[i], p);
        }
        if i :| 0 <= i < |w| && f in At(w[i], p) {
          if i < n { assert f in At(w[..n][i], p); }
        }
      }
    }
  }

  /** A limit is reported exactly when the tree breaks one of the bounds; otherwise the report is what the
      recursive walk finds, node by node. */
  lemma {:induction false} LimitIffTooBig(w: seq<Node>, p: Inspector)
    ensures (exists f :: f in Reported(w, p) && f.Limit()) <==> !Fits(w, p)
    ensures Fits(w, p) ==> Reported(w, p) == FindingsOf(w, p)
    decreases |w|
  {
    FindingsAt(w, p);
    if !Fits(w, p) {
      var n := |w| - 1;
      if Fits(w[..n], p) {
        assert Finding(if |w| > p.maxNodes then NodeLimit else TextLimit, "$") in Reported(w, p);
      } else {
        LimitIffTooBig(w[..n], p);
      }
    }
  }

  /** The node is the value itself under the given path, or stands in one of its fields or items under the path
      that leads there: a dot and the name of each field, and the index of each item in brackets. */
  ghost predicate Inside(path: string, v: Json, n: Node)
    decreases v
  {
    || n == Node(path, v)
    || (v.Obj? && exists key :: key in v.fields && Inside(path + "." + key, v.fields[key], n))
    || (v.Arr? && exists i :: 0 <= i < |v.items| && Inside(path + "[" + Decimal(i) + "]", v.items[i], n))
  }

  /** The walk visits exactly the values inside the tree, each under the path that leads to it. */
  lemma {:induction false} WalkVisitsAll(path: string, v: Json, n: Node)
    ensures n in Walk(path, v) <==> Inside(path, v, n)
    decreases v, 1, 0
  {
    match v {
      case Obj(fields) =>
        var keys := SortedSet(fields.Keys);
        FieldsVisitAll(path, v, keys, n);
        forall key ensures key in keys <==> key in fields { assert key in Elements(keys) <==> key in fields; }
      case Arr(items) => ItemsVisitAll(path, v, 0, n);
      case _ =>
    }
  }

  lemma {:induction false} FieldsVisitAll(path: string, v: Json, keys: seq<string>, n: Node)
    requires v.Obj? && Elements(keys) <= v.fields.Keys
    ensures n in WalkFields(path, v, keys) <==>
              exists key :: key in keys && key in v.fields && Inside(path + "." + key, v.fields[key], n)
    decreases v, 0, |keys|
  {
    hide Inside, Walk;
    if keys != [] {
      assert keys[0] in Elements(keys);
      assert forall k :: k in keys[1..] ==> k in Elements(keys);
      WalkVisitsAll(path + "." + keys[0], v.fields[keys[0]], n);
      FieldsVisitAll(path, v, keys[1..], n);
      assert keys == [keys[0]] + keys[1..];
    }
  }

  lemma {:induction false} ItemsVisitAll(path: string, v: Json, i: nat, n: Node)
    requires v.Arr? && i <= |v.items|
    ensures n in WalkItems(path, v, i) <==>
              exists k :: i <= k < |v.items| && Inside(path + "[" + Decimal(k) + "]", v.items[k], n)
    decreases v, 0, |v.items| - i
  {
    hide Inside, Walk, Decimal;
    if i < |v.items| {
      WalkVisitsAll(path + "[" + Decimal(i) + "]", v.items[i], n);
      ItemsVisitAll(path, v, i + 1, n);
    }
  }

  /** An unblocked payload is within both bounds and holds no string, however deep, that matches the
      secret patterns; and nothing else is blocked. */
  lemma UnblockedIffClean(payload: Json, p: Inspector)
    ensures Unblocked(Reported(Walk("$", payload), p)) <==>
              && Fits(Walk("$", payload), p)
              && forall path, s :: Inside("$", payload, Node(path, Str(s))) ==> !p.secret(s)
  {
    hide Inside, Walk, Reported, FindingsOf;
    var w := Walk("$", payload);
    LimitIffTooBig(w, p);
    if Fits(w, p) {
      forall path, s | Inside("$", payload, Node(path, Str(s))) && p.secret(s) ensures !Unblocked(Reported(w, p)) {
        var f := Finding(PossibleSecret, path);
        ReportNamesStrings(payload, p, f);
        assert f in Reported(w, p) && f.Blocks();
      }
      forall f | f in Reported(w, p) && f.Blocks()
        ensures exists path, s :: Inside("$", payload, Node(path, Str(s))) && p.secret(s)
      {
        ReportNamesStrings(payload, p, f);
      }
    }
  }

  /** Of a payload within both bounds the report names, under the path that leads to it, every string that matches a
      pattern, and nothing else: secrets and instruction-shaped text each under their own code. */
  lemma ReportNamesStrings(payload: Json, p: Inspector, f: Finding)
    requires Fits(Walk("$", payload), p)
    ensures f in Reported(Walk("$", payload), p) <==>
              exists s :: Inside("$", payload, Node(f.path, Str(s)))
                && ((f.code == PossibleSecret && p.secret(s)) || (f.code == InstructionShaped && p.instruction(s)))
  {
    hide Walk, Reported, FindingsOf, Fits, Inside;
    var w := Walk("$", payload);
    LimitIffTooBig(w, p);
    FindingsAt(w, p);
    if f in Reported(w, p) {
      var i :| 0 <= i < |w| && f in At(w[i], p);
      var s := w[i].value.text;
      assert w[i] == Node(f.path, Str(s));
      WalkVisitsAll("$", payload, w[i]);
    }
    if s :| Inside("$", payload, Node(f.path, Str(s)))
            && ((f.code == PossibleSecret && p.secret(s)) || (f.code == InstructionShaped && p.instruction(s))) {
      WalkVisitsAll("$", payload, Node(f.path, Str(s)));
      var i :| 0 <= i < |w| && w[i] == Node(f.path, Str(s));
      assert f in At(w[i], p);
    }
  }

  /** A payload within both bounds is warned about exactly when some string in it, however deep, is shaped like an
      instruction. */
  lemma WarnsIffInstruction(payload: Json, p: Inspector)
    requires Fits(Walk("$", payload), p)
    ensures (exists f :: f in Reported(Walk("$", payload), p) && !f.Blocks()) <==>
              exists path, s :: Inside("$", payload, Node(path, Str(s))) && p.instruction(s)
  {
    hide Walk, Reported, FindingsOf, Fits, Inside;
    if f :| f in Reported(Walk("$", payload), p) && !f.Blocks() {
      ReportNamesStrings(payload, p, f);
    }
    if path, s :| Inside("$", payload, Node(path, Str(s))) && p.instruction(s) {
      var f := Finding(InstructionShaped, path);
      ReportNamesStrings(payload, p, f);
      assert f in Reported(Walk("$", payload), p) && !f.Blocks();
    }
  }

  // ----- the explicit stack -----

  /** What a stack of pending nodes still has to visit; the top is last. */
  function Rest(stack: seq<Node>): seq<Node>
    decreases |stack|
  {
    if stack == [] then []
    else
      var top := stack[|stack| - 1];
      Walk(top.path, top.value) + Rest(stack[..|stack| - 1])
  }

  lemma RestPush(stack: seq<Node>, n: Node)
    ensures Rest(stack + [n]) == Walk(n.path, n.value) + Rest(stack)
  {
    assert (stack + [n])[..|stack|] == stack;
  }

  method PushFields(stack: seq<Node>, n: Node, keys: seq<string>) returns (pending: seq<Node>)
    requires n.value.Obj? && Elements(keys) == n.value.fields.Keys
    ensures Rest(pending) == WalkFields(n.path, n.value, keys) + Rest(stack)
  {
    hide Rest, Walk, WalkFields;
    pending := stack;
    var k := |keys|;
    SuffixKeys(n.value, keys, k);
    NoFields(n.path, n.value);
    while k > 0
      invariant 0 <= k <= |keys| && Elements(keys[k..]) <= n.value.fields.Keys
      invariant Rest(pending) == WalkFields(n.path, n.value, keys[k..]) + Rest(stack)
    {
      SuffixKeys(n.value, keys, k - 1);
      FieldsUnfold(n.path, n.value, keys, k - 1);
      var field := FieldNode(n.path, n.value, keys[k - 1]);
      RestPush(pending, field);
      pending := pending + [field];
      k := k - 1;
    }
    assert keys[0..] == keys;
  }

  method PushItems(stack: seq<Node>, n: Node) returns (pending: seq<Node>)
    requires n.value.Arr?
    ensures Rest(pending) == WalkItems(n.path, n.value, 0) + Rest(stack)
  {
    hide Rest, Walk, WalkItems;
    pending := stack;
    var k := |n.value.items|;
    ItemsUnfold(n.path, n.value, k);
    while k > 0
      invariant 0 <= k <= |n.value.items|
      invariant Rest(pending) == WalkItems(n.path, n.value, k) + Rest(stack)
    {
      ItemsUnfold(n.path, n.value, k - 1);
      var item := ItemNode(n.path, n.value, k - 1);
      RestPush(pending, item);
      pending := pending + [item];
      k := k - 1;
    }
  }

  /** Push the parts of a value so that the first is on top. */
  method PushParts(stack: seq<Node>, n: Node) returns (pending: seq<Node>)
    ensures [n] + Rest(pending) == Walk(n.path, n.value) + Rest(stack)
  {
    hide Rest, Walk, WalkFields, WalkItems, StrictlyIncreasing, NoDuplicates;
    WalkUnfolds(n.path, n.value);
    match n.value {
      case Obj(fields) => pending := PushFields(stack, n, SortedSet(fields.Keys));
      case Arr(items) => pending := PushItems(stack, n);
      case _ => pending := stack;
    }
  }

  lemma NoFields(path: string, v: Json)
    requires v.Obj?
    ensures Elements<string>([]) <= v.fields.Keys && WalkFields(path, v, []) == []
  {}

  lemma ItemsUnfold(path: string, v: Json, i: nat)
    requires v.Arr? && i <= |v.items|
    ensures i == |v.items| ==> WalkItems(path, v, i) == []
    ensures i < |v.items| ==>
              var n := ItemNode(path, v, i);
              WalkItems(path, v, i) == Walk(n.path, n.value) + WalkItems(path, v, i + 1)
  {}

  lemma WalkUnfolds(path: string, v: Json)
    ensures v.Obj? ==> Walk(path, v) == [Node(path, v)] + WalkFields(path, v, SortedSet(v.fields.Keys))
    ensures v.Arr? ==> Walk(path, v) == [Node(path, v)] + WalkItems(path, v, 0)
    ensures !v.Obj? && !v.Arr? ==> Walk(path, v) == [Node(path, v)]
  {}

  lemma SuffixKeys(v: Json, keys: seq<string>, k: nat)
    requires v.Obj? && Elements(keys) == v.fields.Keys && k <= |keys|
    ensures Elements(keys[k..]) <= v.fields.Keys
    ensures k < |keys| ==> keys[k] in v.fields
    ensures k == |keys| ==> keys[k..] == []
  {
    forall x | x in keys[k..] ensures x in Elements(keys) {}
    if k < |keys| { assert keys[k] in Elements(keys); }
  }

  lemma FieldsUnfold(path: string, v: Json, keys: seq<string>, k: nat)
    requires v.Obj? && k < |keys| && Elements(keys[k..]) <= v.fields.Keys && keys[k] in v.fields
    ensures Elements(keys[k + 1..]) <= v.fields.Keys
    ensures var n := FieldNode(path, v, keys[k]);
            WalkFields(path, v, keys[k..]) == Walk(n.path, n.value) + WalkFields(path, v, keys[k + 1..])
  {
    forall x | x in keys[k + 1..] ensures x in Elements(keys[k..]) {}
    assert keys[k..][1..] == keys[k + 1..] && keys[k..][0] == keys[k];
  }

  /** Where the walk first breaks a bound, the report ends. */
  lemma {:induction false} ReportEnds(w: seq<Node>, p: Inspector, n: nat)
    requires n < |w| && Fits(w[..n], p) && !Fits(w[..n + 1], p)
    ensures Reported(w, p) == FindingsOf(w[..n], p)
            + {Finding(if n + 1 > p.maxNodes then NodeLimit else TextLimit, "$")}
    decreases |w|
  {
    if Fits(w, p) { FitsPrefix(w, p, n + 1); }
    var m := |w| - 1;
    if n == m {
      assert w[..n + 1] == w;
    } else {
      assert w[..m][..n] == w[..n] && w[..m][..n + 1] == w[..n + 1];
      if Fits(w[..m], p) { FitsPrefix(w[..m], p, n + 1); }
      ReportEnds(w[..m], p, n);
    }
  }

  // ----- the inspector -----

  function Rank(c: Code): nat {
    match c
    case NodeLimit => 0
    case TextLimit => 1
    case InstructionShaped => 2
    case PossibleSecret => 3
  }

  predicate FindingLe(a: Finding, b: Finding) {
    Rank(a.code) < Rank(b.code) || (a.code == b.code && StrLe(a.path, b.path))
  }

  lemma FindingOrder()
    ensures TotalOrder(FindingLe)
  {
    forall a: Finding, b: Finding
      ensures (FindingLe(a, b) || FindingLe(b, a)) && (FindingLe(a, b) && FindingLe(b, a) ==> a == b)
    {
      StrTotal(a.path, b.path);
    }
    forall a: Finding, b: Finding, c: Finding | FindingLe(a, b) && FindingLe(b, c) ensures FindingLe(a, c) {
      if a.code == b.code == c.code { StrTransitive(a.path, b.path, c.path); }
    }
  }

  /** The loop of `BaselineContentInspector.inspect`, before the findings are made unique. */
  method Collect(p: Inspector, payload: Json) returns (raw: seq<Finding>)
    ensures Elements(raw) == Reported(Walk("$", payload), p)
  {
    hide Walk, Rest, Reported, FindingsOf, Text;
    ghost var w, seen := Walk("$", payload), [];
    var pending, nodes, text := [Node("$", payload)], 0, 0;
    raw := [];
    NothingSeen(payload, p);
    while pending != []
      invariant seen + Rest(pending) == w && nodes == |seen| && text == Text(seen) && Fits(seen, p)
      invariant Elements(raw) == FindingsOf(seen, p)
      decreases |w| - |seen|
    {
      var node := pending[|pending| - 1];
      RestPush(pending[..|pending| - 1], node);
      assert pending == pending[..|pending| - 1] + [node];
      WalkStarts(node.path, node.value);
      SeeOne(w, seen, node, p);
      nodes := nodes + 1;
      if nodes > p.maxNodes {
        ReportEnds(w, p, |seen|);
        raw := raw + [Finding(NodeLimit, "$")];
        return;
      }
      pending := PushParts(pending[..|pending| - 1], node);
      if node.value.Str? {
        text := text + |node.value.text|;
        if text > p.maxText {
          ReportEnds(w, p, |seen|);
          raw := raw + [Finding(TextLimit, "$")];
          return;
        }
        if p.secret(node.value.text) { raw := raw + [Finding(PossibleSecret, node.path)]; }
        if p.instruction(node.value.text) { raw := raw + [Finding(InstructionShaped, node.path)]; }
      }
      seen := seen + [node];
    }
    NothingLeft();
    assert seen == w;
    LimitIffTooBig(w, p);
  }

  lemma NothingSeen(payload: Json, p: Inspector)
    ensures Rest([Node("$", payload)]) == Walk("$", payload) && Fits([], p) && Text([]) == 0 && FindingsOf([], p) == {}
  {
    assert [Node("$", payload)][..0] == [];
  }

  lemma NothingLeft()
    ensures Rest([]) == []
  {}

  lemma WalkStarts(path: string, v: Json)
    ensures Walk(path, v) != [] && Walk(path, v)[0] == Node(path, v)
  {}

  lemma SeeOne(w: seq<Node>, seen: seq<Node>, node: Node, p: Inspector)
    requires |seen| < |w| && w[..|seen|] == seen && w[|seen|] == node
    ensures w[..|seen| + 1] == seen + [node]
    ensures Text(seen + [node]) == Text(seen) + TextOf(node.value)
    ensures FindingsOf(seen + [node], p) == FindingsOf(seen, p) + At(node, p)
  {
    assert (seen + [node])[..|seen|] == seen;
  }

  /** The findings once each, as first met. */
  method Unique(raw: seq<Finding>) returns (unique: seq<Finding>)
    ensures Elements(unique) == Elements(raw) && NoDuplicates(unique)
  {
    hide NoDuplicates, Elements;
    unique := [];
    NothingUnique();
    var i := 0;
    while i < |raw|
      invariant 0 <= i <= |raw|
      invariant Elements(unique) == Elements(raw[..i]) && NoDuplicates(unique)
    {
      UniqueNext(raw, i, unique);
      if raw[i] !in unique { unique := unique + [raw[i]]; }
      i := i + 1;
    }
    assert raw[..i] == raw;
  }

  lemma NothingUnique()
    ensures Elements<Finding>([]) == {} && NoDuplicates<Finding>([])
  {}

  lemma UniqueNext(raw: seq<Finding>, i: nat, unique: seq<Finding>)
    requires i < |raw| && Elements(unique) == Elements(raw[..i]) && NoDuplicates(unique)
    ensures var next := if raw[i] in unique then unique else unique + [raw[i]];
            Elements(next) == Elements(raw[..i + 1]) && NoDuplicates(next)
  {
    assert raw[..i + 1] == raw[..i] + [raw[i]];
    ElementsJoin(raw[..i], [raw[i]]);
    assert Elements([raw[i]]) == {raw[i]};
    assert raw[i] in unique <==> raw[i] in Elements(unique);
    if raw[i] !in unique { AppendNew(unique, raw[i]); }
  }

  /** `BaselineContentInspector.inspect`. */
  method Inspect(p: Inspector, payload: Json) returns (findings: seq<Finding>)
    ensures Elements(findings) == Reported(Walk("$", payload), p)
    ensures NoDuplicates(findings) && SortedBy(findings, FindingLe)
  {
    hide Elements, NoDuplicates, SortedBy, TotalOrder, FindingLe, Reported, Walk;
    var raw := Collect(p, payload);
    var unique := Unique(raw);
    FindingsSort(unique);
    findings := Sort(unique, FindingLe);
    SameDistinct(unique, findings);
  }

  lemma FindingsSort(findings: seq<Finding>)
    ensures SortedBy(Sort(findings, FindingLe), FindingLe)
  {
    FindingOrder();
    SortIsSorted(findings, FindingLe);
  }
}
