/** The dependency-cycle search of scripts/verify-boundaries.ts. */
module WorkspaceCycles {
  import opened Sequences

  type Name = string

  /** A Map from workspace name to a Set of dependencies, both in insertion order. */
  datatype Graph = Graph(keys: seq<Name>, dependencies: map<Name, seq<Name>>) {
    ghost predicate WellFormed() {
      Elements(keys) == dependencies.Keys
    }

    function Successors(node: Name): seq<Name> {
      if node in dependencies then dependencies[node] else []
    }

    predicate Edge(a: Name, b: Name) {
      b in Successors(a)
    }

    function Nodes(): set<Name> {
      dependencies.Keys + set a, b | a in dependencies.Keys && b in dependencies[a] :: b
    }

    lemma EdgeInNodes(a: Name, b: Name)
      requires Edge(a, b)
      ensures a in dependencies && b in Nodes()
    {
    }
  }

  // ---------- Walks and cycles ----------

  ghost predicate Walk(g: Graph, p: seq<Name>) {
    forall i :: 0 <= i < |p| - 1 ==> g.Edge(p[i], p[i + 1])
  }

  ghost predicate ClosedWalk(g: Graph, p: seq<Name>) {
    |p| >= 2 && p[0] == Last(p) && Walk(g, p)
  }

  ghost predicate SimpleCycle(g: Graph, p: seq<Name>) {
    ClosedWalk(g, p) && Distinct(p[..|p| - 1])
  }

  ghost predicate Acyclic(g: Graph) {
    forall p :: !ClosedWalk(g, p)
  }

  /** The nodes of a reported closed walk, without the repeated one. */
  function CycleNodes(p: seq<Name>): seq<Name> {
    if p == [] then [] else p[..|p| - 1]
  }

  // ---------- The order of Array.prototype.sort on strings ----------

  predicate Precedes(a: string, b: string) {
    a == [] || (b != [] && (a[0] < b[0] || (a[0] == b[0] && Precedes(a[1..], b[1..]))))
  }

  lemma {:induction false} PrecedesTotal(a: string, b: string)
    ensures Precedes(a, b) || Precedes(b, a)
  {
    if a != [] && b != [] {
      PrecedesTotal(a[1..], b[1..]);
    }
  }

  lemma {:induction false} PrecedesAntisymmetric(a: string, b: string)
    requires Precedes(a, b) && Precedes(b, a)
    ensures a == b
  {
    if a != [] {
      PrecedesAntisymmetric(a[1..], b[1..]);
      assert a == [a[0]] + a[1..] && b == [b[0]] + b[1..];
    }
  }

  lemma {:induction false} PrecedesTransitive(a: string, b: string, c: string)
    requires Precedes(a, b) && Precedes(b, c)
    ensures Precedes(a, c)
  {
    if a != [] && a[0] == b[0] && b[0] == c[0] {
      PrecedesTransitive(a[1..], b[1..], c[1..]);
    }
  }

  ghost predicate StrictlySorted(s: seq<string>) {
    forall i, j :: 0 <= i < j < |s| ==> Precedes(s[i], s[j]) && s[i] != s[j]
  }

  function Insert(x: string, s: seq<string>): seq<string> {
    if s == [] then [x]
    else if s[0] == x then s
    else if Precedes(x, s[0]) then [x] + s
    else [s[0]] + Insert(x, s[1..])
  }

  /** `[...new Set(s)].sort()`: the distinct strings of s in order. */
  function SortedSet(s: seq<string>): seq<string> {
    if s == [] then [] else Insert(s[0], SortedSet(s[1..]))
  }

  lemma {:induction false} InsertElements(x: string, s: seq<string>)
    ensures Elements(Insert(x, s)) == Elements(s) + {x}
  {
    if s != [] && s[0] != x && !Precedes(x, s[0]) {
      InsertElements(x, s[1..]);
      assert s == [s[0]] + s[1..];
      assert Elements([s[0]] + Insert(x, s[1..])) == {s[0]} + Elements(Insert(x, s[1..]));
    }
  }

  /** A string before the first of a sorted list is before them all. */
  lemma {:induction false} ConsSorted(x: string, s: seq<string>)
    requires StrictlySorted(s) && s != [] && Precedes(x, s[0]) && x != s[0]
    ensures StrictlySorted([x] + s)
  {
    forall j | 0 <= j < |s| ensures Precedes(x, s[j]) && x != s[j] {
      if j > 0 {
        PrecedesTransitive(x, s[0], s[j]);
        if x == s[j] {
          PrecedesAntisymmetric(s[0], s[j]);
        }
      }
    }
  }

  lemma {:induction false} InsertSorted(x: string, s: seq<string>)
    requires StrictlySorted(s)
    ensures StrictlySorted(Insert(x, s))
  {
    if s == [] || s[0] == x {
    } else if Precedes(x, s[0]) {
      ConsSorted(x, s);
    } else {
      var rest := Insert(x, s[1..]);
      InsertSorted(x, s[1..]);
      InsertElements(x, s[1..]);
      PrecedesTotal(x, s[0]);
      assert rest[0] in Elements(rest);
      assert rest[0] == x || rest[0] in s[1..];
      ConsSorted(s[0], rest);
    }
  }

  lemma {:induction false} SortedSetCorrect(s: seq<string>)
    ensures StrictlySorted(SortedSet(s))
    ensures Elements(SortedSet(s)) == Elements(s)
  {
    if s != [] {
      SortedSetCorrect(s[1..]);
      InsertSorted(s[0], SortedSet(s[1..]));
      InsertElements(s[0], SortedSet(s[1..]));
      assert Elements(s) == Elements(s[1..]) + {s[0]};
    }
  }

  lemma {:induction false} SortedUnique(a: seq<string>, b: seq<string>)
    requires StrictlySorted(a) && StrictlySorted(b) && Elements(a) == Elements(b)
    ensures a == b
  {
    if a == [] {
      NoElements(b);
    } else {
      assert a[0] in Elements(b) && a[0] in b;
      assert b[0] in Elements(a) && b[0] in a;
      PrecedesTotal(a[0], a[0]);
      PrecedesTotal(b[0], b[0]);
      PrecedesAntisymmetric(a[0], b[0]);
      forall x ensures x in Elements(a[1..]) <==> x in Elements(b[1..]) {
        if x in a[1..] { assert x in Elements(b) && x in b && x != b[0]; }
        if x in b[1..] { assert x in Elements(a) && x in a && x != a[0]; }
      }
      SortedUnique(a[1..], b[1..]);
      assert a == [a[0]] + a[1..] && b == [b[0]] + b[1..];
    }
  }

  // ---------- The key under which a cycle is reported ----------

  function Key(nodes: seq<Name>): string {
    Join(SortedSet(nodes), "|")
  }

  ghost predicate BarFree(nodes: set<Name>) {
    forall n :: n in nodes ==> '|' !in n
  }

  /** One node set has one key, so cycles with different keys have different node sets. */
  lemma {:induction false} SameNodesSameKey(a: seq<Name>, b: seq<Name>)
    requires Elements(a) == Elements(b)
    ensures Key(a) == Key(b)
  {
    SortedSetCorrect(a);
    SortedSetCorrect(b);
    SortedUnique(SortedSet(a), SortedSet(b));
  }

  /** The first bar of the joined text ends the first part. */
  lemma {:induction false} FirstBar(a: seq<string>)
    requires a != [] && BarFree(Elements(a))
    ensures |a| == 1 <==> '|' !in Join(a, "|")
    ensures |a| > 1 ==> IndexOf(Join(a, "|"), '|') == |a[0]|
  {
    assert a[0] in Elements(a);
    var text := Join(a, "|");
    if |a| > 1 {
      assert text[..|a[0]|] == a[0] && text[|a[0]|] == '|';
      IndexOfIs(text, '|', |a[0]|);
    }
  }

  lemma {:induction false} JoinInjective(a: seq<string>, b: seq<string>)
    requires a != [] && b != []
    requires BarFree(Elements(a)) && BarFree(Elements(b))
    requires Join(a, "|") == Join(b, "|")
    ensures a == b
  {
    FirstBar(a);
    FirstBar(b);
    if |a| > 1 {
      var text := Join(a, "|");
      assert a[0] == text[..|a[0]|] == b[0];
      assert Join(a[1..], "|") == text[|a[0]| + 1..] == Join(b[1..], "|");
      assert BarFree(Elements(a[1..])) && BarFree(Elements(b[1..]));
      JoinInjective(a[1..], b[1..]);
      assert a == [a[0]] + a[1..] && b == [b[0]] + b[1..];
    }
  }

  /** Without `|` in the names, the key determines the node set. */
  lemma {:induction false} SameKeySameNodes(a: seq<Name>, b: seq<Name>)
    requires a != [] && b != []
    requires BarFree(Elements(a)) && BarFree(Elements(b))
    requires Key(a) == Key(b)
    ensures Elements(a) == Elements(b)
  {
    SortedSetCorrect(a);
    SortedSetCorrect(b);
    assert a[0] in Elements(SortedSet(a)) && b[0] in Elements(SortedSet(b));
    JoinInjective(SortedSet(a), SortedSet(b));
  }

  /** With a `|` in a name two different node sets can share a key. */
  lemma {:induction false} KeyCollision()
    ensures Key(["a|b"]) == Key(["a", "b"]) && Elements(["a|b"]) != Elements(["a", "b"])
  {
    assert SortedSet(["b"]) == Insert("b", []) == ["b"];
    assert ["a", "b"][1..] == ["b"];
    assert !Precedes("b", "a") && Precedes("a", "b");
    assert SortedSet(["a", "b"]) == Insert("a", ["b"]) == ["a", "b"];
    assert SortedSet(["a|b"]) == Insert("a|b", SortedSet([])) == ["a|b"];
    assert Join(["a", "b"], "|") == "a" + "|" + Join(["a", "b"][1..], "|") == "a|b";
    assert "a" in Elements(["a", "b"]) && "a" !in Elements(["a|b"]);
  }

  // ---------- What a finished search knows ----------

  /** A closed walk ends along this edge. */
  ghost predicate ClosedBy(c: seq<Name>, a: Name, b: Name) {
    |c| >= 2 && c[|c| - 2] == a && Last(c) == b
  }

  /** Some cycle of the list ends along the edge from a to b. */
  ghost predicate Closes(cycles: seq<seq<Name>>, a: Name, b: Name) {
    exists i :: 0 <= i < |cycles| && ClosedBy(cycles[i], a, b)
  }

  lemma {:induction false} ClosesGrows(before: seq<seq<Name>>, after: seq<seq<Name>>)
    requires before <= after
    ensures forall a, b :: Closes(before, a, b) ==> Closes(after, a, b)
  {
    forall a, b | Closes(before, a, b) ensures Closes(after, a, b) {
      var i :| 0 <= i < |before| && ClosedBy(before[i], a, b);
      assert after[i] == before[i];
    }
  }

  /** Every edge out of a finished node leads to an earlier finished node or closes a cycle that was found. */
  ghost predicate Settled(g: Graph, found: seq<seq<Name>>, finished: seq<Name>) {
    forall i, s :: 0 <= i < |finished| && g.Edge(finished[i], s) ==>
      s in finished[..i] || Closes(found, finished[i], s)
  }

  lemma {:induction false} SettledSnoc(g: Graph, found: seq<seq<Name>>, finished: seq<Name>, node: Name)
    requires Settled(g, found, finished)
    requires EdgesSettled(Elements(finished), found, node, g.Successors(node))
    ensures Settled(g, found, finished + [node])
  {
    var longer := finished + [node];
    forall i, s | 0 <= i < |longer| && g.Edge(longer[i], s)
      ensures s in longer[..i] || Closes(found, longer[i], s)
    {
      assert longer[..i] == finished[..i];
    }
  }

  lemma {:induction false} SettledGrows(g: Graph, before: seq<seq<Name>>, after: seq<seq<Name>>, finished: seq<Name>)
    requires Settled(g, before, finished) && before <= after
    ensures Settled(g, after, finished)
  {
    ClosesGrows(before, after);
  }

  lemma {:induction false} EdgeSettled(
    g: Graph, found: seq<seq<Name>>, finished: seq<Name>, c: seq<Name>, a: Name, b: Name)
    requires Settled(g, found, finished) && ClosedBy(c, a, b)
    ensures Settled(g, found + [c], finished) && Closes(found + [c], a, b)
  {
    SettledGrows(g, found, found + [c], finished);
    assert (found + [c])[|found|] == c;
  }

  /** When each node was expanded, and from which other node unless the search began there. */
  datatype Tree = Tree(position: map<Name, nat>, parent: map<Name, Name>)

  /** The (i+1)-th node was expanded later, from the i-th one and along an edge. */
  ghost predicate Linked(g: Graph, tree: Tree, q: seq<Name>, i: int)
    requires 0 <= i < |q| - 1
  {
    && g.Edge(q[i], q[i + 1]) && q[i + 1] in tree.parent && tree.parent[q[i + 1]] == q[i]
    && q[i] in tree.position && q[i + 1] in tree.position && tree.position[q[i]] < tree.position[q[i + 1]]
  }

  /** The nodes were expanded one from the other. */
  ghost predicate Chain(g: Graph, tree: Tree, q: seq<Name>) {
    (forall i :: 0 <= i < |q| ==> q[i] in tree.position) && forall i :: 0 <= i < |q| - 1 ==> Linked(g, tree, q, i)
  }

  function Grown(tree: Tree, path: seq<Name>, node: Name, next: nat): Tree {
    Tree(tree.position[node := next], if path == [] then tree.parent else tree.parent[node := Last(path)])
  }

  lemma {:induction false} ChainIncreases(g: Graph, tree: Tree, q: seq<Name>, i: nat, j: nat)
    requires Chain(g, tree, q) && i < j < |q|
    ensures tree.position[q[i]] < tree.position[q[j]]
  {
    assert Linked(g, tree, q, j - 1);
    if i < j - 1 {
      ChainIncreases(g, tree, q, i, j - 1);
    }
  }

  lemma {:induction false} ChainIsPath(g: Graph, tree: Tree, q: seq<Name>)
    requires Chain(g, tree, q)
    ensures Distinct(q) && Walk(g, q)
  {
    forall i, j | 0 <= i < j < |q| ensures q[i] != q[j] {
      ChainIncreases(g, tree, q, i, j);
    }
    forall i | 0 <= i < |q| - 1 ensures g.Edge(q[i], q[i + 1]) {
      assert Linked(g, tree, q, i);
    }
  }

  lemma {:induction false} ChainGrows(g: Graph, tree: Tree, path: seq<Name>, node: Name, next: nat, q: seq<Name>)
    requires Chain(g, tree, q) && node !in tree.position
    ensures Chain(g, Grown(tree, path, node, next), q)
  {
    forall i | 0 <= i < |q| - 1 ensures Linked(g, Grown(tree, path, node, next), q, i) {
      assert Linked(g, tree, q, i);
    }
  }

  lemma {:induction false} ChainSnoc(g: Graph, tree: Tree, path: seq<Name>, node: Name, next: nat)
    requires Chain(g, tree, path) && node !in tree.position
    requires forall x :: x in tree.position ==> tree.position[x] < next
    requires path != [] ==> g.Edge(Last(path), node)
    ensures Chain(g, Grown(tree, path, node, next), path + [node])
  {
    var grown, longer := Grown(tree, path, node, next), path + [node];
    ChainGrows(g, tree, path, node, next, path);
    forall i | 0 <= i < |longer| - 1 ensures Linked(g, grown, longer, i) {
      if i < |path| - 1 {
        assert Linked(g, grown, path, i);
      }
    }
  }

  lemma {:induction false} ChainPart(g: Graph, tree: Tree, q: seq<Name>, from: nat, to: nat)
    requires Chain(g, tree, q) && from <= to <= |q|
    ensures Chain(g, tree, q[from..to])
  {
    var part := q[from..to];
    forall i | 0 <= i < |part| - 1 ensures Linked(g, tree, part, i) {
      assert Linked(g, tree, q, from + i);
    }
  }

  /** A chain is determined by its ends: parents lead back from the last node to the first one only once. */
  lemma {:induction false} ChainByEnds(g: Graph, tree: Tree, c: seq<Name>, d: seq<Name>)
    requires Chain(g, tree, c) && Chain(g, tree, d) && c != [] && d != [] && c[0] == d[0] && Last(c) == Last(d)
    ensures c == d
  {
    if |c| <= |d| {
      NotLonger(g, tree, c, d);
      ChainSuffix(g, tree, c, d);
    } else {
      NotLonger(g, tree, d, c);
    }
  }

  lemma {:induction false} NotLonger(g: Graph, tree: Tree, c: seq<Name>, d: seq<Name>)
    requires Chain(g, tree, c) && Chain(g, tree, d) && 0 < |c| <= |d| && c[0] == d[0] && Last(c) == Last(d)
    ensures |c| == |d|
  {
    ChainSuffix(g, tree, c, d);
    if |c| < |d| {
      ChainIncreases(g, tree, d, 0, |d| - |c|);
    }
  }

  lemma {:induction false} ChainSuffix(g: Graph, tree: Tree, c: seq<Name>, d: seq<Name>)
    requires Chain(g, tree, c) && Chain(g, tree, d) && 0 < |c| <= |d| && Last(c) == Last(d)
    ensures forall i :: 0 <= i < |c| ==> c[i] == d[|d| - |c| + i]
  {
    var k := |c| - 1;
    while k > 0
      invariant 0 <= k < |c|
      invariant forall i :: k <= i < |c| ==> c[i] == d[|d| - |c| + i]
    {
      assert Linked(g, tree, c, k - 1) && Linked(g, tree, d, |d| - |c| + k - 1);
      k := k - 1;
    }
  }

  /** A chain is determined by its set of nodes. */
  lemma {:induction false} ChainBySet(g: Graph, tree: Tree, a: seq<Name>, b: seq<Name>)
    requires Chain(g, tree, a) && Chain(g, tree, b) && Elements(a) == Elements(b)
    ensures a == b
  {
    if a == [] {
      NoElements(b);
    } else {
      SameFirst(g, tree, a, b);
      RestElements(g, tree, a);
      RestElements(g, tree, b);
      ChainBySet(g, tree, a[1..], b[1..]);
      assert a == [a[0]] + a[1..] && b == [b[0]] + b[1..];
    }
  }

  lemma {:induction false} SameFirst(g: Graph, tree: Tree, a: seq<Name>, b: seq<Name>)
    requires Chain(g, tree, a) && Chain(g, tree, b) && Elements(a) == Elements(b) && a != []
    ensures b != [] && a[0] == b[0]
  {
    assert a[0] in Elements(b);
    assert b[0] in Elements(a);
    var i :| 0 <= i < |b| && b[i] == a[0];
    var j :| 0 <= j < |a| && a[j] == b[0];
    if i > 0 {
      ChainIncreases(g, tree, b, 0, i);
      if j > 0 {
        ChainIncreases(g, tree, a, 0, j);
      }
    }
  }

  lemma {:induction false} RestElements(g: Graph, tree: Tree, a: seq<Name>)
    requires a != [] && Chain(g, tree, a)
    ensures Chain(g, tree, a[1..]) && Elements(a[1..]) == Elements(a) - {a[0]}
  {
    ChainPart(g, tree, a, 1, |a|);
    assert a[1..|a|] == a[1..] && a == [a[0]] + a[1..];
    forall i | 0 <= i < |a[1..]| ensures a[1..][i] != a[0] {
      ChainIncreases(g, tree, a, 0, i + 1);
    }
  }

  /** The key of each cycle. */
  function Keys(cycles: seq<seq<Name>>): (keys: seq<string>)
    ensures |keys| == |cycles|
  {
    seq(|cycles|, i requires 0 <= i < |cycles| => Key(CycleNodes(cycles[i])))
  }

  lemma {:induction false} KeysSnoc(cycles: seq<seq<Name>>, c: seq<Name>)
    ensures Keys(cycles + [c]) == Keys(cycles) + [Key(CycleNodes(c))]
    ensures Messages(cycles + [c]) == Messages(cycles) + [Message(c)]
  {
  }

  /** A simple cycle of nodes expanded one from the other. */
  ghost predicate TreeCycle(g: Graph, tree: Tree, c: seq<Name>) {
    SimpleCycle(g, c) && Chain(g, tree, CycleNodes(c))
  }

  ghost predicate Found(g: Graph, tree: Tree, found: seq<seq<Name>>) {
    forall c :: c in found ==> TreeCycle(g, tree, c)
  }

  /** The node that the last edge of a closed walk leaves. */
  function Source(c: seq<Name>): Name
    requires |c| >= 2
  {
    c[|c| - 2]
  }

  /** The first of the found cycles with each key. */
  function Firsts(found: seq<seq<Name>>): seq<seq<Name>> {
    if found == [] then []
    else
      var before := Firsts(found[..|found| - 1]);
      if Key(CycleNodes(Last(found))) in Keys(before) then before else before + [Last(found)]
  }

  lemma {:induction false} FirstsSnoc(found: seq<seq<Name>>, c: seq<Name>)
    ensures Firsts(found + [c])
         == if Key(CycleNodes(c)) in Keys(Firsts(found)) then Firsts(found) else Firsts(found) + [c]
  {
    assert (found + [c])[..|found|] == found;
  }

  /** The reported cycles are found ones, with different keys, and have the keys of all that were found. */
  ghost predicate Reports(cycles: seq<seq<Name>>, found: seq<seq<Name>>, reported: set<string>) {
    && (forall c :: c in cycles ==> c in found)
    && Distinct(Keys(cycles)) && Elements(Keys(cycles)) == reported
    && forall c :: c in found ==> Key(CycleNodes(c)) in reported
  }

  /** An edge from the end of the stack back into it closes a simple cycle. */
  lemma {:induction false} BackEdgeCloses(g: Graph, tree: Tree, path: seq<Name>, start: nat, node: Name)
    requires Chain(g, tree, path) && start < |path| && path[start] == node
    requires g.Edge(Last(path), node)
    ensures var c := path[start..] + [node];
      CycleNodes(c) == path[start..] && TreeCycle(g, tree, c) && ClosedBy(c, Last(path), node)
  {
    var q := path[start..];
    ChainPart(g, tree, path, start, |path|);
    assert path[start..|path|] == q;
    ChainIsPath(g, tree, q);
    assert (q + [node])[..|q|] == q;
    forall i | 0 <= i < |q| ensures g.Edge((q + [node])[i], (q + [node])[i + 1]) {
      if i < |q| - 1 {
        assert g.Edge(q[i], q[i + 1]);
      }
    }
  }

  lemma {:induction false} FoundSnoc(g: Graph, tree: Tree, found: seq<seq<Name>>, c: seq<Name>)
    requires Found(g, tree, found) && TreeCycle(g, tree, c)
    ensures Found(g, tree, found + [c])
  {
  }

  lemma {:induction false} FoundGrows(
    g: Graph, tree: Tree, path: seq<Name>, node: Name, next: nat, found: seq<seq<Name>>)
    requires Found(g, tree, found) && node !in tree.position
    ensures Found(g, Grown(tree, path, node, next), found)
  {
    forall c | c in found ensures TreeCycle(g, Grown(tree, path, node, next), c) {
      assert TreeCycle(g, tree, c);
      ChainGrows(g, tree, path, node, next, CycleNodes(c));
    }
  }

  /** No two cycles that were found end along one edge. */
  lemma {:induction false} SameEdgeSameCycle(g: Graph, tree: Tree, c: seq<Name>, d: seq<Name>)
    requires TreeCycle(g, tree, c) && TreeCycle(g, tree, d) && Source(c) == Source(d) && Last(c) == Last(d)
    ensures c == d
  {
    assert Last(CycleNodes(c)) == Source(c) && Last(CycleNodes(d)) == Source(d);
    ChainByEnds(g, tree, CycleNodes(c), CycleNodes(d));
    assert c == CycleNodes(c) + [Last(c)] && d == CycleNodes(d) + [Last(d)];
  }

  lemma {:induction false} ReportsAgain(
    cycles: seq<seq<Name>>, found: seq<seq<Name>>, reported: set<string>, c: seq<Name>)
    requires Reports(cycles, found, reported) && Key(CycleNodes(c)) in reported
    ensures Reports(cycles, found + [c], reported)
  {
  }

  lemma {:induction false} ReportsNew(
    cycles: seq<seq<Name>>, found: seq<seq<Name>>, reported: set<string>, c: seq<Name>)
    requires Reports(cycles, found, reported) && Key(CycleNodes(c)) !in reported
    ensures Reports(cycles + [c], found + [c], reported + {Key(CycleNodes(c))})
    ensures Messages(cycles + [c]) == Messages(cycles) + [Message(c)]
  {
    KeysSnoc(cycles, c);
    DistinctSnoc(Keys(cycles), Key(CycleNodes(c)));
  }

  // ---------- Which closed walks the report reaches ----------

  /** The walk runs along the edge that closes one of the cycles. */
  ghost predicate Touched(cycles: seq<seq<Name>>, p: seq<Name>) {
    exists k :: 0 <= k < |p| - 1 && Closes(cycles, p[k], p[k + 1])
  }

  /** A closed walk inside the finished nodes cannot follow earlier-finished edges only. */
  lemma {:induction false} ClosedWalkTurnsBack(g: Graph, finished: seq<Name>, p: seq<Name>)
    requires Distinct(finished) && ClosedWalk(g, p)
    requires forall i :: 0 <= i < |p| ==> p[i] in finished
    ensures exists k :: 0 <= k < |p| - 1 && p[k + 1] !in finished[..IndexOf(finished, p[k])]
  {
    if forall k :: 0 <= k < |p| - 1 ==> p[k + 1] in finished[..IndexOf(finished, p[k])] {
      var k := 0;
      while k < |p| - 1
        invariant 0 <= k < |p|
        invariant IndexOf(finished, p[k]) <= IndexOf(finished, p[0]) - k
      {
        assert p[k + 1] in finished[..IndexOf(finished, p[k])];
        k := k + 1;
      }
      assert false;
    }
  }

  /** Every closed walk runs along the edge that closed a cycle found by the search. */
  lemma {:induction false} WalksAreFound(g: Graph, found: seq<seq<Name>>, finished: seq<Name>, p: seq<Name>)
    requires Distinct(finished) && Elements(finished) == g.Nodes() && Settled(g, found, finished) && ClosedWalk(g, p)
    ensures Touched(found, p)
  {
    forall i | 0 <= i < |p| ensures p[i] in finished {
      if i < |p| - 1 {
        assert g.Edge(p[i], p[i + 1]);
      } else {
        assert g.Edge(p[0], p[1]);
      }
      assert p[i] in g.Nodes();
      assert p[i] in Elements(finished);
    }
    ClosedWalkTurnsBack(g, finished, p);
    var k :| 0 <= k < |p| - 1 && p[k + 1] !in finished[..IndexOf(finished, p[k])];
    var i := IndexOf(finished, p[k]);
    assert g.Edge(finished[i], p[k + 1]);
  }

  /** Some found cycle went unreported: another one with its key had been reported before. */
  ghost predicate Suppressed(cycles: seq<seq<Name>>, found: seq<seq<Name>>) {
    exists c :: c in found && c !in cycles
  }

  /** The other edges of a found cycle lead forward in the order of expansion, closing edges lead back. */
  lemma {:induction false} EdgeLeadsForward(g: Graph, tree: Tree, c: seq<Name>, k: nat)
    requires TreeCycle(g, tree, c) && k < |c| - 2
    ensures c[k] in tree.position && c[k + 1] in tree.position && tree.position[c[k]] < tree.position[c[k + 1]]
  {
    assert CycleNodes(c)[k] == c[k] && CycleNodes(c)[k + 1] == c[k + 1];
    assert Linked(g, tree, CycleNodes(c), k);
  }

  lemma {:induction false} ClosingLeadsBack(g: Graph, tree: Tree, d: seq<Name>)
    requires TreeCycle(g, tree, d)
    ensures Source(d) in tree.position && Last(d) in tree.position && tree.position[Last(d)] <= tree.position[Source(d)]
  {
    assert CycleNodes(d)[0] == Last(d) && CycleNodes(d)[|d| - 2] == Source(d);
    if |d| > 2 {
      ChainIncreases(g, tree, CycleNodes(d), 0, |d| - 2);
    }
  }

  /** So a found cycle that went unreported is met by no closing edge of a reported one. */
  lemma {:induction false} SuppressedIsUntouched(
    g: Graph, tree: Tree, cycles: seq<seq<Name>>, found: seq<seq<Name>>, c: seq<Name>)
    requires Found(g, tree, found) && (forall d :: d in cycles ==> d in found) && c in found && c !in cycles
    ensures ClosedWalk(g, c) && !Touched(cycles, c)
  {
    assert TreeCycle(g, tree, c);
    forall k | 0 <= k < |c| - 1 ensures !Closes(cycles, c[k], c[k + 1]) {
      if Closes(cycles, c[k], c[k + 1]) {
        var i :| 0 <= i < |cycles| && ClosedBy(cycles[i], c[k], c[k + 1]);
        var d := cycles[i];
        assert d in cycles && TreeCycle(g, tree, d);
        NotAlongAnother(g, tree, c, d, k);
      }
    }
  }

  lemma {:induction false} NotAlongAnother(g: Graph, tree: Tree, c: seq<Name>, d: seq<Name>, k: nat)
    requires TreeCycle(g, tree, c) && TreeCycle(g, tree, d) && k < |c| - 1 && ClosedBy(d, c[k], c[k + 1])
    ensures c == d
  {
    ClosingLeadsBack(g, tree, d);
    if k < |c| - 2 {
      EdgeLeadsForward(g, tree, c, k);
    } else {
      SameEdgeSameCycle(g, tree, c, d);
    }
  }

  /**
   The closing edges of the reported cycles meet every closed walk if and only if no found cycle went
   unreported.
   */
  lemma {:induction false} TouchedUnlessSuppressed(
    g: Graph, tree: Tree, cycles: seq<seq<Name>>, found: seq<seq<Name>>, finished: seq<Name>)
    requires Distinct(finished) && Elements(finished) == g.Nodes() && Settled(g, found, finished)
    requires Found(g, tree, found) && forall c :: c in cycles ==> c in found
    ensures AllTouched(g, cycles) <==> !Suppressed(cycles, found)
  {
    if Suppressed(cycles, found) {
      var c :| c in found && c !in cycles;
      SuppressedIsUntouched(g, tree, cycles, found, c);
    } else {
      forall p | ClosedWalk(g, p) ensures Touched(cycles, p) {
        WalksAreFound(g, found, finished, p);
        var k :| 0 <= k < |p| - 1 && Closes(found, p[k], p[k + 1]);
        var i :| 0 <= i < |found| && ClosedBy(found[i], p[k], p[k + 1]);
        assert found[i] in found && found[i] in cycles;
        var j :| 0 <= j < |cycles| && cycles[j] == found[i];
        assert Closes(cycles, p[k], p[k + 1]);
      }
    }
  }

  ghost predicate AllTouched(g: Graph, cycles: seq<seq<Name>>) {
    forall p :: ClosedWalk(g, p) ==> Touched(cycles, p)
  }

  lemma {:induction false} AllAreFound(g: Graph, found: seq<seq<Name>>, finished: seq<Name>)
    requires Distinct(finished) && Elements(finished) == g.Nodes() && Settled(g, found, finished)
    ensures AllTouched(g, found)
  {
    forall p | ClosedWalk(g, p) ensures Touched(found, p) {
      WalksAreFound(g, found, finished, p);
    }
  }

  /** A search that has finished every node is silent exactly on acyclic graphs. */
  lemma {:induction false} SilentMeansAcyclic(
    g: Graph, tree: Tree, cycles: seq<seq<Name>>, found: seq<seq<Name>>, reported: set<string>)
    requires AllTouched(g, found) && Found(g, tree, found) && Reports(cycles, found, reported)
    ensures cycles == [] <==> Acyclic(g)
  {
    if cycles == [] {
      forall p ensures !ClosedWalk(g, p) {
        if ClosedWalk(g, p) {
          NotSilent(g, cycles, found, reported, p);
        }
      }
    } else {
      assert cycles[0] in found && TreeCycle(g, tree, cycles[0]);
    }
  }

  lemma {:induction false} NotSilent(
    g: Graph, cycles: seq<seq<Name>>, found: seq<seq<Name>>, reported: set<string>, p: seq<Name>)
    requires AllTouched(g, found) && Reports(cycles, found, reported) && ClosedWalk(g, p)
    ensures cycles != []
  {
    var k :| 0 <= k < |p| - 1 && Closes(found, p[k], p[k + 1]);
    var i :| 0 <= i < |found| && ClosedBy(found[i], p[k], p[k + 1]);
    assert found[i] in found;
    assert Key(CycleNodes(found[i])) in Elements(Keys(cycles));
  }

  /** No two simple cycles of the graph with different node sets share a key. */
  ghost predicate KeysTellApart(g: Graph) {
    forall c, d :: SimpleCycle(g, c) && SimpleCycle(g, d) && Key(CycleNodes(c)) == Key(CycleNodes(d)) ==>
      Elements(CycleNodes(c)) == Elements(CycleNodes(d))
  }

  lemma {:induction false} SameKeySameCycle(g: Graph, tree: Tree, c: seq<Name>, d: seq<Name>)
    requires KeysTellApart(g) && TreeCycle(g, tree, c) && TreeCycle(g, tree, d)
    requires Key(CycleNodes(c)) == Key(CycleNodes(d))
    ensures c == d
  {
    ChainBySet(g, tree, CycleNodes(c), CycleNodes(d));
    assert c == CycleNodes(c) + [CycleNodes(c)[0]] && d == CycleNodes(d) + [CycleNodes(d)[0]];
  }

  /** Then nothing that was found goes unreported. */
  lemma {:induction false} ApartMeansAll(
    g: Graph, tree: Tree, cycles: seq<seq<Name>>, found: seq<seq<Name>>, reported: set<string>)
    requires KeysTellApart(g) && Found(g, tree, found) && Reports(cycles, found, reported)
    ensures !Suppressed(cycles, found)
  {
    forall c | c in found ensures c in cycles {
      assert Key(CycleNodes(c)) in Elements(Keys(cycles));
      var i :| 0 <= i < |cycles| && Keys(cycles)[i] == Key(CycleNodes(c));
      assert cycles[i] in cycles;
      SameKeySameCycle(g, tree, c, cycles[i]);
    }
  }

  /** Names without `|` keep the keys apart. */
  lemma {:induction false} BarFreeKeysTellApart(g: Graph)
    requires BarFree(g.Nodes())
    ensures KeysTellApart(g)
  {
    forall c, d | SimpleCycle(g, c) && SimpleCycle(g, d) && Key(CycleNodes(c)) == Key(CycleNodes(d))
      ensures Elements(CycleNodes(c)) == Elements(CycleNodes(d))
    {
      CycleInNodes(g, c);
      CycleInNodes(g, d);
      SameKeySameNodes(CycleNodes(c), CycleNodes(d));
    }
  }

  lemma {:induction false} CycleInNodes(g: Graph, c: seq<Name>)
    requires SimpleCycle(g, c)
    ensures CycleNodes(c) != [] && Elements(CycleNodes(c)) <= g.Nodes()
  {
    forall i | 0 <= i < |c| - 1 ensures c[i] in g.Nodes() {
      if i > 0 {
        assert g.Edge(c[i - 1], c[i]);
      } else {
        assert g.Edge(c[|c| - 2], c[|c| - 1]);
      }
    }
  }

  // ---------- The search ----------

  /** The stack is a path of the tree of expansions, and apart from the finished nodes. */
  ghost predicate Stacked(g: Graph, tree: Tree, visiting: set<Name>, visited: set<Name>, next: nat, path: seq<Name>) {
    && Chain(g, tree, path)
    && visiting == Elements(path) && visiting !! visited && tree.position.Keys == visiting + visited
    && forall x :: x in tree.position ==> tree.position[x] < next
  }

  ghost predicate Results(g: Graph, tree: Tree, cycles: seq<seq<Name>>, found: seq<seq<Name>>, reported: set<string>) {
    Found(g, tree, found) && Reports(cycles, found, reported)
  }

  lemma {:induction false} StackPushed(
    g: Graph, tree: Tree, visiting: set<Name>, visited: set<Name>, next: nat, path: seq<Name>, node: Name)
    requires Stacked(g, tree, visiting, visited, next, path) && node !in visiting + visited
    requires path != [] ==> g.Edge(Last(path), node)
    ensures Stacked(g, Grown(tree, path, node, next), visiting + {node}, visited, next + 1, path + [node])
  {
    ChainSnoc(g, tree, path, node, next);
    assert Elements(path + [node]) == Elements(path) + {node};
  }

  lemma {:induction false} StackPopped(
    g: Graph, tree: Tree, visiting: set<Name>, visited: set<Name>, next: nat, path: seq<Name>, node: Name)
    requires Stacked(g, tree, visiting, visited, next, path + [node])
    ensures Stacked(g, tree, visiting - {node}, visited + {node}, next, path) && node in visiting
  {
    var longer := path + [node];
    ChainPart(g, tree, longer, 0, |path|);
    ChainIsPath(g, tree, longer);
    assert longer[0..|path|] == path && node == longer[|path|];
    assert forall i :: 0 <= i < |path| ==> longer[i] == path[i] && longer[i] != longer[|path|];
    assert Elements(longer) == Elements(path) + {node};
  }

  lemma {:induction false} ResultsGrow(
    g: Graph, tree: Tree, cycles: seq<seq<Name>>, found: seq<seq<Name>>, reported: set<string>,
    path: seq<Name>, node: Name, next: nat)
    requires Results(g, tree, cycles, found, reported) && node !in tree.position
    ensures Results(g, Grown(tree, path, node, next), cycles, found, reported)
  {
    FoundGrows(g, tree, path, node, next, found);
  }

  /** A back edge whose cycle has a known key: it is found. */
  lemma {:induction false} KnownCycle(
    g: Graph, tree: Tree, cycles: seq<seq<Name>>, found: seq<seq<Name>>, reported: set<string>, c: seq<Name>)
    requires Results(g, tree, cycles, found, reported) && TreeCycle(g, tree, c) && Key(CycleNodes(c)) in reported
    ensures Results(g, tree, cycles, found + [c], reported)
  {
    FoundSnoc(g, tree, found, c);
    ReportsAgain(cycles, found, reported, c);
  }

  /** A back edge whose cycle has a new key: it is found and reported. */
  lemma {:induction false} ReportedCycle(
    g: Graph, tree: Tree, cycles: seq<seq<Name>>, found: seq<seq<Name>>, reported: set<string>, c: seq<Name>)
    requires Results(g, tree, cycles, found, reported) && TreeCycle(g, tree, c) && Key(CycleNodes(c)) !in reported
    ensures Results(g, tree, cycles + [c], found + [c], reported + {Key(CycleNodes(c))})
    ensures Messages(cycles + [c]) == Messages(cycles) + [Message(c)]
  {
    FoundSnoc(g, tree, found, c);
    ReportsNew(cycles, found, reported, c);
  }

  lemma {:induction false} StackCloses(
    g: Graph, tree: Tree, visiting: set<Name>, visited: set<Name>, next: nat, path: seq<Name>, start: nat, node: Name)
    requires Stacked(g, tree, visiting, visited, next, path) && start < |path| && path[start] == node
    requires g.Edge(Last(path), node)
    ensures var c := path[start..] + [node];
      CycleNodes(c) == path[start..] && TreeCycle(g, tree, c) && ClosedBy(c, Last(path), node)
  {
    BackEdgeCloses(g, tree, path, start, node);
  }

  // ---------- The search as a function of the graph ----------

  /** The finished nodes, the cycles of the back edges met so far, and those of them that were reported. */
  datatype Traversal = Traversal(visited: set<Name>, found: seq<seq<Name>>, cycles: seq<seq<Name>>)

  const START := Traversal({}, [], [])

  /** The cycle is reported if no cycle with its key has been. */
  function Meet(t: Traversal, c: seq<Name>): Traversal {
    t.(found := t.found + [c], cycles := if Key(CycleNodes(c)) in Keys(t.cycles) then t.cycles else t.cycles + [c])
  }

  /** The cycle that an edge from the end of the stack back to the node closes. */
  function Closed(path: seq<Name>, node: Name): seq<Name>
    requires node in path
  {
    path[IndexOf(path, node)..] + [node]
  }

  /** The node, which is one of the graph, is visited while path is the stack. */
  function Explore(g: Graph, node: Name, path: seq<Name>, t: Traversal): Traversal
    decreases g.Nodes() - Elements(path), 0
  {
    if node in path then Meet(t, Closed(path, node))
    else if node in t.visited || node !in g.Nodes() then t
    else
      assert node in g.Nodes() - Elements(path) && node in path + [node];
      var r := ExploreFirst(g, g.Successors(node), |g.Successors(node)|, path + [node], t);
      r.(visited := r.visited + {node})
  }

  /** The first k of the nodes are visited in turn while path is the stack. */
  function ExploreFirst(g: Graph, nodes: seq<Name>, k: nat, path: seq<Name>, t: Traversal): Traversal
    requires k <= |nodes|
    decreases g.Nodes() - Elements(path), k + 1
  {
    if k == 0 then t else Explore(g, nodes[k - 1], path, ExploreFirst(g, nodes, k - 1, path, t))
  }

  lemma {:induction false} ExploreGrows(g: Graph, node: Name, path: seq<Name>, t: Traversal)
    ensures t.visited <= Explore(g, node, path, t).visited
    ensures t.cycles == Firsts(t.found) ==> Explore(g, node, path, t).cycles == Firsts(Explore(g, node, path, t).found)
    decreases g.Nodes() - Elements(path), 0
  {
    if node in path {
      FirstsSnoc(t.found, Closed(path, node));
    } else if node !in t.visited && node in g.Nodes() {
      assert node in g.Nodes() - Elements(path) && node in path + [node];
      FirstGrows(g, g.Successors(node), |g.Successors(node)|, path + [node], t);
    }
  }

  lemma {:induction false} FirstGrows(g: Graph, nodes: seq<Name>, k: nat, path: seq<Name>, t: Traversal)
    requires k <= |nodes|
    ensures t.visited <= ExploreFirst(g, nodes, k, path, t).visited
    ensures var r := ExploreFirst(g, nodes, k, path, t); t.cycles == Firsts(t.found) ==> r.cycles == Firsts(r.found)
    decreases g.Nodes() - Elements(path), k + 1
  {
    if k > 0 {
      FirstGrows(g, nodes, k - 1, path, t);
      ExploreGrows(g, nodes[k - 1], path, ExploreFirst(g, nodes, k - 1, path, t));
    }
  }

  lemma {:induction false} FirstAreVisited(g: Graph, nodes: seq<Name>, k: nat, t: Traversal)
    requires k <= |nodes|
    ensures forall i :: 0 <= i < k && nodes[i] in g.Nodes() ==> nodes[i] in ExploreFirst(g, nodes, k, [], t).visited
  {
    if k > 0 {
      FirstAreVisited(g, nodes, k - 1, t);
      ExploreGrows(g, nodes[k - 1], [], ExploreFirst(g, nodes, k - 1, [], t));
    }
  }

  /** The cycles of all the back edges that the search of the graph meets, in the order it meets them. */
  function BackCycles(g: Graph): seq<seq<Name>> {
    ExploreFirst(g, g.keys, |g.keys|, [], START).found
  }

  /** No two different ones of the cycles share a key. */
  ghost predicate OwnKeys(found: seq<seq<Name>>) {
    forall c, d :: c in found && d in found && Key(CycleNodes(c)) == Key(CycleNodes(d)) ==> c == d
  }

  lemma {:induction false} OneReportPerKey(cycles: seq<seq<Name>>, c: seq<Name>, d: seq<Name>)
    requires Distinct(Keys(cycles)) && c in cycles && d in cycles && Key(CycleNodes(c)) == Key(CycleNodes(d))
    ensures c == d
  {
    var i :| 0 <= i < |cycles| && cycles[i] == c;
    var j :| 0 <= j < |cycles| && cycles[j] == d;
    assert Keys(cycles)[i] == Keys(cycles)[j];
  }

  lemma {:induction false} ReportWithKey(
    cycles: seq<seq<Name>>, found: seq<seq<Name>>, reported: set<string>, c: seq<Name>) returns (d: seq<Name>)
    requires Reports(cycles, found, reported) && c in found
    ensures d in cycles && d in found && Key(CycleNodes(c)) == Key(CycleNodes(d))
  {
    assert Key(CycleNodes(c)) in Elements(Keys(cycles));
    var i :| 0 <= i < |cycles| && Keys(cycles)[i] == Key(CycleNodes(c));
    d := cycles[i];
  }

  /** Then, and only then, all of them are reported. */
  lemma {:induction false} OwnKeysMeansAll(cycles: seq<seq<Name>>, found: seq<seq<Name>>, reported: set<string>)
    requires Reports(cycles, found, reported)
    ensures !Suppressed(cycles, found) <==> OwnKeys(found)
  {
    if OwnKeys(found) {
      forall c | c in found ensures c in cycles {
        var d := ReportWithKey(cycles, found, reported, c);
      }
    } else {
      var c, d :| c in found && d in found && Key(CycleNodes(c)) == Key(CycleNodes(d)) && c != d;
      if c in cycles && d in cycles {
        OneReportPerKey(cycles, c, d);
      }
    }
  }

  class CycleFinder {
    const graph: Graph
    var violations: seq<string>
    var visiting: set<Name>
    var visited: set<Name>
    var reported: set<string>
    /** The closed walk behind each message, and all the closed walks that back edges showed. */
    ghost var cycles: seq<seq<Name>>
    ghost var found: seq<seq<Name>>
    /** The nodes in the order their dependencies were expanded, and in the order they were finished. */
    ghost var expanded: seq<Name>
    ghost var tree: Tree
    ghost var finished: seq<Name>

    /** The state of the search while path is the stack of nodes being expanded. */
    ghost predicate Valid(path: seq<Name>)
      reads this
    {
      && Stacked(graph, tree, visiting, visited, |expanded|, path)
      && Distinct(finished) && visited == Elements(finished)
      && Distinct(expanded) && Elements(expanded) == visiting + visited <= graph.Nodes()
      && violations == Messages(cycles)
      && Results(graph, tree, cycles, found, reported) && Settled(graph, found, finished)
    }

    /** What the traversal has done so far. */
    ghost function Done(): Traversal
      reads this
    {
      Traversal(visited, found, cycles)
    }

    constructor (graph: Graph)
      ensures this.graph == graph && Valid([]) && Done() == START
    {
      this.graph := graph;
      violations, visiting, visited, reported := [], {}, {}, {};
      cycles, found, expanded, tree, finished := [], [], [], Tree(map[], map[]), [];
    }

    /** Reports the cycle that the back edge from the end of path to node closes, unless its key is known. */
    method Report(node: Name, path: seq<Name>)
      requires Valid(path) && node in path && graph.Edge(Last(path), node)
      modifies this`violations, this`reported, this`cycles, this`found
      ensures Valid(path) && Closes(found, Last(path), node)
      ensures found == old(found) + [Closed(path, node)] && Done() == Meet(old(Done()), Closed(path, node))
    {
      var start := IndexOf(path, node);
      var cycle, key := path[start..] + [node], Key(path[start..]);
      StackCloses(graph, tree, visiting, visited, |expanded|, path, start, node);
      EdgeSettled(graph, found, finished, cycle, Last(path), node);
      if key !in reported {
        AddReport(cycle, key, path);
      } else {
        KnownCycle(graph, tree, cycles, found, reported, cycle);
        found := found + [cycle];
      }
    }

    method AddReport(cycle: seq<Name>, key: string, ghost path: seq<Name>)
      requires Valid(path) && TreeCycle(graph, tree, cycle) && key == Key(CycleNodes(cycle)) && key !in reported
      requires Settled(graph, found + [cycle], finished)
      modifies this`violations, this`reported, this`cycles, this`found
      ensures Valid(path) && found == old(found) + [cycle]
      ensures cycles == old(cycles) + [cycle] && violations == old(violations) + [Message(cycle)]
    {
      ReportedCycle(graph, tree, cycles, found, reported, cycle);
      reported := reported + {key};
      violations := violations + [Message(cycle)];
      cycles := cycles + [cycle];
      found := found + [cycle];
    }

    /** The node joins the stack and its dependencies are about to be expanded. */
    method Begin(node: Name, path: seq<Name>)
      requires Valid(path) && node in graph.Nodes() && node !in visiting + visited
      requires path != [] ==> graph.Edge(Last(path), node)
      modifies this`visiting, this`expanded, this`tree
      ensures Valid(path + [node])
    {
      StackPushed(graph, tree, visiting, visited, |expanded|, path, node);
      ResultsGrow(graph, tree, cycles, found, reported, path, node, |expanded|);
      DistinctSnoc(expanded, node);
      visiting := visiting + {node};
      tree := Grown(tree, path, node, |expanded|);
      expanded := expanded + [node];
    }

    /** The node leaves the stack once each of its edges is settled. */
    method Finish(node: Name, path: seq<Name>)
      requires Valid(path + [node])
      requires EdgesSettled(visited, found, node, graph.Successors(node))
      modifies this`visiting, this`visited, this`finished
      ensures Valid(path) && visited == old(visited) + {node}
    {
      StackPopped(graph, tree, visiting, visited, |expanded|, path, node);
      DistinctSnoc(finished, node);
      SettledSnoc(graph, found, finished, node);
      visiting := visiting - {node};
      visited := visited + {node};
      finished := finished + [node];
    }

    method Visit(node: Name, path: seq<Name>)
      requires Valid(path) && node in graph.Nodes()
      requires path != [] ==> graph.Edge(Last(path), node)
      modifies this`violations, this`visiting, this`visited, this`reported, this`cycles, this`found,
               this`expanded, this`tree, this`finished
      ensures Valid(path)
      ensures Done() == Explore(graph, node, path, old(Done()))
      ensures old(visited) <= visited && old(found) <= found
      ensures node in visited || (path != [] && Closes(found, Last(path), node))
      decreases graph.Nodes() - visiting - visited
    {
      if node in visiting {
        Report(node, path);
        return;
      }
      if node in visited {
        return;
      }
      Begin(node, path);
      var longer, deps := path + [node], graph.Successors(node);
      SuccessorsAreNodes(graph, node);
      for k := 0 to |deps|
        invariant Valid(longer) && node in visiting
        invariant Done() == ExploreFirst(graph, deps, k, longer, old(Done()))
        invariant old(visited) <= visited && old(found) <= found
        invariant EdgesSettled(visited, found, node, deps[..k])
      {
        ghost var known, done := found, visited;
        graph.EdgeInNodes(node, deps[k]);
        assert node in old(graph.Nodes() - visiting - visited);
        Visit(deps[k], longer);
        OneMoreSettled(done, visited, known, found, node, deps, k);
      }
      assert deps[..|deps|] == deps;
      Finish(node, path);
    }

    /** Every node is visited from an empty stack. */
    method VisitAll(nodes: seq<Name>)
      requires Valid([]) && forall n :: n in nodes ==> n in graph.Nodes()
      modifies this`violations, this`visiting, this`visited, this`reported, this`cycles, this`found,
               this`expanded, this`tree, this`finished
      ensures Valid([]) && Done() == ExploreFirst(graph, nodes, |nodes|, [], old(Done()))
    {
      for k := 0 to |nodes|
        invariant Valid([]) && Done() == ExploreFirst(graph, nodes, k, [], old(Done()))
      {
        Visit(nodes[k], []);
      }
    }
  }

  lemma SuccessorsAreNodes(g: Graph, node: Name)
    ensures Elements(g.Successors(node)) <= g.Nodes()
  {
    forall d | d in g.Successors(node) ensures d in g.Nodes() {
      g.EdgeInNodes(node, d);
    }
  }

  /** Each of these edges out of the node leads to a visited node or closes a cycle that was found. */
  ghost predicate EdgesSettled(visited: set<Name>, found: seq<seq<Name>>, node: Name, deps: seq<Name>) {
    forall s :: s in deps ==> s in visited || Closes(found, node, s)
  }

  lemma {:induction false} OneMoreSettled(
    visited: set<Name>, visited': set<Name>, found: seq<seq<Name>>, found': seq<seq<Name>>,
    node: Name, deps: seq<Name>, k: nat)
    requires k < |deps| && EdgesSettled(visited, found, node, deps[..k])
    requires visited <= visited' && found <= found' && (deps[k] in visited' || Closes(found', node, deps[k]))
    ensures EdgesSettled(visited', found', node, deps[..k + 1])
  {
    ClosesGrows(found, found');
    assert deps[..k + 1] == deps[..k] + [deps[k]];
  }

  /** Simple cycles, each with the key of a reported one. */
  ghost predicate Covered(g: Graph, cycles: seq<seq<Name>>, found: seq<seq<Name>>) {
    forall c :: c in found ==> SimpleCycle(g, c) && Key(CycleNodes(c)) in Keys(cycles)
  }

  /** Simple cycles with pairwise different keys. */
  ghost predicate Reported(g: Graph, cycles: seq<seq<Name>>) {
    (forall c :: c in cycles ==> SimpleCycle(g, c)) && Distinct(Keys(cycles))
  }

  /**
   The back edges that the search meets, and so their cycles, depend on the graph alone; the first with each
   key is reported. Every closed walk runs along the closing edge of one of them, and of a reported one if and
   only if no two different ones share a key; so of a reported one whenever the keys of the graph's simple
   cycles tell them apart.
   */
  method CycleDescriptions(graph: Graph)
    returns (violations: seq<string>, ghost cycles: seq<seq<Name>>, ghost found: seq<seq<Name>>,
      ghost expanded: seq<Name>)
    requires graph.WellFormed()
    ensures violations == [] <==> Acyclic(graph)
    ensures violations == Messages(cycles)
    ensures found == BackCycles(graph) && cycles == Firsts(found)
    ensures Reported(graph, cycles) && (forall c :: c in cycles ==> c in found) && Covered(graph, cycles, found)
    ensures AllTouched(graph, found)
    ensures AllTouched(graph, cycles) <==> !Suppressed(cycles, found)
    ensures AllTouched(graph, cycles) <==> OwnKeys(BackCycles(graph))
    ensures KeysTellApart(graph) ==> AllTouched(graph, cycles)
    ensures Distinct(expanded) && Elements(expanded) == graph.Nodes()
  {
    var finder := new CycleFinder(graph);
    assert forall n :: n in graph.keys ==> n in Elements(graph.keys);
    finder.VisitAll(graph.keys);
    FirstAreVisited(graph, graph.keys, |graph.keys|, START);
    FirstGrows(graph, graph.keys, |graph.keys|, [], START);
    violations, cycles, found, expanded := finder.violations, finder.cycles, finder.found, finder.expanded;
    SearchIsComplete(graph, finder.tree, cycles, found, finder.reported, finder.finished);
  }

  lemma {:induction false} SearchIsComplete(
    g: Graph, tree: Tree, cycles: seq<seq<Name>>, found: seq<seq<Name>>, reported: set<string>, finished: seq<Name>)
    requires g.dependencies.Keys <= Elements(finished) <= g.Nodes() && Distinct(finished) && Settled(g, found, finished)
    requires Found(g, tree, found) && Reports(cycles, found, reported)
    ensures Elements(finished) == g.Nodes() && (cycles == [] <==> Acyclic(g)) && Reported(g, cycles)
    ensures Covered(g, cycles, found)
    ensures AllTouched(g, found) && (AllTouched(g, cycles) <==> !Suppressed(cycles, found))
    ensures !Suppressed(cycles, found) <==> OwnKeys(found)
    ensures KeysTellApart(g) ==> AllTouched(g, cycles)
  {
    VisitedIsEverything(g, tree, found, finished);
    AllAreFound(g, found, finished);
    SilentMeansAcyclic(g, tree, cycles, found, reported);
    TouchedUnlessSuppressed(g, tree, cycles, found, finished);
    ReportedApart(g, tree, cycles, found, reported);
    FoundHaveKeys(g, tree, cycles, found, reported);
    OwnKeysMeansAll(cycles, found, reported);
    if KeysTellApart(g) {
      ApartMeansAll(g, tree, cycles, found, reported);
    }
  }

  lemma {:induction false} ReportedApart(
    g: Graph, tree: Tree, cycles: seq<seq<Name>>, found: seq<seq<Name>>, reported: set<string>)
    requires Found(g, tree, found) && Reports(cycles, found, reported)
    ensures Reported(g, cycles)
  {
    forall c | c in cycles ensures SimpleCycle(g, c) {
      assert TreeCycle(g, tree, c);
    }
  }

  lemma {:induction false} FoundHaveKeys(
    g: Graph, tree: Tree, cycles: seq<seq<Name>>, found: seq<seq<Name>>, reported: set<string>)
    requires Found(g, tree, found) && Reports(cycles, found, reported)
    ensures Covered(g, cycles, found)
  {
    forall c | c in found ensures SimpleCycle(g, c) && Key(CycleNodes(c)) in Keys(cycles) {
      assert TreeCycle(g, tree, c);
      assert Key(CycleNodes(c)) in Elements(Keys(cycles));
    }
  }

  lemma {:induction false} VisitedIsEverything(g: Graph, tree: Tree, found: seq<seq<Name>>, finished: seq<Name>)
    requires g.dependencies.Keys <= Elements(finished) <= g.Nodes() && Settled(g, found, finished)
    requires Found(g, tree, found)
    ensures Elements(finished) == g.Nodes()
  {
    forall b | b in g.Nodes() ensures b in Elements(finished) {
      if b !in g.dependencies {
        var a :| a in g.dependencies && b in g.dependencies[a];
        var i := IndexOf(finished, a);
        assert g.Edge(finished[i], b);
        EndsHaveEdges(g, tree, found, a, b);
      }
    }
  }

  lemma {:induction false} EndsHaveEdges(g: Graph, tree: Tree, found: seq<seq<Name>>, a: Name, b: Name)
    requires Found(g, tree, found)
    ensures Closes(found, a, b) ==> b in g.dependencies
  {
    if Closes(found, a, b) {
      var i :| 0 <= i < |found| && ClosedBy(found[i], a, b);
      var c := found[i];
      assert c in found && TreeCycle(g, tree, c) && g.Edge(c[0], c[1]);
    }
  }

  /** Reported cycles have pairwise different node sets. */
  lemma {:induction false} DifferentNodeSets(g: Graph, cycles: seq<seq<Name>>)
    requires Reported(g, cycles)
    ensures forall i, j :: 0 <= i < j < |cycles| ==>
      Elements(CycleNodes(cycles[i])) != Elements(CycleNodes(cycles[j]))
  {
    forall i, j | 0 <= i < j < |cycles| ensures Elements(CycleNodes(cycles[i])) != Elements(CycleNodes(cycles[j])) {
      assert Keys(cycles)[i] != Keys(cycles)[j];
      if Elements(CycleNodes(cycles[i])) == Elements(CycleNodes(cycles[j])) {
        SameNodesSameKey(CycleNodes(cycles[i]), CycleNodes(cycles[j]));
      }
    }
  }

  // ---------- What colliding keys hide ----------

  function After(r: seq<Name>, i: nat): Name
    requires i < |r|
  {
    if i + 1 < |r| then r[i + 1] else r[0]
  }

  /** The nodes of r lead round in a ring, and nowhere else. */
  ghost predicate IsRing(g: Graph, r: seq<Name>) {
    r != [] && Distinct(r) && forall i :: 0 <= i < |r| ==> g.Successors(r[i]) == [After(r, i)]
  }

  ghost predicate TwoRings(g: Graph, a: seq<Name>, b: seq<Name>) {
    IsRing(g, a) && IsRing(g, b) && Elements(a) !! Elements(b) && g.dependencies.Keys == Elements(a) + Elements(b)
  }

  lemma {:induction false} RingCloses(g: Graph, r: seq<Name>)
    requires IsRing(g, r)
    ensures SimpleCycle(g, r + [r[0]]) && CycleNodes(r + [r[0]]) == r
  {
    var c := r + [r[0]];
    assert c[..|c| - 1] == r;
    forall i | 0 <= i < |c| - 1 ensures g.Edge(c[i], c[i + 1]) {
      assert g.Successors(r[i]) == [After(r, i)] && c[i + 1] == After(r, i);
    }
  }

  lemma {:induction false} EdgeOfRing(g: Graph, r: seq<Name>, x: Name, y: Name) returns (i: nat)
    requires IsRing(g, r) && x in r && g.Edge(x, y)
    ensures i < |r| && r[i] == x && y == After(r, i)
  {
    i := IndexOf(r, x);
  }

  lemma {:induction false} StaysInRing(g: Graph, r: seq<Name>, c: seq<Name>)
    requires IsRing(g, r) && Walk(g, c) && c != [] && c[0] in r
    ensures forall i :: 0 <= i < |c| ==> c[i] in r
  {
    var k := 0;
    while k < |c| - 1
      invariant 0 <= k < |c|
      invariant forall i :: 0 <= i <= k ==> c[i] in r
    {
      assert g.Edge(c[k], c[k + 1]);
      var i := EdgeOfRing(g, r, c[k], c[k + 1]);
      k := k + 1;
    }
  }

  /** A set that holds a node of the ring, and after each node the next, holds them all. */
  lemma {:induction false} AllRound(r: seq<Name>, s: set<Name>, x: Name)
    requires Distinct(r) && x in r && x in s
    requires forall i :: 0 <= i < |r| && r[i] in s ==> After(r, i) in s
    ensures Elements(r) <= s
  {
    var i := IndexOf(r, x);
    while i + 1 < |r|
      invariant 0 <= i < |r| && r[i] in s
    {
      assert After(r, i) == r[i + 1];
      i := i + 1;
    }
    assert After(r, i) == r[0];
    var k := 0;
    while k + 1 < |r|
      invariant 0 <= k < |r|
      invariant forall j :: 0 <= j <= k ==> r[j] in s
    {
      assert After(r, k) == r[k + 1];
      k := k + 1;
    }
  }

  /** A simple cycle that starts in a ring goes once round it. */
  lemma {:induction false} CycleIsRing(g: Graph, r: seq<Name>, c: seq<Name>)
    requires IsRing(g, r) && SimpleCycle(g, c) && c[0] in r
    ensures Elements(CycleNodes(c)) == Elements(r)
  {
    var s := Elements(CycleNodes(c));
    StaysInRing(g, r, c);
    forall i | 0 <= i < |r| && r[i] in s ensures After(r, i) in s {
      var m :| 0 <= m < |c| - 1 && CycleNodes(c)[m] == r[i];
      assert g.Edge(c[m], c[m + 1]) && g.Successors(r[i]) == [After(r, i)];
      assert c[m + 1] == if m + 1 < |c| - 1 then CycleNodes(c)[m + 1] else CycleNodes(c)[0];
    }
    assert CycleNodes(c)[0] == c[0];
    AllRound(r, s, c[0]);
  }

  lemma {:induction false} OnlyRings(g: Graph, a: seq<Name>, b: seq<Name>, c: seq<Name>)
    requires TwoRings(g, a, b) && SimpleCycle(g, c)
    ensures Elements(CycleNodes(c)) == Elements(a) || Elements(CycleNodes(c)) == Elements(b)
  {
    assert g.Edge(c[0], c[1]);
    if c[0] in a {
      CycleIsRing(g, a, c);
    } else {
      CycleIsRing(g, b, c);
    }
  }

  lemma {:induction false} SourceInCycle(g: Graph, cycles: seq<seq<Name>>, x: Name, y: Name)
    requires (forall c :: c in cycles ==> SimpleCycle(g, c)) && Closes(cycles, x, y)
    ensures exists c :: c in cycles && x in Elements(CycleNodes(c))
  {
    var i :| 0 <= i < |cycles| && ClosedBy(cycles[i], x, y);
    var c := cycles[i];
    assert c in cycles && CycleNodes(c)[|c| - 2] == x;
  }

  lemma {:induction false} OneKeyOneCycle(cycles: seq<seq<Name>>, key: string)
    requires Distinct(Keys(cycles)) && forall c :: c in cycles ==> Key(CycleNodes(c)) == key
    ensures |cycles| <= 1
  {
    var keys := Keys(cycles);
    assert |keys| <= 1 || keys[0] != keys[1];
    forall i | 0 <= i < |cycles| ensures keys[i] == key {
      assert cycles[i] in cycles;
    }
  }

  /** Cycles among other nodes have no edge in the ring. */
  lemma {:induction false} RingUntouched(g: Graph, r: seq<Name>, cycles: seq<seq<Name>>)
    requires IsRing(g, r) && (forall c :: c in cycles ==> SimpleCycle(g, c) && Elements(CycleNodes(c)) !! Elements(r))
    ensures ClosedWalk(g, r + [r[0]]) && !Touched(cycles, r + [r[0]])
  {
    var p := r + [r[0]];
    RingCloses(g, r);
    forall k | 0 <= k < |p| - 1 ensures !Closes(cycles, p[k], p[k + 1]) {
      assert p[k] == r[k] && r[k] in Elements(r);
      if Closes(cycles, p[k], p[k + 1]) {
        SourceInCycle(g, cycles, p[k], p[k + 1]);
      }
    }
  }

  lemma {:induction false} RingKeys(g: Graph, a: seq<Name>, b: seq<Name>, c: seq<Name>)
    requires TwoRings(g, a, b) && SimpleCycle(g, c)
    ensures Key(CycleNodes(c)) == Key(a) || Key(CycleNodes(c)) == Key(b)
  {
    OnlyRings(g, a, b, c);
    if Elements(CycleNodes(c)) == Elements(a) {
      SameNodesSameKey(CycleNodes(c), a);
    } else {
      SameNodesSameKey(CycleNodes(c), b);
    }
  }

  lemma {:induction false} OtherRingUntouched(g: Graph, a: seq<Name>, b: seq<Name>, c: seq<Name>)
    requires TwoRings(g, a, b) && SimpleCycle(g, c)
    ensures !AllTouched(g, [c])
  {
    OnlyRings(g, a, b, c);
    var r := if Elements(CycleNodes(c)) == Elements(a) then b else a;
    assert forall d :: d in [c] ==> d == c;
    RingUntouched(g, r, [c]);
  }

  /** Of two rings with one key, a list of cycles with different keys leaves one out. */
  lemma {:induction false} OneRingHidden(g: Graph, a: seq<Name>, b: seq<Name>, cycles: seq<seq<Name>>)
    requires TwoRings(g, a, b) && (forall c :: c in cycles ==> SimpleCycle(g, c))
    ensures Key(a) == Key(b) && Distinct(Keys(cycles)) ==> !AllTouched(g, cycles)
  {
    if Key(a) == Key(b) && Distinct(Keys(cycles)) {
      forall c | c in cycles ensures Key(CycleNodes(c)) == Key(a) {
        RingKeys(g, a, b, c);
      }
      OneKeyOneCycle(cycles, Key(a));
      if cycles == [] {
        RingUntouched(g, a, cycles);
      } else {
        assert cycles == [cycles[0]] && cycles[0] in cycles;
        OtherRingUntouched(g, a, b, cycles[0]);
      }
    }
  }

  function Rings(a: seq<Name>, b: seq<Name>): Graph {
    Graph(a + b, map x | x in a + b :: [if x in a then After(a, IndexOf(a, x)) else After(b, IndexOf(b, x))])
  }

  lemma {:induction false} RingsAreTwo(a: seq<Name>, b: seq<Name>)
    requires a != [] && b != [] && Distinct(a) && Distinct(b) && Elements(a) !! Elements(b)
    ensures Rings(a, b).WellFormed() && TwoRings(Rings(a, b), a, b)
  {
    var g := Rings(a, b);
    forall i | 0 <= i < |a| ensures g.Successors(a[i]) == [After(a, i)] {
      assert a[i] in a + b && IndexOf(a, a[i]) == i;
    }
    forall i | 0 <= i < |b| ensures g.Successors(b[i]) == [After(b, i)] {
      assert b[i] in a + b && b[i] in Elements(b) && IndexOf(b, b[i]) == i;
    }
  }

  /**
   Wherever two disjoint sets of names share a key, there is a graph on them for which every result of the
   search leaves some closed walk without an edge that closes a reported cycle.
   */
  lemma {:induction false} CollisionHidesCycle(a: seq<Name>, b: seq<Name>, cycles: seq<seq<Name>>)
    requires a != [] && b != [] && Distinct(a) && Distinct(b) && Elements(a) !! Elements(b) && Key(a) == Key(b)
    requires Reported(Rings(a, b), cycles)
    ensures Rings(a, b).WellFormed() && !AllTouched(Rings(a, b), cycles) && !KeysTellApart(Rings(a, b))
  {
    RingsAreTwo(a, b);
    OneRingHidden(Rings(a, b), a, b, cycles);
    TwoRingsCollide(Rings(a, b), a, b);
  }

  lemma {:induction false} TwoRingsCollide(g: Graph, a: seq<Name>, b: seq<Name>)
    requires TwoRings(g, a, b)
    ensures Key(a) == Key(b) ==> !KeysTellApart(g)
  {
    RingCloses(g, a);
    RingCloses(g, b);
    assert a[0] in Elements(a) && a[0] !in Elements(b);
  }

  /** A package `a|b` that depends on itself can hide a cycle of the packages `a` and `b`. */
  lemma {:induction false} BarHidesCycle(cycles: seq<seq<Name>>)
    requires Reported(Rings(["a|b"], ["a", "b"]), cycles)
    ensures Rings(["a|b"], ["a", "b"]).dependencies == map["a|b" := ["a|b"], "a" := ["b"], "b" := ["a"]]
    ensures !AllTouched(Rings(["a|b"], ["a", "b"]), cycles)
  {
    var a, b := ["a|b"], ["a", "b"];
    BarRings();
    KeyCollision();
    assert "a|b" !in b by { assert |b[0]| == 1 && |b[1]| == 1; }
    CollisionHidesCycle(a, b, cycles);
  }

  lemma {:induction false} BarRings()
    ensures Rings(["a|b"], ["a", "b"]).dependencies == map["a|b" := ["a|b"], "a" := ["b"], "b" := ["a"]]
  {
    var a, b := ["a|b"], ["a", "b"];
    assert |b[0]| == 1 && |b[1]| == 1 && |a[0]| == 3 && b[0] != b[1];
    IndexOfIs(b, b[0], 0);
    assert b[..1] == [b[0]];
    IndexOfIs(b, b[1], 1);
    IndexOfIs(a, a[0], 0);
  }

  /**
   A collision need not hide anything: here two disjoint cycles share a key, but the search, going from `a`
   first, meets the edge from `b` to `a` on a longer cycle, and the closing edges of these two meet every
   closed walk.
   */
  const HARMLESS := Graph(["a|b", "a", "b", "c"],
    map["a|b" := ["a|b"], "a" := ["c", "b"], "b" := ["a"], "c" := ["b"]])

  const HARMLESS_RESULT: seq<seq<Name>> := [["a|b", "a|b"], ["a", "c", "b", "a"]]

  lemma {:induction false} NamesDiffer()
    ensures "a" != "b" && "a" != "c" && "b" != "c" && "a|b" != "a" && "a|b" != "b" && "a|b" != "c"
  {
    assert |"a|b"| == 3 && |"a"| == |"b"| == |"c"| == 1;
    assert "a"[0] == 'a' && "b"[0] == 'b' && "c"[0] == 'c';
  }

  lemma {:induction false} HarmlessCycles()
    ensures SimpleCycle(HARMLESS, ["a|b", "a|b"]) && SimpleCycle(HARMLESS, ["a", "b", "a"])
    ensures SimpleCycle(HARMLESS, ["a", "c", "b", "a"])
  {
    NamesDiffer();
    var g := HARMLESS;
    assert g.Successors("a|b") == ["a|b"] && g.Successors("b") == ["a"] && g.Successors("c") == ["b"];
    assert g.Successors("a") == ["c", "b"] && ["c", "b"][0] == "c" && ["c", "b"][1] == "b";
    assert ["a|b", "a|b"][..1] == ["a|b"] && ["a", "b", "a"][..2] == ["a", "b"];
    assert ["a", "c", "b", "a"][..3] == ["a", "c", "b"];
  }

  /** The keys of the graph collide. */
  lemma {:induction false} HarmlessKeysCollide()
    ensures !KeysTellApart(HARMLESS)
  {
    HarmlessCycles();
    KeyCollision();
    assert CycleNodes(["a|b", "a|b"]) == ["a|b"] && CycleNodes(["a", "b", "a"]) == ["a", "b"];
  }

  lemma {:induction false} HarmlessKeysDiffer()
    ensures Distinct(Keys(HARMLESS_RESULT))
  {
    NamesDiffer();
    KeyCollision();
    assert SortedSet(["b"]) == Insert("b", SortedSet([])) == ["b"];
    assert ["c", "b"][1..] == ["b"] && ["a", "c", "b"][1..] == ["c", "b"];
    assert !Precedes("c", "b") && ["b"][1..] == [];
    assert SortedSet(["c", "b"]) == Insert("c", ["b"]) == ["b"] + Insert("c", []) == ["b", "c"];
    assert Precedes("a", "b") && SortedSet(["a", "c", "b"]) == Insert("a", ["b", "c"]) == ["a", "b", "c"];
    assert ["a", "b", "c"][1..] == ["b", "c"] && ["b", "c"][1..] == ["c"];
    assert |Key(["a", "c", "b"])| == 5 && |Key(["a|b"])| == 3;
    assert CycleNodes(["a|b", "a|b"]) == ["a|b"] && CycleNodes(["a", "c", "b", "a"]) == ["a", "c", "b"];
  }

  function Rank(n: Name): int {
    if n == "a" then 0 else if n == "c" then 1 else if n == "b" then 2 else 3
  }

  lemma {:induction false} HarmlessEdge(x: Name, y: Name)
    requires HARMLESS.Edge(x, y)
    ensures Closes(HARMLESS_RESULT, x, y) || Rank(x) < Rank(y)
  {
    NamesDiffer();
    assert ClosedBy(HARMLESS_RESULT[0], "a|b", "a|b") && ClosedBy(HARMLESS_RESULT[1], "b", "a");
  }

  lemma {:induction false} HarmlessWalk(p: seq<Name>)
    requires ClosedWalk(HARMLESS, p)
    ensures Touched(HARMLESS_RESULT, p)
  {
    if !Touched(HARMLESS_RESULT, p) {
      var k := 0;
      while k < |p| - 1
        invariant 0 <= k < |p|
        invariant k > 0 ==> Rank(p[0]) < Rank(p[k])
      {
        assert HARMLESS.Edge(p[k], p[k + 1]);
        HarmlessEdge(p[k], p[k + 1]);
        k := k + 1;
      }
      assert false;
    }
  }

  lemma {:induction false} HarmlessReported()
    ensures Reported(HARMLESS, HARMLESS_RESULT)
  {
    HarmlessCycles();
    HarmlessKeysDiffer();
    assert forall c :: c in HARMLESS_RESULT <==> c == ["a|b", "a|b"] || c == ["a", "c", "b", "a"];
  }

  lemma {:induction false} HarmlessAll()
    ensures AllTouched(HARMLESS, HARMLESS_RESULT)
  {
    forall p | ClosedWalk(HARMLESS, p) ensures Touched(HARMLESS_RESULT, p) {
      HarmlessWalk(p);
    }
  }

  /** A node with one dependency passes the traversal on to it. */
  lemma {:induction false} OnlyChild(g: Graph, node: Name, child: Name, path: seq<Name>, t: Traversal)
    requires node in g.Nodes() && node !in path && node !in t.visited && g.Successors(node) == [child]
    ensures var r := Explore(g, child, path + [node], t);
      Explore(g, node, path, t) == r.(visited := r.visited + {node})
  {
    assert ExploreFirst(g, [child], 0, path + [node], t) == t;
    assert ExploreFirst(g, [child], 1, path + [node], t) == Explore(g, child, path + [node], t);
  }

  lemma {:induction false} TwoChildren(g: Graph, node: Name, x: Name, y: Name, path: seq<Name>, t: Traversal)
    requires node in g.Nodes() && node !in path && node !in t.visited && g.Successors(node) == [x, y]
    ensures var r := Explore(g, y, path + [node], Explore(g, x, path + [node], t));
      Explore(g, node, path, t) == r.(visited := r.visited + {node})
  {
    var longer := path + [node];
    assert ExploreFirst(g, [x, y], 0, longer, t) == t;
    assert ExploreFirst(g, [x, y], 1, longer, t) == Explore(g, x, longer, t);
    assert ExploreFirst(g, [x, y], 2, longer, t) == Explore(g, y, longer, Explore(g, x, longer, t));
  }

  lemma {:induction false} HarmlessLoop(t: Traversal)
    requires "a|b" !in t.visited
    ensures var r := Meet(t, ["a|b", "a|b"]);
      Explore(HARMLESS, "a|b", [], t) == r.(visited := t.visited + {"a|b"})
  {
    OnlyChild(HARMLESS, "a|b", "a|b", [], t);
    assert [] + ["a|b"] == ["a|b"];
    IndexOfIs(["a|b"], "a|b", 0);
    assert Closed(["a|b"], "a|b") == ["a|b", "a|b"];
  }

  /** From `a` the traversal goes on to `c`, to `b` and back into the stack. */
  lemma {:induction false} HarmlessBack(t: Traversal)
    requires "a" !in t.visited && "b" !in t.visited && "c" !in t.visited
    ensures var r := Meet(t, ["a", "c", "b", "a"]);
      Explore(HARMLESS, "c", ["a"], t) == r.(visited := t.visited + {"b"} + {"c"})
  {
    NamesDiffer();
    OnlyChild(HARMLESS, "c", "b", ["a"], t);
    OnlyChild(HARMLESS, "b", "a", ["a", "c"], t);
    assert ["a"] + ["c"] == ["a", "c"] && ["a", "c"] + ["b"] == ["a", "c", "b"];
    IndexOfIs(["a", "c", "b"], "a", 0);
    assert Closed(["a", "c", "b"], "a") == ["a", "c", "b", "a"];
    assert Explore(HARMLESS, "a", ["a", "c", "b"], t) == Meet(t, ["a", "c", "b", "a"]);
  }

  lemma {:induction false} HarmlessRound(t: Traversal)
    requires "a" !in t.visited && "b" !in t.visited && "c" !in t.visited
    ensures var r := Meet(t, ["a", "c", "b", "a"]);
      Explore(HARMLESS, "a", [], t) == r.(visited := t.visited + {"a", "b", "c"})
  {
    NamesDiffer();
    TwoChildren(HARMLESS, "a", "c", "b", [], t);
    assert [] + ["a"] == ["a"];
    HarmlessBack(t);
    var last := Meet(t, ["a", "c", "b", "a"]).(visited := t.visited + {"b"} + {"c"});
    assert Explore(HARMLESS, "b", ["a"], last) == last;
    assert last.visited + {"a"} == t.visited + {"a", "b", "c"};
  }

  lemma {:induction false} HarmlessSteps(loop: Traversal, all: Traversal)
    requires loop == Meet(START, HARMLESS_RESULT[0]).(visited := {"a|b"})
    requires all == Meet(loop, HARMLESS_RESULT[1]).(visited := {"a|b", "a", "b", "c"})
    ensures Explore(HARMLESS, "a|b", [], START) == loop && Explore(HARMLESS, "a", [], loop) == all
  {
    NamesDiffer();
    HarmlessLoop(START);
    HarmlessRound(loop);
    assert START.visited + {"a|b"} == loop.visited && loop.visited + {"a", "b", "c"} == all.visited;
  }

  lemma {:induction false} HarmlessTwo(loop: Traversal, all: Traversal)
    requires loop == Meet(START, HARMLESS_RESULT[0]).(visited := {"a|b"})
    requires all == Meet(loop, HARMLESS_RESULT[1]).(visited := {"a|b", "a", "b", "c"})
    ensures ExploreFirst(HARMLESS, HARMLESS.keys, 2, [], START) == all
  {
    HarmlessSteps(loop, all);
    assert ExploreFirst(HARMLESS, HARMLESS.keys, 0, [], START) == START;
    assert ExploreFirst(HARMLESS, HARMLESS.keys, 1, [], START) == loop;
  }

  lemma {:induction false} VisitedAlready(g: Graph, nodes: seq<Name>, k: nat, start: Traversal, t: Traversal)
    requires k < |nodes| && ExploreFirst(g, nodes, k, [], start) == t && nodes[k] in t.visited
    ensures ExploreFirst(g, nodes, k + 1, [], start) == t
  {
  }

  /** The search of the graph meets just the two cycles, and reports them both. */
  lemma {:induction false} HarmlessSearch()
    ensures BackCycles(HARMLESS) == HARMLESS_RESULT && Firsts(HARMLESS_RESULT) == HARMLESS_RESULT
  {
    var loop := Meet(START, HARMLESS_RESULT[0]).(visited := {"a|b"});
    var all := Meet(loop, HARMLESS_RESULT[1]).(visited := {"a|b", "a", "b", "c"});
    HarmlessTwo(loop, all);
    VisitedAlready(HARMLESS, HARMLESS.keys, 2, START, all);
    VisitedAlready(HARMLESS, HARMLESS.keys, 3, START, all);
    assert all.found == [] + [HARMLESS_RESULT[0]] + [HARMLESS_RESULT[1]] == HARMLESS_RESULT;
    HarmlessFirsts();
  }

  lemma {:induction false} HarmlessFirsts()
    ensures Firsts(HARMLESS_RESULT) == HARMLESS_RESULT
  {
    var one := [["a|b", "a|b"]];
    HarmlessKeysDiffer();
    FirstsSnoc([], one[0]);
    assert [] + [one[0]] == one && Firsts([]) == [] && Keys([]) == [];
    FirstsSnoc(one, HARMLESS_RESULT[1]);
    assert one + [HARMLESS_RESULT[1]] == HARMLESS_RESULT;
    assert Keys(one)[0] == Keys(HARMLESS_RESULT)[0] != Keys(HARMLESS_RESULT)[1];
  }

  /** Two cycles on disjoint sets of nodes with one key. */
  ghost predicate DisjointCollision(g: Graph, c: seq<Name>, d: seq<Name>) {
    && SimpleCycle(g, c) && SimpleCycle(g, d)
    && Key(CycleNodes(c)) == Key(CycleNodes(d)) && Elements(CycleNodes(c)) !! Elements(CycleNodes(d))
  }

  lemma {:induction false} HarmlessCollision()
    ensures DisjointCollision(HARMLESS, ["a|b", "a|b"], ["a", "b", "a"])
  {
    NamesDiffer();
    HarmlessCycles();
    KeyCollision();
    assert CycleNodes(["a|b", "a|b"]) == ["a|b"] && CycleNodes(["a", "b", "a"]) == ["a", "b"];
    assert forall x :: x in ["a", "b"] <==> x == "a" || x == "b";
  }

  lemma {:induction false} CollisionMayBeHarmless()
    ensures DisjointCollision(HARMLESS, ["a|b", "a|b"], ["a", "b", "a"]) && !KeysTellApart(HARMLESS)
    ensures Firsts(BackCycles(HARMLESS)) == HARMLESS_RESULT
    ensures Reported(HARMLESS, HARMLESS_RESULT) && AllTouched(HARMLESS, HARMLESS_RESULT)
  {
    HarmlessCollision();
    HarmlessKeysCollide();
    HarmlessSearch();
    HarmlessReported();
    HarmlessAll();
  }

  function Message(cycle: seq<Name>): string {
    "workspace dependency cycle: " + Join(cycle, " -> ")
  }

  function Messages(cycles: seq<seq<Name>>): (r: seq<string>)
    ensures |r| == |cycles|
  {
    seq(|cycles|, i requires 0 <= i < |cycles| => Message(cycles[i]))
  }

  /** Where the k-th name begins in a text of names with this many characters between them. */
  function Offset(names: seq<Name>, k: nat, gap: nat): nat
    requires k <= |names|
  {
    if k == 0 then 0 else Offset(names, k - 1, gap) + |names[k - 1]| + gap
  }

  lemma {:induction false} OffsetRest(names: seq<Name>, k: nat, gap: nat)
    requires 1 <= k <= |names|
    ensures Offset(names, k, gap) == |names[0]| + gap + Offset(names[1..], k - 1, gap)
  {
    if k > 1 {
      OffsetRest(names, k - 1, gap);
    }
  }

  lemma Shifted(head: string, rest: string, at: nat, length: nat)
    requires at + length <= |rest|
    ensures (head + rest)[|head| + at..|head| + at + length] == rest[at..at + length]
  {
  }

  /** The k-th name is at its place in the text, with an arrow behind it unless it ends the text. */
  ghost predicate NameAt(text: string, names: seq<Name>, k: nat, at: nat)
    requires k < |names|
  {
    && at + |names[k]| <= |text| && text[at..at + |names[k]|] == names[k]
    && (if k == |names| - 1 then at + |names[k]| == |text|
        else at + |names[k]| + 4 <= |text| && text[at + |names[k]|..at + |names[k]| + 4] == " -> ")
  }

  lemma {:induction false} NameShifted(head: string, rest: string, names: seq<Name>, k: nat, at: nat)
    requires k < |names| && NameAt(rest, names, k, at)
    ensures NameAt(head + rest, names, k, |head| + at)
  {
    Shifted(head, rest, at, |names[k]|);
    if k < |names| - 1 {
      Shifted(head, rest, at + |names[k]|, 4);
    }
  }

  lemma {:induction false} NameOfRest(text: string, names: seq<Name>, k: nat, at: nat)
    requires 1 <= k < |names| && NameAt(text, names[1..], k - 1, at)
    ensures NameAt(text, names, k, at)
  {
    assert names[1..][k - 1] == names[k];
  }

  lemma {:induction false} JoinAt(names: seq<Name>, k: nat)
    requires k < |names|
    ensures NameAt(Join(names, " -> "), names, k, Offset(names, k, 4))
  {
    if |names| > 1 {
      var head, rest := names[0] + " -> ", Join(names[1..], " -> ");
      assert Join(names, " -> ") == head + rest;
      if k > 0 {
        var at := Offset(names[1..], k - 1, 4);
        JoinAt(names[1..], k - 1);
        NameShifted(head, rest, names[1..], k - 1, at);
        NameOfRest(head + rest, names, k, |head| + at);
        OffsetRest(names, k, 4);
      } else {
        FirstName(names, rest);
      }
    }
  }

  lemma {:induction false} FirstName(names: seq<Name>, rest: string)
    requires |names| > 1
    ensures NameAt(names[0] + " -> " + rest, names, 0, 0)
  {
    var text := names[0] + " -> " + rest;
    assert text[|names[0]|..|names[0]| + 4] == " -> ";
  }

  /** A message names the nodes of its cycle in their order, with an arrow after each but the last, and nothing else. */
  lemma {:induction false} MessageNames(cycle: seq<Name>, k: nat)
    requires k < |cycle|
    ensures "workspace dependency cycle: " <= Message(cycle)
    ensures NameAt(Message(cycle), cycle, k, 28 + Offset(cycle, k, 4))
  {
    JoinAt(cycle, k);
    assert |"workspace dependency cycle: "| == 28;
    NameShifted("workspace dependency cycle: ", Join(cycle, " -> "), cycle, k, Offset(cycle, k, 4));
  }
}
