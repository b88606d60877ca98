/** The descendant search and kill order of `stop` in scripts/run-issues-process.ts. */
module ProcessTree {
  import opened Sequences

  type Pid = int

  /** One line of `ps -axo pid=,ppid=`; a field that is not a number counts as 0. */
  datatype Row = Row(pid: Pid, parent: Pid)

  /** A row that can add its process: both ids are non-zero. */
  predicate Usable(row: Row) {
    row.pid != 0 && row.parent != 0
  }

  ghost predicate Closed(rows: seq<Row>, pids: set<Pid>) {
    forall r :: r in rows && r.pid != 0 && r.parent != 0 && r.parent in pids ==> r.pid in pids
  }

  /** The least set that holds the child and is closed under the rows. */
  ghost predicate Descendants(rows: seq<Row>, child: Pid, pids: set<Pid>) {
    child in pids && Closed(rows, pids) && forall s :: child in s && Closed(rows, s) ==> pids <= s
  }

  /** The listed ids of a set of processes. */
  function Listed(rows: seq<Row>): set<Pid> {
    set r | r in rows :: r.pid
  }

  // ---------- Passes over the listing ----------

  /** The set keeps its order of insertion. */
  function Extend(order: seq<Pid>, row: Row): seq<Pid> {
    if Usable(row) && row.parent in order && row.pid !in order then order + [row.pid] else order
  }

  function Grow(rows: seq<Row>, order: seq<Pid>): seq<Pid> {
    if rows == [] then order else Extend(Grow(rows[..|rows| - 1], order), Last(rows))
  }

  /** Some row names the process and a parent among those before it. */
  ghost predicate Added(rows: seq<Row>, earlier: seq<Pid>, pid: Pid) {
    exists r :: r in rows && r.pid == pid != 0 && r.parent != 0 && r.parent in earlier
  }

  /** Each process but the first was added when its parent by some row was already there. */
  ghost predicate GrownBy(rows: seq<Row>, child: Pid, order: seq<Pid>) {
    && order != [] && order[0] == child && Distinct(order)
    && forall i :: 1 <= i < |order| ==> Added(rows, order[..i], order[i])
  }

  /** Passes over the listing until one adds nothing. */
  ghost function Search(rows: seq<Row>, child: Pid, order: seq<Pid>): seq<Pid>
    requires GrownBy(rows, child, order)
    decreases |Listed(rows) + {child}| - |order|
  {
    var next := Grow(rows, order);
    if next == order then order
    else
      GrowGrownAll(rows, child, order);
      GrownSize(rows, child, next);
      Search(rows, child, next)
  }

  lemma GrownSnoc(rows: seq<Row>, child: Pid, order: seq<Pid>, r: Row)
    requires GrownBy(rows, child, order) && r in rows
    ensures GrownBy(rows, child, Extend(order, r))
  {
    var longer := Extend(order, r);
    if longer != order {
      assert Added(rows, order, r.pid);
      forall i | 1 <= i < |longer| ensures Added(rows, longer[..i], longer[i]) {
        if i < |order| {
          assert longer[..i] == order[..i];
          assert Added(rows, order[..i], order[i]);
        } else {
          assert longer[..i] == order;
        }
      }
    }
  }

  lemma {:induction false} GrowGrown(rows: seq<Row>, n: nat, child: Pid, order: seq<Pid>)
    requires GrownBy(rows, child, order) && n <= |rows|
    ensures GrownBy(rows, child, Grow(rows[..n], order)) && order <= Grow(rows[..n], order)
  {
    if n > 0 {
      assert rows[..n][..n - 1] == rows[..n - 1] && Last(rows[..n]) == rows[n - 1];
      GrowGrown(rows, n - 1, child, order);
      GrownSnoc(rows, child, Grow(rows[..n - 1], order), rows[n - 1]);
    }
  }

  lemma GrowGrownAll(rows: seq<Row>, child: Pid, order: seq<Pid>)
    requires GrownBy(rows, child, order)
    ensures GrownBy(rows, child, Grow(rows, order)) && order <= Grow(rows, order)
  {
    GrowGrown(rows, |rows|, child, order);
    assert rows[..|rows|] == rows;
  }

  lemma {:induction false} GrowPrefix(rows: seq<Row>, order: seq<Pid>, i: nat)
    requires i <= |rows|
    ensures Grow(rows[..i], order) <= Grow(rows, order)
  {
    if i < |rows| {
      var before := rows[..|rows| - 1];
      GrowPrefix(before, order, i);
      assert before[..i] == rows[..i];
    } else {
      assert rows[..i] == rows;
    }
  }

  lemma GrownSize(rows: seq<Row>, child: Pid, order: seq<Pid>)
    requires GrownBy(rows, child, order)
    ensures Elements(order) <= Listed(rows) + {child}
    ensures |order| <= |Listed(rows) + {child}|
  {
    forall p | p in order ensures p in Listed(rows) + {child} {
      var i :| 0 <= i < |order| && order[i] == p;
      if i > 0 {
        assert Added(rows, order[..i], order[i]);
      }
    }
    DistinctSize(order);
    SubsetSize(Elements(order), Listed(rows) + {child});
  }

  /** A pass that adds nothing shows that nothing is missing. */
  lemma ClosedWhenStill(rows: seq<Row>, order: seq<Pid>)
    requires Grow(rows, order) == order && forall i :: 0 <= i <= |rows| ==> order <= Grow(rows[..i], order)
    ensures Closed(rows, Elements(order))
  {
    forall r | r in rows && Usable(r) && r.parent in order ensures r.pid in order {
      var i :| 0 <= i < |rows| && rows[i] == r;
      NothingToAdd(rows, order, i);
    }
  }

  lemma NothingToAdd(rows: seq<Row>, order: seq<Pid>, i: nat)
    requires i < |rows| && Grow(rows, order) == order
    requires forall i :: 0 <= i <= |rows| ==> order <= Grow(rows[..i], order)
    ensures Extend(order, rows[i]) == order
  {
    StillBefore(rows, order, i);
    StillBefore(rows, order, i + 1);
    assert rows[..i + 1][..i] == rows[..i];
  }

  lemma StillBefore(rows: seq<Row>, order: seq<Pid>, i: nat)
    requires i <= |rows| && Grow(rows, order) == order && order <= Grow(rows[..i], order)
    ensures Grow(rows[..i], order) == order
  {
    GrowPrefix(rows, order, i);
  }

  lemma {:induction false} GrownIsLeast(rows: seq<Row>, child: Pid, order: seq<Pid>, s: set<Pid>)
    requires GrownBy(rows, child, order) && child in s && Closed(rows, s)
    ensures Elements(order) <= s
  {
    var i := 1;
    while i < |order|
      invariant 1 <= i <= |order|
      invariant forall k :: 0 <= k < i ==> order[k] in s
    {
      assert Added(rows, order[..i], order[i]);
      i := i + 1;
    }
  }

  /** What the passes end with: the descendants, each after some parent. */
  lemma {:induction false} SearchFinds(rows: seq<Row>, child: Pid, order: seq<Pid>)
    requires GrownBy(rows, child, order)
    ensures GrownBy(rows, child, Search(rows, child, order))
    ensures Descendants(rows, child, Elements(Search(rows, child, order)))
    decreases |Listed(rows) + {child}| - |order|
  {
    GrowGrownAll(rows, child, order);
    var next := Grow(rows, order);
    if next == order {
      forall i | 0 <= i <= |rows| ensures order <= Grow(rows[..i], order) {
        GrowGrown(rows, i, child, order);
      }
      ClosedWhenStill(rows, order);
      forall s | child in s && Closed(rows, s) ensures Elements(order) <= s {
        GrownIsLeast(rows, child, order, s);
      }
    } else {
      GrownSize(rows, child, next);
      SearchFinds(rows, child, next);
    }
  }

  /** One pass over the listing. */
  method Pass(rows: seq<Row>, before: seq<Pid>) returns (descendants: seq<Pid>, changed: bool)
    ensures descendants == Grow(rows, before)
    ensures changed <==> descendants != before
  {
    descendants, changed := before, false;
    for i := 0 to |rows|
      invariant descendants == Grow(rows[..i], before)
      invariant |descendants| >= |before| && (changed <==> |descendants| > |before|)
      invariant !changed ==> descendants == before
    {
      var row := rows[i];
      assert rows[..i + 1][..i] == rows[..i] && Last(rows[..i + 1]) == row;
      if Usable(row) && row.parent in descendants && row.pid !in descendants {
        descendants := descendants + [row.pid];
        changed := true;
      }
    }
    assert rows[..|rows|] == rows;
  }

  /** The loop: passes over the listing until one adds nothing. */
  method FindDescendants(child: Pid, rows: seq<Row>) returns (descendants: seq<Pid>)
    ensures GrownBy(rows, child, [child]) && descendants == Search(rows, child, [child])
    ensures GrownBy(rows, child, descendants) && Descendants(rows, child, Elements(descendants))
  {
    descendants := [child];
    var changed := true;
    while changed
      invariant GrownBy(rows, child, [child]) && GrownBy(rows, child, descendants)
      invariant Search(rows, child, descendants) == Search(rows, child, [child])
      invariant !changed ==> Grow(rows, descendants) == descendants
      decreases |Listed(rows) + {child}| - |descendants|, changed
    {
      ghost var before := descendants;
      descendants, changed := Pass(rows, descendants);
      GrowGrownAll(rows, child, before);
      GrownSize(rows, child, descendants);
    }
    SearchFinds(rows, child, [child]);
  }

  // ---------- The kill order ----------

  /** `process.kill(-pid)` and `process.kill(pid)`. */
  datatype Signal = Group(pid: Pid) | Process(pid: Pid)

  ghost predicate UniquePids(rows: seq<Row>) {
    forall i, j :: 0 <= i < j < |rows| ==> rows[i].pid != rows[j].pid
  }

  /** The k-th signal: group and process by turns, latest found first, and the child's group again at the end. */
  function SignalTo(order: seq<Pid>, child: Pid, k: nat): Signal
    requires k <= 2 * |order|
  {
    if k == 2 * |order| then Group(child)
    else if k % 2 == 0 then Group(order[|order| - 1 - k / 2]) else Process(order[|order| - 1 - k / 2])
  }

  function Signals(order: seq<Pid>, child: Pid): (signals: seq<Signal>)
    ensures InKillOrder(order, child, signals)
  {
    seq(2 * |order| + 1, k requires 0 <= k < 2 * |order| + 1 => SignalTo(order, child, k))
  }

  ghost predicate InKillOrder(order: seq<Pid>, child: Pid, signals: seq<Signal>) {
    |signals| == 2 * |order| + 1 && forall k :: 0 <= k < |signals| ==> signals[k] == SignalTo(order, child, k)
  }

  method Send(order: seq<Pid>, child: Pid) returns (signals: seq<Signal>)
    ensures signals == Signals(order, child)
  {
    signals := [];
    var n := |order|;
    while n > 0
      invariant 0 <= n <= |order| && |signals| == 2 * (|order| - n)
      invariant forall k :: 0 <= k < |signals| ==> signals[k] == SignalTo(order, child, k)
    {
      n := n - 1;
      signals := signals + [Group(order[n])];
      signals := signals + [Process(order[n])];
    }
    signals := signals + [Group(child)];
  }

  /** Each process is killed right after its group, and no other process or group is signalled. */
  ghost predicate Kills(signals: seq<Signal>, pids: set<Pid>) {
    && (forall p :: p in pids ==> KilledAt(signals, p))
    && (forall k :: 0 <= k < |signals| ==> signals[k].pid in pids)
  }

  ghost predicate KilledAt(signals: seq<Signal>, p: Pid) {
    exists k :: 0 <= k < |signals| - 1 && signals[k] == Group(p) && signals[k + 1] == Process(p)
  }

  /** Every signal to the first process or its group comes before every direct one to the second. */
  ghost predicate KilledFirst(signals: seq<Signal>, first: Pid, second: Pid) {
    forall i, j :: 0 <= i < |signals| && 0 <= j < |signals| ==>
      signals[i].pid == first && signals[j] == Process(second) ==> i < j
  }

  /** Every found process but the child is killed before the parent that the listing names for it. */
  ghost predicate ChildrenFirst(rows: seq<Row>, child: Pid, pids: set<Pid>, signals: seq<Signal>) {
    forall r :: r in rows && r.pid in pids && r.pid != child ==>
      r.parent in pids && KilledFirst(signals, r.pid, r.parent)
  }

  lemma SignalsKill(order: seq<Pid>, child: Pid, signals: seq<Signal>)
    requires child in order && InKillOrder(order, child, signals)
    ensures Kills(signals, Elements(order))
  {
    forall p | p in Elements(order) ensures KilledAt(signals, p) {
      var k := 2 * (|order| - 1 - IndexOf(order, p));
      assert signals[k] == SignalTo(order, child, k) == Group(p);
      assert signals[k + 1] == SignalTo(order, child, k + 1) == Process(p);
    }
  }

  /** Who was inserted later is killed earlier. */
  lemma LaterIsFirst(order: seq<Pid>, child: Pid, signals: seq<Signal>, x: nat, y: nat)
    requires Distinct(order) && y < x < |order| && order[0] == child && InKillOrder(order, child, signals)
    ensures KilledFirst(signals, order[x], order[y])
  {
    forall i, j | 0 <= i < |signals| && 0 <= j < |signals| && signals[i].pid == order[x]
      && signals[j] == Process(order[y])
      ensures i < j
    {
      assert i < 2 * |order| && |order| - 1 - i / 2 == x;
      assert j < 2 * |order| && |order| - 1 - j / 2 == y;
    }
  }

  /** With unique ids a process stands after its parent in the order of insertion. */
  lemma ParentComesFirst(rows: seq<Row>, child: Pid, order: seq<Pid>, r: Row, i: nat)
    requires GrownBy(rows, child, order) && UniquePids(rows) && r in rows
    requires 1 <= i < |order| && order[i] == r.pid
    ensures r.parent in order[..i]
  {
    assert Added(rows, order[..i], order[i]);
    var q :| q in rows && Usable(q) && q.pid == order[i] && q.parent in order[..i];
    var j :| 0 <= j < |rows| && rows[j] == q;
    var k :| 0 <= k < |rows| && rows[k] == r;
    assert j == k;
  }

  lemma KilledBeforeParent(rows: seq<Row>, child: Pid, order: seq<Pid>, signals: seq<Signal>)
    requires GrownBy(rows, child, order) && UniquePids(rows) && InKillOrder(order, child, signals)
    ensures ChildrenFirst(rows, child, Elements(order), signals)
  {
    forall r | r in rows && r.pid in order && r.pid != child
      ensures r.parent in order && KilledFirst(signals, r.pid, r.parent)
    {
      var i := IndexOf(order, r.pid);
      ParentComesFirst(rows, child, order, r, i);
      var j := IndexOf(order[..i], r.parent);
      assert order[j] == r.parent;
      LaterIsFirst(order, child, signals, i, j);
    }
  }

  /** `stop`: every descendant is killed, and with unique ids every process before its own parent. */
  method Stop(child: Pid, rows: seq<Row>) returns (signals: seq<Signal>, killed: set<Pid>)
    ensures GrownBy(rows, child, [child]) && signals == Signals(Search(rows, child, [child]), child)
    ensures Descendants(rows, child, killed) && Kills(signals, killed)
    ensures UniquePids(rows) ==> ChildrenFirst(rows, child, killed, signals)
  {
    var order := FindDescendants(child, rows);
    killed := Elements(order);
    signals := Send(order, child);
    SignalsKill(order, child, signals);
    if UniquePids(rows) {
      KilledBeforeParent(rows, child, order, signals);
    }
  }

  const TWICE := [Row(3, 1), Row(2, 1), Row(3, 2)]

  lemma SearchOfTwice()
    ensures GrownBy(TWICE, 1, [1]) && Search(TWICE, 1, [1]) == [1, 3, 2]
  {
    var order := [1, 3, 2];
    assert order[1] == 3 && order[2] == 2;
    assert TWICE[..2] == [Row(3, 1), Row(2, 1)] && TWICE[..2][..1] == [Row(3, 1)] && TWICE[..1][..0] == [];
    assert Grow(TWICE[..1], [1]) == [1, 3];
    assert Grow(TWICE[..2], [1]) == order;
    assert Grow(TWICE, [1]) == order;
    assert Grow(TWICE[..1], order) == order;
    assert Grow(TWICE[..2], order) == order;
    assert Grow(TWICE, order) == order;
    GrowGrownAll(TWICE, 1, [1]);
    assert Search(TWICE, 1, order) == order;
  }

  /** A process listed twice, under two parents: `stop` kills its second parent before it. */
  lemma ListedTwice()
    ensures GrownBy(TWICE, 1, [1]) && !UniquePids(TWICE) && Row(3, 2) in TWICE
    ensures var signals := Signals(Search(TWICE, 1, [1]), 1);
      KilledFirst(signals, 2, 3) && !KilledFirst(signals, 3, 2)
  {
    SearchOfTwice();
    assert TWICE[0].pid == TWICE[2].pid && TWICE[2] in TWICE;
    SecondBeforeThird(Signals([1, 3, 2], 1));
  }

  lemma SecondBeforeThird(signals: seq<Signal>)
    requires InKillOrder([1, 3, 2], 1, signals)
    ensures KilledFirst(signals, 2, 3) && !KilledFirst(signals, 3, 2)
  {
    LaterIsFirst([1, 3, 2], 1, signals, 2, 1);
    assert signals[1] == SignalTo([1, 3, 2], 1, 1) == Process(2);
    assert signals[3] == SignalTo([1, 3, 2], 1, 3) == Process(3);
  }
}
