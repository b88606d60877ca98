/** The width computation of `table` in apps/cli/src/components.ts. */
module ColumnWidths {
  import opened Numbers
  import opened Sequences

  type Widths = seq<int>

  const NARROWEST := 4

  /** The width of a row: two spaces between columns. */
  function Total(w: Widths): int {
    Sum(w) + 2 * |w| - 2
  }

  /** Columns are cut off at a water level; the first k of them one below it. */
  function Filled(w: Widths, level: int, k: int): Widths {
    seq(|w|, i requires 0 <= i < |w| => Min(w[i], if i < k then level else level + 1))
  }

  ghost predicate Narrowing(v: Widths, w: Widths) {
    |v| == |w| && forall i :: 0 <= i < |w| ==> v[i] <= w[i]
  }

  ghost predicate Bounded(w: Widths, m: int) {
    forall i :: 0 <= i < |w| ==> w[i] <= m
  }

  // ---------- Sums ----------

  lemma {:induction false} SumUpdate(s: Widths, k: nat, x: int)
    requires k < |s|
    ensures Sum(s[k := x]) == Sum(s) - s[k] + x
  {
    if k > 0 {
      SumUpdate(s[1..], k - 1, x);
      assert s[k := x][1..] == s[1..][k - 1 := x];
    } else {
      assert s[k := x][1..] == s[1..];
    }
  }

  lemma {:induction false} SumNarrowing(v: Widths, w: Widths)
    requires Narrowing(v, w)
    ensures Sum(v) <= Sum(w)
    ensures Sum(v) == Sum(w) ==> v == w
  {
    if v != [] {
      SumNarrowing(v[1..], w[1..]);
      assert v == [v[0]] + v[1..] && w == [w[0]] + w[1..];
    }
  }

  /** The total is the length of a row of cells that wide, with two spaces between any two. */
  lemma {:induction false} RowLength(cells: seq<string>, w: Widths)
    requires |cells| == |w| > 0 && forall i :: 0 <= i < |w| ==> |cells[i]| == w[i]
    ensures |Join(cells, "  ")| == Total(w)
  {
    if |w| > 1 {
      RowLength(cells[1..], w[1..]);
    } else {
      assert Sum(w) == w[0] + Sum(w[1..]) && Sum(w[1..]) == 0;
    }
  }

  // ---------- Water-filling ----------

  /** A total belongs to at most one filling, so the total alone determines the widths. */
  lemma FillingUnique(w: Widths, a: int, j: int, b: int, k: int)
    requires 0 <= j <= |w| && 0 <= k <= |w|
    requires Total(Filled(w, a, j)) == Total(Filled(w, b, k))
    ensures Filled(w, a, j) == Filled(w, b, k)
  {
    var v, u := Filled(w, a, j), Filled(w, b, k);
    if a < b || (a == b && j >= k) {
      SumNarrowing(v, u);
    } else {
      SumNarrowing(u, v);
    }
  }

  /** No narrowing that is at least as wide in total has a smaller maximum. */
  lemma FillingOptimal(w: Widths, level: int, k: int, v: Widths, m: int)
    requires Narrowing(v, w) && Total(v) >= Total(Filled(w, level, k))
    requires Bounded(v, m)
    ensures Bounded(Filled(w, level, k), m)
  {
    var r := Filled(w, level, k);
    if j :| 0 <= j < |r| && r[j] > m {
      assert level >= m;
      SumNarrowing(v, r);
      assert false;
    }
  }

  /** Taking one off the first widest column lowers the water by one column. */
  lemma FillingStep(w: Widths, level: int, k: int, widest: int) returns (level': int, k': int)
    requires 0 <= k <= |w| && 0 <= widest < |w| && level >= NARROWEST
    requires var r := Filled(w, level, k);
      r[widest] > NARROWEST && Bounded(r, r[widest]) && forall i :: 0 <= i < widest ==> r[i] < r[widest]
    ensures level' >= NARROWEST && 0 <= k' <= |w|
    ensures Filled(w, level', k') == Filled(w, level, k)[widest := Filled(w, level, k)[widest] - 1]
  {
    var r := Filled(w, level, k);
    level', k' := r[widest] - 1, widest + 1;
    forall i | 0 <= i < |w| ensures Filled(w, level', k')[i] == r[widest := r[widest] - 1][i] {
    }
  }

  method Widest(widths: Widths) returns (widest: nat)
    requires widths != []
    ensures widest < |widths| && Bounded(widths, widths[widest])
    ensures forall i :: 0 <= i < widest ==> widths[i] < widths[widest]
  {
    widest := 0;
    for i := 1 to |widths|
      invariant widest < i
      invariant forall j :: 0 <= j < i ==> widths[j] <= widths[widest]
      invariant forall j :: 0 <= j < widest ==> widths[j] < widths[widest]
    {
      if widths[i] > widths[widest] {
        widest := i;
      }
    }
  }

  /**
   Water-filling: the columns are cut off at some level of at least four, and if anything was cut then
   the row fits the cap exactly, or no column is wider than four.
   */
  ghost predicate Fitted(wanted: Widths, cap: int, widths: Widths) {
    && (exists level, k :: level >= NARROWEST && 0 <= k <= |wanted| && widths == Filled(wanted, level, k))
    && (Total(wanted) <= cap ==> widths == wanted)
    && (Total(wanted) > cap ==> Total(widths) == cap || (Total(widths) > cap && Bounded(widths, NARROWEST)))
  }

  /**
   What the filling means for single columns: none grows, narrow ones stay, shrunk ones end within one of
   the widest.
   */
  lemma FittedColumns(wanted: Widths, cap: int, widths: Widths)
    requires Fitted(wanted, cap, widths)
    ensures Narrowing(widths, wanted)
    ensures forall i :: 0 <= i < |widths| && wanted[i] <= NARROWEST ==> widths[i] == wanted[i]
    ensures forall i, j :: 0 <= i < |widths| && 0 <= j < |widths| && widths[i] < wanted[i] ==>
      widths[i] >= widths[j] - 1
  {
    var level, k :| level >= NARROWEST && 0 <= k <= |wanted| && widths == Filled(wanted, level, k);
  }

  /** No narrowing that is as wide in total has a smaller maximum. */
  lemma FittedOptimal(wanted: Widths, cap: int, widths: Widths, v: Widths, m: int)
    requires Fitted(wanted, cap, widths)
    requires Narrowing(v, wanted) && Total(v) >= Total(widths) && Bounded(v, m)
    ensures Bounded(widths, m)
  {
    var level, k :| level >= NARROWEST && 0 <= k <= |wanted| && widths == Filled(wanted, level, k);
    FillingOptimal(wanted, level, k, v, m);
  }

  /** The specification leaves no choice: the wanted widths and the cap determine the result. */
  lemma FittedUnique(wanted: Widths, cap: int, a: Widths, b: Widths)
    requires Fitted(wanted, cap, a) && Fitted(wanted, cap, b)
    ensures a == b
  {
    var la, ka :| la >= NARROWEST && 0 <= ka <= |wanted| && a == Filled(wanted, la, ka);
    var lb, kb :| lb >= NARROWEST && 0 <= kb <= |wanted| && b == Filled(wanted, lb, kb);
    if Total(a) < Total(b) {
      FittedNarrowest(wanted, la, ka, lb, kb);
    } else if Total(b) < Total(a) {
      FittedNarrowest(wanted, lb, kb, la, ka);
    } else {
      FillingUnique(wanted, la, ka, lb, kb);
    }
  }

  /** A filling whose columns are all at most four is the narrowest one. */
  lemma FittedNarrowest(wanted: Widths, a: int, j: int, b: int, k: int)
    requires a >= NARROWEST && b >= NARROWEST && 0 <= j <= |wanted| && 0 <= k <= |wanted|
    requires Bounded(Filled(wanted, b, k), NARROWEST)
    ensures Total(Filled(wanted, b, k)) <= Total(Filled(wanted, a, j))
  {
    assert Narrowing(Filled(wanted, b, k), Filled(wanted, a, j));
    SumNarrowing(Filled(wanted, b, k), Filled(wanted, a, j));
  }

  /**
   The loop that fits columns of the given widths into a terminal: it lowers the water until the row
   fits the cap or no column is wider than four.
   */
  method Fit(wanted: Widths, width: int) returns (widths: Widths)
    ensures Fitted(wanted, Min(width - 4, 100), widths)
  {
    var cap := Min(width - 4, 100);
    widths := wanted;
    ghost var level, k := NARROWEST, 0;
    if wanted != [] {
      var first := Widest(wanted);
      level := if wanted[first] > NARROWEST then wanted[first] else NARROWEST;
    }
    assert Filled(wanted, level, k) == wanted;
    while Total(widths) > cap
      invariant level >= NARROWEST && 0 <= k <= |wanted| && widths == Filled(wanted, level, k)
      invariant Total(wanted) > cap ==> Total(widths) >= cap
      invariant Total(wanted) <= cap ==> widths == wanted
      decreases Total(widths) - cap
    {
      if widths == [] {
        break;
      }
      var widest := Widest(widths);
      if widths[widest] <= NARROWEST {
        break;
      }
      level, k := FillingStep(wanted, level, k, widest);
      SumUpdate(widths, widest, widths[widest] - 1);
      widths := widths[widest := widths[widest] - 1];
    }
  }
}
