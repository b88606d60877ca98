/** The readiness verdict of `checkDatabase` in apps/api/src/readiness.ts. */
module Readiness {
  import opened Sequences

  datatype Migration = Migration(name: string, checksum: string)

  datatype Row = Row(migration: Migration, finished: bool, rolledBack: bool)

  function Applied(rows: seq<Row>): seq<Row> {
    if rows == [] then []
    else (if rows[0].rolledBack then [] else [rows[0]]) + Applied(rows[1..])
  }

  /** Every row that is not rolled back, as often as it is listed, and no other. */
  lemma {:induction false} AppliedExactly(rows: seq<Row>, r: Row)
    ensures multiset(Applied(rows))[r] == if r.rolledBack then 0 else multiset(rows)[r]
  {
    if rows != [] {
      AppliedExactly(rows[1..], r);
      assert rows == [rows[0]] + rows[1..];
    }
  }

  /** As many applied rows as expected migrations, and for each of these a finished row that matches. */
  predicate Ready(rows: seq<Row>, expected: seq<Migration>) {
    var applied := Applied(rows);
    && |applied| == |expected|
    && forall m :: m in expected ==> exists r :: r in applied && r.migration == m && r.finished
  }

  /** What is applied, with whether it finished, and what should be. */
  function Found(rows: seq<Row>): seq<(Migration, bool)> {
    seq(|Applied(rows)|, i requires 0 <= i < |Applied(rows)| => (Applied(rows)[i].migration, Applied(rows)[i].finished))
  }

  function Wanted(expected: seq<Migration>): seq<(Migration, bool)> {
    seq(|expected|, i requires 0 <= i < |expected| => (expected[i], true))
  }

  /** Every migration that is not rolled back is an expected one, with its checksum and finished, and conversely. */
  ghost predicate ExactlyExpected(rows: seq<Row>, expected: seq<Migration>) {
    multiset(Found(rows)) == multiset(Wanted(expected))
  }

  lemma {:induction false} ElementsSize<T>(s: seq<T>)
    ensures |Elements(s)| <= |s|
    ensures |Elements(s)| == |s| ==> Distinct(s)
  {
    if s != [] {
      ElementsSize(s[1..]);
      assert Elements(s) == {s[0]} + Elements(s[1..]);
      assert s == [s[0]] + s[1..];
      if s[0] in s[1..] {
        assert Elements(s) == Elements(s[1..]);
      }
    }
  }

  lemma {:induction false} DistinctCount<T>(s: seq<T>, x: T)
    requires Distinct(s)
    ensures multiset(s)[x] == if x in s then 1 else 0
  {
    if s != [] {
      DistinctCount(s[1..], x);
      assert s == [s[0]] + s[1..];
    }
  }

  /** Enough distinct values in a sequence leave no room for any other or for a repetition. */
  lemma Pigeonhole<T>(s: seq<T>, t: seq<T>)
    requires Distinct(t) && |s| == |t| && Elements(t) <= Elements(s)
    ensures multiset(s) == multiset(t)
  {
    ElementsSize(s);
    DistinctSize(t);
    SubsetSize(Elements(t), Elements(s));
    forall x ensures multiset(s)[x] == multiset(t)[x] {
      DistinctCount(s, x);
      DistinctCount(t, x);
      assert x in s <==> x in Elements(s);
      assert x in t <==> x in Elements(t);
    }
  }

  /**
   With distinct expected migrations, as directory names make them, the verdict is true exactly when the
   rows that are not rolled back are a permutation of the expected migrations, with their checksums and finished.
   */
  lemma ReadyIsPermutation(rows: seq<Row>, expected: seq<Migration>)
    requires Distinct(expected)
    ensures Ready(rows, expected) <==> ExactlyExpected(rows, expected)
  {
    var found, wanted := Found(rows), Wanted(expected);
    if Ready(rows, expected) {
      forall w | w in Elements(wanted) ensures w in Elements(found) {
        var i :| 0 <= i < |wanted| && wanted[i] == w;
        assert expected[i] in expected;
        var r :| r in Applied(rows) && r.migration == expected[i] && r.finished;
        var j :| 0 <= j < |Applied(rows)| && Applied(rows)[j] == r;
        assert found[j] == w;
      }
      Pigeonhole(found, wanted);
    }
    if ExactlyExpected(rows, expected) {
      PermutationIsReady(rows, expected);
    }
  }

  lemma PermutationIsReady(rows: seq<Row>, expected: seq<Migration>)
    requires ExactlyExpected(rows, expected)
    ensures Ready(rows, expected)
  {
    var found, wanted := Found(rows), Wanted(expected);
    assert |found| == |multiset(found)| == |multiset(wanted)| == |wanted|;
    forall m | m in expected ensures exists r :: r in Applied(rows) && r.migration == m && r.finished {
      var i :| 0 <= i < |expected| && expected[i] == m;
      assert wanted[i] == (m, true) && (m, true) in multiset(wanted);
      assert (m, true) in found;
      var j :| 0 <= j < |found| && found[j] == (m, true);
      assert Applied(rows)[j] in Applied(rows);
    }
  }

  // ---------- Without distinct migrations ----------

  function Longest(expected: seq<Migration>): (n: nat)
    ensures forall m :: m in expected ==> |m.name| <= n
  {
    if expected == [] then 0
    else
      var n := Longest(expected[1..]);
      if |expected[0].name| > n then |expected[0].name| else n
  }

  lemma {:induction false} AllApplied(rows: seq<Row>)
    requires forall r :: r in rows ==> !r.rolledBack
    ensures Applied(rows) == rows
  {
    if rows != [] {
      AllApplied(rows[1..]);
      assert rows == [rows[0]] + rows[1..];
    }
  }

  /** A migration expected twice lets some other migration stand in for one of the two. */
  lemma RepetitionFools(expected: seq<Migration>, i: nat, j: nat) returns (rows: seq<Row>)
    requires i < j < |expected| && expected[i] == expected[j]
    ensures Ready(rows, expected) && !ExactlyExpected(rows, expected)
  {
    var other := Migration(seq(Longest(expected) + 1, _ => 'x'), "");
    assert other !in expected;
    rows := seq(|expected|, k requires 0 <= k < |expected| => Row(if k == j then other else expected[k], true, false));
    AllApplied(rows);
    forall m | m in expected ensures exists r :: r in rows && r.migration == m && r.finished {
      var k :| 0 <= k < |expected| && expected[k] == m;
      assert rows[if k == j then i else k] in rows;
    }
    assert Found(rows)[j] == (other, true) && (other, true) in multiset(Found(rows));
    assert (other, true) !in multiset(Wanted(expected));
  }

  /** The verdict can be trusted on all rows exactly when no migration is expected twice. */
  lemma TrustedExactlyWhenDistinct(expected: seq<Migration>)
    ensures Distinct(expected) <==> forall rows :: Ready(rows, expected) <==> ExactlyExpected(rows, expected)
  {
    if Distinct(expected) {
      forall rows ensures Ready(rows, expected) <==> ExactlyExpected(rows, expected) {
        ReadyIsPermutation(rows, expected);
      }
    } else {
      var i, j :| 0 <= i < j < |expected| && expected[i] == expected[j];
      var rows := RepetitionFools(expected, i, j);
    }
  }
}
