/** Database tables in id order: picking the rows a query selects and marking the first of them. */
module Tables {
  import opened Sums

  /** The rows a condition selects, in id order. */
  function Select<T>(rows: seq<T>, which: T -> bool): (r: seq<T>)
    ensures |r| <= |rows|
    ensures forall x :: x in r ==> x in rows && which(x)
  {
    if rows == [] then []
    else if which(rows[0]) then [rows[0]] + Select(rows[1..], which)
    else Select(rows[1..], which)
  }

  /** Changes the first k selected rows. */
  function Mark<T>(rows: seq<T>, which: T -> bool, change: T -> T, k: nat): (r: seq<T>)
    ensures |r| == |rows|
  {
    if rows == [] || k == 0 then rows
    else if which(rows[0]) then [change(rows[0])] + Mark(rows[1..], which, change, k - 1)
    else [rows[0]] + Mark(rows[1..], which, change, k)
  }

  lemma {:induction false} SelectConcat<T>(a: seq<T>, b: seq<T>, which: T -> bool)
    ensures Select(a + b, which) == Select(a, which) + Select(b, which)
    decreases |a|
  {
    if a == [] {
      assert a + b == b;
    } else {
      assert (a + b)[1..] == a[1..] + b;
      SelectConcat(a[1..], b, which);
    }
  }

  /** Marked rows are no longer selected; the others still are. */
  lemma {:induction false} MarkDeselects<T>(rows: seq<T>, which: T -> bool, change: T -> T, k: nat)
    requires k <= |Select(rows, which)| && forall x :: which(x) ==> !which(change(x))
    ensures Select(Mark(rows, which, change, k), which) == Select(rows, which)[k..]
    decreases |rows|
  {
    if rows != [] && k > 0 {
      MarkDeselects(rows[1..], which, change, if which(rows[0]) then k - 1 else k);
      var marked := Mark(rows, which, change, k);
      assert marked == [marked[0]] + marked[1..];
    }
  }

  lemma {:induction false} SumFront<T>(rows: seq<T>, f: T -> int)
    requires rows != []
    ensures SumSeq(rows, f) == f(rows[0]) + SumSeq(rows[1..], f)
  {
    assert rows == [rows[0]] + rows[1..];
    SumSeqConcat([rows[0]], rows[1..], f);
    var one := [rows[0]];
    assert one[..0] == [];
    assert SumSeq(one, f) == SumSeq(one[..0], f) + f(one[0]);
  }

  /** Marking changes a sum by what it changes in the marked rows. */
  lemma {:induction false} MarkSum<T>(rows: seq<T>, which: T -> bool, change: T -> T, k: nat, f: T -> int, gain: T -> int)
    requires k <= |Select(rows, which)|
    requires forall x :: which(x) ==> f(change(x)) == f(x) + gain(x)
    ensures SumSeq(Mark(rows, which, change, k), f) == SumSeq(rows, f) + SumSeq(Select(rows, which)[..k], gain)
    decreases |rows|
  {
    if rows == [] || k == 0 {
      assert Select(rows, which)[..0] == [];
    } else {
      var marked, picked := Mark(rows, which, change, k), Select(rows, which)[..k];
      SumFront(rows, f);
      SumFront(marked, f);
      if which(rows[0]) {
        MarkSum(rows[1..], which, change, k - 1, f, gain);
        SumFront(picked, gain);
        assert picked[1..] == Select(rows[1..], which)[..k - 1];
      } else {
        MarkSum(rows[1..], which, change, k, f, gain);
      }
    }
  }

  /** Row by row: marking leaves a row as it is or changes a selected one. */
  lemma {:induction false} MarkAt<T>(rows: seq<T>, which: T -> bool, change: T -> T, k: nat, i: nat)
    requires i < |rows|
    ensures var r := Mark(rows, which, change, k)[i]; r == rows[i] || (which(rows[i]) && r == change(rows[i]))
    decreases |rows|
  {
    if k > 0 && i > 0 {
      MarkAt(rows[1..], which, change, if which(rows[0]) then k - 1 else k, i - 1);
    }
  }

  /** Marking goes in order: a selected row before a marked one is marked. */
  lemma {:induction false} MarkInOrder<T>(rows: seq<T>, which: T -> bool, change: T -> T, k: nat, i: nat, j: nat)
    requires i < j < |rows| && which(rows[i]) && which(rows[j])
    ensures var r := Mark(rows, which, change, k); r[j] != rows[j] ==> r[i] == change(rows[i])
    decreases |rows|
  {
    if k > 0 {
      if i > 0 {
        MarkInOrder(rows[1..], which, change, if which(rows[0]) then k - 1 else k, i - 1, j - 1);
      }
    }
  }

  lemma {:induction false} SumHasTerm<T>(rows: seq<T>, f: T -> int)
    requires SumSeq(rows, f) > 0
    ensures exists i :: 0 <= i < |rows| && f(rows[i]) > 0
  {
    var n := |rows| - 1;
    if f(rows[n]) <= 0 {
      SumHasTerm(rows[..n], f);
      var i :| 0 <= i < n && f(rows[..n][i]) > 0;
      assert f(rows[i]) > 0;
    }
  }

  // ------------------------------------------------------- rows by index

  /** A selected row stands in the selection after the rows selected before it. */
  lemma {:induction false} SelectAt<T>(rows: seq<T>, which: T -> bool, j: nat)
    requires j < |rows| && which(rows[j])
    ensures |Select(rows[..j], which)| < |Select(rows, which)|
    ensures Select(rows, which)[|Select(rows[..j], which)|] == rows[j]
  {
    assert rows == rows[..j] + rows[j..];
    SelectConcat(rows[..j], rows[j..], which);
    assert Select(rows[j..], which)[0] == rows[j];
  }

  lemma {:induction false} SelectNext<T>(rows: seq<T>, which: T -> bool, i: nat)
    requires i < |rows|
    ensures Select(rows[..i + 1], which) == Select(rows[..i], which) + (if which(rows[i]) then [rows[i]] else [])
  {
    assert rows[..i + 1] == rows[..i] + [rows[i]];
    SelectConcat(rows[..i], [rows[i]], which);
    assert [rows[i]][1..] == [];
  }

  lemma {:induction false} SelectGrows<T>(rows: seq<T>, which: T -> bool, i: nat, j: nat)
    requires i <= j <= |rows|
    ensures |Select(rows[..i], which)| <= |Select(rows[..j], which)|
    ensures i < j && which(rows[i]) ==> |Select(rows[..i], which)| < |Select(rows[..j], which)|
    ensures Select(rows[..i], which) <= Select(rows, which)
  {
    assert rows[..j] == rows[..i] + rows[i..j] && rows == rows[..i] + rows[i..];
    SelectConcat(rows[..i], rows[i..j], which);
    SelectConcat(rows[..i], rows[i..], which);
    if i < j && which(rows[i]) {
      assert rows[i..j][0] == rows[i];
    }
  }

  /** Exactly which rows are marked. */
  lemma {:induction false} MarkExactly<T>(rows: seq<T>, which: T -> bool, change: T -> T, k: nat, i: nat)
    requires i < |rows|
    ensures Mark(rows, which, change, k)[i] ==
            if which(rows[i]) && |Select(rows[..i], which)| < k then change(rows[i]) else rows[i]
    decreases |rows|
  {
    if k > 0 && i > 0 {
      assert rows[..i][1..] == rows[1..][..i - 1];
      MarkExactly(rows[1..], which, change, if which(rows[0]) then k - 1 else k, i - 1);
    }
  }

  /** Marking one row more. */
  lemma {:induction false} MarkNext<T>(rows: seq<T>, which: T -> bool, change: T -> T, k: nat, j: nat)
    requires j < |rows| && which(rows[j]) && |Select(rows[..j], which)| == k
    ensures Mark(rows, which, change, k)[j] == rows[j]
    ensures Mark(rows, which, change, k + 1) == Mark(rows, which, change, k)[j := change(rows[j])]
  {
    var more, put := Mark(rows, which, change, k + 1), Mark(rows, which, change, k)[j := change(rows[j])];
    forall i | 0 <= i < |more|
      ensures more[i] == put[i]
    {
      MarkExactly(rows, which, change, k, i);
      MarkExactly(rows, which, change, k + 1, i);
      if i < j {
        SelectGrows(rows, which, i, j);
      } else if j < i {
        SelectGrows(rows, which, j, i);
      }
    }
    MarkExactly(rows, which, change, k, j);
  }

  /** The query "where ... order by id limit n" by row number: the first n selected rows. */
  ghost predicate Found<T>(rows: seq<T>, which: T -> bool, n: nat, found: seq<nat>) {
    && |found| == (if |Select(rows, which)| <= n then |Select(rows, which)| else n)
    && forall k :: 0 <= k < |found| ==> found[k] < |rows| && which(rows[found[k]]) && |Select(rows[..found[k]], which)| == k
  }

  lemma {:induction false} FoundRow<T>(rows: seq<T>, which: T -> bool, n: nat, found: seq<nat>, k: nat)
    requires Found(rows, which, n, found) && k < |found|
    ensures k < |Select(rows, which)| && rows[found[k]] == Select(rows, which)[k]
  {
    SelectAt(rows, which, found[k]);
  }

  method Query<T>(rows: seq<T>, which: T -> bool, n: nat) returns (found: seq<nat>)
    ensures Found(rows, which, n, found)
  {
    found := [];
    var i := 0;
    while i < |rows| && |found| < n
      invariant i <= |rows| && |found| <= n && |found| == |Select(rows[..i], which)|
      invariant forall k :: 0 <= k < |found| ==> found[k] < i && which(rows[found[k]]) && |Select(rows[..found[k]], which)| == k
    {
      SelectNext(rows, which, i);
      if which(rows[i]) {
        found := found + [i];
      }
      i := i + 1;
    }
    assert rows[..|rows|] == rows;
    SelectGrows(rows, which, i, |rows|);
  }
}
