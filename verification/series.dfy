/**
 * Column arithmetic the simulators apply to a finished table: the total of a
 * column (pandas `Series.sum`) and its running total (pandas `Series.cumsum`).
 */
module Series {

  /** Total of a column, accumulated from the first row to the last. */
  function Sum(xs: seq<real>): real
  {
    if xs == [] then 0.0 else Sum(xs[..|xs| - 1]) + xs[|xs| - 1]
  }

  /**
   * Running total of a column, built the way `cumsum` builds it: each entry is
   * the previous entry plus the current row.  Entry k is the total of rows 0..k.
   */
  function PrefixSums(xs: seq<real>): (r: seq<real>)
    ensures |r| == |xs|
    ensures forall k :: 0 <= k < |xs| ==> r[k] == Sum(xs[..k + 1])
  {
    if xs == [] then []
    else
      var init := xs[..|xs| - 1];
      var p := PrefixSums(init);
      var last := (if p == [] then 0.0 else p[|p| - 1]) + xs[|xs| - 1];
      assert forall k :: 0 <= k < |init| ==> p[k] == Sum(xs[..k + 1]) by {
        forall k | 0 <= k < |init| ensures p[k] == Sum(xs[..k + 1]) {
          assert init[..k + 1] == xs[..k + 1];
        }
      }
      assert xs[..|xs|] == xs;
      p + [last]
  }

  /** The last running total is the column total. */
  lemma PrefixSumsLast(xs: seq<real>)
    requires xs != []
    ensures PrefixSums(xs)[|xs| - 1] == Sum(xs)
  {
    assert xs[..|xs|] == xs;
  }

  /** Adding a row in front adds its value to the total. */
  lemma {:induction false} SumCons(x: real, xs: seq<real>)
    ensures Sum([x] + xs) == x + Sum(xs)
  {
    if xs != [] {
      var ys := [x] + xs;
      assert ys[..|ys| - 1] == [x] + xs[..|xs| - 1];
      SumCons(x, xs[..|xs| - 1]);
    }
  }

  /** The total of a column that is the row-wise sum of two columns. */
  lemma {:induction false} SumPointwise(xs: seq<real>, ys: seq<real>, zs: seq<real>)
    requires |xs| == |ys| == |zs|
    requires forall k :: 0 <= k < |zs| ==> zs[k] == xs[k] + ys[k]
    ensures Sum(zs) == Sum(xs) + Sum(ys)
  {
    if zs != [] {
      var n := |zs| - 1;
      SumPointwise(xs[..n], ys[..n], zs[..n]);
    }
  }

  /** A column of zeros totals zero. */
  lemma {:induction false} SumZeros(xs: seq<real>)
    requires forall k :: 0 <= k < |xs| ==> xs[k] == 0.0
    ensures Sum(xs) == 0.0
  {
    if xs != [] {
      SumZeros(xs[..|xs| - 1]);
    }
  }

  /** With no negative row, a longer prefix never has a smaller total. */
  lemma {:induction false} SumPrefixGrows(xs: seq<real>, j: nat, k: nat)
    requires forall m :: 0 <= m < |xs| ==> 0.0 <= xs[m]
    requires j <= k <= |xs|
    ensures Sum(xs[..j]) <= Sum(xs[..k])
  {
    if j < k {
      SumPrefixGrows(xs, j, k - 1);
      assert xs[..k][..k - 1] == xs[..k - 1];
    }
  }

  /** The running total of a column with no negative row never decreases. */
  lemma PrefixSumsMonotone(xs: seq<real>)
    requires forall m :: 0 <= m < |xs| ==> 0.0 <= xs[m]
    ensures forall j, k :: 0 <= j <= k < |xs| ==> PrefixSums(xs)[j] <= PrefixSums(xs)[k]
  {
    forall j, k | 0 <= j <= k < |xs|
      ensures PrefixSums(xs)[j] <= PrefixSums(xs)[k]
    {
      SumPrefixGrows(xs, j + 1, k + 1);
    }
  }
}
