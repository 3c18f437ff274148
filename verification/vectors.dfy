/**
  Vectors and count matrices as the bandit environment and its selection
  rules use them: sums of real vectors, totals of count vectors, the
  marginal totals of a count matrix, and a lowest-index argmax.
 */
module Vectors {

  /** The usual optional value, used for the calls whose source raises. */
  datatype Option<+T> = None | Some(value: T)

  /** Sum of a real vector, accumulated from the front. */
  function Sum(s: seq<real>): real
  {
    if |s| == 0 then 0.0 else Sum(s[..|s| - 1]) + s[|s| - 1]
  }

  /** Sum of a count vector. */
  function Total(s: seq<nat>): nat
  {
    if |s| == 0 then 0 else Total(s[..|s| - 1]) + s[|s| - 1]
  }

  function Zeros(n: nat): (r: seq<real>)
    ensures |r| == n
    ensures forall i :: 0 <= i < n ==> r[i] == 0.0
  {
    seq(n, _ => 0.0)
  }

  function ZeroCounts(n: nat): (r: seq<nat>)
    ensures |r| == n
    ensures forall i :: 0 <= i < n ==> r[i] == 0
  {
    seq(n, _ => 0)
  }

  /** A rows-by-cols matrix of counts. */
  ghost predicate IsMatrix(m: seq<seq<nat>>, rows: nat, cols: nat)
  {
    |m| == rows && forall i :: 0 <= i < |m| ==> |m[i]| == cols
  }

  /** An n-by-n matrix of zeros. */
  function ZeroMatrix(n: nat): (m: seq<seq<nat>>)
    ensures IsMatrix(m, n, n)
    ensures forall i, j :: 0 <= i < n && 0 <= j < n ==> m[i][j] == 0
  {
    seq(n, _ => ZeroCounts(n))
  }

  /** The matrix with cell (i, j) one larger. */
  function IncCell(m: seq<seq<nat>>, i: nat, j: nat): seq<seq<nat>>
    requires i < |m| && j < |m[i]|
  {
    m[i := m[i][j := m[i][j] + 1]]
  }

  /** Row totals: entry i counts everything in row i. */
  function RowTotals(m: seq<seq<nat>>): (r: seq<nat>)
    ensures |r| == |m|
    ensures forall i :: 0 <= i < |m| ==> r[i] == Total(m[i])
  {
    seq(|m|, i requires 0 <= i < |m| => Total(m[i]))
  }

  /** Total of column j over the rows of m. */
  function ColumnTotal(m: seq<seq<nat>>, j: nat): nat
    requires forall i :: 0 <= i < |m| ==> j < |m[i]|
  {
    if |m| == 0 then 0 else ColumnTotal(m[..|m| - 1], j) + m[|m| - 1][j]
  }

  /** Column totals of a matrix whose rows all have n entries. */
  function ColumnTotals(m: seq<seq<nat>>, n: nat): (r: seq<nat>)
    requires forall i :: 0 <= i < |m| ==> |m[i]| == n
    ensures |r| == n
    ensures forall j :: 0 <= j < n ==> r[j] == ColumnTotal(m, j)
  {
    seq(n, j requires 0 <= j < n => ColumnTotal(m, j))
  }

  /** Grand total of a count matrix. */
  function MatrixTotal(m: seq<seq<nat>>): nat
  {
    Total(RowTotals(m))
  }

  /** No entry of a count vector exceeds its total. */
  lemma {:induction false} EntryAtMostTotal(s: seq<nat>, i: nat)
    requires i < |s|
    ensures s[i] <= Total(s)
  {
    if i < |s| - 1 {
      EntryAtMostTotal(s[..|s| - 1], i);
    }
  }

  /** No cell of a count matrix exceeds the total of its column. */
  lemma {:induction false} EntryAtMostColumnTotal(m: seq<seq<nat>>, i: nat, j: nat)
    requires i < |m|
    requires forall r :: 0 <= r < |m| ==> j < |m[r]|
    ensures m[i][j] <= ColumnTotal(m, j)
  {
    if i < |m| - 1 {
      EntryAtMostColumnTotal(m[..|m| - 1], i, j);
    }
  }

  /** Adding y to one entry adds y to the sum. */
  lemma {:induction false} SumAddAt(s: seq<real>, i: nat, y: real)
    requires i < |s|
    ensures Sum(s[i := s[i] + y]) == Sum(s) + y
  {
    var t := s[i := s[i] + y];
    if i == |s| - 1 {
      assert t[..|t| - 1] == s[..|s| - 1];
    } else {
      assert t[..|t| - 1] == s[..|s| - 1][i := s[i] + y];
      SumAddAt(s[..|s| - 1], i, y);
    }
  }

  /** Bumping one entry bumps the total. */
  lemma {:induction false} TotalIncAt(s: seq<nat>, i: nat)
    requires i < |s|
    ensures Total(s[i := s[i] + 1]) == Total(s) + 1
  {
    var t := s[i := s[i] + 1];
    if i == |s| - 1 {
      assert t[..|t| - 1] == s[..|s| - 1];
    } else {
      assert t[..|t| - 1] == s[..|s| - 1][i := s[i] + 1];
      TotalIncAt(s[..|s| - 1], i);
    }
  }

  /** A vector of zero counts totals zero. */
  lemma {:induction false} TotalOfZeros(n: nat)
    ensures Total(ZeroCounts(n)) == 0
  {
    if n > 0 {
      assert ZeroCounts(n)[..n - 1] == ZeroCounts(n - 1);
      TotalOfZeros(n - 1);
    }
  }

  lemma {:induction false} SumOfZeros(n: nat)
    ensures Sum(Zeros(n)) == 0.0
  {
    if n > 0 {
      assert Zeros(n)[..n - 1] == Zeros(n - 1);
      SumOfZeros(n - 1);
    }
  }

  /** The zero matrix has zero marginals and a zero grand total. */
  lemma {:induction false} ZeroMatrixTotals(n: nat)
    ensures MatrixTotal(ZeroMatrix(n)) == 0
    ensures forall i :: 0 <= i < n ==> RowTotals(ZeroMatrix(n))[i] == 0
    ensures forall j :: 0 <= j < n ==> ColumnTotals(ZeroMatrix(n), n)[j] == 0
  {
    TotalOfZeros(n);
    assert RowTotals(ZeroMatrix(n)) == ZeroCounts(n);
    forall j | 0 <= j < n
      ensures ColumnTotal(ZeroMatrix(n), j) == 0
    {
      ColumnTotalOfZeroRows(ZeroMatrix(n), j);
    }
  }

  lemma {:induction false} ColumnTotalOfZeroRows(m: seq<seq<nat>>, j: nat)
    requires forall i :: 0 <= i < |m| ==> j < |m[i]| && m[i][j] == 0
    ensures ColumnTotal(m, j) == 0
  {
    if |m| > 0 {
      ColumnTotalOfZeroRows(m[..|m| - 1], j);
    }
  }

  /** Bumping cell (i, j) bumps column j's total and no other column's. */
  lemma {:induction false} ColumnTotalIncCell(m: seq<seq<nat>>, i: nat, j: nat, c: nat)
    requires i < |m| && j < |m[i]|
    requires forall r :: 0 <= r < |m| ==> c < |m[r]|
    ensures ColumnTotal(IncCell(m, i, j), c) == ColumnTotal(m, c) + (if c == j then 1 else 0)
  {
    var m' := IncCell(m, i, j);
    if i == |m| - 1 {
      assert m'[..|m'| - 1] == m[..|m| - 1];
    } else {
      assert m'[..|m'| - 1] == IncCell(m[..|m| - 1], i, j);
      ColumnTotalIncCell(m[..|m| - 1], i, j, c);
    }
  }

  /** Bumping cell (i, j) bumps row i's total and no other row's, and bumps the grand total. */
  lemma IncCellTotals(m: seq<seq<nat>>, n: nat, i: nat, j: nat)
    requires IsMatrix(m, n, n) && i < n && j < n
    ensures IsMatrix(IncCell(m, i, j), n, n)
    ensures forall r :: 0 <= r < n ==>
      RowTotals(IncCell(m, i, j))[r] == RowTotals(m)[r] + (if r == i then 1 else 0)
    ensures forall c :: 0 <= c < n ==>
      ColumnTotals(IncCell(m, i, j), n)[c] == ColumnTotals(m, n)[c] + (if c == j then 1 else 0)
    ensures MatrixTotal(IncCell(m, i, j)) == MatrixTotal(m) + 1
  {
    var m' := IncCell(m, i, j);
    TotalIncAt(m[i], j);
    assert RowTotals(m') == RowTotals(m)[i := RowTotals(m)[i] + 1];
    TotalIncAt(RowTotals(m), i);
    forall c | 0 <= c < n
      ensures ColumnTotal(m', c) == ColumnTotal(m, c) + (if c == j then 1 else 0)
    {
      ColumnTotalIncCell(m, i, j, c);
    }
  }

  /** Entrywise sum of two count vectors of the same length. */
  function AddCounts(a: seq<nat>, b: seq<nat>): (r: seq<nat>)
    requires |a| == |b|
    ensures |r| == |a|
    ensures forall i :: 0 <= i < |a| ==> r[i] == a[i] + b[i]
  {
    seq(|a|, i requires 0 <= i < |a| => a[i] + b[i])
  }

  lemma {:induction false} TotalAddCounts(a: seq<nat>, b: seq<nat>)
    requires |a| == |b|
    ensures Total(AddCounts(a, b)) == Total(a) + Total(b)
  {
    if |a| > 0 {
      assert AddCounts(a, b)[..|a| - 1] == AddCounts(a[..|a| - 1], b[..|b| - 1]);
      TotalAddCounts(a[..|a| - 1], b[..|b| - 1]);
    }
  }

  /**
    The column totals and the row totals of any count matrix account for
    the same grand total: the two marginals of a contingency table agree.
   */
  lemma {:induction false} MarginalsAgree(m: seq<seq<nat>>, n: nat)
    requires forall i :: 0 <= i < |m| ==> |m[i]| == n
    ensures Total(ColumnTotals(m, n)) == Total(RowTotals(m))
  {
    if |m| == 0 {
      assert ColumnTotals(m, n) == ZeroCounts(n);
      TotalOfZeros(n);
    } else {
      var front := m[..|m| - 1];
      var last := m[|m| - 1];
      assert ColumnTotals(m, n) == AddCounts(ColumnTotals(front, n), last);
      TotalAddCounts(ColumnTotals(front, n), last);
      MarginalsAgree(front, n);
      assert RowTotals(m)[..|m| - 1] == RowTotals(front);
    }
  }

  /**
    Index of the first maximum of a non-empty vector, scanning from the
    front and replacing the candidate only on a strictly larger value.
   */
  function Argmax(v: seq<real>): (r: nat)
    requires |v| > 0
    ensures r < |v|
    ensures forall j :: 0 <= j < |v| ==> v[j] <= v[r]
    ensures forall j :: 0 <= j < r ==> v[j] < v[r]
  {
    if |v| == 1 then 0
    else
      var p := Argmax(v[..|v| - 1]);
      if v[|v| - 1] > v[p] then |v| - 1 else p
  }

  /** The two properties of Argmax's contract pin down its result. */
  lemma ArgmaxUnique(v: seq<real>, r: nat)
    requires r < |v|
    requires forall j :: 0 <= j < |v| ==> v[j] <= v[r]
    requires forall j :: 0 <= j < r ==> v[j] < v[r]
    ensures Argmax(v) == r
  {
  }

  /** Adding the same constant to every entry does not move the argmax. */
  lemma ArgmaxShift(v: seq<real>, w: seq<real>, c: real)
    requires |v| == |w| > 0
    requires forall i :: 0 <= i < |v| ==> w[i] == v[i] + c
    ensures Argmax(w) == Argmax(v)
  {
    ArgmaxUnique(w, Argmax(v));
  }

  /** A constant vector's argmax is its first index. */
  lemma ArgmaxOfConstant(v: seq<real>)
    requires |v| > 0
    requires forall i :: 0 <= i < |v| ==> v[i] == v[0]
    ensures Argmax(v) == 0
  {
    ArgmaxUnique(v, 0);
  }
}
