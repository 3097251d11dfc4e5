/**
  Pivoted LU decomposition and the linear solver built on it, with matrix elements idealised as
  real numbers. The matrices are worked on in place; each method is tied to a function on matrix
  values, and the algebra is done on those values.
 */
module MatrixLU {

  type Matrix = seq<seq<real>>
  type Vector = seq<real>

  predicate IsMatrix(m: Matrix, rows: nat, columns: nat) {
    |m| == rows && forall r :: 0 <= r < rows ==> |m[r]| == columns
  }

  predicate IsSquare(m: Matrix, n: nat) {
    IsMatrix(m, n, n)
  }

  // ---------------------------------------------------------------------------------------
  // Sums of products

  /** u[0]*v[0] + ... + u[n-1]*v[n-1] */
  function Dot(u: Vector, v: Vector, n: nat): real
    requires n <= |u| && n <= |v|
  {
    if n == 0 then 0.0 else Dot(u, v, n - 1) + u[n - 1] * v[n - 1]
  }

  lemma DotNext(u: Vector, v: Vector, n: nat)
    requires n < |u| && n < |v|
    ensures Dot(u, v, n + 1) == Dot(u, v, n) + u[n] * v[n]
  {
  }

  lemma {:induction false} DotSame(u: Vector, v: Vector, u': Vector, v': Vector, n: nat)
    requires n <= |u| && n <= |v| && n <= |u'| && n <= |v'|
    requires forall k :: 0 <= k < n ==> u[k] == u'[k] && v[k] == v'[k]
    ensures Dot(u, v, n) == Dot(u', v', n)
  {
    if n > 0 { DotSame(u, v, u', v', n - 1); }
  }

  /** Terms that vanish can be dropped from the end of a sum. */
  lemma {:induction false} DotTruncate(u: Vector, v: Vector, m: nat, n: nat)
    requires m <= n <= |u| && n <= |v|
    requires forall k :: m <= k < n ==> u[k] == 0.0 || v[k] == 0.0
    ensures Dot(u, v, n) == Dot(u, v, m)
    decreases n
  {
    if m < n { DotTruncate(u, v, m, n - 1); }
  }

  /** The sum is linear in its second argument. */
  lemma {:induction false} DotLinear(u: Vector, v: Vector, w: Vector, z: Vector, t: real, n: nat)
    requires n <= |u| && n <= |v| && n <= |w| && n <= |z|
    requires forall k :: 0 <= k < n ==> z[k] == v[k] + w[k] * t
    ensures Dot(u, z, n) == Dot(u, v, n) + Dot(u, w, n) * t
  {
    if n > 0 {
      DotLinear(u, v, w, z, t, n - 1);
      var a, b, c, d := u[n - 1], v[n - 1], w[n - 1], Dot(u, w, n - 1);
      Distribute(a, b, c, t);
      Distribute2(d, a * c, t);
    }
  }

  lemma Distribute(a: real, b: real, c: real, t: real)
    ensures a * (b + c * t) == a * b + (a * c) * t
  {
  }

  lemma Distribute2(d: real, e: real, t: real)
    ensures (d + e) * t == d * t + e * t
  {
  }

  /** A row of a permutation matrix selects one element. */
  lemma {:induction false} DotUnit(u: Vector, v: Vector, p: nat, n: nat)
    requires n <= |u| && n <= |v|
    requires forall k :: 0 <= k < n ==> u[k] == (if k == p then 1.0 else 0.0)
    ensures Dot(u, v, n) == if p < n then v[p] else 0.0
  {
    if n > 0 { DotUnit(u, v, p, n - 1); }
  }

  // ---------------------------------------------------------------------------------------
  // Matrix products

  function Column(m: Matrix, c: nat): Vector
    requires forall r :: 0 <= r < |m| ==> c < |m[r]|
  {
    seq(|m|, r requires 0 <= r < |m| => m[r][c])
  }

  function Product(a: Matrix, b: Matrix, columns: nat): Matrix
    requires IsMatrix(b, |b|, columns) && IsMatrix(a, |a|, |b|)
  {
    seq(|a|, r requires 0 <= r < |a| =>
        seq(columns, c requires 0 <= c < columns => Dot(a[r], Column(b, c), |b|)))
  }

  function Apply(a: Matrix, x: Vector): Vector
    requires IsMatrix(a, |a|, |x|)
  {
    seq(|a|, r requires 0 <= r < |a| => Dot(a[r], x, |x|))
  }

  /** (A*B)*x == A*(B*x): the double sum can be taken in either order. */
  lemma ProductApplies(a: Matrix, b: Matrix, x: Vector)
    requires IsMatrix(b, |b|, |x|) && IsMatrix(a, |a|, |b|)
    ensures Apply(Product(a, b, |x|), x) == Apply(a, Apply(b, x))
  {
    var ab := Product(a, b, |x|);
    forall r | 0 <= r < |a| ensures Dot(ab[r], x, |x|) == Dot(a[r], Apply(b, x), |b|) {
      ExchangeSums(a[r], b, x, |x|);
      DotSame(a[r], PartialApply(b, x, |x|), a[r], Apply(b, x), |b|);
      DotSame(ab[r], x, RowTimes(a[r], b, |x|), x, |x|);
    }
  }

  function PartialApply(b: Matrix, x: Vector, m: nat): Vector
    requires IsMatrix(b, |b|, |x|) && m <= |x|
  {
    seq(|b|, k requires 0 <= k < |b| => Dot(b[k], x, m))
  }

  function RowTimes(row: Vector, b: Matrix, columns: nat): Vector
    requires IsMatrix(b, |b|, columns) && |row| == |b|
  {
    seq(columns, c requires 0 <= c < columns => Dot(row, Column(b, c), |b|))
  }

  lemma {:induction false} ExchangeSums(row: Vector, b: Matrix, x: Vector, m: nat)
    requires IsMatrix(b, |b|, |x|) && |row| == |b| && m <= |x|
    ensures Dot(RowTimes(row, b, |x|), x, m) == Dot(row, PartialApply(b, x, m), |b|)
  {
    if m == 0 {
      DotZero(row, PartialApply(b, x, 0), |b|);
    } else {
      hide Dot;
      ExchangeSums(row, b, x, m - 1);
      DotNext(RowTimes(row, b, |x|), x, m - 1);
      forall k | 0 <= k < |b|
        ensures PartialApply(b, x, m)[k] == PartialApply(b, x, m - 1)[k] + Column(b, m - 1)[k] * x[m - 1]
      {
        DotNext(b[k], x, m - 1);
      }
      DotLinear(row, PartialApply(b, x, m - 1), Column(b, m - 1), PartialApply(b, x, m), x[m - 1], |b|);
    }
  }

  lemma {:induction false} DotZero(u: Vector, v: Vector, n: nat)
    requires n <= |u| && n <= |v|
    requires forall k :: 0 <= k < n ==> v[k] == 0.0
    ensures Dot(u, v, n) == 0.0
  {
    if n > 0 { DotZero(u, v, n - 1); }
  }

  // ---------------------------------------------------------------------------------------
  // The factors packed in one matrix, and one elimination step on values

  /** Row r of the unit lower factor: the packed elements left of the diagonal. */
  function LowerRow(w: Matrix, r: nat): Vector
    requires IsSquare(w, |w|) && r < |w|
  {
    seq(|w|, k requires 0 <= k < |w| => if k < r then w[r][k] else if k == r then 1.0 else 0.0)
  }

  /** Column c of the upper factor: the packed elements on and above the diagonal. */
  function UpperColumn(w: Matrix, c: nat): Vector
    requires IsSquare(w, |w|) && c < |w|
  {
    seq(|w|, k requires 0 <= k < |w| => if k <= c then w[k][c] else 0.0)
  }

  /** After i steps, element (r, c) is the product of the finished factors plus what is left to factor. */
  ghost predicate FactoredAt(a: Matrix, w: Matrix, i: nat, r: nat, c: nat)
    requires IsSquare(a, |w|) && IsSquare(w, |w|) && i <= |w| && r < |w| && c < |w|
  {
    a[r][c] == Dot(LowerRow(w, r), UpperColumn(w, c), i) + if r >= i && c >= i then w[r][c] else 0.0
  }

  ghost predicate Factored(a: Matrix, w: Matrix, i: nat)
    requires IsSquare(a, |w|) && IsSquare(w, |w|) && i <= |w|
  {
    forall r, c :: 0 <= r < |w| && 0 <= c < |w| ==> FactoredAt(a, w, i, r, c)
  }

  function SwapRows(m: Matrix, x: nat, y: nat): Matrix
    requires x < |m| && y < |m|
  {
    m[x := m[y]][y := m[x]]
  }

  lemma SwapKeepsFactored(a: Matrix, w: Matrix, i: nat, p: nat)
    requires IsSquare(a, |w|) && IsSquare(w, |w|) && i <= p < |w|
    requires Factored(a, w, i)
    ensures IsSquare(SwapRows(a, i, p), |w|) && IsSquare(SwapRows(w, i, p), |w|)
    ensures Factored(SwapRows(a, i, p), SwapRows(w, i, p), i)
  {
    var a', w' := SwapRows(a, i, p), SwapRows(w, i, p);
    forall r, c | 0 <= r < |w| && 0 <= c < |w| ensures FactoredAt(a', w', i, r, c) {
      var q := if r == i then p else if r == p then i else r;
      assert FactoredAt(a, w, i, q, c);
      DotSame(LowerRow(w', r), UpperColumn(w', c), LowerRow(w, q), UpperColumn(w, c), i);
    }
  }

  /** The multiplier of row j. The guard mirrors the test for an exactly zero pivot. */
  function Multiplier(w: Matrix, i: nat, j: nat): real
    requires IsSquare(w, |w|) && i < |w| && j < |w|
  {
    if w[i][i] != 0.0 then w[j][i] / w[i][i] else 0.0
  }

  function EliminatedRow(w: Matrix, i: nat, j: nat): Vector
    requires IsSquare(w, |w|) && i < |w| && j < |w|
  {
    seq(|w|, k requires 0 <= k < |w| =>
        if k < i then w[j][k] else if k == i then Multiplier(w, i, j) else w[j][k] - Multiplier(w, i, j) * w[i][k])
  }

  /** Elimination of column i from the rows below it, up to row `bound`. */
  function Eliminated(w: Matrix, i: nat, bound: nat): Matrix
    requires IsSquare(w, |w|) && i < |w|
  {
    seq(|w|, j requires 0 <= j < |w| => if i < j < bound then EliminatedRow(w, i, j) else w[j])
  }

  /** A zero pivot is harmless here, because then the whole column below it is zero. */
  lemma EliminationKeepsFactored(a: Matrix, w: Matrix, i: nat)
    requires IsSquare(a, |w|) && IsSquare(w, |w|) && i < |w|
    requires Factored(a, w, i)
    requires w[i][i] == 0.0 ==> forall j :: i < j < |w| ==> w[j][i] == 0.0
    ensures IsSquare(Eliminated(w, i, |w|), |w|)
    ensures Factored(a, Eliminated(w, i, |w|), i + 1)
  {
    hide FactoredAt;
    var w', next := Eliminated(w, i, |w|), i + 1;
    forall r, c | 0 <= r < |w| && 0 <= c < |w| ensures FactoredAt(a, w', next, r, c) {
      assert FactoredAt(a, w, i, r, c);
      EliminationKeepsFactoredAt(a, w, i, r, c);
    }
  }

  lemma EliminationKeepsFactoredAt(a: Matrix, w: Matrix, i: nat, r: nat, c: nat)
    requires IsSquare(a, |w|) && IsSquare(w, |w|) && i < |w| && r < |w| && c < |w|
    requires FactoredAt(a, w, i, r, c)
    requires w[i][i] == 0.0 ==> forall j :: i < j < |w| ==> w[j][i] == 0.0
    ensures IsSquare(Eliminated(w, i, |w|), |w|)
    ensures FactoredAt(a, Eliminated(w, i, |w|), i + 1, r, c)
  {
    hide Dot, Multiplier;
    var w' := Eliminated(w, i, |w|);
    DotNext(LowerRow(w', r), UpperColumn(w', c), i);
    DotSame(LowerRow(w', r), UpperColumn(w', c), LowerRow(w, r), UpperColumn(w, c), i);
    NewTerm(w, i, r, c);
  }

  /** What elimination moves out of the rest is exactly the next term of the product. */
  lemma NewTerm(w: Matrix, i: nat, r: nat, c: nat)
    requires IsSquare(w, |w|) && i < |w| && r < |w| && c < |w|
    requires w[i][i] == 0.0 ==> forall j :: i < j < |w| ==> w[j][i] == 0.0
    ensures var w' := Eliminated(w, i, |w|);
            && IsSquare(w', |w|)
            && LowerRow(w', r)[i] * UpperColumn(w', c)[i] + (if r > i && c > i then w'[r][c] else 0.0)
               == if r >= i && c >= i then w[r][c] else 0.0
  {
    var w' := Eliminated(w, i, |w|);
    var l, u := LowerRow(w', r)[i], UpperColumn(w', c)[i];
    if r > i && c == i {
      assert l == Multiplier(w, i, r) && u == w[i][i];
      if w[i][i] != 0.0 { DivideBack(w[r][i], w[i][i]); }
    } else if r > i && c > i {
      assert l == Multiplier(w, i, r) && u == w[i][c];
    }
  }

  lemma DivideBack(x: real, y: real)
    requires y != 0.0
    ensures (x / y) * y == x
  {
  }

  // ---------------------------------------------------------------------------------------
  // Permutations

  ghost predicate IsPermutation(p: seq<nat>) {
    && (forall r :: 0 <= r < |p| ==> p[r] < |p|)
    && (forall v :: 0 <= v < |p| ==> v in p)
    && IsDistinct(p)
  }

  predicate IsDistinct(p: seq<nat>) {
    forall r, q :: 0 <= r < q < |p| ==> p[r] != p[q]
  }

  function IdentityPermutation(n: nat): seq<nat> {
    seq(n, r requires 0 <= r => r)
  }

  function SwapAt(p: seq<nat>, x: nat, y: nat): seq<nat>
    requires x < |p| && y < |p|
  {
    p[x := p[y]][y := p[x]]
  }

  lemma SwapKeepsPermutation(p: seq<nat>, x: nat, y: nat)
    requires IsPermutation(p) && x < |p| && y < |p|
    ensures IsPermutation(SwapAt(p, x, y))
  {
    var p' := SwapAt(p, x, y);
    forall v | 0 <= v < |p| ensures v in p' {
      assert v in p;
      var r :| 0 <= r < |p| && p[r] == v;
      assert p'[if r == x then y else if r == y then x else r] == v;
    }
  }

  /** How many elements of s are larger than v. */
  function Larger(s: seq<nat>, v: nat): nat {
    if s == [] then 0 else Larger(s[..|s| - 1], v) + if s[|s| - 1] > v then 1 else 0
  }

  /** How many pairs are out of order: a permutation is odd when this number is. */
  function Inversions(p: seq<nat>): nat {
    if p == [] then 0 else Inversions(p[..|p| - 1]) + Larger(p[..|p| - 1], p[|p| - 1])
  }

  /** The last element of a swapped sequence is moved only if the exchange reaches it. */
  lemma SwapFront(p: seq<nat>, x: nat, y: nat)
    requires x < |p| - 1 && y < |p| - 1
    ensures SwapAt(p, x, y)[..|p| - 1] == SwapAt(p[..|p| - 1], x, y)
    ensures SwapAt(p, x, y)[|p| - 1] == p[|p| - 1]
  {
  }

  lemma {:induction false} LargerSwapped(s: seq<nat>, x: nat, v: nat)
    requires x + 1 < |s|
    ensures Larger(SwapAt(s, x, x + 1), v) == Larger(s, v)
  {
    var n, s' := |s| - 1, SwapAt(s, x, x + 1);
    if x + 1 < n {
      SwapFront(s, x, x + 1);
      LargerSwapped(s[..n], x, v);
    } else {
      assert s'[..n][..n - 1] == s[..n][..n - 1];
    }
  }

  lemma {:induction false} NeighboursFlipParity(p: seq<nat>, x: nat)
    requires x + 1 < |p| && p[x] != p[x + 1]
    ensures Inversions(SwapAt(p, x, x + 1)) % 2 != Inversions(p) % 2
  {
    var n, p' := |p| - 1, SwapAt(p, x, x + 1);
    if x + 1 < n {
      SwapFront(p, x, x + 1);
      NeighboursFlipParity(p[..n], x);
      LargerSwapped(p[..n], x, p[n]);
    } else {
      assert p'[..n][..n - 1] == p[..n][..n - 1];
    }
  }

  /** Every exchange of two elements is an odd number of exchanges of neighbours. */
  lemma {:induction false} SwapFlipsParity(p: seq<nat>, x: nat, y: nat)
    requires IsDistinct(p) && x < y < |p|
    ensures Inversions(SwapAt(p, x, y)) % 2 != Inversions(p) % 2
    decreases y - x
  {
    hide Inversions;
    NeighboursFlipParity(p, x);
    if x + 1 < y {
      var q := SwapAt(p, x, x + 1);
      SwapFlipsParity(q, x + 1, y);
      var q' := SwapAt(q, x + 1, y);
      NeighboursFlipParity(q', x);
      assert SwapAt(q', x, x + 1) == SwapAt(p, x, y);
    }
  }

  lemma {:induction false} IdentityIsEven(n: nat)
    ensures Inversions(IdentityPermutation(n)) == 0
  {
    if n > 0 {
      IdentityIsEven(n - 1);
      assert IdentityPermutation(n)[..n - 1] == IdentityPermutation(n - 1);
      NoneLarger(IdentityPermutation(n - 1), n - 1);
    }
  }

  lemma {:induction false} NoneLarger(s: seq<nat>, v: nat)
    requires forall k :: 0 <= k < |s| ==> s[k] <= v
    ensures Larger(s, v) == 0
  {
    if s != [] { NoneLarger(s[..|s| - 1], v); }
  }

  /** The matrix with a one in column p[r] of each row r. */
  function PermutationMatrix(p: seq<nat>): Matrix {
    seq(|p|, r requires 0 <= r < |p| => seq(|p|, c requires 0 <= c => if c == p[r] then 1.0 else 0.0))
  }

  function PermuteRows(a: Matrix, p: seq<nat>): Matrix
    requires forall r :: 0 <= r < |p| ==> p[r] < |a|
  {
    seq(|p|, r requires 0 <= r < |p| => a[p[r]])
  }

  lemma PermutationMatrixPermutes(p: seq<nat>, a: Matrix)
    requires IsPermutation(p) && IsSquare(a, |p|)
    ensures IsSquare(PermutationMatrix(p), |p|)
    ensures Product(PermutationMatrix(p), a, |p|) == PermuteRows(a, p)
  {
    var m := PermutationMatrix(p);
    var pa := Product(m, a, |p|);
    forall r | 0 <= r < |p| ensures pa[r] == a[p[r]] {
      forall c | 0 <= c < |p| ensures pa[r][c] == a[p[r]][c] {
        DotUnit(m[r], Column(a, c), p[r], |p|);
      }
    }
  }

  lemma PermutationMatrixApplies(p: seq<nat>, b: Vector)
    requires IsPermutation(p) && |b| == |p|
    ensures IsSquare(PermutationMatrix(p), |p|)
    ensures forall r :: 0 <= r < |p| ==> Apply(PermutationMatrix(p), b)[r] == b[p[r]]
  {
    var m := PermutationMatrix(p);
    forall r | 0 <= r < |p| ensures Apply(m, b)[r] == b[p[r]] {
      DotUnit(m[r], b, p[r], |p|);
    }
  }

  // ---------------------------------------------------------------------------------------
  // The factors, and what they are good for

  function Lower(w: Matrix): Matrix
    requires IsSquare(w, |w|)
  {
    seq(|w|, r requires 0 <= r < |w| => LowerRow(w, r))
  }

  function Upper(w: Matrix): Matrix
    requires IsSquare(w, |w|)
  {
    seq(|w|, r requires 0 <= r < |w| => UpperRow(w, r))
  }

  function UpperRow(w: Matrix, r: nat): Vector
    requires IsSquare(w, |w|) && r < |w|
  {
    seq(|w|, c requires 0 <= c < |w| => if r <= c then w[r][c] else 0.0)
  }

  lemma FactoredMeansProduct(a: Matrix, w: Matrix)
    requires IsSquare(a, |w|) && IsSquare(w, |w|)
    requires Factored(a, w, |w|)
    ensures a == Product(Lower(w), Upper(w), |w|)
  {
    var lu := Product(Lower(w), Upper(w), |w|);
    forall r | 0 <= r < |w| ensures a[r] == lu[r] {
      forall c | 0 <= c < |w| ensures a[r][c] == lu[r][c] {
        assert FactoredAt(a, w, |w|, r, c);
        assert Column(Upper(w), c) == UpperColumn(w, c);
      }
    }
  }

  /** Solving L*(U*x) == P*b solves A*x == b, because P only reorders the equations. */
  lemma SolutionSolves(a: Matrix, p: seq<nat>, w: Matrix, x: Vector, b: Vector)
    requires IsPermutation(p) && IsSquare(a, |p|) && IsSquare(w, |p|) && |w| == |x| == |b| == |p|
    requires IsSquare(PermutationMatrix(p), |p|)
    requires Product(PermutationMatrix(p), a, |p|) == Product(Lower(w), Upper(w), |p|)
    requires Apply(Lower(w), Apply(Upper(w), x)) == Apply(PermutationMatrix(p), b)
    ensures Apply(a, x) == b
  {
    var m := PermutationMatrix(p);
    ProductApplies(m, a, x);
    ProductApplies(Lower(w), Upper(w), x);
    var ax := Apply(a, x);
    assert Apply(m, ax) == Apply(m, b);
    PermutationMatrixApplies(p, ax);
    PermutationMatrixApplies(p, b);
    forall v | 0 <= v < |p| ensures ax[v] == b[v] {
      assert v in p;
      var r :| 0 <= r < |p| && p[r] == v;
      assert Apply(m, ax)[r] == ax[v] && Apply(m, b)[r] == b[v];
    }
  }

  // ---------------------------------------------------------------------------------------
  // The algorithms, in place

  function Entries(a: array2<real>): (m: Matrix)
    reads a
    ensures IsMatrix(m, a.Length0, a.Length1)
  {
    seq(a.Length0, r requires 0 <= r < a.Length0 reads a =>
        seq(a.Length1, c requires 0 <= c < a.Length1 reads a => a[r, c]))
  }

  lemma EntriesAre(a: array2<real>, m: Matrix)
    requires IsMatrix(m, a.Length0, a.Length1)
    requires forall r, c :: 0 <= r < a.Length0 && 0 <= c < a.Length1 ==> a[r, c] == m[r][c]
    ensures Entries(a) == m
  {
    forall r | 0 <= r < a.Length0 ensures Entries(a)[r] == m[r] {
    }
  }

  function Abs(x: real): real { if x < 0.0 then -x else x }

  method SwapRowsInPlace(a: array2<real>, x: nat, y: nat)
    requires x < a.Length0 && y < a.Length0
    modifies a
    ensures Entries(a) == SwapRows(old(Entries(a)), x, y)
  {
    var i := 0;
    while i < a.Length1
      invariant 0 <= i <= a.Length1
      invariant forall r, c :: 0 <= r < a.Length0 && 0 <= c < a.Length1 ==>
                  a[r, c] == (if c < i && r == x then old(a[y, c])
                              else if c < i && r == y then old(a[x, c]) else old(a[r, c]))
    {
      a[x, i], a[y, i] := a[y, i], a[x, i];
      i := i + 1;
    }
    EntriesAre(a, SwapRows(old(Entries(a)), x, y));
  }

  /** Brings the largest element of column i, from the diagonal down, to the diagonal. */
  method Pivot(a: array2<real>, i: nat) returns (p: nat)
    requires a.Length0 == a.Length1 && i < a.Length0
    modifies a
    ensures i <= p < a.Length0
    ensures Entries(a) == SwapRows(old(Entries(a)), i, p)
    ensures forall k :: i <= k < a.Length0 ==> Abs(old(a[k, i])) <= Abs(old(a[p, i]))
  {
    ghost var w := Entries(a);
    if i >= a.Length0 - 1 || i >= a.Length1 - 1 {
      assert SwapRows(w, i, i) == w;
      return i;
    }
    var maxElementValue := Abs(a[i, i]);
    p := i;
    var k := i + 1;
    while k < a.Length0
      invariant i < k <= a.Length0
      invariant i <= p < k
      invariant maxElementValue == Abs(a[p, i])
      invariant forall j :: i <= j < k ==> Abs(a[j, i]) <= maxElementValue
    {
      var value := Abs(a[k, i]);
      if value > maxElementValue {
        maxElementValue := value;
        p := k;
      }
      k := k + 1;
    }
    if p != i {
      SwapRowsInPlace(a, i, p);
    } else {
      assert SwapRows(w, i, i) == w;
    }
  }

  /** Subtracts the multiple of row i from row j that clears element (j, i), and keeps the multiplier there. */
  method EliminateRowInPlace(a: array2<real>, i: nat, j: nat)
    requires a.Length0 == a.Length1 && i < j < a.Length0
    modifies a
    ensures Entries(a) == old(Entries(a))[j := EliminatedRow(old(Entries(a)), i, j)]
  {
    ghost var w := Entries(a);
    ghost var row := EliminatedRow(w, i, j);
    var n := a.Length0;
    assert forall r, c :: 0 <= r < n && 0 <= c < n ==> a[r, c] == w[r][c];
    assert row[i] == Multiplier(w, i, j) && a[i, i] == w[i][i] && a[j, i] == w[j][i];
    if a[i, i] != 0.0 {
      a[j, i] := a[j, i] / a[i, i];
    } else {
      a[j, i] := 0.0;
    }
    assert a[j, i] == row[i];
    assert forall c :: 0 <= c < i ==> row[c] == w[j][c];
    var k := i + 1;
    while k < n
      invariant i < k <= n
      invariant forall r, c :: 0 <= r < n && 0 <= c < n ==>
                  a[r, c] == if r == j && c < k then row[c] else w[r][c]
    {
      assert a[j, i] == row[i] && a[i, k] == w[i][k] && a[j, k] == w[j][k];
      a[j, k] := a[j, k] - a[j, i] * a[i, k];
      k := k + 1;
    }
    EntriesAre(a, w[j := row]);
  }

  function IdentityMatrix(n: nat): Matrix { PermutationMatrix(IdentityPermutation(n)) }

  function ZeroMatrix(n: nat): Matrix {
    seq(n, r requires 0 <= r => seq(n, c requires 0 <= c => 0.0))
  }

  lemma IdentityIsPermutation(n: nat)
    ensures IsPermutation(IdentityPermutation(n))
  {
    var p := IdentityPermutation(n);
    forall v | 0 <= v < n ensures v in p { assert p[v] == v; }
  }

  method Copy(a: array2<real>) returns (m: array2<real>)
    ensures fresh(m) && m.Length0 == a.Length0 && m.Length1 == a.Length1 && Entries(m) == Entries(a)
  {
    m := new real[a.Length0, a.Length1]((r, c) requires 0 <= r < a.Length0 && 0 <= c < a.Length1 reads a => a[r, c]);
    EntriesAre(m, Entries(a));
  }

  method Identity(n: nat) returns (m: array2<real>)
    ensures fresh(m) && m.Length0 == n && m.Length1 == n && Entries(m) == IdentityMatrix(n)
  {
    m := new real[n, n]((r, c) => if r == c then 1.0 else 0.0);
    EntriesAre(m, IdentityMatrix(n));
  }

  method Zero(n: nat) returns (m: array2<real>)
    ensures fresh(m) && m.Length0 == n && m.Length1 == n && Entries(m) == ZeroMatrix(n)
  {
    m := new real[n, n]((r, c) => 0.0);
    EntriesAre(m, ZeroMatrix(n));
  }

  lemma SwapPermutationMatrix(p: seq<nat>, x: nat, y: nat)
    requires x < |p| && y < |p|
    ensures SwapRows(PermutationMatrix(p), x, y) == PermutationMatrix(SwapAt(p, x, y))
  {
  }

  lemma SwapPermutedRows(a: Matrix, p: seq<nat>, x: nat, y: nat)
    requires forall r :: 0 <= r < |p| ==> p[r] < |a|
    requires x < |p| && y < |p|
    ensures SwapRows(PermuteRows(a, p), x, y) == PermuteRows(a, SwapAt(p, x, y))
  {
  }

  /** Elimination of one more row extends the eliminated matrix by that row. */
  lemma EliminatedNext(w: Matrix, i: nat, j: nat)
    requires IsSquare(w, |w|) && i < j < |w|
    ensures IsSquare(Eliminated(w, i, j), |w|)
    ensures EliminatedRow(Eliminated(w, i, j), i, j) == EliminatedRow(w, i, j)
    ensures Eliminated(w, i, j)[j := EliminatedRow(w, i, j)] == Eliminated(w, i, j + 1)
  {
    var e := Eliminated(w, i, j);
    assert e[i] == w[i] && e[j] == w[j];
    assert Multiplier(e, i, j) == Multiplier(w, i, j);
    forall k | 0 <= k < |w| ensures EliminatedRow(e, i, j)[k] == EliminatedRow(w, i, j)[k] {
    }
  }

  method EliminateColumn(m: array2<real>, i: nat)
    requires m.Length0 == m.Length1 && i < m.Length0
    modifies m
    ensures Entries(m) == Eliminated(old(Entries(m)), i, m.Length0)
  {
    ghost var w := Entries(m);
    assert Eliminated(w, i, i + 1) == w;
    var j := i + 1;
    while j < m.Length0
      invariant i < j <= m.Length0
      invariant Entries(m) == Eliminated(w, i, j)
    {
      EliminatedNext(w, i, j);
      EliminateRowInPlace(m, i, j);
      j := j + 1;
    }
  }

  /** One pass of the outer loop on values: pivot with row q, then eliminate column i. */
  lemma PassKeepsFactored(A: Matrix, p: seq<nat>, w: Matrix, i: nat, q: nat)
    requires IsSquare(A, |w|) && IsSquare(w, |w|) && |p| == |w| && IsPermutation(p) && i <= q < |w|
    requires Factored(PermuteRows(A, p), w, i)
    requires forall k :: i <= k < |w| ==> Abs(w[k][i]) <= Abs(w[q][i])
    ensures var p', w' := SwapAt(p, i, q), SwapRows(w, i, q);
            && IsPermutation(p')
            && IsSquare(w', |w|)
            && IsSquare(Eliminated(w', i, |w|), |w|)
            && Factored(PermuteRows(A, p'), Eliminated(w', i, |w|), i + 1)
            && (forall k :: 0 <= k < i ==> Eliminated(w', i, |w|)[k] == w[k])
            && Eliminated(w', i, |w|)[i] == w'[i]
  {
    var w' := SwapRows(w, i, q);
    SwapKeepsPermutation(p, i, q);
    SwapKeepsFactored(PermuteRows(A, p), w, i, q);
    SwapPermutedRows(A, p, i, q);
    assert IsSquare(w', |w|);
    forall j | i < j < |w| && w'[i][i] == 0.0 ensures w'[j][i] == 0.0 {
      assert Abs(w[if j == q then i else j][i]) <= Abs(w[q][i]);
    }
    EliminationKeepsFactored(PermuteRows(A, SwapAt(p, i, q)), w', i);
  }

  /** The state of the decomposition of A after i passes. */
  ghost predicate Progress(A: Matrix, p: seq<nat>, P: Matrix, w: Matrix, i: nat, tolerance: real) {
    && IsSquare(A, |w|) && IsSquare(w, |w|) && i <= |w|
    && |p| == |w| && IsPermutation(p) && P == PermutationMatrix(p)
    && Factored(PermuteRows(A, p), w, i)
    && (forall k :: 0 <= k < i ==> Abs(w[k][k]) >= tolerance)
  }

  /**
    Why the decomposition of A gives up at pass i: in the matrix w that the passes so far have left of
    the permuted A, nothing from the diagonal down in column i reaches the tolerance.
   */
  ghost predicate StuckAt(A: Matrix, p: seq<nat>, w: Matrix, i: nat, tolerance: real) {
    && IsSquare(A, |w|) && IsSquare(w, |w|) && i < |w|
    && |p| == |w| && IsPermutation(p)
    && Factored(PermuteRows(A, p), w, i)
    && (forall k :: 0 <= k < i ==> Abs(w[k][k]) >= tolerance)
    && (forall k :: i <= k < |w| ==> Abs(w[k][i]) < tolerance)
  }

  ghost predicate IsStuck(A: Matrix, p: seq<nat>, tolerance: real) {
    exists w, i :: StuckAt(A, p, w, i, tolerance)
  }

  lemma SmallPivotIsStuck(A: Matrix, p: seq<nat>, P: Matrix, w: Matrix, i: nat, q: nat, tolerance: real)
    requires Progress(A, p, P, w, i, tolerance) && i <= q < |w|
    requires forall k :: i <= k < |w| ==> Abs(w[k][i]) <= Abs(w[q][i])
    requires Abs(w[q][i]) < tolerance
    ensures IsStuck(A, SwapAt(p, i, q), tolerance) && IsPermutation(SwapAt(p, i, q))
    ensures SwapRows(P, i, q) == PermutationMatrix(SwapAt(p, i, q))
  {
    hide Factored;
    SwapKeepsPermutation(p, i, q);
    SwapKeepsFactored(PermuteRows(A, p), w, i, q);
    SwapPermutedRows(A, p, i, q);
    SwapPermutationMatrix(p, i, q);
    assert StuckAt(A, SwapAt(p, i, q), SwapRows(w, i, q), i, tolerance);
  }

  /** An exchange with another row is counted, and makes the permutation odd or even again. */
  lemma CountedSwapKeepsParity(p: seq<nat>, x: nat, y: nat, rowSwaps: nat)
    requires IsPermutation(p) && x <= y < |p| && rowSwaps % 2 == Inversions(p) % 2
    ensures (rowSwaps + if x == y then 0 else 1) % 2 == Inversions(SwapAt(p, x, y)) % 2
  {
    hide Inversions;
    if x < y {
      SwapFlipsParity(p, x, y);
      OneMoreFlips(rowSwaps, Inversions(p), Inversions(SwapAt(p, x, y)));
    } else {
      assert SwapAt(p, x, x) == p;
    }
  }

  lemma OneMoreFlips(n: nat, before: nat, after: nat)
    requires n % 2 == before % 2 && after % 2 != before % 2
    ensures (n + 1) % 2 == after % 2
  {
  }

  lemma PassKeepsProgress(A: Matrix, p: seq<nat>, P: Matrix, w: Matrix, i: nat, q: nat, tolerance: real)
    requires Progress(A, p, P, w, i, tolerance) && i <= q < |w|
    requires forall k :: i <= k < |w| ==> Abs(w[k][i]) <= Abs(w[q][i])
    requires Abs(w[q][i]) >= tolerance
    ensures IsSquare(SwapRows(w, i, q), |w|)
    ensures Progress(A, SwapAt(p, i, q), SwapRows(P, i, q), Eliminated(SwapRows(w, i, q), i, |w|), i + 1, tolerance)
  {
    PassKeepsFactored(A, p, w, i, q);
    SwapPermutationMatrix(p, i, q);
  }

  lemma ProgressEnds(A: Matrix, p: seq<nat>, P: Matrix, w: Matrix, tolerance: real)
    requires Progress(A, p, P, w, |w|, tolerance)
    ensures IsSquare(P, |w|) && Product(P, A, |w|) == Product(Lower(w), Upper(w), |w|)
  {
    FactoredMeansProduct(PermuteRows(A, p), w);
    PermutationMatrixPermutes(p, A);
  }

  lemma ProgressStarts(A: Matrix, tolerance: real)
    requires IsSquare(A, |A|)
    ensures Progress(A, IdentityPermutation(|A|), IdentityMatrix(|A|), A, 0, tolerance)
  {
    IdentityIsPermutation(|A|);
    assert PermuteRows(A, IdentityPermutation(|A|)) == A;
    forall r, c | 0 <= r < |A| && 0 <= c < |A| ensures FactoredAt(A, A, 0, r, c) { }
  }

  /** Pivots the working matrix and applies the same exchange to P. */
  method PivotBoth(m: array2<real>, P: array2<real>, i: nat) returns (q: nat)
    requires m != P && m.Length0 == m.Length1 == P.Length0 == P.Length1 && i < m.Length0
    modifies m, P
    ensures i <= q < m.Length0
    ensures Entries(m) == SwapRows(old(Entries(m)), i, q)
    ensures Entries(P) == SwapRows(old(Entries(P)), i, q)
    ensures forall k :: i <= k < m.Length0 ==> Abs(old(Entries(m))[k][i]) <= Abs(old(Entries(m))[q][i])
  {
    ghost var old_P := Entries(P);
    q := Pivot(m, i);
    if q != i {
      SwapRowsInPlace(P, i, q);
    } else {
      assert SwapRows(old_P, i, i) == old_P;
    }
  }

  /**
    Returns the factors packed in one matrix and the row permutation, so that P*A == L*U, or the
    zero matrix (and false) when no pivot reaches the tolerance. The number of row exchanges is odd
    exactly when the permutation is.
   */
  method DecomposePLU(a: array2<real>, tolerance: real)
    returns (m: array2<real>, P: array2<real>, rowSwaps: nat, ok: bool, ghost p: seq<nat>)
    requires a.Length0 == a.Length1
    ensures fresh(m) && fresh(P) && m.Length0 == m.Length1 == P.Length0 == P.Length1 == a.Length0
    ensures |p| == a.Length0 && IsPermutation(p) && Entries(P) == PermutationMatrix(p)
    ensures rowSwaps % 2 == Inversions(p) % 2
    ensures !ok ==> Entries(m) == ZeroMatrix(a.Length0)
    ensures !ok ==> IsStuck(Entries(a), p, tolerance)
    ensures tolerance <= 0.0 ==> ok
    ensures ok ==>
              && Product(Entries(P), Entries(a), a.Length0) == Product(Lower(Entries(m)), Upper(Entries(m)), a.Length0)
              && (forall i :: 0 <= i < a.Length0 ==> Abs(Entries(m)[i][i]) >= tolerance)
  {
    hide Factored, Product, PermutationMatrix, Inversions, IsStuck;
    var n := a.Length0;
    ghost var A := Entries(a);
    m := Copy(a);
    rowSwaps, ok := 0, true;
    P := Identity(n);
    p := IdentityPermutation(n);
    ProgressStarts(A, tolerance);
    IdentityIsEven(n);
    var i := 0;
    while i < n
      invariant 0 <= i <= n && ok
      invariant fresh(m) && fresh(P) && m != P && m.Length0 == m.Length1 == P.Length0 == P.Length1 == n
      invariant Progress(A, p, Entries(P), Entries(m), i, tolerance)
      invariant rowSwaps % 2 == Inversions(p) % 2
    {
      ghost var w, W := Entries(m), Entries(P);
      var pivotRow := PivotBoth(m, P, i);
      CountedSwapKeepsParity(p, i, pivotRow, rowSwaps);
      if pivotRow != i {
        rowSwaps := rowSwaps + 1;
      }
      assert m[i, i] == Entries(m)[i][i] == w[pivotRow][i];
      if Abs(m[i, i]) < tolerance {
        SmallPivotIsStuck(A, p, W, w, i, pivotRow, tolerance);
        p := SwapAt(p, i, pivotRow);
        m := Zero(n);
        ok := false;
        return;
      }
      PassKeepsProgress(A, p, W, w, i, pivotRow, tolerance);
      p := SwapAt(p, i, pivotRow);
      EliminateColumn(m, i);
      i := i + 1;
    }
    ProgressEnds(A, p, Entries(P), Entries(m), tolerance);
  }

  method FillLowerRow(lue: array2<real>, L: array2<real>, i: nat)
    requires lue != L && lue.Length0 == lue.Length1 == L.Length0 == L.Length1 && i < lue.Length0
    requires forall c :: 0 <= c < L.Length1 ==> L[i, c] == 0.0
    modifies L
    ensures forall r, c :: 0 <= r < L.Length0 && 0 <= c < L.Length1 ==>
              L[r, c] == if r == i then LowerRow(Entries(lue), i)[c] else old(L[r, c])
  {
    ghost var w := Entries(lue);
    L[i, i] := 1.0;
    var j := 0;
    while j < i
      invariant 0 <= j <= i
      invariant forall r, c :: 0 <= r < L.Length0 && 0 <= c < L.Length1 ==>
                  L[r, c] == if r != i then old(L[r, c])
                             else if c < j || c >= i then LowerRow(w, i)[c] else 0.0
    {
      assert lue[i, j] == w[i][j];
      L[i, j] := lue[i, j];
      j := j + 1;
    }
  }

  method FillUpperRow(lue: array2<real>, U: array2<real>, i: nat)
    requires lue != U && lue.Length0 == lue.Length1 == U.Length0 == U.Length1 && i < lue.Length0
    requires forall c :: 0 <= c < U.Length1 ==> U[i, c] == 0.0
    modifies U
    ensures forall r, c :: 0 <= r < U.Length0 && 0 <= c < U.Length1 ==>
              U[r, c] == if r == i then UpperRow(Entries(lue), i)[c] else old(U[r, c])
  {
    ghost var w := Entries(lue);
    U[i, i] := lue[i, i];
    var j := i + 1;
    while j < U.Length1
      invariant i < j <= U.Length1
      invariant forall r, c :: 0 <= r < U.Length0 && 0 <= c < U.Length1 ==>
                  U[r, c] == if r != i then old(U[r, c])
                             else if c < j then UpperRow(w, i)[c] else 0.0
    {
      assert lue[i, j] == w[i][j];
      U[i, j] := lue[i, j];
      j := j + 1;
    }
  }

  /** Unpacks the two factors. */
  method SplitPLU(lue: array2<real>) returns (L: array2<real>, U: array2<real>)
    requires lue.Length0 == lue.Length1
    ensures fresh(L) && fresh(U) && L != U
    ensures Entries(L) == Lower(Entries(lue)) && Entries(U) == Upper(Entries(lue))
  {
    var n := lue.Length0;
    ghost var w := Entries(lue);
    L := Zero(n);
    U := Zero(n);
    assert forall r, c :: 0 <= r < n && 0 <= c < n ==> L[r, c] == Entries(L)[r][c] && U[r, c] == Entries(U)[r][c];
    var i := 0;
    while i < n
      invariant 0 <= i <= n && fresh(L) && fresh(U) && L != U
      invariant L.Length0 == L.Length1 == U.Length0 == U.Length1 == n && Entries(lue) == w
      invariant forall r, c :: 0 <= r < n && 0 <= c < n ==> L[r, c] == if r < i then LowerRow(w, r)[c] else 0.0
      invariant forall r, c :: 0 <= r < n && 0 <= c < n ==> U[r, c] == if r < i then UpperRow(w, r)[c] else 0.0
    {
      FillLowerRow(lue, L, i);
      FillUpperRow(lue, U, i);
      i := i + 1;
    }
    EntriesAre(L, Lower(w));
    EntriesAre(U, Upper(w));
  }

  method RowTimesColumn(a: array2<real>, b: array2<real>, i: nat, j: nat) returns (sum: real)
    requires a.Length1 == b.Length0 && i < a.Length0 && j < b.Length1
    ensures sum == Dot(Entries(a)[i], Column(Entries(b), j), a.Length1)
  {
    ghost var row, column := Entries(a)[i], Column(Entries(b), j);
    sum := 0.0;
    var k := 0;
    while k < a.Length1
      invariant 0 <= k <= a.Length1
      invariant sum == Dot(row, column, k)
    {
      assert a[i, k] == row[k] && b[k, j] == column[k];
      sum := sum + a[i, k] * b[k, j];
      k := k + 1;
    }
  }

  /** The matrix product, by nested loops. */
  method Multiply(a: array2<real>, b: array2<real>) returns (m: array2<real>)
    requires a.Length1 == b.Length0
    ensures fresh(m) && m.Length0 == a.Length0 && m.Length1 == b.Length1
    ensures Entries(m) == Product(Entries(a), Entries(b), b.Length1)
  {
    hide Dot;
    ghost var AB := Product(Entries(a), Entries(b), b.Length1);
    m := new real[a.Length0, b.Length1];
    var i := 0;
    while i < a.Length0
      invariant 0 <= i <= a.Length0 && fresh(m)
      invariant forall r, c :: 0 <= r < i && 0 <= c < b.Length1 ==> m[r, c] == AB[r][c]
    {
      var j := 0;
      while j < b.Length1
        invariant 0 <= j <= b.Length1
        invariant forall r, c :: 0 <= r < i && 0 <= c < b.Length1 ==> m[r, c] == AB[r][c]
        invariant forall c :: 0 <= c < j ==> m[i, c] == AB[i][c]
      {
        var sum := RowTimesColumn(a, b, i, j);
        m[i, j] := sum;
        assert m[i, j] == AB[i][j];
        j := j + 1;
      }
      i := i + 1;
    }
    EntriesAre(m, AB);
  }

  /** P*b for a column vector. */
  method MultiplyVector(a: array2<real>, b: array<real>) returns (y: array<real>)
    requires a.Length1 == b.Length
    ensures fresh(y) && y.Length == a.Length0 && y[..] == Apply(Entries(a), b[..])
  {
    ghost var A, x := Entries(a), b[..];
    y := new real[a.Length0];
    var i := 0;
    while i < a.Length0
      invariant 0 <= i <= a.Length0 && fresh(y) && b[..] == x
      invariant forall r :: 0 <= r < i ==> y[r] == Dot(A[r], x, |x|)
    {
      var sum := 0.0;
      var k := 0;
      while k < b.Length
        invariant 0 <= k <= b.Length
        invariant sum == Dot(A[i], x, k)
      {
        assert a[i, k] == A[i][k];
        sum := sum + a[i, k] * b[k];
        k := k + 1;
      }
      y[i] := sum;
      i := i + 1;
    }
  }

  // ---------------------------------------------------------------------------------------
  // Substitution

  /** u[m]*v[m] + ... + u[n-1]*v[n-1] */
  function TailDot(u: Vector, v: Vector, m: nat, n: nat): real
    requires n <= |u| && n <= |v|
  {
    if n <= m then 0.0 else TailDot(u, v, m, n - 1) + u[n - 1] * v[n - 1]
  }

  lemma {:induction false} TailDotSame(u: Vector, v: Vector, v': Vector, m: nat, n: nat)
    requires n <= |u| && n <= |v| && n <= |v'|
    requires forall k :: m <= k < n ==> v[k] == v'[k]
    ensures TailDot(u, v, m, n) == TailDot(u, v', m, n)
    decreases n
  {
    if m < n { TailDotSame(u, v, v', m, n - 1); }
  }

  lemma {:induction false} TailDotSplit(u: Vector, v: Vector, m: nat, n: nat)
    requires m < n <= |u| && n <= |v|
    ensures TailDot(u, v, m, n) == u[m] * v[m] + TailDot(u, v, m + 1, n)
    decreases n
  {
    if m + 1 < n { TailDotSplit(u, v, m, n - 1); } else { assert TailDot(u, v, m, m) == 0.0; }
  }

  lemma LowerRowTimes(w: Matrix, r: nat, x: Vector)
    requires IsSquare(w, |w|) && r < |w| && |x| == |w|
    ensures Dot(LowerRow(w, r), x, |x|) == Dot(w[r], x, r) + x[r]
  {
    DotTruncate(LowerRow(w, r), x, r + 1, |x|);
    DotSame(LowerRow(w, r), x, w[r], x, r);
  }

  lemma {:induction false} UpperRowTimes(w: Matrix, r: nat, x: Vector, n: nat)
    requires IsSquare(w, |w|) && r < |w| && |x| == |w| && n <= |w|
    ensures Dot(UpperRow(w, r), x, n) == TailDot(w[r], x, r, n)
  {
    if n > 0 {
      UpperRowTimes(w, r, x, n - 1);
      var u := UpperRow(w, r);
      if n - 1 < r {
        assert u[n - 1] == 0.0;
      } else {
        assert u[n - 1] == w[r][n - 1];
      }
    }
  }

  /** The first i equations of L*x == b hold, and the rest of x still holds b. */
  ghost predicate ForwardSolved(w: Matrix, x: Vector, b: Vector, i: nat)
    requires IsSquare(w, |w|) && |x| == |b| == |w| && i <= |w|
  {
    && (forall r :: 0 <= r < i ==> x[r] + Dot(w[r], x, r) == b[r])
    && (forall r :: i <= r < |w| ==> x[r] == b[r])
  }

  lemma ForwardStep(w: Matrix, x: Vector, b: Vector, i: nat)
    requires IsSquare(w, |w|) && |x| == |b| == |w| && i < |w| && ForwardSolved(w, x, b, i)
    ensures ForwardSolved(w, x[i := x[i] - Dot(w[i], x, i)], b, i + 1)
  {
    var x' := x[i := x[i] - Dot(w[i], x, i)];
    forall r | 0 <= r <= i ensures Dot(w[r], x', r) == Dot(w[r], x, r) {
      DotSame(w[r], x', w[r], x, r);
    }
  }

  lemma ForwardDone(w: Matrix, x: Vector, b: Vector)
    requires IsSquare(w, |w|) && |x| == |b| == |w| && ForwardSolved(w, x, b, |w|)
    ensures Apply(Lower(w), x) == b
  {
    forall r | 0 <= r < |w| ensures Dot(LowerRow(w, r), x, |x|) == b[r] { LowerRowTimes(w, r, x); }
  }

  /** The equations of U*x == y from row i down hold, and x above that still holds y. */
  ghost predicate BackSolved(w: Matrix, x: Vector, y: Vector, i: nat)
    requires IsSquare(w, |w|) && |x| == |y| == |w| && i <= |w|
  {
    && (forall r :: i <= r < |w| ==> TailDot(w[r], x, r, |w|) == y[r])
    && (forall r :: 0 <= r < i ==> x[r] == y[r])
  }

  lemma SameFactor(a: real, b: real, c: real)
    requires b == c
    ensures a * b == a * c
  {
  }

  lemma BackRow(u: Vector, x: Vector, i: nat, z: real)
    requires |u| == |x| && i < |x|
    requires u[i] * z == x[i] - TailDot(u, x, i + 1, |x|)
    ensures TailDot(u, x[i := z], i, |x|) == x[i]
  {
    hide TailDot;
    var x' := x[i := z];
    TailDotSplit(u, x', i, |x|);
    SameFactor(u[i], x'[i], z);
    TailDotSame(u, x', x, i + 1, |x|);
  }

  lemma BackStep(w: Matrix, x: Vector, y: Vector, i: nat, z: real)
    requires IsSquare(w, |w|) && |x| == |y| == |w| && i < |w| && BackSolved(w, x, y, i + 1)
    requires TailDot(w[i], x[i := z], i, |w|) == x[i]
    ensures BackSolved(w, x[i := z], y, i)
  {
    hide TailDot;
    forall r | i < r < |w| ensures TailDot(w[r], x[i := z], r, |w|) == y[r] {
      TailDotSame(w[r], x[i := z], x, r, |w|);
    }
  }

  lemma BackDone(w: Matrix, x: Vector, y: Vector)
    requires IsSquare(w, |w|) && |x| == |y| == |w| && BackSolved(w, x, y, 0)
    ensures Apply(Upper(w), x) == y
  {
    forall r | 0 <= r < |w| ensures Dot(UpperRow(w, r), x, |x|) == y[r] { UpperRowTimes(w, r, x, |w|); }
  }

  /** x(i) -= lue(i, k) * x(k) for k from 0 up to i. */
  method SubtractBefore(lue: array2<real>, x: array<real>, i: nat)
    requires lue.Length0 == lue.Length1 == x.Length && i < x.Length
    modifies x
    ensures x[..] == old(x[..])[i := old(x[i]) - Dot(Entries(lue)[i], old(x[..]), i)]
  {
    ghost var w, before := Entries(lue), x[..];
    var k := 0;
    while k < i
      invariant 0 <= k <= i
      invariant x[i] == before[i] - Dot(w[i], before, k)
      invariant forall r :: 0 <= r < x.Length && r != i ==> x[r] == before[r]
    {
      assert lue[i, k] == w[i][k] && x[k] == before[k];
      x[i] := x[i] - lue[i, k] * x[k];
      k := k + 1;
    }
  }

  /** x(i) -= lue(i, k) * x(k) for k from i + 1 to the end. */
  method SubtractAfter(lue: array2<real>, x: array<real>, i: nat)
    requires lue.Length0 == lue.Length1 == x.Length && i < x.Length
    modifies x
    ensures x[..] == old(x[..])[i := old(x[i]) - TailDot(Entries(lue)[i], old(x[..]), i + 1, x.Length)]
  {
    ghost var w, before := Entries(lue), x[..];
    var k := i + 1;
    while k < x.Length
      invariant i < k <= x.Length
      invariant x[i] == before[i] - TailDot(w[i], before, i + 1, k)
      invariant forall r :: 0 <= r < x.Length && r != i ==> x[r] == before[r]
    {
      assert lue[i, k] == w[i][k] && x[k] == before[k];
      x[i] := x[i] - lue[i, k] * x[k];
      k := k + 1;
    }
  }

  method ForwardSubstitute(lue: array2<real>, x: array<real>)
    requires lue.Length0 == lue.Length1 == x.Length
    modifies x
    ensures Apply(Lower(Entries(lue)), x[..]) == old(x[..])
  {
    hide Dot;
    ghost var w, b := Entries(lue), x[..];
    var i := 0;
    while i < x.Length
      invariant 0 <= i <= x.Length && Entries(lue) == w
      invariant ForwardSolved(w, x[..], b, i)
    {
      ForwardStep(w, x[..], b, i);
      SubtractBefore(lue, x, i);
      i := i + 1;
    }
    ForwardDone(w, x[..], b);
  }

  /** One row of back substitution. */
  method BackSubstituteRow(lue: array2<real>, x: array<real>, i: nat, ghost y: Vector)
    requires lue.Length0 == lue.Length1 == x.Length == |y| && i < x.Length
    requires lue[i, i] != 0.0
    requires BackSolved(Entries(lue), x[..], y, i + 1)
    modifies x
    ensures BackSolved(Entries(lue), x[..], y, i)
  {
    ghost var w, before := Entries(lue), x[..];
    assert lue[i, i] == w[i][i];
    SubtractAfter(lue, x, i);
    ghost var rest := x[i];
    x[i] := x[i] / lue[i, i];
    DivideBack(rest, lue[i, i]);
    BackRow(w[i], before, i, x[i]);
    BackStep(w, before, y, i, x[i]);
    assert x[..] == before[i := x[i]];
  }

  method BackSubstitute(lue: array2<real>, x: array<real>)
    requires lue.Length0 == lue.Length1 == x.Length
    requires forall i :: 0 <= i < x.Length ==> lue[i, i] != 0.0
    modifies x
    ensures Apply(Upper(Entries(lue)), x[..]) == old(x[..])
  {
    ghost var y := x[..];
    var n, i := x.Length, 1;
    while i <= n
      invariant 1 <= i <= n + 1
      invariant BackSolved(Entries(lue), x[..], y, n - i + 1)
    {
      BackSubstituteRow(lue, x, n - i, y);
      i := i + 1;
    }
    BackDone(Entries(lue), x[..], y);
  }

  /** Solves L*(U*x) == P*b by forward and back substitution; the diagonal must have no zero. */
  method SolveLU(lue: array2<real>, P: array2<real>, b: array<real>) returns (x: array<real>)
    requires lue.Length0 == lue.Length1 == P.Length0 == P.Length1 == b.Length
    requires forall i :: 0 <= i < b.Length ==> lue[i, i] != 0.0
    ensures fresh(x) && x.Length == b.Length
    ensures Apply(Lower(Entries(lue)), Apply(Upper(Entries(lue)), x[..])) == Apply(Entries(P), b[..])
  {
    x := MultiplyVector(P, b);
    ForwardSubstitute(lue, x);
    BackSubstitute(lue, x);
  }

  /** Decomposes, splits and solves: the result solves the original system, unless a pivot is too small. */
  method SolveSystem(a: array2<real>, b: array<real>, tolerance: real)
    returns (x: array<real>, P: array2<real>, L: array2<real>, U: array2<real>, ok: bool)
    requires a.Length0 == a.Length1 == b.Length && tolerance > 0.0
    ensures ok ==> x.Length == b.Length && Apply(Entries(a), x[..]) == b[..]
    ensures ok ==> IsSquare(Entries(P), b.Length) && IsSquare(Entries(L), b.Length) && IsSquare(Entries(U), b.Length)
    ensures ok ==> Product(Entries(P), Entries(a), b.Length) == Product(Entries(L), Entries(U), b.Length)
    ensures !ok ==> exists p :: IsStuck(Entries(a), p, tolerance)
  {
    hide Product, Apply, Entries, Dot, IsStuck, Inversions;
    var m, permutation, rowSwaps, done, p := DecomposePLU(a, tolerance);
    P, ok, x := permutation, done, new real[0];
    L, U := SplitPLU(m);
    if !ok {
      assert IsStuck(Entries(a), p, tolerance);
      return;
    }
    FactorsAreSquare(Entries(m));
    PermutationMatrixPermutes(p, Entries(a));
    DiagonalOf(m);
    x := SolveLU(m, P, b);
    SolutionSolves(Entries(a), p, Entries(m), x[..], b[..]);
  }

  lemma FactorsAreSquare(w: Matrix)
    requires IsSquare(w, |w|)
    ensures IsSquare(Lower(w), |w|) && IsSquare(Upper(w), |w|)
  {
  }

  lemma DiagonalOf(m: array2<real>)
    requires m.Length0 == m.Length1
    ensures forall i :: 0 <= i < m.Length0 ==> m[i, i] == Entries(m)[i][i]
  {
  }
}
