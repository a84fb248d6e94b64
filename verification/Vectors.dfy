/** Vectors as sequences of reals, and matrices as sequences of columns. */
module Vectors {
  import opened Reals

  type Vec = seq<real>

  function Dot(a: Vec, b: Vec): real
    requires |a| == |b|
  {
    if a == [] then 0.0 else Dot(a[..|a| - 1], b[..|b| - 1]) + a[|a| - 1] * b[|b| - 1]
  }

  function Plus(a: Vec, b: Vec): (r: Vec)
    requires |a| == |b|
    ensures |r| == |a|
  {
    seq(|a|, i requires 0 <= i < |a| => a[i] + b[i])
  }

  function Scale(k: real, a: Vec): (r: Vec)
    ensures |r| == |a|
  {
    seq(|a|, i requires 0 <= i < |a| => Times(k, a[i]))
  }

  function Zeros(n: nat): (r: Vec)
    ensures |r| == n
  {
    seq(n, _ => 0.0)
  }

  ghost predicate IsMatrix(columns: seq<Vec>, rows: nat) {
    forall j :: 0 <= j < |columns| ==> |columns[j]| == rows
  }

  /** The matrix times a vector: that combination of its columns. */
  function Combine(columns: seq<Vec>, x: Vec, rows: nat): (r: Vec)
    requires |columns| == |x| && forall j :: 0 <= j < |columns| ==> |columns[j]| == rows
    ensures |r| == rows
  {
    if columns == [] then Zeros(rows)
    else
      var n := |columns| - 1;
      Plus(Combine(columns[..n], x[..n], rows), Scale(x[n], columns[n]))
  }

  /** The transpose times a vector: its product with every column. */
  function Against(columns: seq<Vec>, v: Vec): (r: Vec)
    requires forall j :: 0 <= j < |columns| ==> |columns[j]| == |v|
    ensures |r| == |columns|
  {
    seq(|columns|, j requires 0 <= j < |columns| => Dot(columns[j], v))
  }

  lemma {:induction false} DotCommutes(a: Vec, b: Vec)
    requires |a| == |b|
    ensures Dot(a, b) == Dot(b, a)
  {
    if a != [] {
      DotCommutes(a[..|a| - 1], b[..|b| - 1]);
    }
  }

  lemma {:induction false} DotPlus(a: Vec, b: Vec, c: Vec)
    requires |a| == |b| == |c|
    ensures Dot(a, Plus(b, c)) == Dot(a, b) + Dot(a, c)
  {
    if a != [] {
      var n := |a| - 1;
      DotPlus(a[..n], b[..n], c[..n]);
      assert Plus(b, c)[..n] == Plus(b[..n], c[..n]);
      Distribute(a[n], b[n], c[n]);
    }
  }

  lemma Distribute(a: real, b: real, c: real)
    ensures a * (b + c) == a * b + a * c
  {
  }

  lemma {:induction false} DotScale(a: Vec, k: real, b: Vec)
    requires |a| == |b|
    ensures Dot(a, Scale(k, b)) == Times(k, Dot(a, b))
  {
    if a != [] {
      var n := |a| - 1;
      DotScale(a[..n], k, b[..n]);
      assert Scale(k, b)[..n] == Scale(k, b[..n]);
      var p, q := Dot(a[..n], b[..n]), a[n] * b[n];
      assert a[n] * (k * b[n]) == k * q;
      Distribute(k, p, q);
    }
  }

  lemma {:induction false} DotZeros(a: Vec)
    ensures Dot(a, Zeros(|a|)) == 0.0
  {
    if a != [] {
      DotZeros(a[..|a| - 1]);
      assert Zeros(|a|)[..|a| - 1] == Zeros(|a| - 1);
    }
  }

  lemma {:induction false} NormIsPositive(a: Vec)
    ensures Dot(a, a) >= 0.0
    ensures Dot(a, a) == 0.0 <==> a == Zeros(|a|)
  {
    if a != [] {
      var n := |a| - 1;
      NormIsPositive(a[..n]);
      SquareNonNegative(a[n]);
      assert a == a[..n] + [a[n]];
      if a[n] != 0.0 {
        SquarePositive(a[n]);
        assert Square(a[n]) == a[n] * a[n];
      }
      if a == Zeros(|a|) {
        assert a[..n] == Zeros(n);
      }
    } else {
      assert a == Zeros(0);
    }
  }

  /** Moving a matrix across a product transposes it. */
  lemma {:induction false} Adjoint(columns: seq<Vec>, x: Vec, v: Vec)
    requires |columns| == |x| && IsMatrix(columns, |v|)
    ensures Dot(v, Combine(columns, x, |v|)) == Dot(x, Against(columns, v))
  {
    if columns == [] {
      DotZeros(v);
    } else {
      hide Dot, Plus, Scale;
      var n := |columns| - 1;
      var rest := Combine(columns[..n], x[..n], |v|);
      Adjoint(columns[..n], x[..n], v);
      DotPlus(v, rest, Scale(x[n], columns[n]));
      DotScale(v, x[n], columns[n]);
      DotCommutes(v, columns[n]);
      DotLast(x, Against(columns, v), n);
      assert Against(columns, v)[..n] == Against(columns[..n], v);
    }
  }

  lemma DotLast(a: Vec, b: Vec, n: nat)
    requires |a| == |b| == n + 1
    ensures Dot(a, b) == Dot(a[..n], b[..n]) + Times(a[n], b[n])
  {
  }

  lemma {:induction false} CombineScales(columns: seq<Vec>, k: real, x: Vec, rows: nat)
    requires |columns| == |x| && IsMatrix(columns, rows)
    ensures Combine(columns, Scale(k, x), rows) == Scale(k, Combine(columns, x, rows))
  {
    if columns != [] {
      var n := |columns| - 1;
      CombineScales(columns[..n], k, x[..n], rows);
      assert Scale(k, x)[..n] == Scale(k, x[..n]);
      var rest := Combine(columns[..n], x[..n], rows);
      forall i | 0 <= i < rows
        ensures Combine(columns, Scale(k, x), rows)[i] == Scale(k, Combine(columns, x, rows))[i]
      {
        assert k * x[n] * columns[n][i] == k * (x[n] * columns[n][i]);
        Distribute(k, rest[i], x[n] * columns[n][i]);
      }
    }
  }

  /** Adding to one entry of a row adds that much of the same entry to its product. */
  lemma {:induction false} DampedRow(plain: Vec, damped: Vec, lam: real, x: Vec, i: nat)
    requires |plain| == |damped| == |x|
    requires forall j :: 0 <= j < |plain| ==> damped[j] == plain[j] + if i == j then lam else 0.0
    ensures Dot(damped, x) == Dot(plain, x) + if i < |x| then lam * x[i] else 0.0
  {
    if plain != [] {
      var n := |plain| - 1;
      hide Dot;
      DampedRow(plain[..n], damped[..n], lam, x[..n], i);
      DotLast(plain, x, n);
      DotLast(damped, x, n);
      DampedEntry(plain[n], damped[n], lam, x[n]);
    } else {
      assert Dot(plain, x) == Dot(damped, x) == 0.0;
    }
  }

  lemma DampedEntry(p: real, d: real, lam: real, x: real)
    ensures d == p ==> Times(d, x) == Times(p, x)
    ensures d == p + lam ==> Times(d, x) == Times(p, x) + lam * x
  {
    Distribute(x, p, lam);
  }

  lemma {:induction false} DotConcat(a: Vec, b: Vec, c: Vec, d: Vec)
    requires |a| == |c| && |b| == |d|
    ensures Dot(a + b, c + d) == Dot(a, c) + Dot(b, d)
  {
    if b == [] {
      assert a + b == a && c + d == c;
    } else {
      var n := |b| - 1;
      DotConcat(a, b[..n], c, d[..n]);
      assert (a + b)[..|a| + n] == a + b[..n] && (c + d)[..|c| + n] == c + d[..n];
    }
  }
}
