/** Weights stored in int8, one scale a channel: row-major indices, rounding, and
    how far a weight read back is from the one stored. */
module Weights {

  // ---- Row-major indices ------------------------------------------------------------------

  function Product(dims: seq<nat>): nat {
    if dims == [] then 1 else dims[0] * Product(dims[1..])
  }

  /** Coordinates within a shape. */
  predicate Inside(dims: seq<nat>, at: seq<nat>) {
    |at| == |dims| && forall k | 0 <= k < |dims| :: at[k] < dims[k]
  }

  /** Where row-major order puts a coordinate. */
  function Offset(dims: seq<nat>, at: seq<nat>): nat
    requires |at| == |dims|
  {
    if dims == [] then 0 else at[0] * Product(dims[1..]) + Offset(dims[1..], at[1..])
  }

  lemma {:induction false} OffsetInside(dims: seq<nat>, at: seq<nat>)
    requires Inside(dims, at)
    ensures Offset(dims, at) < Product(dims)
  {
    if dims != [] {
      OffsetInside(dims[1..], at[1..]);
      Below(at[0], dims[0], Offset(dims[1..], at[1..]), Product(dims[1..]));
    }
  }

  lemma Below(a: nat, d: nat, r: nat, p: nat)
    requires a < d && r < p
    ensures a * p + r < d * p
  {
    assert (a + 1) * p <= d * p;
    assert (a + 1) * p == a * p + p;
  }

  lemma {:induction false} ProductSplits(dims: seq<nat>, k: nat)
    requires k <= |dims|
    ensures Product(dims) == Product(dims[..k]) * Product(dims[k..])
  {
    if k == 0 {
      assert dims[0..] == dims;
    } else {
      ProductSplits(dims[1..], k - 1);
      assert dims[..k][1..] == dims[1..][..k - 1] && dims[k..] == dims[1..][k - 1..];
      Assoc(dims[0], Product(dims[..k][1..]), Product(dims[k..]));
    }
  }

  lemma Assoc(a: nat, b: nat, c: nat)
    ensures a * (b * c) == (a * b) * c
  {
  }

  lemma {:induction false} DivideShifted(a: nat, m: nat, r: nat, p: nat)
    requires p > 0
    ensures (a * (m * p) + r) / p == a * m + r / p
  {
    var q := r / p;
    assert r == q * p + r % p;
    Assoc(a, m, p);
    assert a * (m * p) + r == (a * m + q) * p + r % p by { Distributes(a * m, q, p); }
    Quotient(a * m + q, r % p, p);
  }

  lemma Distributes(a: nat, b: nat, p: nat)
    ensures (a + b) * p == a * p + b * p
  {
  }

  lemma MulLe(a: int, b: int, p: nat)
    ensures a <= b ==> a * p <= b * p
  {
  }

  lemma NoMultiple(d: int, p: nat, s: int)
    requires d * p == s && -s < p && s < p
    ensures d == 0
  {
    MulLe(1, d, p);
    MulLe(d, -1, p);
  }

  lemma Quotient(q: nat, r: nat, p: nat)
    requires r < p
    ensures (q * p + r) / p == q
  {
    MulLe(0, q, p);
    assert 0 * p == 0;
    assert q * p >= 0;
    var x: nat := q * p + r;
    DivMod(x, p);
    Subtracted(q, x / p, p);
    NoMultiple(q - x / p, p, x % p - r);
  }

  lemma DivMod(x: nat, p: nat)
    requires p > 0
    ensures x == (x / p) * p + x % p && 0 <= x % p < p && x / p >= 0
  {
  }

  lemma Subtracted(a: int, b: int, p: nat)
    ensures (a - b) * p == a * p - b * p
  {
  }

  lemma Remainder(a: nat, m: nat, r: nat, d: nat)
    requires d > 0
    ensures (a * (m * d) + r) % d == r % d
  {
    DivideShifted(a, m, r, d);
    var x := a * (m * d) + r;
    assert x == (x / d) * d + x % d && r == (r / d) * d + r % d;
    Distributes(a * m, r / d, d);
    Assoc(a, m, d);
  }

  lemma AxisStep(a: nat, outer: nat, d: nat, inner: nat, r: nat)
    requires d > 0 && inner > 0
    ensures ((a * ((outer * d) * inner) + r) / inner) % d == (r / inner) % d
  {
    DivideShifted(a, outer * d, r, inner);
    Remainder(a, outer, r / inner, d);
  }

  lemma ProductThrough(dims: seq<nat>, axis: nat) returns (outer: nat)
    requires axis < |dims|
    ensures Product(dims) == (outer * dims[axis]) * Product(dims[axis + 1..])
  {
    outer := Product(dims[..axis]);
    ProductSplits(dims, axis);
    assert dims[axis..][1..] == dims[axis + 1..];
    Assoc(outer, dims[axis], Product(dims[axis + 1..]));
  }

  lemma AxisFirst(dims: seq<nat>, at: seq<nat>)
    requires Inside(dims, at) && dims != []
    ensures var inner := Product(dims[1..]); inner > 0 && (Offset(dims, at) / inner) % dims[0] == at[0]
  {
    OffsetInside(dims[1..], at[1..]);
    Quotient(at[0], Offset(dims[1..], at[1..]), Product(dims[1..]));
    SmallRemainder(at[0], dims[0]);
  }

  lemma SmallRemainder(a: nat, d: nat)
    requires a < d
    ensures a % d == a
  {
  }

  /** The channel of a row-major index: `(i / inner) % channels` is its coordinate
      along the axis, for every shape and every axis. */
  lemma {:induction false} AxisCoordinate(dims: seq<nat>, at: seq<nat>, axis: nat)
    requires Inside(dims, at) && axis < |dims|
    ensures var inner := Product(dims[axis + 1..]); inner > 0 && (Offset(dims, at) / inner) % dims[axis] == at[axis]
  {
    if axis == 0 {
      AxisFirst(dims, at);
    } else {
      var (rest, below) := (dims[1..], at[1..]);
      AxisCoordinate(rest, below, axis - 1);
      assert rest[axis..] == dims[axis + 1..];
      var outer := ProductThrough(rest, axis - 1);
      AxisStep(at[0], outer, dims[axis], Product(dims[axis + 1..]), Offset(rest, below));
    }
  }

  /** The coordinates of an index. */
  function Coordinates(dims: seq<nat>, i: nat): (r: seq<nat>)
    requires i < Product(dims)
    ensures |r| == |dims|
  {
    if dims == [] then [] else
    var p := Product(dims[1..]);
    RowSize(dims[0], p, i);
    [i / p] + Coordinates(dims[1..], i % p)
  }

  lemma RowSize(d: nat, p: nat, i: nat)
    requires i < d * p
    ensures p > 0 && 0 <= i / p < d && 0 <= i % p < p && i == (i / p) * p + i % p
  {
    assert p == 0 ==> d * p == 0;
    DivMod(i, p);
    MulLe(d, i / p, p);
  }

  /** Every index is where its coordinates are put. */
  lemma {:induction false} OffsetOfCoordinates(dims: seq<nat>, i: nat)
    requires i < Product(dims)
    ensures Inside(dims, Coordinates(dims, i)) && Offset(dims, Coordinates(dims, i)) == i
  {
    if dims != [] {
      var p := Product(dims[1..]);
      RowSize(dims[0], p, i);
      OffsetOfCoordinates(dims[1..], i % p);
      assert Coordinates(dims, i)[1..] == Coordinates(dims[1..], i % p);
      InsideCons(dims, i / p, Coordinates(dims[1..], i % p));
    }
  }

  lemma InsideCons(dims: seq<nat>, a: nat, rest: seq<nat>)
    requires dims != [] && a < dims[0] && Inside(dims[1..], rest)
    ensures Inside(dims, [a] + rest)
  {
    var at := [a] + rest;
    forall k | 0 <= k < |dims| ensures at[k] < dims[k] {
      if k > 0 { assert at[k] == rest[k - 1] && dims[k] == dims[1..][k - 1]; }
    }
  }

  // ---- Rounding ----------------------------------------------------------------------------

  /** To the nearest integer, halves to the even one. */
  function Round(x: real): int {
    var f := x.Floor;
    var over := x - f as real;
    if over < 0.5 then f else if over > 0.5 then f + 1 else if f % 2 == 0 then f else f + 1
  }

  function Clip(q: int): int {
    if q < -127 then -127 else if q > 127 then 127 else q
  }

  function Abs(x: real): real { if x < 0.0 then -x else x }

  lemma RoundNear(x: real)
    ensures Abs(x - Round(x) as real) <= 0.5
    ensures -127.0 <= x <= 127.0 ==> -127 <= Round(x) <= 127
  {
  }

  /** The largest magnitude of some weights. */
  function MaxAbs(values: seq<real>): (m: real)
    ensures m >= 0.0 && forall k | 0 <= k < |values| :: Abs(values[k]) <= m
    ensures m == 0.0 || exists k :: 0 <= k < |values| && Abs(values[k]) == m
  {
    if values == [] then 0.0 else
    var n := |values| - 1;
    var m := MaxAbs(values[..n]);
    assert forall k | 0 <= k < n :: values[..n][k] == values[k];
    assert m == 0.0 || exists k :: 0 <= k < n && Abs(values[k]) == m by {
      if m != 0.0 { var k :| 0 <= k < n && Abs(values[..n][k]) == m; assert Abs(values[k]) == m; }
    }
    if Abs(values[n]) > m then Abs(values[n]) else m
  }

  /** The scale of a channel: its largest magnitude over 127, or 1 if it is all zero. */
  function ScaleOf(max: real): (s: real)
    requires max >= 0.0
    ensures s > 0.0
  {
    if max == 0.0 then 1.0 else max / 127.0
  }

  function Quantised(w: real, scale: real): int
    requires scale > 0.0
  {
    Clip(Round(w / scale))
  }

  /** What an int8 weight stands for. */
  function Back(q: int, scale: real): real {
    q as real * scale
  }

  lemma ScaleLe(a: real, b: real, scale: real)
    requires scale > 0.0
    ensures a < b ==> a * scale < b * scale
    ensures a >= b ==> a * scale >= b * scale
  {
    var d := b - a;
    assert b * scale - a * scale == d * scale;
    assert d > 0.0 ==> d * scale > 0.0;
    assert d <= 0.0 ==> d * scale <= 0.0;
  }

  lemma RatioTimes(w: real, scale: real)
    requires scale > 0.0
    ensures (w / scale) * scale == w
  {
  }

  lemma Bounded(r: real, scale: real, max: real)
    requires scale > 0.0 && 127.0 * scale == max && Abs(r * scale) <= max
    ensures -127.0 <= r <= 127.0
  {
    var least := -127.0;
    assert least * scale == -(127.0 * scale);
    ScaleLe(127.0, r, scale);
    ScaleLe(r, least, scale);
  }

  lemma Ratio(w: real, scale: real, max: real)
    requires max > 0.0 && scale == max / 127.0 && Abs(w) <= max
    ensures scale > 0.0 && -127.0 <= w / scale <= 127.0 && (w / scale) * scale == w
  {
    RatioTimes(w, scale);
    Bounded(w / scale, scale, max);
  }

  lemma Scaled(x: real, y: real, scale: real, w: real, v: real)
    requires scale >= 0.0 && Abs(x - y) <= 0.5 && x * scale == w && y * scale == v
    ensures Abs(v - w) <= 0.5 * scale
  {
    Apart(x, y, scale, w, v);
    Apart(y, x, scale, v, w);
    Within(v - w, 0.5 * scale);
  }

  lemma Within(d: real, bound: real)
    requires -d <= bound && d <= bound
    ensures Abs(d) <= bound
  {
  }

  lemma Apart(x: real, y: real, scale: real, w: real, v: real)
    requires scale >= 0.0 && x - y <= 0.5 && x * scale == w && y * scale == v
    ensures w - v <= 0.5 * scale
  {
    Times(x, y + 0.5, scale);
    assert (y + 0.5) * scale == y * scale + 0.5 * scale;
  }

  lemma Times(a: real, b: real, scale: real)
    requires a <= b && scale >= 0.0
    ensures a * scale <= b * scale
  {
  }

  lemma ZeroWeight(w: real)
    requires Abs(w) <= 0.0
    ensures Quantised(w, 1.0) == 0
  {
    assert w / 1.0 == 0.0;
  }

  lemma ClipInside(q: int)
    ensures -127 <= q <= 127 ==> Clip(q) == q
  {
  }

  lemma HalfScaleOf(w: real, scale: real, max: real)
    requires max > 0.0 && scale == max / 127.0 && Abs(w) <= max
    ensures scale > 0.0 && Abs(Back(Quantised(w, scale), scale) - w) <= 0.5 * scale && -127 <= Quantised(w, scale) <= 127
  {
    var q := Round(w / scale);
    Ratio(w, scale, max);
    RoundNear(w / scale);
    ClipInside(q);
    assert Quantised(w, scale) == q;
    Scaled(w / scale, q as real, scale, w, Back(q, scale));
  }

  /** A weight stored and read back is within half its channel's scale of itself;
      the weights of a channel that is all zero are read back as zero. */
  lemma HalfScale(w: real, max: real)
    requires max >= 0.0 && Abs(w) <= max
    ensures var scale := ScaleOf(max);
            && Abs(Back(Quantised(w, scale), scale) - w) <= 0.5 * scale
            && -127 <= Quantised(w, scale) <= 127
            && (max == 0.0 ==> Back(Quantised(w, scale), scale) == 0.0)
  {
    if max > 0.0 {
      HalfScaleOf(w, ScaleOf(max), max);
    } else {
      ZeroWeight(w);
    }
  }
}
