/** The detector's map as a grid of pixels, and its 8-connected components. */
module Pixels {
  import opened Ordre

  // ---- Row-major indices ---------------------------------------------------

  lemma MulLess(a: int, b: int, w: int)
    ensures (a - b) * w == a * w - b * w
  {
  }

  lemma MulNotNegative(a: nat, w: nat)
    ensures a * w >= 0
  {
  }

  lemma MulMonotone(a: int, b: int, w: nat)
    requires a >= b
    ensures a * w >= b * w
    ensures a > b ==> a * w >= b * w + w
  {
    MulLess(a, b, w);
    MulNotNegative(a - b, w);
    if a > b {
      MulLess(a - b, 1, w);
      MulNotNegative(a - b - 1, w);
    }
  }

  lemma QuotientUnique(w: nat, q: int, r: int, y: int, x: int)
    requires q * w + r == y * w + x && 0 <= r < w && 0 <= x < w
    ensures q == y && r == x
  {
    if q < y { MulMonotone(y, q, w); }
    if y < q { MulMonotone(q, y, w); }
  }

  /** Row-major index and coordinates determine each other. */
  lemma Coordinates(w: nat, x: nat, y: nat)
    requires x < w
    ensures (y * w + x) % w == x && (y * w + x) / w == y
  {
    var a := y * w + x;
    QuotientUnique(w, a / w, a % w, y, x);
  }

  lemma InGrid(w: nat, h: nat, x: nat, y: nat)
    requires x < w && y < h
    ensures y * w + x < w * h
  {
    MulMonotone(h, y, w);
  }

  lemma RowInGrid(w: nat, h: nat, at: nat)
    requires w > 0 && at < w * h
    ensures at / w < h && at % w < w
  {
    var q := at / w;
    if q >= h { MulMonotone(q, h, w); }
  }

  function Col(w: nat, at: nat): (x: nat)
    requires w > 0
    ensures x < w
  {
    at % w
  }

  function Row(w: nat, at: nat): nat
    requires w > 0
  {
    at / w
  }

  lemma SamePixel(w: nat, a: nat, b: nat)
    requires w > 0 && Col(w, a) == Col(w, b) && Row(w, a) == Row(w, b)
    ensures a == b
  {
    assert a == (a / w) * w + a % w && b == (b / w) * w + b % w;
  }

  // ---- Components -----------------------------------------------------------

  predicate Near(a: nat, b: nat) {
    a <= b + 1 && b <= a + 1
  }

  /** Two pixels that touch, by a side or a corner. */
  predicate Touch(w: nat, a: nat, b: nat)
    requires w > 0
  {
    a != b && Near(Col(w, a), Col(w, b)) && Near(Row(w, a), Row(w, b))
  }

  /** Two lit pixels that touch. */
  ghost function Adjacent(on: seq<bool>, w: nat): (nat, nat) -> bool
    requires w > 0
  {
    (a: nat, b: nat) => a < |on| && on[a] && b < |on| && on[b] && Touch(w, a, b)
  }

  /** A path of lit pixels leads from `a` to `b`. */
  ghost predicate Linked(on: seq<bool>, w: nat, a: nat, b: nat)
    requires w > 0
  {
    a < |on| && on[a] && EnChaine(Adjacent(on, w), a, b)
  }

  ghost function Component(on: seq<bool>, w: nat, a: nat): set<nat>
    requires w > 0
  {
    set b: nat | b < |on| && Linked(on, w, a, b)
  }

  lemma LinkedSelf(on: seq<bool>, w: nat, a: nat)
    requires w > 0 && a < |on| && on[a]
    ensures Linked(on, w, a, a)
  {
    ChaineReflexive(Adjacent(on, w), a);
  }

  lemma LitEnds(on: seq<bool>, w: nat, a: nat, b: nat)
    requires w > 0 && Linked(on, w, a, b)
    ensures a < |on| && on[a] && b < |on| && on[b]
  {
    var p :| ChaineDe(Adjacent(on, w), p, a, b);
    ChaineGarde(Adjacent(on, w), (c: nat) => c < |on| && on[c], p);
  }

  lemma LinkedBack(on: seq<bool>, w: nat, a: nat, b: nat)
    requires w > 0 && Linked(on, w, a, b)
    ensures Linked(on, w, b, a)
  {
    LitEnds(on, w, a, b);
    ChaineSymetrique(Adjacent(on, w), a, b);
  }

  lemma LinkedThrough(on: seq<bool>, w: nat, a: nat, b: nat, c: nat)
    requires w > 0 && Linked(on, w, a, b) && Linked(on, w, b, c)
    ensures Linked(on, w, a, c)
  {
    ChaineTransitive(Adjacent(on, w), a, b, c);
  }

  lemma LinkedStep(on: seq<bool>, w: nat, a: nat, b: nat, c: nat)
    requires w > 0 && Linked(on, w, a, b) && b < |on| && on[b] && c < |on| && on[c] && Touch(w, b, c)
    ensures Linked(on, w, a, c)
  {
    assert ChaineDe(Adjacent(on, w), [b, c], b, c);
    LinkedThrough(on, w, a, b, c);
  }

  /** A set no lit neighbour leads out of. */
  ghost predicate Closed(on: seq<bool>, w: nat, s: set<nat>)
    requires w > 0
  {
    forall a, b: nat | a in s && b < |on| && a < |on| && on[a] && on[b] && Touch(w, a, b) :: b in s
  }

  /** A closed set holds the whole component of each of its pixels. */
  lemma ClosedHoldsComponents(on: seq<bool>, w: nat, s: set<nat>, a: nat)
    requires w > 0 && Closed(on, w, s) && a in s
    ensures Component(on, w, a) <= s
  {
    forall b | b in Component(on, w, a) ensures b in s {
      var p :| ChaineDe(Adjacent(on, w), p, a, b);
      ChaineGarde(Adjacent(on, w), (c: nat) => c in s, p);
    }
  }

  // ---- Neighbours, in the order the fill reads them ----------------------------

  function Offsets(): seq<(int, int)> {
    [(-1, -1), (0, -1), (1, -1), (-1, 0), (1, 0), (-1, 1), (0, 1), (1, 1)]
  }

  predicate Inside(x: int, y: int, w: nat, h: nat) {
    0 <= x < w && 0 <= y < h
  }

  function Kept(x: nat, y: nat, w: nat, h: nat, offsets: seq<(int, int)>): (r: seq<(nat, nat)>)
    ensures forall k | 0 <= k < |r| :: Inside(r[k].0, r[k].1, w, h)
  {
    if offsets == [] then [] else
    var (dx, dy) := offsets[0];
    (if Inside(x + dx, y + dy, w, h) then [(x + dx, y + dy)] else []) + Kept(x, y, w, h, offsets[1..])
  }

  function Neighbours(x: nat, y: nat, w: nat, h: nat): seq<(nat, nat)> {
    Kept(x, y, w, h, Offsets())
  }

  lemma {:induction false} KeptDistinct(x: nat, y: nat, w: nat, h: nat, offsets: seq<(int, int)>)
    requires forall i, j | 0 <= i < j < |offsets| :: offsets[i] != offsets[j]
    ensures forall n :: n in Kept(x, y, w, h, offsets) <==> Inside(n.0, n.1, w, h) && (n.0 - x, n.1 - y) in offsets
    ensures forall i, j | 0 <= i < j < |Kept(x, y, w, h, offsets)| :: Kept(x, y, w, h, offsets)[i] != Kept(x, y, w, h, offsets)[j]
  {
    if offsets != [] {
      KeptDistinct(x, y, w, h, offsets[1..]);
      var (dx, dy) := offsets[0];
      var r := Kept(x, y, w, h, offsets[1..]);
      assert offsets == [offsets[0]] + offsets[1..];
      assert offsets[0] !in offsets[1..];
      forall i | 0 <= i < |r| ensures r[i] != (x + dx, y + dy) { assert r[i] in r; }
    }
  }

  /** Exactly the pixels that touch, each once. */
  lemma NeighboursAre(x: nat, y: nat, w: nat, h: nat)
    requires x < w && y < h
    ensures forall nx: nat, ny: nat :: (nx, ny) in Neighbours(x, y, w, h) <==>
              nx < w && ny < h && (nx, ny) != (x, y) && Near(x, nx) && Near(y, ny)
    ensures forall i, j | 0 <= i < j < |Neighbours(x, y, w, h)| :: Neighbours(x, y, w, h)[i] != Neighbours(x, y, w, h)[j]
  {
    OffsetsDistinct();
    KeptDistinct(x, y, w, h, Offsets());
    forall nx: nat, ny: nat ensures (nx, ny) in Neighbours(x, y, w, h) <==>
      nx < w && ny < h && (nx, ny) != (x, y) && Near(x, nx) && Near(y, ny)
    {
      NeighbourIs(x, y, w, h, nx, ny);
    }
  }

  lemma OffsetsDistinct()
    ensures forall i, j | 0 <= i < j < |Offsets()| :: Offsets()[i] != Offsets()[j]
  {
  }

  lemma NeighbourKept(x: nat, y: nat, w: nat, h: nat, n: (nat, nat), offsets: seq<(int, int)>)
    requires forall i, j | 0 <= i < j < |offsets| :: offsets[i] != offsets[j]
    ensures n in Kept(x, y, w, h, offsets) <==> Inside(n.0, n.1, w, h) && (n.0 - x, n.1 - y) in offsets
  {
    KeptDistinct(x, y, w, h, offsets);
  }

  lemma NeighbourIs(x: nat, y: nat, w: nat, h: nat, nx: nat, ny: nat)
    requires x < w && y < h
    ensures (nx, ny) in Neighbours(x, y, w, h) <==> nx < w && ny < h && (nx, ny) != (x, y) && Near(x, nx) && Near(y, ny)
  {
    OffsetsDistinct();
    NeighbourKept(x, y, w, h, (nx, ny), Offsets());
    OffsetsAre(nx - x, ny - y);
  }

  lemma OffsetsAre(dx: int, dy: int)
    ensures (dx, dy) in Offsets() <==> -1 <= dx <= 1 && -1 <= dy <= 1 && (dx, dy) != (0, 0)
  {
    var o := Offsets();
    assert o[0] == (-1, -1) && o[1] == (0, -1) && o[2] == (1, -1) && o[3] == (-1, 0);
    assert o[4] == (1, 0) && o[5] == (-1, 1) && o[6] == (0, 1) && o[7] == (1, 1);
  }
}
