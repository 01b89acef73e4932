/** The detector's whole pass: every component visited once, boxed, scored, and
    the boxes numbered by line. */
module DetectLines {
  import opened Ordre
  import opened Pixels
  import opened Detect

  // ---- Boxes ------------------------------------------------------------------

  function RMax(a: real, b: real): real { if a >= b then a else b }

  function RMin(a: real, b: real): real { if a <= b then a else b }

  /** Area times the unclip ratio over the perimeter. */
  function GrowOf(bw: int, bh: int): real {
    if bw + bh == 0 then 0.0 else (bw as real) * (bh as real) * UNCLIP / (2.0 * ((bw + bh) as real))
  }

  /** The box of a region, grown and brought back to the page; none if it is too
      thin or too faint. */
  function Box(r: Region, w: nat, h: nat, scale: real): Option<Segment>
    requires scale > 0.0
  {
    var (bw, bh) := (r.x1 - r.x0 + 1, r.y1 - r.y0 + 1);
    if Min(bw, bh) < MIN_SIDE || r.count == 0 || r.sum / (r.count as real) < BOX_THRESHOLD then None else
    Some(Grown(r, w, h, scale, GrowOf(bw, bh)))
  }

  /** A region's bounds grown each side, clipped by the map, on the page's scale. */
  function Grown(r: Region, w: nat, h: nat, scale: real, grow: real): Segment
    requires scale > 0.0
  {
    var x := RMax(r.x0 as real - grow, 0.0);
    var y := RMax(r.y0 as real - grow, 0.0);
    var right := RMin(r.x1 as real + 1.0 + grow, w as real);
    var bottom := RMin(r.y1 as real + 1.0 + grow, h as real);
    Segment(0, x / scale, y / scale, (right - x) / scale, (bottom - y) / scale)
  }

  /** Two pixels of the set are two columns apart at least. */
  ghost predicate Wide(w: nat, s: set<nat>)
    requires w > 0
  {
    exists p, q :: p in s && q in s && Col(w, q) >= Col(w, p) + 2
  }

  /** Two pixels of the set are two rows apart at least. */
  ghost predicate High(w: nat, s: set<nat>)
    requires w > 0
  {
    exists p, q :: p in s && q in s && Row(w, q) >= Row(w, p) + 2
  }

  lemma SpreadOf(map_: seq<real>, w: nat, s: set<nat>, r: Region)
    requires w > 0 && Measures(map_, w, s, r)
    ensures r.x1 - r.x0 >= 2 <==> Wide(w, s)
    ensures r.y1 - r.y0 >= 2 <==> High(w, s)
  {
    var a, b :| a in s && b in s && Col(w, a) == r.x0 && Col(w, b) == r.x1;
    var c, d :| c in s && d in s && Row(w, c) == r.y0 && Row(w, d) == r.y1;
  }

  /** A set of pixels gets a box if and only if it spans three columns and three rows
      and holds half as much light, at least, as it has pixels. */
  lemma KeptIff(map_: seq<real>, w: nat, h: nat, s: set<nat>, scale: real)
    requires w > 0 && scale > 0.0 && s != {} && |map_| == w * h && forall p | p in s :: p < |map_|
    ensures Box(RegionOf(map_, w, h, s), w, h, scale).Some? <==>
            Wide(w, s) && High(w, s) && SumOver(map_, s, |map_|) >= 0.5 * |s| as real
  {
    var r := RegionOf(map_, w, h, s);
    SpreadOf(map_, w, s, r);
    MeanAbove(r.sum, r.count, BOX_THRESHOLD);
  }

  lemma MeanAbove(sum: real, count: nat, bound: real)
    requires count > 0
    ensures sum / count as real < bound <==> sum < bound * count as real
  {
    var (n, mean) := (count as real, sum / count as real);
    assert mean * n == sum;
    assert mean < bound ==> (bound - mean) * n > 0.0;
    assert mean >= bound ==> (mean - bound) * n >= 0.0;
    assert (bound - mean) * n == bound * n - mean * n && (mean - bound) * n == mean * n - bound * n;
  }

  lemma GrowIs(bw: int, bh: int)
    requires bw > 0 && bh > 0
    ensures MarginFor(GrowOf(bw, bh), bw, bh)
  {
    var (area, perimeter) := ((bw as real) * (bh as real) * UNCLIP, 2.0 * (bw + bh) as real);
    ScaleBack(area, perimeter);
  }

  /** A margin that times the perimeter is 1.6 times the area. */
  predicate MarginFor(margin: real, bw: int, bh: int) {
    margin * (2.0 * (bw + bh) as real) == (bw as real) * (bh as real) * 1.6
  }

  /** From `start`, over `size`, on a page `scale` times smaller: the margin before `lo` and
      past `hi`, or what there is of it between 0 and `bound`. */
  predicate PassesSide(start: real, size: real, scale: real, lo: real, hi: real, margin: real, bound: real) {
    && start * scale == (if margin <= lo then lo - margin else 0.0)
    && (start + size) * scale == (if hi + 1.0 + margin <= bound then hi + 1.0 + margin else bound)
  }

  /** On all four sides the box passes the bounds by one margin, or stops at the edge of the map. */
  predicate Passes(b: Segment, r: Region, w: nat, h: nat, scale: real, margin: real) {
    && PassesSide(b.x, b.width, scale, r.x0 as real, r.x1 as real, margin, w as real)
    && PassesSide(b.y, b.height, scale, r.y0 as real, r.y1 as real, margin, h as real)
  }

  lemma SidePasses(lo: real, hi: real, bound: real, grow: real, scale: real, start: real, size: real)
    requires scale > 0.0
    requires start == RMax(lo - grow, 0.0) / scale && size == (RMin(hi + 1.0 + grow, bound) - RMax(lo - grow, 0.0)) / scale
    ensures PassesSide(start, size, scale, lo, hi, grow, bound)
  {
    ScaleBack(RMax(lo - grow, 0.0), scale);
    SideBack(RMax(lo - grow, 0.0), RMin(hi + 1.0 + grow, bound), scale);
  }

  /** A box passes the bounds it was grown from by one margin, which times their perimeter
      is 1.6 times their area, on each of its four sides where the map has room for it, and
      stops at the edge of the map where it has not. */
  lemma BoxGrown(r: Region, w: nat, h: nat, scale: real, b: Segment) returns (margin: real)
    requires scale > 0.0 && r.x0 <= r.x1 && r.y0 <= r.y1 && Box(r, w, h, scale) == Some(b)
    ensures margin > 0.0 && MarginFor(margin, r.x1 - r.x0 + 1, r.y1 - r.y0 + 1) && Passes(b, r, w, h, scale, margin)
  {
    margin := GrowOf(r.x1 - r.x0 + 1, r.y1 - r.y0 + 1);
    SidePasses(r.x0 as real, r.x1 as real, w as real, margin, scale, b.x, b.width);
    SidePasses(r.y0 as real, r.y1 as real, h as real, margin, scale, b.y, b.height);
    GrowIs(r.x1 - r.x0 + 1, r.y1 - r.y0 + 1);
    GrowPositive(r.x1 - r.x0 + 1, r.y1 - r.y0 + 1);
  }

  lemma GrowPositive(bw: int, bh: int)
    requires bw > 0 && bh > 0
    ensures GrowOf(bw, bh) > 0.0
  {
    var n := (bw as real) * (bh as real) * UNCLIP;
    assert (bw as real) * (bh as real) > 0.0;
    assert n > 0.0;
  }

  lemma ScaleBack(v: real, scale: real)
    requires scale > 0.0
    ensures v / scale * scale == v
  {
  }

  lemma SideBack(x: real, right: real, scale: real)
    requires scale > 0.0
    ensures (x / scale + (right - x) / scale) * scale == right
  {
    ScaleBack(x, scale);
    ScaleBack(right - x, scale);
  }

  /** One side of a box: it holds the run it was grown from, within the map. */
  lemma SpanHolds(lo: real, hi: real, bound: real, grow: real, scale: real)
    requires scale > 0.0 && grow > 0.0 && 0.0 <= lo && hi + 1.0 <= bound
    ensures var (a, b) := (RMax(lo - grow, 0.0), RMin(hi + 1.0 + grow, bound));
            0.0 <= a / scale * scale <= lo && hi + 1.0 <= (a / scale + (b - a) / scale) * scale <= bound
  {
    var (a, b) := (RMax(lo - grow, 0.0), RMin(hi + 1.0 + grow, bound));
    ScaleBack(a, scale);
    SideBack(a, b, scale);
  }

  /** A pixel lies on the map between two sides brought back to it. */
  predicate Between(start: real, size: real, scale: real, v: nat, bound: nat) {
    0.0 <= start * scale <= v as real && v as real + 1.0 <= (start + size) * scale <= bound as real
  }

  lemma SpanAround(lo: nat, hi: nat, bound: nat, grow: real, scale: real, v: nat)
    requires scale > 0.0 && grow > 0.0 && lo <= v <= hi < bound
    ensures var (a, b) := (RMax(lo as real - grow, 0.0), RMin(hi as real + 1.0 + grow, bound as real));
            Between(a / scale, (b - a) / scale, scale, v, bound)
  {
    SpanHolds(lo as real, hi as real, bound as real, grow, scale);
  }

  /** On the map, a box holds every pixel of its region and stays on the page. */
  lemma BoxHolds(map_: seq<real>, w: nat, h: nat, s: set<nat>, r: Region, scale: real, p: nat)
    requires w > 0 && scale > 0.0 && |map_| == w * h && Measures(map_, w, s, r) && p in s && (forall q | q in s :: q < |map_|)
    requires Box(r, w, h, scale).Some?
    ensures var b := Box(r, w, h, scale).value;
            Between(b.x, b.width, scale, Col(w, p), w) && Between(b.y, b.height, scale, Row(w, p), h)
  {
    var grow := GrowOf(r.x1 - r.x0 + 1, r.y1 - r.y0 + 1);
    GrowPositive(r.x1 - r.x0 + 1, r.y1 - r.y0 + 1);
    RegionInGrid(map_, w, h, s, r);
    SpanAround(r.x0, r.x1, w, grow, scale, Col(w, p));
    SpanAround(r.y0, r.y1, h, grow, scale, Row(w, p));
  }

  lemma RegionInGrid(map_: seq<real>, w: nat, h: nat, s: set<nat>, r: Region)
    requires w > 0 && |map_| == w * h && Measures(map_, w, s, r) && (forall q | q in s :: q < |map_|)
    ensures 0 <= r.x0 <= r.x1 < w && 0 <= r.y0 <= r.y1 < h
  {
    var p :| p in s && Col(w, p) == r.x1;
    var q :| q in s && Row(w, q) == r.y1;
    RowInGrid(w, h, q);
    var a :| a in s && Col(w, a) == r.x0;
    var b :| b in s && Row(w, b) == r.y0;
  }

  // ---- Components in scan order --------------------------------------------------

  /** `a` is the first pixel of its component in scan order. */
  ghost predicate First(on: seq<bool>, w: nat, a: nat)
    requires w > 0
  {
    a < |on| && on[a] && forall c: nat | c < a :: !Linked(on, w, c, a)
  }

  /** The first pixel of each component that has one below `n`. */
  ghost function Firsts(on: seq<bool>, w: nat, n: nat): seq<nat>
    requires w > 0
  {
    if n == 0 then [] else Firsts(on, w, n - 1) + if First(on, w, n - 1) then [n - 1] else []
  }

  /** `q` lists the pixels below `n` that are first of their components, in order. */
  ghost predicate FirstsBelow(on: seq<bool>, w: nat, q: seq<nat>, n: nat)
    requires w > 0
  {
    && (forall a: nat :: a in q <==> a < n && First(on, w, a))
    && (forall i, j | 0 <= i < j < |q| :: q[i] < q[j])
  }

  lemma FirstsMore(on: seq<bool>, w: nat, q: seq<nat>, n: nat)
    requires w > 0 && FirstsBelow(on, w, q, n)
    ensures FirstsBelow(on, w, if First(on, w, n) then q + [n] else q, n + 1)
  {
    forall k | 0 <= k < |q| ensures q[k] < n { assert q[k] in q; }
  }

  lemma FirstsNext(on: seq<bool>, w: nat, n: nat)
    requires w > 0 && n > 0
    ensures Firsts(on, w, n) == if First(on, w, n - 1) then Firsts(on, w, n - 1) + [n - 1] else Firsts(on, w, n - 1)
  {
    assert Firsts(on, w, n - 1) + [] == Firsts(on, w, n - 1);
  }

  lemma FirstsStep(on: seq<bool>, w: nat, n: nat)
    requires w > 0 && FirstsBelow(on, w, Firsts(on, w, n), n)
    ensures FirstsBelow(on, w, Firsts(on, w, n + 1), n + 1)
  {
    FirstsNext(on, w, n + 1);
    FirstsMore(on, w, Firsts(on, w, n), n);
  }

  lemma {:induction false} FirstsAre(on: seq<bool>, w: nat, n: nat)
    requires w > 0
    ensures FirstsBelow(on, w, Firsts(on, w, n), n)
    decreases n
  {
    if n > 0 {
      FirstsAre(on, w, n - 1);
      FirstsStep(on, w, n - 1);
    }
  }

  lemma {:induction false} LeastLinked(on: seq<bool>, w: nat, p: nat, n: nat) returns (a: nat)
    requires w > 0 && p < |on| && on[p] && n <= p
    requires forall c: nat | c < n :: !Linked(on, w, c, p)
    ensures First(on, w, a) && Linked(on, w, a, p)
    decreases p - n
  {
    if n < p && !Linked(on, w, n, p) {
      a := LeastLinked(on, w, p, n + 1);
    } else {
      a := n;
      if n == p { LinkedSelf(on, w, p); }
      forall c: nat | c < a ensures !Linked(on, w, c, a) {
        if Linked(on, w, c, a) { LinkedThrough(on, w, c, a, p); }
      }
    }
  }

  /** The components the fill visits cover every lit pixel, each exactly once. */
  lemma ComponentsPartition(on: seq<bool>, w: nat, p: nat)
    requires w > 0 && p < |on| && on[p]
    ensures exists a :: a in Firsts(on, w, |on|) && p in Component(on, w, a)
    ensures forall a, b | a in Firsts(on, w, |on|) && b in Firsts(on, w, |on|) && p in Component(on, w, a) && p in Component(on, w, b) :: a == b
  {
    FirstsAre(on, w, |on|);
    var a := LeastLinked(on, w, p, 0);
    assert a in Firsts(on, w, |on|) && p in Component(on, w, a);
    forall a, b | a in Firsts(on, w, |on|) && b in Firsts(on, w, |on|) && p in Component(on, w, a) && p in Component(on, w, b)
      ensures a == b
    {
      LinkedBack(on, w, b, p);
      LinkedThrough(on, w, a, p, b);
      LinkedBack(on, w, a, b);
    }
  }

  /** Two lit pixels fall in one visit if and only if a path of lit neighbours
      joins them. */
  lemma OneVisitIffLinked(on: seq<bool>, w: nat, p: nat, q: nat)
    requires w > 0 && p < |on| && on[p] && q < |on| && on[q]
    ensures (exists a :: a in Firsts(on, w, |on|) && p in Component(on, w, a) && q in Component(on, w, a)) <==> Linked(on, w, p, q)
  {
    ComponentsPartition(on, w, p);
    if a :| a in Firsts(on, w, |on|) && p in Component(on, w, a) && q in Component(on, w, a) {
      LinkedBack(on, w, a, p);
      LinkedThrough(on, w, p, a, q);
    }
    if Linked(on, w, p, q) {
      var a :| a in Firsts(on, w, |on|) && p in Component(on, w, a);
      LinkedThrough(on, w, a, p, q);
      assert q in Component(on, w, a);
    }
  }

  // ---- The pass over the map -------------------------------------------------------

  /** The boxes of the components first met below `n`, in scan order. */
  ghost function Boxes(map_: seq<real>, on: seq<bool>, w: nat, h: nat, scale: real, n: nat): seq<Segment>
    requires w > 0 && scale > 0.0 && |on| == |map_| == w * h && n <= |on|
  {
    if n == 0 then [] else
    var avant := Boxes(map_, on, w, h, scale, n - 1);
    if !First(on, w, n - 1) then avant else
    (LinkedSelf(on, w, n - 1);
     assert n - 1 in Component(on, w, n - 1);
     match Box(RegionOf(map_, w, h, Component(on, w, n - 1)), w, h, scale)
     case Some(b) => avant + [b]
     case None => avant)
  }

  /** Marked so far: the components of the lit pixels below `n`. */
  ghost predicate Scanned(on: seq<bool>, w: nat, seen: seq<bool>, n: nat)
    requires w > 0
  {
    |seen| == |on| && forall b: nat :: b in Marked(seen) <==> b < |on| && exists a: nat :: a < n && a < |on| && on[a] && Linked(on, w, a, b)
  }

  lemma ScannedClosed(on: seq<bool>, w: nat, seen: seq<bool>, n: nat)
    requires w > 0 && Scanned(on, w, seen, n)
    ensures Closed(on, w, Marked(seen))
  {
    forall a, b: nat | a in Marked(seen) && b < |on| && a < |on| && on[a] && on[b] && Touch(w, a, b) ensures b in Marked(seen) {
      var c: nat :| c < n && c < |on| && on[c] && Linked(on, w, c, a);
      LinkedStep(on, w, c, a, b);
    }
  }

  lemma ScannedNext(on: seq<bool>, w: nat, seen: seq<bool>, seen': seq<bool>, n: nat)
    requires w > 0 && n < |on| && Scanned(on, w, seen, n) && |seen'| == |on|
    requires Marked(seen') == if on[n] && !seen[n] then Marked(seen) + Component(on, w, n) else Marked(seen)
    ensures Scanned(on, w, seen', n + 1)
    ensures First(on, w, n) <==> on[n] && !seen[n]
  {
    if on[n] && !seen[n] {
      assert n !in Marked(seen);
      forall c: nat | c < n ensures !Linked(on, w, c, n) {
        if Linked(on, w, c, n) { LitEnds(on, w, c, n); }
      }
    } else if on[n] {
      assert n in Marked(seen);
      var c: nat :| c < n && c < |on| && on[c] && Linked(on, w, c, n);
      forall b: nat | Linked(on, w, n, b) ensures Linked(on, w, c, b) { LinkedThrough(on, w, c, n, b); }
    }
  }

  /** The box of the component of `start`, measured by a visit. */
  lemma BoxNext(map_: seq<real>, on: seq<bool>, w: nat, h: nat, scale: real, start: nat, region: Region)
    requires w > 0 && scale > 0.0 && |on| == |map_| == w * h && start < |on| && First(on, w, start)
    requires Component(on, w, start) != {} && Measures(map_, w, Component(on, w, start), region)
    ensures Boxes(map_, on, w, h, scale, start + 1) ==
            Boxes(map_, on, w, h, scale, start) + if Box(region, w, h, scale).Some? then [Box(region, w, h, scale).value] else []
  {
    MeasuresUnique(map_, w, Component(on, w, start), region, RegionOf(map_, w, h, Component(on, w, start)));
  }

  /** One step of the scan: the fill from `start` if it is lit and unmarked. */
  method ScanOne(map_: seq<real>, on: array<bool>, seen: array<bool>, w: nat, h: nat, scale: real, start: nat) returns (box: Option<Segment>)
    requires w > 0 && scale > 0.0 && |map_| == on.Length == seen.Length == w * h && on != seen && start < on.Length
    requires Scanned(on[..], w, seen[..], start)
    modifies seen
    ensures Scanned(on[..], w, seen[..], start + 1)
    ensures Boxes(map_, on[..], w, h, scale, start + 1) == Boxes(map_, on[..], w, h, scale, start) + if box.Some? then [box.value] else []
  {
    ghost var (lit, seen0) := (on[..], seen[..]);
    ScannedClosed(lit, w, seen0, start);
    box := None;
    if on[start] && !seen[start] {
      var region := Visit(map_, on, seen, w, h, start);
      ScannedNext(lit, w, seen0, seen[..], start);
      BoxNext(map_, lit, w, h, scale, start, region);
      box := Box(region, w, h, scale);
    } else {
      ScannedNext(lit, w, seen0, seen[..], start);
    }
  }

  lemma NothingScanned(on: seq<bool>, w: nat, seen: seq<bool>)
    requires w > 0 && |seen| == |on| && forall k | 0 <= k < |seen| :: !seen[k]
    ensures Scanned(on, w, seen, 0)
  {
  }

  /** The flood fill over the whole map: one box for each component that is
      thick and bright enough, in scan order. */
  method FindBoxes(map_: seq<real>, w: nat, h: nat, scale: real) returns (found: seq<Segment>)
    requires w > 0 && scale > 0.0 && |map_| == w * h
    ensures found == Boxes(map_, Dilated(map_, w), w, h, scale, |map_|)
  {
    var on := Dilate(map_, w, h);
    ghost var lit := on[..];
    var seen := new bool[|map_|](_ => false);
    found := [];
    NothingScanned(lit, w, seen[..]);
    NoBoxes(map_, lit, w, h, scale);
    for start := 0 to |map_|
      invariant on[..] == lit
      invariant ScannedTo(map_, lit, w, h, scale, seen[..], found, start)
    {
      var box := ScanOne(map_, on, seen, w, h, scale, start);
      if box.Some? { found := found + [box.value]; }
    }
  }

  /** The pixels before `n` have been visited, and `found` holds their boxes. */
  ghost predicate ScannedTo(map_: seq<real>, on: seq<bool>, w: nat, h: nat, scale: real, seen: seq<bool>, found: seq<Segment>, n: nat)
    requires w > 0 && scale > 0.0 && |on| == |map_| == w * h && n <= |on|
  {
    Scanned(on, w, seen, n) && found == Boxes(map_, on, w, h, scale, n)
  }

  lemma NoBoxes(map_: seq<real>, on: seq<bool>, w: nat, h: nat, scale: real)
    requires w > 0 && scale > 0.0 && |on| == |map_| == w * h
    ensures Boxes(map_, on, w, h, scale, 0) == []
  {
  }

  // ---- Lines ---------------------------------------------------------------------------

  function Middle(s: Segment): real {
    s.y + s.height / 2.0
  }

  predicate Higher(a: Segment, b: Segment) {
    Middle(a) <= Middle(b)
  }

  predicate ReadsBefore(a: Segment, b: Segment) {
    a.line < b.line || (a.line == b.line && a.x <= b.x)
  }

  function Abs(v: real): real { if v < 0.0 then -v else v }

  /** Close enough to the middle its line started at. */
  predicate OnLevel(s: Segment, level: real) {
    Abs(Middle(s) - level) < s.height / 2.0
  }

  /** For each segment, the index of the one that started its line. */
  function Starts(sorted: seq<Segment>): (starts: seq<nat>)
    ensures |starts| == |sorted| && forall k | 0 <= k < |sorted| :: starts[k] <= k
  {
    if sorted == [] then [] else
    var n := |sorted| - 1;
    var avant := Starts(sorted[..n]);
    if n > 0 && OnLevel(sorted[n], Middle(sorted[avant[n - 1]])) then avant + [avant[n - 1]] else avant + [n]
  }

  /** How many lines the first `k + 1` segments start, less one. */
  function LineOf(starts: seq<nat>, k: nat): nat
    requires k < |starts|
  {
    if k == 0 then 0 else LineOf(starts, k - 1) + if starts[k] == k then 1 else 0
  }

  function Numbered(sorted: seq<Segment>): (r: seq<Segment>)
    ensures |r| == |sorted|
    ensures forall k | 0 <= k < |sorted| :: r[k] == sorted[k].(line := LineOf(Starts(sorted), k))
  {
    var starts := Starts(sorted);
    seq(|sorted|, k requires 0 <= k < |sorted| => sorted[k].(line := LineOf(starts, k)))
  }

  lemma {:induction false} StartsPrefix(sorted: seq<Segment>, n: nat)
    requires n <= |sorted|
    ensures Starts(sorted[..n]) == Starts(sorted)[..n]
  {
    if n == |sorted| {
      assert sorted[..n] == sorted;
    } else {
      var d := sorted[..|sorted|-1];
      StartsPrefix(d, n);
      assert d[..n] == sorted[..n];
    }
  }

  /** The level and the line number once `k` segments are numbered. */
  function StateAfter(sorted: seq<Segment>, k: nat): (Option<real>, nat)
    requires k <= |sorted|
  {
    if k == 0 then (None, 0) else (Some(Middle(sorted[Starts(sorted)[k - 1]])), LineOf(Starts(sorted), k - 1))
  }

  /** The same, once segment `s` is numbered. */
  function Next(s: Segment, state: (Option<real>, nat)): (Option<real>, nat) {
    if state.0.None? then (Some(Middle(s)), state.1)
    else if OnLevel(s, state.0.value) then state
    else (Some(Middle(s)), state.1 + 1)
  }

  lemma StateNext(sorted: seq<Segment>, k: nat)
    requires k < |sorted|
    ensures StateAfter(sorted, k + 1) == Next(sorted[k], StateAfter(sorted, k))
    ensures Numbered(sorted)[k] == sorted[k].(line := StateAfter(sorted, k + 1).1)
  {
    StartsPrefix(sorted, k + 1);
    StartsPrefix(sorted, k);
    assert sorted[..k + 1][..k] == sorted[..k];
  }

  /** The same, by the pass itself. */
  function Passed(sorted: seq<Segment>, k: nat): (Option<real>, nat)
    requires k <= |sorted|
  {
    if k == 0 then (None, 0) else Next(sorted[k - 1], Passed(sorted, k - 1))
  }

  lemma PassedNext(sorted: seq<Segment>, k: nat)
    requires k < |sorted| && Passed(sorted, k) == StateAfter(sorted, k)
    ensures Passed(sorted, k + 1) == StateAfter(sorted, k + 1)
  {
    StateNext(sorted, k);
  }

  lemma {:induction false} PassedIs(sorted: seq<Segment>, k: nat)
    requires k <= |sorted|
    ensures Passed(sorted, k) == StateAfter(sorted, k)
    decreases k
  {
    if k > 0 {
      PassedIs(sorted, k - 1);
      PassedNext(sorted, k - 1);
    }
  }

  lemma NumberedAt(sorted: seq<Segment>, k: nat)
    requires k < |sorted|
    ensures Numbered(sorted)[k] == sorted[k].(line := Passed(sorted, k + 1).1)
  {
    StateNext(sorted, k);
    PassedIs(sorted, k + 1);
  }

  /** `now` once the pass has numbered the segments before `k`. */
  ghost predicate PassedTo(sorted: seq<Segment>, now: seq<Segment>, k: nat) {
    |now| == |sorted| && forall j | 0 <= j < |now| :: now[j] == if j < k then sorted[j].(line := Passed(sorted, j + 1).1) else sorted[j]
  }

  lemma PassedOne(sorted: seq<Segment>, now: seq<Segment>, k: nat)
    requires k < |sorted| && PassedTo(sorted, now, k)
    ensures now[k] == sorted[k] && Passed(sorted, k + 1) == Next(now[k], Passed(sorted, k))
    ensures PassedTo(sorted, now[k := now[k].(line := Passed(sorted, k + 1).1)], k + 1)
  {
  }

  lemma NumberedIs(sorted: seq<Segment>, r: seq<Segment>)
    requires PassedTo(sorted, r, |sorted|)
    ensures r == Numbered(sorted)
  {
    forall j | 0 <= j < |r| ensures r[j] == Numbered(sorted)[j] { NumberedAt(sorted, j); }
  }


  /** Numbers segments sorted by height, in place, in one pass. */
  method NumberInPlace(segments: array<Segment>)
    modifies segments
    ensures segments[..] == Numbered(old(segments[..]))
  {
    ghost var sorted := segments[..];
    var line: nat := 0;
    var level: Option<real> := None;
    for k := 0 to segments.Length
      invariant PassedTo(sorted, segments[..], k)
      invariant (level, line) == Passed(sorted, k)
    {
      PassedOne(sorted, segments[..], k);
      var segment := segments[k];
      var next := Next(segment, (level, line));
      level, line := next.0, next.1;
      segments[k] := segment.(line := line);
    }
    NumberedIs(sorted, segments[..]);
  }

  /** Lines numbered top to bottom, segments left to right on each. */
  function Lines(segments: seq<Segment>): seq<Segment> {
    Trier(ReadsBefore, Numbered(Trier(Higher, segments)))
  }

  method NumberLines(segments: seq<Segment>) returns (r: seq<Segment>)
    ensures r == Lines(segments)
  {
    var sorted := Trier(Higher, segments);
    var a := new Segment[|sorted|](k requires 0 <= k < |sorted| => sorted[k]);
    assert a[..] == sorted;
    NumberInPlace(a);
    r := Trier(ReadsBefore, a[..]);
  }

  function Bare(s: Segment): Segment { s.(line := 0) }

  lemma {:induction false} LineStep(starts: seq<nat>, i: nat, k: nat)
    requires i <= k < |starts|
    ensures LineOf(starts, i) <= LineOf(starts, k)
  {
    if i < k { LineStep(starts, i, k - 1); }
  }

  /** Every segment comes out once with nothing but its line changed, in reading
      order: by line, then left to right. */
  lemma LinesOrder(segments: seq<Segment>)
    ensures multiset(Image(Bare, Lines(segments))) == multiset(Image(Bare, segments))
    ensures forall i, j | 0 <= i < j < |Lines(segments)| ::
              || Lines(segments)[i].line < Lines(segments)[j].line
              || (Lines(segments)[i].line == Lines(segments)[j].line && Lines(segments)[i].x <= Lines(segments)[j].x)
  {
    var sorted := Trier(Higher, segments);
    TrierPermute(Higher, segments);
    ImagePermute(Bare, sorted, segments);
    assert Image(Bare, Numbered(sorted)) == Image(Bare, sorted);
    TrierPermute(ReadsBefore, Numbered(sorted));
    ImagePermute(Bare, Lines(segments), Numbered(sorted));
    assert Total(ReadsBefore) && Transitif(ReadsBefore);
    TrierTrie(ReadsBefore, Numbered(sorted));
    forall i, j | 0 <= i < j < |Lines(segments)| ensures ReadsBefore(Lines(segments)[i], Lines(segments)[j]) {}
  }

  lemma StartsShorter(sorted: seq<Segment>, n: nat, j: nat)
    requires j < n == |sorted| - 1
    ensures Starts(sorted)[j] == Starts(sorted[..n])[j] && Starts(sorted[..n])[j] <= j && sorted[..n][j] == sorted[j]
  {
  }

  lemma StartsLast(sorted: seq<Segment>, n: nat)
    requires n == |sorted| - 1
    ensures Starts(sorted)[n] == if n > 0 && OnLevel(sorted[n], Middle(sorted[Starts(sorted)[n - 1]])) then Starts(sorted)[n - 1] else n
  {
  }

  lemma {:induction false} StartsAre(sorted: seq<Segment>, k: nat)
    requires k < |sorted|
    ensures var starts := Starts(sorted);
            && starts[starts[k]] == starts[k]
            && (k > 0 ==> starts[k] == k || starts[k] == starts[k - 1])
            && (starts[k] != k ==> OnLevel(sorted[k], Middle(sorted[starts[k]])))
            && (k > 0 && starts[k] == k ==> !OnLevel(sorted[k], Middle(sorted[starts[k - 1]])))
    decreases |sorted|
  {
    var n := |sorted| - 1;
    if k < n {
      StartsAre(sorted[..n], k);
      StartsShorter(sorted, n, k);
      StartsShorter(sorted, n, Starts(sorted[..n])[k]);
      if k > 0 {
        StartsShorter(sorted, n, k - 1);
        StartsShorter(sorted, n, Starts(sorted[..n])[k - 1]);
      }
    } else {
      StartsLast(sorted, n);
      if n > 0 {
        StartsAre(sorted[..n], n - 1);
        StartsShorter(sorted, n, n - 1);
        StartsShorter(sorted, n, Starts(sorted[..n])[n - 1]);
      }
    }
  }

  lemma {:induction false} SameStartSameLine(sorted: seq<Segment>, k: nat)
    requires k < |sorted|
    ensures LineOf(Starts(sorted), k) == LineOf(Starts(sorted), Starts(sorted)[k])
  {
    StartsAre(sorted, k);
    if Starts(sorted)[k] != k { SameStartSameLine(sorted, k - 1); }
  }

  /** Segments share a line if and only if the same segment started it; each is
      within half its own height of that one's middle, and one starts a line
      only where it is not so of the line above. */
  lemma LinesByLevel(sorted: seq<Segment>, i: nat, k: nat)
    requires i <= k < |sorted|
    ensures LineOf(Starts(sorted), i) == LineOf(Starts(sorted), k) <==> Starts(sorted)[i] == Starts(sorted)[k]
  {
    var starts := Starts(sorted);
    SameStartSameLine(sorted, i);
    SameStartSameLine(sorted, k);
    StartsMonotone(sorted, i, k);
    StartsAre(sorted, k);
    StartsAre(sorted, i);
    if starts[i] < starts[k] {
      LineStep(starts, starts[i], starts[k] - 1);
    }
  }

  lemma {:induction false} StartsMonotone(sorted: seq<Segment>, i: nat, k: nat)
    requires i <= k < |sorted|
    ensures Starts(sorted)[i] <= Starts(sorted)[k]
  {
    if i < k {
      StartsMonotone(sorted, i, k - 1);
      StartsAre(sorted, k);
    }
  }

  /** The detector's answer: its boxes in reading order. */
  method Segments(map_: seq<real>, w: nat, h: nat, scale: real) returns (r: seq<Segment>)
    requires scale > 0.0 && |map_| == w * h
    ensures w > 0 ==> r == Lines(Boxes(map_, Dilated(map_, w), w, h, scale, |map_|))
    ensures w == 0 ==> r == []
  {
    if w == 0 { return []; }
    var found := FindBoxes(map_, w, h, scale);
    r := NumberLines(found);
  }

  // ---- Lines from the top -------------------------------------------------------------------

  lemma NumberedFrom(segments: seq<Segment>, i: nat) returns (a: nat)
    requires i < |Lines(segments)|
    ensures a < |Trier(Higher, segments)| && Lines(segments)[i] == Numbered(Trier(Higher, segments))[a]
  {
    var numbered := Numbered(Trier(Higher, segments));
    TrierPermute(ReadsBefore, numbered);
    assert Lines(segments)[i] in multiset(Lines(segments));
    assert Lines(segments)[i] in multiset(numbered);
    a :| 0 <= a < |numbered| && numbered[a] == Lines(segments)[i];
  }

  /** A line of a smaller number is no lower: its segments' middles are no further down the page. */
  lemma LinesTopDown(segments: seq<Segment>, i: nat, j: nat)
    requires i < |Lines(segments)| && j < |Lines(segments)| && Lines(segments)[i].line < Lines(segments)[j].line
    ensures var (s, t) := (Lines(segments)[i], Lines(segments)[j]); s.y + s.height / 2.0 <= t.y + t.height / 2.0
  {
    var sorted := Trier(Higher, segments);
    var a := NumberedFrom(segments, i);
    var b := NumberedFrom(segments, j);
    if b <= a { LineStep(Starts(sorted), b, a); }
    assert Total(Higher) && Transitif(Higher);
    TrierTrie(Higher, segments);
    assert Higher(sorted[a], sorted[b]);
  }

  lemma {:induction false} LineBefore(starts: seq<nat>, k: nat) returns (b: nat)
    requires k < |starts| && LineOf(starts, k) > 0
    ensures b < |starts| && LineOf(starts, b) + 1 == LineOf(starts, k)
    decreases k
  {
    if LineOf(starts, k - 1) < LineOf(starts, k) { b := k - 1; } else { b := LineBefore(starts, k - 1); }
  }

  lemma NumberedTo(segments: seq<Segment>, a: nat) returns (i: nat)
    requires a < |Trier(Higher, segments)|
    ensures i < |Lines(segments)| && Lines(segments)[i] == Numbered(Trier(Higher, segments))[a]
  {
    var numbered := Numbered(Trier(Higher, segments));
    TrierPermute(ReadsBefore, numbered);
    assert numbered[a] in multiset(numbered);
    assert numbered[a] in multiset(Lines(segments));
    i :| 0 <= i < |Lines(segments)| && Lines(segments)[i] == numbered[a];
  }

  /** Lines are numbered from 0 without a gap. */
  lemma LinesWithoutGap(segments: seq<Segment>, i: nat) returns (j: nat)
    requires i < |Lines(segments)|
    ensures j < |Lines(segments)| && (if Lines(segments)[i].line == 0 then j == i else Lines(segments)[j].line + 1 == Lines(segments)[i].line)
  {
    j := i;
    if Lines(segments)[i].line > 0 {
      var a := NumberedFrom(segments, i);
      var b := LineBefore(Starts(Trier(Higher, segments)), a);
      j := NumberedTo(segments, b);
    }
  }
}
