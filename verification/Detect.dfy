/** Boxes of text from the detector's probability map: dilation, flood fill,
    scoring, and the numbering of lines. Probabilities and lengths are reals. */
module Detect {
  import opened Pixels

  const THRESHOLD: real := 0.3
  const BOX_THRESHOLD: real := 0.5
  const UNCLIP: real := 1.6
  const MIN_SIDE: nat := 3

  /** A connected region: its bounds on the map, its total and its size. */
  datatype Region = Region(x0: int, y0: int, x1: int, y1: int, sum: real, count: nat)

  datatype Segment = Segment(line: nat, x: real, y: real, width: real, height: real)

  // ---- Dilation ---------------------------------------------------------------

  /** The pixel `dx` to the left and `dy` above is text. */
  function Hit(map_: seq<real>, w: nat, at: nat, dx: nat, dy: nat): bool
    requires w > 0 && at < |map_|
  {
    var (x, y) := (Col(w, at), Row(w, at));
    x >= dx && y >= dy &&
    (ShiftInside(w, at, dx, dy); map_[(y - dy) * w + x - dx] > THRESHOLD)
  }

  lemma ShiftInside(w: nat, at: nat, dx: nat, dy: nat)
    requires w > 0 && Col(w, at) >= dx && Row(w, at) >= dy
    ensures 0 <= (Row(w, at) - dy) * w + Col(w, at) - dx <= at
  {
    MulMonotone(Row(w, at), Row(w, at) - dy, w);
    MulMonotone(Row(w, at) - dy, 0, w);
  }

  predicate Lit(map_: seq<real>, w: nat, at: nat)
    requires w > 0 && at < |map_|
  {
    Hit(map_, w, at, 0, 0) || Hit(map_, w, at, 1, 0) || Hit(map_, w, at, 0, 1) || Hit(map_, w, at, 1, 1)
  }

  /** The map thresholded and dilated by one pixel right and down. */
  function Dilated(map_: seq<real>, w: nat): (on: seq<bool>)
    requires |map_| > 0 ==> w > 0
    ensures |on| == |map_|
  {
    seq(|map_|, at requires 0 <= at < |map_| => Lit(map_, w, at))
  }

  /** One row of the dilated map, whose first pixel is `row`. */
  method DilateRow(map_: seq<real>, on: array<bool>, w: nat, y: nat, row: nat)
    requires w > 0 && on.Length == |map_| && row == y * w && row + w <= |map_|
    requires forall at | 0 <= at < row :: on[at] == Lit(map_, w, at)
    modifies on
    ensures forall at | 0 <= at < row + w :: on[at] == Lit(map_, w, at)
  {
    for x := 0 to w
      invariant forall at | 0 <= at < row + x :: on[at] == Lit(map_, w, at)
    {
      on[row + x] := Hit(map_, w, row + x, 0, 0) || Hit(map_, w, row + x, 1, 0) || Hit(map_, w, row + x, 0, 1) || Hit(map_, w, row + x, 1, 1);
    }
  }

  method Dilate(map_: seq<real>, w: nat, h: nat) returns (on: array<bool>)
    requires w > 0 && |map_| == w * h
    ensures fresh(on) && on.Length == |map_| && on[..] == Dilated(map_, w)
  {
    on := new bool[w * h];
    var row := 0;
    for y := 0 to h
      invariant row == y * w <= w * h
      invariant forall at | 0 <= at < row :: on[at] == Lit(map_, w, at)
    {
      MulMonotone(h, y, w);
      DilateRow(map_, on, w, y, row);
      row := row + w;
    }
  }

  /** `q` is `p`, or touches it from the left, from above, or from both. */
  ghost predicate Spreads(w: nat, q: nat, p: nat)
    requires w > 0
  {
    0 <= Col(w, p) - Col(w, q) <= 1 && 0 <= Row(w, p) - Row(w, q) <= 1
  }

  lemma HitSpreads(map_: seq<real>, w: nat, p: nat, dx: nat, dy: nat) returns (q: nat)
    requires w > 0 && p < |map_| && dx <= 1 && dy <= 1 && Hit(map_, w, p, dx, dy)
    ensures q < |map_| && map_[q] > 0.3 && Spreads(w, q, p)
  {
    var (x, y) := (Col(w, p), Row(w, p));
    ShiftInside(w, p, dx, dy);
    q := (y - dy) * w + x - dx;
    Coordinates(w, x - dx, y - dy);
  }

  lemma SpreadsHit(map_: seq<real>, w: nat, p: nat, q: nat)
    requires w > 0 && p < |map_| && q < |map_| && map_[q] > 0.3 && Spreads(w, q, p)
    ensures Hit(map_, w, p, Col(w, p) - Col(w, q), Row(w, p) - Row(w, q))
  {
    ShiftInside(w, p, Col(w, p) - Col(w, q), Row(w, p) - Row(w, q));
    assert q == Row(w, q) * w + Col(w, q);
  }

  /** A pixel is lit if and only if it, or the one to its left, above it, or above that, is text. */
  lemma DilatedIff(map_: seq<real>, w: nat, p: nat)
    requires w > 0 && p < |map_|
    ensures Dilated(map_, w)[p] <==>
            exists q: nat :: q < |map_| && map_[q] > 0.3 && 0 <= Col(w, p) - Col(w, q) <= 1 && 0 <= Row(w, p) - Row(w, q) <= 1
  {
    if Dilated(map_, w)[p] {
      var dx := if Hit(map_, w, p, 0, 0) || Hit(map_, w, p, 0, 1) then 0 else 1;
      var dy := if Hit(map_, w, p, dx, 0) then 0 else 1;
      var q := HitSpreads(map_, w, p, dx, dy);
    }
    if q: nat :| q < |map_| && map_[q] > 0.3 && Spreads(w, q, p) {
      SpreadsHit(map_, w, p, q);
    }
  }

  // ---- Regions ------------------------------------------------------------------

  function Min(a: int, b: int): int { if a <= b then a else b }

  function Max(a: int, b: int): int { if a >= b then a else b }

  function Grow(r: Region, map_: seq<real>, w: nat, at: nat): Region
    requires w > 0 && at < |map_|
  {
    var (x, y) := (Col(w, at), Row(w, at));
    Region(Min(r.x0, x), Min(r.y0, y), Max(r.x1, x), Max(r.y1, y), r.sum + map_[at], r.count + 1)
  }

  function Fold(map_: seq<real>, w: nat, h: nat, order: seq<nat>): Region
    requires w > 0 && forall k | 0 <= k < |order| :: order[k] < |map_|
  {
    if order == [] then Region(w, h, 0, 0, 0.0, 0) else Grow(Fold(map_, w, h, order[..|order|-1]), map_, w, order[|order|-1])
  }

  /** The total of the map over a set of pixels below `n`. */
  ghost function SumOver(map_: seq<real>, s: set<nat>, n: nat): real
    requires n <= |map_|
  {
    if n == 0 then 0.0 else SumOver(map_, s, n - 1) + if n - 1 in s then map_[n - 1] else 0.0
  }

  /** `r` is the tight bounds, the size and the total of the pixels of `s`. */
  ghost predicate Measures(map_: seq<real>, w: nat, s: set<nat>, r: Region)
    requires w > 0
  {
    && r.count == |s| && r.sum == SumOver(map_, s, |map_|)
    && (forall p | p in s :: r.x0 <= Col(w, p) <= r.x1 && r.y0 <= Row(w, p) <= r.y1)
    && (exists p :: p in s && Col(w, p) == r.x0) && (exists p :: p in s && Col(w, p) == r.x1)
    && (exists p :: p in s && Row(w, p) == r.y0) && (exists p :: p in s && Row(w, p) == r.y1)
  }

  lemma MeasuresUnique(map_: seq<real>, w: nat, s: set<nat>, a: Region, b: Region)
    requires w > 0 && Measures(map_, w, s, a) && Measures(map_, w, s, b)
    ensures a == b
  {
  }

  ghost predicate Once(s: seq<nat>) {
    forall i, j | 0 <= i < j < |s| :: s[i] != s[j]
  }

  ghost function Elements(s: seq<nat>): set<nat> {
    set x | x in s
  }

  lemma {:induction false} SumWith(map_: seq<real>, s: set<nat>, a: nat, n: nat)
    requires n <= |map_| && a !in s
    ensures SumOver(map_, s + {a}, n) == SumOver(map_, s, n) + if a < n then map_[a] else 0.0
  {
    if n > 0 { SumWith(map_, s, a, n - 1); }
  }

  lemma {:induction false} SumNone(map_: seq<real>, n: nat)
    requires n <= |map_|
    ensures SumOver(map_, {}, n) == 0.0
  {
    if n > 0 { SumNone(map_, n - 1); }
  }

  lemma ElementsAdd(order: seq<nat>)
    requires order != [] && Once(order)
    ensures Elements(order) == Elements(order[..|order|-1]) + {order[|order|-1]}
    ensures order[|order|-1] !in Elements(order[..|order|-1])
    ensures Once(order[..|order|-1])
  {
    var (avant, a) := (order[..|order|-1], order[|order|-1]);
    assert order == avant + [a];
    forall k | 0 <= k < |avant| ensures avant[k] != a { assert order[k] == avant[k]; }
  }

  lemma {:induction false} FoldCounts(map_: seq<real>, w: nat, h: nat, order: seq<nat>)
    requires w > 0 && Once(order) && forall k | 0 <= k < |order| :: order[k] < |map_|
    ensures var r := Fold(map_, w, h, order);
            r.count == |Elements(order)| == |order| && r.sum == SumOver(map_, Elements(order), |map_|)
  {
    if order == [] {
      assert Elements(order) == {};
      SumNone(map_, |map_|);
    } else {
      var (avant, a) := (order[..|order|-1], order[|order|-1]);
      ElementsAdd(order);
      FoldCounts(map_, w, h, avant);
      SumWith(map_, Elements(avant), a, |map_|);
    }
  }

  /** `v` is the least, or the greatest, of the values met. */
  ghost predicate Extreme(order: seq<nat>, w: nat, r: Region)
    requires w > 0
  {
    && (forall k | 0 <= k < |order| :: r.x0 <= Col(w, order[k]) <= r.x1 && r.y0 <= Row(w, order[k]) <= r.y1)
    && (exists k :: 0 <= k < |order| && Col(w, order[k]) == r.x0) && (exists k :: 0 <= k < |order| && Col(w, order[k]) == r.x1)
    && (exists k :: 0 <= k < |order| && Row(w, order[k]) == r.y0) && (exists k :: 0 <= k < |order| && Row(w, order[k]) == r.y1)
  }

  lemma ExtremeOne(map_: seq<real>, w: nat, h: nat, at: nat)
    requires w > 0 && at < |map_| && Row(w, at) <= h
    ensures Extreme([at], w, Grow(Region(w, h, 0, 0, 0.0, 0), map_, w, at))
  {
    assert [at][0] == at;
  }

  lemma ExtremeNext(map_: seq<real>, w: nat, h: nat, avant: seq<nat>, q: Region, a: nat)
    requires w > 0 && a < |map_| && avant != [] && Extreme(avant, w, q)
    ensures Extreme(avant + [a], w, Grow(q, map_, w, a))
  {
    var (order, r) := (avant + [a], Grow(q, map_, w, a));
    var i :| 0 <= i < |avant| && Col(w, avant[i]) == q.x0;
    var j :| 0 <= j < |avant| && Col(w, avant[j]) == q.x1;
    var k :| 0 <= k < |avant| && Row(w, avant[k]) == q.y0;
    var l :| 0 <= l < |avant| && Row(w, avant[l]) == q.y1;
    assert order[i] == avant[i] && order[j] == avant[j] && order[k] == avant[k] && order[l] == avant[l] && order[|avant|] == a;
    forall m | 0 <= m < |order| ensures r.x0 <= Col(w, order[m]) <= r.x1 && r.y0 <= Row(w, order[m]) <= r.y1 {
      if m < |avant| { assert order[m] == avant[m]; }
    }
  }

  lemma {:induction false} FoldExtreme(map_: seq<real>, w: nat, h: nat, order: seq<nat>)
    requires w > 0 && order != [] && forall k | 0 <= k < |order| :: order[k] < |map_| && Row(w, order[k]) <= h
    ensures Extreme(order, w, Fold(map_, w, h, order))
  {
    var n := |order| - 1;
    var (avant, a) := (order[..n], order[n]);
    assert order == avant + [a];
    if avant == [] {
      ExtremeOne(map_, w, h, a);
    } else {
      FoldExtreme(map_, w, h, avant);
      ExtremeNext(map_, w, h, avant, Fold(map_, w, h, avant), a);
    }
  }

  /** Whatever the order of the visit, the fold measures the pixels visited. */
  lemma FoldMeasures(map_: seq<real>, w: nat, h: nat, order: seq<nat>)
    requires w > 0 && |map_| == w * h && order != [] && Once(order) && forall k | 0 <= k < |order| :: order[k] < |map_|
    ensures Measures(map_, w, Elements(order), Fold(map_, w, h, order))
  {
    forall k | 0 <= k < |order| ensures Row(w, order[k]) <= h { RowInGrid(w, h, order[k]); }
    FoldCounts(map_, w, h, order);
    FoldExtreme(map_, w, h, order);
    var r := Fold(map_, w, h, order);
    var i :| 0 <= i < |order| && Col(w, order[i]) == r.x0;
    var j :| 0 <= j < |order| && Col(w, order[j]) == r.x1;
    var k :| 0 <= k < |order| && Row(w, order[k]) == r.y0;
    var l :| 0 <= l < |order| && Row(w, order[l]) == r.y1;
    assert order[i] in Elements(order) && order[j] in Elements(order) && order[k] in Elements(order) && order[l] in Elements(order);
  }

  ghost function Ascending(s: set<nat>, n: nat): (q: seq<nat>)
    ensures forall x :: x in q <==> x in s && x < n
    ensures Once(q)
  {
    if n == 0 then [] else Ascending(s, n - 1) + if n - 1 in s then [n - 1] else []
  }

  /** The measure of a set of pixels. */
  ghost function RegionOf(map_: seq<real>, w: nat, h: nat, s: set<nat>): (r: Region)
    requires w > 0 && |map_| == w * h && s != {} && forall p | p in s :: p < |map_|
    ensures Measures(map_, w, s, r)
  {
    var q := Ascending(s, |map_|);
    assert forall k | 0 <= k < |q| :: q[k] in q;
    var p :| p in s;
    assert p in q;
    assert Elements(q) == s;
    FoldMeasures(map_, w, h, q);
    Fold(map_, w, h, q)
  }

  // ---- The flood fill --------------------------------------------------------------

  ghost function Marked(seen: seq<bool>): set<nat> {
    set k: nat | k < |seen| && seen[k]
  }

  /** What a visit keeps between two pops: pixels done and pixels stacked are
      lit, reached from the start, each once, and what is marked is exactly
      they and what was marked before; the lit neighbours of the done are marked. */
  ghost predicate Visiting(on: seq<bool>, w: nat, start: nat, before: set<nat>, seen: seq<bool>, order: seq<nat>, stack: seq<nat>)
    requires w > 0
  {
    && |seen| == |on|
    && (forall p | p in order || p in stack :: p < |on| && on[p] && Linked(on, w, start, p) && p !in before)
    && Once(order) && Once(stack) && (forall p | p in order :: p !in stack)
    && Marked(seen) == before + Elements(order) + Elements(stack)
    && (forall a, b: nat | a in order && b < |on| && on[b] && Touch(w, a, b) :: b in Marked(seen))
  }

  lemma VisitDone(on: seq<bool>, w: nat, start: nat, before: set<nat>, seen: seq<bool>, order: seq<nat>)
    requires w > 0 && Visiting(on, w, start, before, seen, order, []) && Closed(on, w, before) && start in order
    ensures Elements(order) == Component(on, w, start)
    ensures Marked(seen) == before + Component(on, w, start)
  {
    var s := Elements(order);
    forall a, b: nat | a in s && b < |on| && a < |on| && on[a] && on[b] && Touch(w, a, b) ensures b in s {
      assert b in Marked(seen);
      assert Touch(w, b, a);
    }
    ClosedHoldsComponents(on, w, s, start);
  }

  lemma PushKeeps(on: seq<bool>, w: nat, start: nat, before: set<nat>, seen: seq<bool>, order: seq<nat>, stack: seq<nat>, next: nat)
    requires w > 0 && |seen| == |on| && next < |on| && on[next] && !seen[next] && Linked(on, w, start, next)
    requires forall p | p in order || p in stack :: p < |on| && on[p] && Linked(on, w, start, p) && p !in before
    requires Once(order) && Once(stack) && forall p | p in order :: p !in stack
    requires Marked(seen) == before + Elements(order) + Elements(stack)
    ensures var t := stack + [next];
            && (forall p | p in order || p in t :: p < |on| && on[p] && Linked(on, w, start, p) && p !in before)
            && Once(t) && (forall p | p in order :: p !in t)
            && Marked(seen[next := true]) == before + Elements(order) + Elements(t)
            && Marked(seen) <= Marked(seen[next := true])
  {
    var t := stack + [next];
    assert next !in Marked(seen);
    assert next !in Elements(stack) && next !in Elements(order);
    forall i, j | 0 <= i < j < |t| ensures t[i] != t[j] {
      assert stack[i] in stack;
    }
    assert Marked(seen[next := true]) == Marked(seen) + {next};
    assert Elements(t) == Elements(stack) + {next};
  }

  /** One visit: drains a stack seeded with `start`, marking each pixel when it
      is pushed, and measures what it pops. */
  method Visit(map_: seq<real>, on: array<bool>, seen: array<bool>, w: nat, h: nat, start: nat) returns (region: Region)
    requires w > 0 && |map_| == on.Length == seen.Length == w * h && on != seen
    requires start < on.Length && on[start] && !seen[start]
    requires Closed(on[..], w, Marked(seen[..]))
    modifies seen
    ensures Marked(seen[..]) == old(Marked(seen[..])) + Component(on[..], w, start)
    ensures Component(on[..], w, start) != {} && Measures(map_, w, Component(on[..], w, start), region)
  {
    ghost var lit := on[..];
    ghost var before := Marked(seen[..]);
    region := Region(w, h, 0, 0, 0.0, 0);
    seen[start] := true;
    var stack := [start];
    ghost var order: seq<nat> := [];
    assert Marked(seen[..]) == before + {start};
    VisitStarts(lit, w, start, before, seen[..]);
    while stack != []
      invariant on[..] == lit
      invariant Visiting(lit, w, start, before, seen[..], order, stack)
      invariant Filled(map_, w, h, start, order, stack, region)
      decreases |map_| - |Marked(seen[..])|, |stack|
    {
      var at := stack[|stack|-1];
      assert at in stack;
      ghost var seen0 := seen[..];
      PopKeeps(lit, w, start, before, seen0, order + [at], stack);
      FilledNext(map_, w, h, start, order, stack, region, at);
      region := Grow(region, map_, w, at);
      order := order + [at];
      stack := Spread(on, seen, w, h, start, before, order, stack[..|stack|-1], at);
      MarkedBound(seen0, seen[..], |map_|);
    }
    VisitMeasured(map_, lit, w, h, start, before, seen[..], order);
  }

  /** The pixels visited begin with the first and are measured by `region`. */
  ghost predicate Filled(map_: seq<real>, w: nat, h: nat, start: nat, order: seq<nat>, stack: seq<nat>, region: Region)
    requires w > 0
  {
    && (if order == [] then stack == [start] else order[0] == start)
    && (forall k | 0 <= k < |order| :: order[k] < |map_|) && region == Fold(map_, w, h, order)
  }

  lemma FilledNext(map_: seq<real>, w: nat, h: nat, start: nat, order: seq<nat>, stack: seq<nat>, region: Region, at: nat)
    requires w > 0 && Filled(map_, w, h, start, order, stack, region) && stack != [] && at == stack[|stack|-1] && at < |map_|
    ensures forall more :: Filled(map_, w, h, start, order + [at], more, Grow(region, map_, w, at))
  {
    FoldNext(map_, w, h, order, at);
  }

  lemma VisitMeasured(map_: seq<real>, on: seq<bool>, w: nat, h: nat, start: nat, before: set<nat>, seen: seq<bool>, order: seq<nat>)
    requires w > 0 && |map_| == |on| == w * h && Visiting(on, w, start, before, seen, order, []) && Closed(on, w, before)
    requires order != [] && order[0] == start && forall k | 0 <= k < |order| :: order[k] < |map_|
    ensures Marked(seen) == before + Component(on, w, start)
    ensures Component(on, w, start) != {} && Measures(map_, w, Component(on, w, start), Fold(map_, w, h, order))
  {
    assert start in order;
    VisitDone(on, w, start, before, seen, order);
    FoldMeasures(map_, w, h, order);
  }

  lemma VisitStarts(on: seq<bool>, w: nat, start: nat, before: set<nat>, seen: seq<bool>)
    requires w > 0 && |seen| == |on| && start < |on| && on[start] && start !in before && Marked(seen) == before + {start}
    ensures Visiting(on, w, start, before, seen, [], [start])
  {
    LinkedSelf(on, w, start);
    assert Elements([start]) == {start};
    assert Elements([]) == {};
  }

  lemma FoldNext(map_: seq<real>, w: nat, h: nat, order: seq<nat>, at: nat)
    requires w > 0 && at < |map_| && forall k | 0 <= k < |order| :: order[k] < |map_|
    ensures forall k | 0 <= k < |order + [at]| :: (order + [at])[k] < |map_|
    ensures Fold(map_, w, h, order + [at]) == Grow(Fold(map_, w, h, order), map_, w, at)
  {
    assert (order + [at])[..|order|] == order;
  }

  ghost function Below(n: nat): (s: set<nat>)
    ensures |s| == n && forall k: nat :: k in s <==> k < n
  {
    if n == 0 then {} else Below(n - 1) + {n - 1}
  }

  lemma MarkedBound(a: seq<bool>, b: seq<bool>, n: nat)
    requires |a| == |b| == n && Marked(a) <= Marked(b)
    ensures |Marked(a)| <= |Marked(b)| <= n
    ensures Marked(a) != Marked(b) ==> |Marked(a)| < |Marked(b)|
  {
    assert Below(n) == Marked(b) + (Below(n) - Marked(b));
    assert Marked(b) == Marked(a) + (Marked(b) - Marked(a));
    if Marked(a) != Marked(b) { assert Marked(b) - Marked(a) != {}; }
  }

  /** The popped pixel is done, though its neighbours are still to be read. */
  lemma PopKeeps(on: seq<bool>, w: nat, start: nat, before: set<nat>, seen: seq<bool>, order: seq<nat>, stack: seq<nat>)
    requires w > 0 && order != [] && stack != [] && order[|order|-1] == stack[|stack|-1]
    requires Visiting(on, w, start, before, seen, order[..|order|-1], stack)
    ensures Reading(on, w, start, before, seen, order, stack[..|stack|-1])
  {
    var (o, s, at) := (order[..|order|-1], stack[..|stack|-1], stack[|stack|-1]);
    assert order == o + [at] && stack == s + [at];
    assert at in stack && at !in o;
    OnceAdd(o, at);
    ElementsAdd(stack);
    ElementsAdd(order);
    TopApart(stack);
    PopMarks(Marked(seen), before, Elements(o), Elements(s), at);
    forall p | p in order || p in s ensures p < |on| && on[p] && Linked(on, w, start, p) && p !in before {
      assert p in o || p in stack;
    }
    forall a, b: nat | a in order && a != at && b < |on| && on[b] && Touch(w, a, b) ensures b in Marked(seen) {
      assert a in o;
    }
  }

  lemma OnceAdd(o: seq<nat>, at: nat)
    requires Once(o) && at !in o
    ensures Once(o + [at])
  {
    var order := o + [at];
    forall i, j | 0 <= i < j < |order| ensures order[i] != order[j] { assert i < |o| ==> order[i] in o; }
  }

  lemma TopApart(stack: seq<nat>)
    requires stack != [] && Once(stack)
    ensures forall p | p in stack[..|stack|-1] :: p in stack && p != stack[|stack|-1]
  {
  }

  lemma PopMarks(marked: set<nat>, before: set<nat>, done: set<nat>, waiting: set<nat>, at: nat)
    requires marked == before + done + (waiting + {at})
    ensures marked == before + (done + {at}) + waiting
  {
  }

  /** As `Visiting`, the neighbours of the last pixel done still to be read. */
  ghost predicate Reading(on: seq<bool>, w: nat, start: nat, before: set<nat>, seen: seq<bool>, order: seq<nat>, stack: seq<nat>)
    requires w > 0
  {
    && |seen| == |on| && order != []
    && (forall p | p in order || p in stack :: p < |on| && on[p] && Linked(on, w, start, p) && p !in before)
    && Once(order) && Once(stack) && (forall p | p in order :: p !in stack)
    && Marked(seen) == before + Elements(order) + Elements(stack)
    && (forall a, b: nat | a in order && a != order[|order|-1] && b < |on| && on[b] && Touch(w, a, b) :: b in Marked(seen))
  }

  /** Pushing a lit, unmarked neighbour of the last pixel done. */
  lemma PushReads(on: seq<bool>, w: nat, start: nat, before: set<nat>, seen: seq<bool>, order: seq<nat>, stack: seq<nat>, next: nat)
    requires w > 0 && Reading(on, w, start, before, seen, order, stack)
    requires next < |on| && on[next] && !seen[next] && Touch(w, order[|order|-1], next)
    ensures Reading(on, w, start, before, seen[next := true], order, stack + [next])
    ensures Marked(seen) < Marked(seen[next := true]) && next in Marked(seen[next := true])
  {
    assert order[|order|-1] in order;
    LinkedStep(on, w, start, order[|order|-1], next);
    PushKeeps(on, w, start, before, seen, order, stack, next);
    assert next !in Marked(seen);
  }

  /** The index of the `k`th neighbour read. */
  function IndexOf(w: nat, n: (nat, nat)): nat {
    n.1 * w + n.0
  }

  lemma NeighbourIndex(w: nat, h: nat, at: nat, k: nat)
    requires w > 0 && at < w * h && k < |Neighbours(Col(w, at), Row(w, at), w, h)|
    ensures IndexOf(w, Neighbours(Col(w, at), Row(w, at), w, h)[k]) < w * h
    ensures Touch(w, at, IndexOf(w, Neighbours(Col(w, at), Row(w, at), w, h)[k]))
  {
    RowInGrid(w, h, at);
    NeighboursAre(Col(w, at), Row(w, at), w, h);
    var n := Neighbours(Col(w, at), Row(w, at), w, h)[k];
    assert n in Neighbours(Col(w, at), Row(w, at), w, h);
    InGrid(w, h, n.0, n.1);
    Coordinates(w, n.0, n.1);
  }

  lemma IsNeighbour(w: nat, h: nat, at: nat, b: nat)
    requires w > 0 && at < w * h && b < w * h && Touch(w, at, b)
    ensures (Col(w, b), Row(w, b)) in Neighbours(Col(w, at), Row(w, at), w, h)
  {
    RowInGrid(w, h, at);
    RowInGrid(w, h, b);
    NeighboursAre(Col(w, at), Row(w, at), w, h);
    if Col(w, b) == Col(w, at) && Row(w, b) == Row(w, at) { SamePixel(w, at, b); }
  }

  lemma NeighbourOf(w: nat, h: nat, at: nat, b: nat) returns (k: nat)
    requires w > 0 && at < w * h && b < w * h && Touch(w, at, b)
    ensures k < |Neighbours(Col(w, at), Row(w, at), w, h)| && IndexOf(w, Neighbours(Col(w, at), Row(w, at), w, h)[k]) == b
  {
    IsNeighbour(w, h, at, b);
    var around := Neighbours(Col(w, at), Row(w, at), w, h);
    k :| 0 <= k < |around| && around[k] == (Col(w, b), Row(w, b));
    Recompose(w, b);
  }

  lemma Recompose(w: nat, b: nat)
    requires w > 0
    ensures IndexOf(w, (Col(w, b), Row(w, b))) == b
  {
  }

  /** Every lit neighbour of `at` among the first `k` read is marked. */
  ghost predicate ReadUpTo(on: seq<bool>, w: nat, around: seq<(nat, nat)>, k: nat, marked: set<nat>)
    requires k <= |around|
  {
    forall j | 0 <= j < k :: IndexOf(w, around[j]) < |on| && (on[IndexOf(w, around[j])] ==> IndexOf(w, around[j]) in marked)
  }

  lemma ReadingDone(on: seq<bool>, w: nat, h: nat, start: nat, before: set<nat>, seen: seq<bool>, order: seq<nat>, stack: seq<nat>)
    requires w > 0 && |on| == w * h && Reading(on, w, start, before, seen, order, stack)
    requires ReadUpTo(on, w, Neighbours(Col(w, order[|order|-1]), Row(w, order[|order|-1]), w, h),
                      |Neighbours(Col(w, order[|order|-1]), Row(w, order[|order|-1]), w, h)|, Marked(seen))
    ensures Visiting(on, w, start, before, seen, order, stack)
  {
    forall a, b: nat | a in order && b < |on| && on[b] && Touch(w, a, b) ensures b in Marked(seen) {
      if a == order[|order|-1] { var j := NeighbourOf(w, h, a, b); }
    }
  }

  /** Pushes the lit neighbours of `at` not yet marked, marking each. */
  method Spread(on: array<bool>, seen: array<bool>, w: nat, h: nat, ghost start: nat, ghost before: set<nat>,
                ghost order: seq<nat>, stack0: seq<nat>, at: nat) returns (stack: seq<nat>)
    requires w > 0 && on.Length == seen.Length == w * h && on != seen && at < on.Length
    requires Reading(on[..], w, start, before, seen[..], order, stack0) && at == order[|order|-1]
    modifies seen
    ensures Visiting(on[..], w, start, before, seen[..], order, stack)
    ensures old(Marked(seen[..])) <= Marked(seen[..])
    ensures old(Marked(seen[..])) == Marked(seen[..]) ==> stack == stack0
  {
    stack := stack0;
    ghost var (lit, seen0) := (on[..], seen[..]);
    var around := Neighbours(Col(w, at), Row(w, at), w, h);
    for k := 0 to |around|
      invariant on[..] == lit
      invariant Reading(lit, w, start, before, seen[..], order, stack)
      invariant Marked(seen0) <= Marked(seen[..]) && (Marked(seen0) == Marked(seen[..]) ==> stack == stack0)
      invariant ReadUpTo(lit, w, around, k, Marked(seen[..]))
    {
      NeighbourIndex(w, h, at, k);
      var next := IndexOf(w, around[k]);
      if on[next] && !seen[next] {
        PushReads(lit, w, start, before, seen[..], order, stack, next);
        ghost var seen1 := seen[..];
        seen[next] := true;
        assert seen[..] == seen1[next := true];
        stack := stack + [next];
      }
    }
    ReadingDone(lit, w, h, start, before, seen[..], order, stack);
  }
}
