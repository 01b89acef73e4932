/** Cutting a span of days into ranges the upstream interface can page through,
    by halving, with an explicit stack. Days are numbers; what a scan counts over
    a span is the sum of what it counts over its days. */
module Bisect {
  import opened Ordre
  /** How many decisions a day has. */
  type Counts = int -> nat

  datatype Range = Range(from: int, to: int, total: nat)

  /** What a scan of the days `from` to `to` counts: none when they are crossed. */
  function ScanTotal(count: Counts, from: int, to: int): nat
    decreases 1 + to - from
  {
    if from > to then 0 else count(from) + ScanTotal(count, from + 1, to)
  }

  lemma {:induction false} ScanSplits(count: Counts, from: int, mid: int, to: int)
    requires from - 1 <= mid <= to
    ensures ScanTotal(count, from, to) == ScanTotal(count, from, mid) + ScanTotal(count, mid + 1, to)
    decreases mid - from + 1
  {
    if from <= mid { ScanSplits(count, from + 1, mid, to); }
  }

  lemma {:induction false} NothingCounted(count: Counts, from: int, to: int, d: int)
    requires from <= d <= to && ScanTotal(count, from, to) == 0
    ensures count(d) == 0
  {
    ScanSplits(count, from, d - 1, to);
  }

  function MidDate(from: int, to: int): int
    requires from <= to
  {
    from + (to - from) / 2
  }

  /** The halving itself: a span too full is its left half, then its right. */
  function Halved(count: Counts, from: int, to: int, maxChunk: int): seq<Range>
    decreases 1 + to - from
  {
    var total := ScanTotal(count, from, to);
    if total == 0 then []
    else if total <= maxChunk || from == to then [Range(from, to, total)]
    else
      var mid := MidDate(from, to);
      Halved(count, from, mid, maxChunk) + Halved(count, mid + 1, to, maxChunk)
  }

  // ---- What the halving gives -------------------------------------------------------

  /** In order, apart, within the span. */
  ghost predicate Ascending(ranges: seq<Range>, from: int, to: int) {
    && (forall i | 0 <= i < |ranges| :: from <= ranges[i].from <= ranges[i].to <= to)
    && (forall i, j | 0 <= i < j < |ranges| :: ranges[i].to < ranges[j].from)
  }

  /** It has the count of its days, is not empty, and is no fuller than allowed
      unless it is one day. */
  ghost predicate Filled(count: Counts, r: Range, maxChunk: int) {
    r.total == ScanTotal(count, r.from, r.to) > 0 && (r.total <= maxChunk || r.from == r.to)
  }

  ghost predicate WellFilled(count: Counts, ranges: seq<Range>, maxChunk: int) {
    forall i | 0 <= i < |ranges| ::
      Filled(count, ranges[i], maxChunk)
  }

  predicate Within(d: int, r: Range) { r.from <= d <= r.to }

  ghost predicate Covered(ranges: seq<Range>, d: int) {
    exists i :: 0 <= i < |ranges| && Within(d, ranges[i])
  }

  function GrandTotal(ranges: seq<Range>): nat {
    if ranges == [] then 0 else ranges[0].total + GrandTotal(ranges[1..])
  }

  lemma {:induction false} GrandTotalBoth(a: seq<Range>, b: seq<Range>)
    ensures GrandTotal(a + b) == GrandTotal(a) + GrandTotal(b)
  {
    if a == [] {
      assert a + b == b;
    } else {
      GrandTotalBoth(a[1..], b);
      assert (a + b)[1..] == a[1..] + b;
    }
  }

  lemma AscendingBoth(a: seq<Range>, b: seq<Range>, from: int, mid: int, to: int)
    requires from <= mid < to && Ascending(a, from, mid) && Ascending(b, mid + 1, to)
    ensures Ascending(a + b, from, to)
  {
    var s := a + b;
    assert forall i | 0 <= i < |s| :: s[i] == if i < |a| then a[i] else b[i - |a|];
  }

  /** The ranges are in order and apart, and each is filled as it says. */
  lemma {:induction false} RangesOrdered(count: Counts, from: int, to: int, maxChunk: int)
    ensures Ascending(Halved(count, from, to, maxChunk), from, to)
    ensures WellFilled(count, Halved(count, from, to, maxChunk), maxChunk)
    decreases 1 + to - from
  {
    var total := ScanTotal(count, from, to);
    if total > 0 && total > maxChunk && from != to {
      var mid := MidDate(from, to);
      RangesOrdered(count, from, mid, maxChunk);
      RangesOrdered(count, mid + 1, to, maxChunk);
      AscendingBoth(Halved(count, from, mid, maxChunk), Halved(count, mid + 1, to, maxChunk), from, mid, to);
    }
  }

  /** No decision is lost: the ranges count all of them, and a day left out has none. */
  lemma NothingLostEmpty(count: Counts, from: int, to: int)
    requires ScanTotal(count, from, to) == 0
    ensures forall d | from <= d <= to :: count(d) == 0
  {
    forall d | from <= d <= to ensures count(d) == 0 { NothingCounted(count, from, to, d); }
  }

  lemma NothingLostOne(from: int, to: int, total: nat)
    ensures GrandTotal([Range(from, to, total)]) == total
    ensures forall d | from <= d <= to :: Covered([Range(from, to, total)], d)
  {
    var ranges := [Range(from, to, total)];
    assert ranges[1..] == [];
    forall d | from <= d <= to ensures Covered(ranges, d) { assert Within(d, ranges[0]); }
  }

  lemma {:induction false} TotalKept(count: Counts, from: int, to: int, maxChunk: int)
    ensures GrandTotal(Halved(count, from, to, maxChunk)) == ScanTotal(count, from, to)
    decreases 1 + to - from
  {
    var total := ScanTotal(count, from, to);
    if total > 0 && (total <= maxChunk || from == to) {
      NothingLostOne(from, to, total);
    } else if total > 0 {
      var mid := MidDate(from, to);
      TotalKept(count, from, mid, maxChunk);
      TotalKept(count, mid + 1, to, maxChunk);
      ScanSplits(count, from, mid, to);
      GrandTotalBoth(Halved(count, from, mid, maxChunk), Halved(count, mid + 1, to, maxChunk));
    }
  }

  lemma {:induction false} DayCovered(count: Counts, from: int, to: int, maxChunk: int, d: int)
    requires from <= d <= to
    ensures Covered(Halved(count, from, to, maxChunk), d) || count(d) == 0
    decreases 1 + to - from
  {
    var total := ScanTotal(count, from, to);
    if total == 0 {
      NothingLostEmpty(count, from, to);
    } else if total <= maxChunk || from == to {
      NothingLostOne(from, to, total);
    } else {
      var mid := MidDate(from, to);
      if d <= mid { DayCovered(count, from, mid, maxChunk, d); } else { DayCovered(count, mid + 1, to, maxChunk, d); }
      CoveredBoth(Halved(count, from, mid, maxChunk), Halved(count, mid + 1, to, maxChunk));
    }
  }

  lemma NothingLost(count: Counts, from: int, to: int, maxChunk: int)
    ensures GrandTotal(Halved(count, from, to, maxChunk)) == ScanTotal(count, from, to)
    ensures forall d | from <= d <= to :: Covered(Halved(count, from, to, maxChunk), d) || count(d) == 0
  {
    TotalKept(count, from, to, maxChunk);
    forall d | from <= d <= to ensures Covered(Halved(count, from, to, maxChunk), d) || count(d) == 0 {
      DayCovered(count, from, to, maxChunk, d);
    }
  }

  lemma CoveredBoth(a: seq<Range>, b: seq<Range>)
    ensures forall d :: Covered(a + b, d) <==> Covered(a, d) || Covered(b, d)
  {
    var s := a + b;
    forall d | Covered(a, d) ensures Covered(s, d) {
      var i :| 0 <= i < |a| && Within(d, a[i]);
      assert s[i] == a[i];
    }
    forall d | Covered(b, d) ensures Covered(s, d) {
      var i :| 0 <= i < |b| && Within(d, b[i]);
      assert s[|a| + i] == b[i];
    }
  }

  // ---- The loop --------------------------------------------------------------------

  /** What the spans of the stack will give, the top one first. */
  function Pending(count: Counts, stack: seq<(int, int)>, maxChunk: int): seq<Range> {
    if stack == [] then [] else
    var top := stack[|stack| - 1];
    Halved(count, top.0, top.1, maxChunk) + Pending(count, stack[..|stack| - 1], maxChunk)
  }

  function Span(s: (int, int)): nat {
    if s.0 > s.1 then 1 else 2 * (s.1 - s.0) + 1
  }

  function Weight(stack: seq<(int, int)>): nat {
    if stack == [] then 0 else Span(stack[|stack| - 1]) + Weight(stack[..|stack| - 1])
  }

  lemma PopAndPush(stack: seq<(int, int)>, a: (int, int), b: (int, int))
    ensures Weight(stack + [a, b]) == Span(b) + Span(a) + Weight(stack)
    ensures (stack + [a, b])[..|stack| + 1] == stack + [a]
    ensures (stack + [a])[..|stack|] == stack
  {
    var s := stack + [a, b];
    assert s[..|stack| + 1] == stack + [a] && (stack + [a])[..|stack|] == stack;
  }

  lemma PendingBoth(count: Counts, stack: seq<(int, int)>, a: (int, int), b: (int, int), maxChunk: int)
    ensures Pending(count, stack + [a, b], maxChunk) ==
            Halved(count, b.0, b.1, maxChunk) + (Halved(count, a.0, a.1, maxChunk) + Pending(count, stack, maxChunk))
  {
    PopAndPush(stack, a, b);
  }

  lemma NoneOfTop(count: Counts, stack: seq<(int, int)>, maxChunk: int)
    requires stack != [] && ScanTotal(count, stack[|stack| - 1].0, stack[|stack| - 1].1) == 0
    ensures Pending(count, stack, maxChunk) == Pending(count, stack[..|stack| - 1], maxChunk)
  {
    assert [] + Pending(count, stack[..|stack| - 1], maxChunk) == Pending(count, stack[..|stack| - 1], maxChunk);
  }

  lemma OneOfTop(count: Counts, stack: seq<(int, int)>, maxChunk: int)
    requires stack != []
    requires var (from, to) := stack[|stack| - 1];
             ScanTotal(count, from, to) > 0 && (ScanTotal(count, from, to) <= maxChunk || from == to)
    ensures var (from, to) := stack[|stack| - 1];
            Pending(count, stack, maxChunk) == [Range(from, to, ScanTotal(count, from, to))] + Pending(count, stack[..|stack| - 1], maxChunk)
  {
  }

  /** A span that is cut. */
  predicate TooFull(count: Counts, span: (int, int), maxChunk: int) {
    span.0 < span.1 && ScanTotal(count, span.0, span.1) > 0 && ScanTotal(count, span.0, span.1) > maxChunk
  }

  lemma HalvedTwo(count: Counts, from: int, to: int, maxChunk: int)
    requires TooFull(count, (from, to), maxChunk)
    ensures var mid := MidDate(from, to);
            Halved(count, from, to, maxChunk) == Halved(count, from, mid, maxChunk) + Halved(count, mid + 1, to, maxChunk)
  {
  }

  lemma SpanShrinks(from: int, to: int)
    requires from < to
    ensures var mid := MidDate(from, to); Span((from, mid)) + Span((mid + 1, to)) < Span((from, to))
  {
  }

  lemma TwoOfTop(count: Counts, stack: seq<(int, int)>, maxChunk: int, mid: int)
    requires stack != []
    requires TooFull(count, stack[|stack| - 1], maxChunk) && mid == MidDate(stack[|stack| - 1].0, stack[|stack| - 1].1)
    ensures var (from, to) := stack[|stack| - 1];
            var more := stack[..|stack| - 1] + [(mid + 1, to), (from, mid)];
            Pending(count, stack, maxChunk) == Pending(count, more, maxChunk) && Weight(more) < Weight(stack)
  {
    var (from, to) := stack[|stack| - 1];
    assert stack == stack[..|stack| - 1] + [(from, to)];
    TwoOfRest(count, stack[..|stack| - 1], from, mid, to, maxChunk);
  }

  lemma PendingOne(count: Counts, rest: seq<(int, int)>, a: (int, int), maxChunk: int)
    ensures Pending(count, rest + [a], maxChunk) == Halved(count, a.0, a.1, maxChunk) + Pending(count, rest, maxChunk)
    ensures Weight(rest + [a]) == Span(a) + Weight(rest)
  {
    assert (rest + [a])[..|rest|] == rest;
  }

  lemma TwoOfRest(count: Counts, rest: seq<(int, int)>, from: int, mid: int, to: int, maxChunk: int)
    requires TooFull(count, (from, to), maxChunk) && mid == MidDate(from, to)
    ensures Pending(count, rest + [(from, to)], maxChunk) == Pending(count, rest + [(mid + 1, to), (from, mid)], maxChunk)
    ensures Weight(rest + [(mid + 1, to), (from, mid)]) < Weight(rest + [(from, to)])
  {
    PendingOne(count, rest, (from, to), maxChunk);
    HalvedTwo(count, from, to, maxChunk);
    SpanShrinks(from, to);
    PopAndPush(rest, (mid + 1, to), (from, mid));
    PendingBoth(count, rest, (mid + 1, to), (from, mid), maxChunk);
    Associe(Halved(count, from, mid, maxChunk), Halved(count, mid + 1, to, maxChunk), Pending(count, rest, maxChunk));
  }

  lemma {:induction false} CrossedIsEmpty(count: Counts, from: int, to: int)
    requires ScanTotal(count, from, to) > 0
    ensures from <= to
  {
  }

  /** Ends, and gives the halving of the span. */
  method BisectRanges(count: Counts, start: int, end: int, maxChunk: int) returns (ranges: seq<Range>)
    ensures ranges == Halved(count, start, end, maxChunk)
    ensures Ascending(ranges, start, end) && WellFilled(count, ranges, maxChunk)
    ensures GrandTotal(ranges) == ScanTotal(count, start, end)
    ensures forall d | start <= d <= end :: Covered(ranges, d) || count(d) == 0
  {
    RangesOrdered(count, start, end, maxChunk);
    NothingLost(count, start, end, maxChunk);
    ranges := [];
    var stack := [(start, end)];
    ghost var whole := Halved(count, start, end, maxChunk);
    StartsWhole(count, start, end, maxChunk);
    while stack != []
      invariant whole == ranges + Pending(count, stack, maxChunk)
      decreases Weight(stack)
    {
      var (from, to) := stack[|stack| - 1];
      var total := ScanTotal(count, from, to);
      if total == 0 {
        NoneOfTop(count, stack, maxChunk);
        stack := stack[..|stack| - 1];
      } else if total <= maxChunk || from == to {
        OneOfTop(count, stack, maxChunk);
        Associe(ranges, [Range(from, to, total)], Pending(count, stack[..|stack| - 1], maxChunk));
        ranges := ranges + [Range(from, to, total)];
        stack := stack[..|stack| - 1];
      } else {
        CrossedIsEmpty(count, from, to);
        var mid := from + (to - from) / 2;
        TwoOfTop(count, stack, maxChunk, mid);
        stack := stack[..|stack| - 1] + [(mid + 1, to), (from, mid)];
      }
    }
    assert ranges + [] == ranges;
  }

  lemma StartsWhole(count: Counts, start: int, end: int, maxChunk: int)
    ensures Halved(count, start, end, maxChunk) == [] + Pending(count, [(start, end)], maxChunk)
  {
    assert [(start, end)][..0] == [];
    assert Halved(count, start, end, maxChunk) + [] == Halved(count, start, end, maxChunk);
  }

  // ---- The halves are halves -----------------------------------------------------------

  function Power(k: nat): nat { if k == 0 then 1 else 2 * Power(k - 1) }

  /** `n` days are a `2^k`th of `whole`, rounded one way or the other. */
  predicate Part(whole: int, n: int, k: nat) {
    Power(k) * (n - 1) < whole < Power(k) * (n + 1)
  }

  lemma Halves(from: int, to: int)
    requires from < to
    ensures from <= MidDate(from, to) < to
    ensures var (n, a, b) := (to - from + 1, MidDate(from, to) - from + 1, to - MidDate(from, to));
            a + b == n && 0 <= a - b <= 1
  {
  }

  lemma PartOfHalf(whole: int, n: int, k: nat, m: int)
    requires Part(whole, n, k) && n - 1 <= 2 * m <= n + 1
    ensures Part(whole, m, k + 1)
  {
    var p := Power(k);
    assert Power(k + 1) == 2 * p;
    Doubled(p, m - 1);
    Doubled(p, m + 1);
    Scaled(p, 2 * (m - 1), n - 1);
    Scaled(p, n + 1, 2 * (m + 1));
  }

  lemma Doubled(p: nat, x: int)
    ensures 2 * p * x == p * (2 * x)
  {
  }

  lemma Scaled(p: nat, x: int, y: int)
    requires x <= y
    ensures p * x <= p * y
  {
  }

  lemma {:induction false} RangesHalve(count: Counts, from: int, to: int, maxChunk: int, whole: int, k: nat, i: nat) returns (m: nat)
    requires from <= to && Part(whole, to - from + 1, k) && i < |Halved(count, from, to, maxChunk)|
    ensures var r := Halved(count, from, to, maxChunk)[i]; m >= k && Part(whole, r.to - r.from + 1, m)
    decreases 1 + to - from
  {
    var total := ScanTotal(count, from, to);
    m := k;
    if total > maxChunk && from != to {
      var mid := MidDate(from, to);
      Halves(from, to);
      PartOfHalf(whole, to - from + 1, k, mid - from + 1);
      PartOfHalf(whole, to - from + 1, k, to - mid);
      var left := Halved(count, from, mid, maxChunk);
      if i < |left| { m := RangesHalve(count, from, mid, maxChunk, whole, k + 1, i); }
      else { m := RangesHalve(count, mid + 1, to, maxChunk, whole, k + 1, i - |left|); }
    }
  }

  /** Each range is a half of a half of the span, and so on: its days are the span's divided by
      a power of two, rounded. */
  lemma SpanHalves(count: Counts, from: int, to: int, maxChunk: int, i: nat) returns (m: nat)
    requires from <= to && i < |Halved(count, from, to, maxChunk)|
    ensures var r := Halved(count, from, to, maxChunk)[i]; Part(to - from + 1, r.to - r.from + 1, m)
  {
    assert Power(0) == 1;
    m := RangesHalve(count, from, to, maxChunk, to - from + 1, 0, i);
  }

  /** A span that fits, or of one day, is not cut; one that counts nothing gives no range; any
      other is cut between two days. */
  lemma CutOnlyIfTooFull(count: Counts, from: int, to: int, maxChunk: int)
    requires from <= to
    ensures var (total, ranges) := (ScanTotal(count, from, to), Halved(count, from, to, maxChunk));
            && (total == 0 ==> ranges == [])
            && (0 < total && (total <= maxChunk || from == to) ==> ranges == [Range(from, to, total)])
            && (total > maxChunk && total > 0 && from < to ==> Range(from, to, total) !in ranges)
  {
    if ScanTotal(count, from, to) > maxChunk && ScanTotal(count, from, to) > 0 && from < to {
      RangesOrdered(count, from, to, maxChunk);
      var ranges := Halved(count, from, to, maxChunk);
      forall i | 0 <= i < |ranges| ensures ranges[i] != Range(from, to, ScanTotal(count, from, to)) { assert Filled(count, ranges[i], maxChunk); }
    }
  }
}
