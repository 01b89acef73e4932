/** Which segments share a line, from their middles and heights alone: when those
    whose middles are within half a height do, and when they do not. */
module LineCloseness {
  import opened Ordre
  import opened Detect
  import opened DetectLines

  /** The middle of segment `k` is within half its height of the middle of `i`. */
  predicate Close(sorted: seq<Segment>, i: nat, k: nat)
    requires i < |sorted| && k < |sorted|
  {
    OnLevel(sorted[k], Middle(sorted[i]))
  }

  predicate OneLine(sorted: seq<Segment>, i: nat, k: nat)
    requires i < |sorted| && k < |sorted|
  {
    LineOf(Starts(sorted), i) == LineOf(Starts(sorted), k)
  }

  /** Segment `b` is close to the one just before it. */
  predicate Follows(sorted: seq<Segment>, b: nat)
    requires 0 < b < |sorted|
  {
    Close(sorted, b - 1, b)
  }

  /** So is every segment from `i`, not itself, to `k`. */
  predicate StepByStep(sorted: seq<Segment>, i: nat, k: nat)
    requires k < |sorted|
  {
    forall b | i < b <= k :: Follows(sorted, b)
  }

  /** Every one of them is close to `i` itself. */
  predicate AllClose(sorted: seq<Segment>, i: nat, k: nat)
    requires k < |sorted|
  {
    forall b | i < b <= k :: Close(sorted, i, b)
  }

  /** Segment `a` opens a line: it is the first, or the first not close to one that does. */
  ghost predicate Opens(sorted: seq<Segment>, a: nat)
    requires a < |sorted|
  {
    a == 0 || exists p: nat :: p < a && Opens(sorted, p) && AllClose(sorted, p, a - 1) && !Close(sorted, p, a)
  }

  lemma {:induction false} StartOpens(sorted: seq<Segment>, k: nat)
    requires k < |sorted|
    ensures Opens(sorted, Starts(sorted)[k]) && AllClose(sorted, Starts(sorted)[k], k)
  {
    StartsAre(sorted, k);
    if k > 0 {
      StartOpens(sorted, k - 1);
      StartsAre(sorted, k - 1);
    }
  }

  lemma {:induction false} OpenerStarts(sorted: seq<Segment>, a: nat, k: nat)
    requires a <= k < |sorted| && Opens(sorted, a) && AllClose(sorted, a, k)
    ensures Starts(sorted)[k] == a
    decreases k
  {
    StartsAre(sorted, k);
    if a < k {
      OpenerStarts(sorted, a, k - 1);
      assert Close(sorted, a, k);
    } else if a > 0 {
      var p: nat :| p < a && Opens(sorted, p) && AllClose(sorted, p, a - 1) && !Close(sorted, p, a);
      OpenerStarts(sorted, p, a - 1);
    }
  }

  /** Two segments share a line if and only if some segment, at `i` or above, opens a
      line and every one after it down to `k` is close to it. */
  lemma OneLineIff(sorted: seq<Segment>, i: nat, k: nat)
    requires i <= k < |sorted|
    ensures OneLine(sorted, i, k) <==> exists a: nat :: a <= i && Opens(sorted, a) && AllClose(sorted, a, k)
  {
    LinesByLevel(sorted, i, k);
    if OneLine(sorted, i, k) {
      StartOpens(sorted, k);
      assert Starts(sorted)[k] <= i;
    }
    if a: nat :| a <= i && Opens(sorted, a) && AllClose(sorted, a, k) {
      OpenerStarts(sorted, a, k);
      OpenerStarts(sorted, a, i);
    }
  }

  /** Segments whose middles are within half a height need not share a line: of three
      of height 10 at middles 5, 9 and 13 the last two do not. */
  lemma CloseApart(x: real, width: real)
    ensures var sorted := [Segment(0, x, 0.0, width, 10.0), Segment(0, x, 4.0, width, 10.0), Segment(0, x, 8.0, width, 10.0)];
            Trie(Higher, sorted) && Close(sorted, 1, 2) && !OneLine(sorted, 1, 2)
  {
    var sorted := [Segment(0, x, 0.0, width, 10.0), Segment(0, x, 4.0, width, 10.0), Segment(0, x, 8.0, width, 10.0)];
    assert Opens(sorted, 0) && Close(sorted, 0, 1) && !Close(sorted, 0, 2);
    assert AllClose(sorted, 0, 1) && Opens(sorted, 2);
    OpenerStarts(sorted, 0, 1);
    OpenerStarts(sorted, 2, 2);
    LinesByLevel(sorted, 1, 2);
  }

  lemma Closer(sorted: seq<Segment>, i: nat, j: nat, k: nat)
    requires Trie(Higher, sorted) && i <= j < k < |sorted| && Close(sorted, i, k)
    ensures Close(sorted, j, k)
  {
    if i < j { assert Higher(sorted[i], sorted[j]); }
    assert Higher(sorted[j], sorted[k]);
  }

  lemma AllCloseSteps(sorted: seq<Segment>, a: nat, i: nat, k: nat)
    requires Trie(Higher, sorted) && a <= i < k < |sorted| && AllClose(sorted, a, k)
    ensures Close(sorted, i, k) && StepByStep(sorted, i, k)
  {
    Closer(sorted, a, i, k);
    forall b | i < b <= k ensures Follows(sorted, b) { Closer(sorted, a, b - 1, b); }
  }

  /** Segments of one line are close step by step, and the later to each before it. */
  lemma OneLineClose(sorted: seq<Segment>, i: nat, k: nat)
    requires Trie(Higher, sorted) && i < k < |sorted| && OneLine(sorted, i, k)
    ensures Close(sorted, i, k) && StepByStep(sorted, i, k)
  {
    OneLineIff(sorted, i, k);
    var a: nat :| a <= i && Opens(sorted, a) && AllClose(sorted, a, k);
    AllCloseSteps(sorted, a, i, k);
  }

  /** Where closeness makes a line, segments close step by step share one. */
  lemma {:induction false} StepsOneLine(sorted: seq<Segment>, i: nat, k: nat)
    requires i <= k < |sorted| && StepByStep(sorted, i, k)
    requires forall b | i < b <= k :: Follows(sorted, b) ==> OneLine(sorted, b - 1, b)
    ensures OneLine(sorted, i, k)
    decreases k
  {
    if i < k {
      StepsOneLine(sorted, i, k - 1);
      assert Follows(sorted, k);
    }
  }

  /** A segment close to the one before it joins its line, if it is close to all those
      from which it is reached step by step. */
  lemma StepJoins(sorted: seq<Segment>, b: nat)
    requires Trie(Higher, sorted) && 0 < b < |sorted| && Follows(sorted, b)
    requires forall i | 0 <= i < b && StepByStep(sorted, i, b) :: Close(sorted, i, b)
    ensures OneLine(sorted, b - 1, b)
  {
    var a := Starts(sorted)[b - 1];
    StartOpens(sorted, b - 1);
    forall c | a < c <= b ensures Follows(sorted, c) {
      if c < b { Closer(sorted, a, c - 1, c); }
    }
    assert StepByStep(sorted, a, b);
    assert AllClose(sorted, a, b);
    OneLineIff(sorted, b - 1, b);
  }

  /** Segments within half a height of each other all share lines if and only if being
      so and being so step by step are the same on the page. */
  lemma CloseSharesIff(sorted: seq<Segment>)
    requires Trie(Higher, sorted)
    ensures (forall i, k | 0 <= i < k < |sorted| && Close(sorted, i, k) :: OneLine(sorted, i, k)) <==>
            (forall i, k | 0 <= i < k < |sorted| :: Close(sorted, i, k) <==> StepByStep(sorted, i, k))
  {
    if forall i, k | 0 <= i < k < |sorted| && Close(sorted, i, k) :: OneLine(sorted, i, k) {
      forall i, k | 0 <= i < k < |sorted| ensures Close(sorted, i, k) <==> StepByStep(sorted, i, k) {
        if StepByStep(sorted, i, k) { StepsOneLine(sorted, i, k); }
        if OneLine(sorted, i, k) { OneLineClose(sorted, i, k); }
      }
    }
    if forall i, k | 0 <= i < k < |sorted| :: Close(sorted, i, k) <==> StepByStep(sorted, i, k) {
      forall i, k | 0 <= i < k < |sorted| && Close(sorted, i, k) ensures OneLine(sorted, i, k) {
        forall b | i < b <= k ensures Follows(sorted, b) ==> OneLine(sorted, b - 1, b) {
          if Follows(sorted, b) { StepJoins(sorted, b); }
        }
        StepsOneLine(sorted, i, k);
      }
    }
  }
}
