/** A greedy CTC reading: the frames' best classes, runs of them as glyphs, glyphs
    as words placed on their segment. Probabilities and pixels are reals. */
module Reading {
  import opened Ordre
  import Detect

  type Segment = Detect.Segment

  /** Below every probability a reader gives. */
  const F32_MIN: real := -340282346638528859811704183484516925440.0

  const BLANK: nat := 0

  /** A symbol, the frames it spans, and its probability on the first. */
  datatype Glyph = Glyph(symbol: nat, first: nat, last: nat, p: real)

  // ---- The best class of a frame ----------------------------------------------------

  /** The first of the largest; the blank when none is above the floor. */
  ghost predicate BestOf(row: seq<real>, best: nat, p: real) {
    if forall k | 0 <= k < |row| :: row[k] <= F32_MIN then best == BLANK && p == F32_MIN
    else
      && best < |row| && p == row[best]
      && (forall k | 0 <= k < |row| :: row[k] <= p)
      && (forall k | 0 <= k < best :: row[k] < p)
  }

  /** The fold over a frame's classes. */
  function Best(row: seq<real>): (r: (nat, real))
    ensures BestOf(row, r.0, r.1)
  {
    if row == [] then (0, F32_MIN) else
    var k := |row| - 1;
    var b := Best(row[..k]);
    assert forall j | 0 <= j < k :: row[..k][j] == row[j];
    if row[k] > b.1 then (k, row[k]) else b
  }

  // ---- What a reading says ------------------------------------------------------------

  /** Neighbouring repeats made one. */
  function Collapse(s: seq<nat>): seq<nat> {
    if |s| <= 1 then s else
    var n := |s| - 1;
    Collapse(s[..n]) + if s[n] == s[n - 1] then [] else [s[n]]
  }

  function DropBlanks(s: seq<nat>): seq<nat> {
    if s == [] then [] else
    var n := |s| - 1;
    DropBlanks(s[..n]) + if s[n] == BLANK then [] else [s[n]]
  }

  function Symbols(glyphs: seq<Glyph>): (r: seq<nat>)
    ensures |r| == |glyphs| && forall k | 0 <= k < |glyphs| :: r[k] == glyphs[k].symbol
  {
    seq(|glyphs|, k requires 0 <= k < |glyphs| => glyphs[k].symbol)
  }

  /** `g` spans a whole run of one symbol, the blank's apart. */
  ghost predicate WholeRun(best: seq<nat>, g: Glyph) {
    && g.symbol != BLANK
    && g.first <= g.last < |best|
    && (forall t | g.first <= t <= g.last :: best[t] == g.symbol)
    && (g.first == 0 || best[g.first - 1] != g.symbol)
    && (g.last + 1 == |best| || best[g.last + 1] != g.symbol)
  }

  ghost predicate Spanned(glyphs: seq<Glyph>, t: nat) {
    exists i :: 0 <= i < |glyphs| && glyphs[i].first <= t <= glyphs[i].last
  }

  ghost predicate AllWhole(best: seq<nat>, glyphs: seq<Glyph>) {
    forall i | 0 <= i < |glyphs| :: WholeRun(best, glyphs[i])
  }

  ghost predicate InTurn(glyphs: seq<Glyph>) {
    forall i, j | 0 <= i < j < |glyphs| :: glyphs[i].last < glyphs[j].first
  }

  ghost predicate AllSpanned(best: seq<nat>, glyphs: seq<Glyph>) {
    forall t: nat | t < |best| && best[t] != BLANK :: Spanned(glyphs, t)
  }

  /** The glyphs are the runs, all of them, in order. */
  ghost predicate Runs(best: seq<nat>, glyphs: seq<Glyph>) {
    AllWhole(best, glyphs) && InTurn(glyphs) && AllSpanned(best, glyphs)
  }

  function Latest(best: seq<nat>): nat {
    if best == [] then BLANK else best[|best| - 1]
  }

  /** The runs of the frames so far, the last one ending where they do if it is not blank. */
  ghost predicate Open(best: seq<nat>, glyphs: seq<Glyph>) {
    && Runs(best, glyphs)
    && (Latest(best) != BLANK ==> glyphs != [] && glyphs[|glyphs| - 1].last == |best| - 1)
  }

  lemma CollapseStep(best: seq<nat>, b: nat)
    ensures Collapse(best + [b]) == if best != [] && b == Latest(best) then Collapse(best) else Collapse(best) + [b]
  {
    assert (best + [b])[..|best|] == best;
    assert Collapse(best) + [] == Collapse(best);
  }

  lemma DropStep(s: seq<nat>, b: nat)
    ensures DropBlanks(s + [b]) == if b == BLANK then DropBlanks(s) else DropBlanks(s) + [b]
  {
    assert (s + [b])[..|s|] == s;
    assert DropBlanks(s) + [] == DropBlanks(s);
  }

  lemma EmittedStep(best: seq<nat>, b: nat)
    ensures DropBlanks(Collapse(best + [b])) ==
            if b == Latest(best) || b == BLANK then DropBlanks(Collapse(best)) else DropBlanks(Collapse(best)) + [b]
  {
    CollapseStep(best, b);
    DropStep(Collapse(best), b);
    if best == [] { assert Collapse([b]) == [b]; }
  }

  lemma SpannedStays(glyphs: seq<Glyph>, more: seq<Glyph>, t: nat)
    requires Spanned(glyphs, t) && |glyphs| <= |more|
    requires forall i | 0 <= i < |glyphs| :: more[i].first == glyphs[i].first && glyphs[i].last <= more[i].last
    ensures Spanned(more, t)
  {
    var i :| 0 <= i < |glyphs| && glyphs[i].first <= t <= glyphs[i].last;
    assert more[i].first <= t <= more[i].last;
  }

  lemma LengthenedSpans(best: seq<nat>, glyphs: seq<Glyph>, b: nat)
    requires AllWhole(best, glyphs) && AllSpanned(best, glyphs) && glyphs != [] && glyphs[|glyphs| - 1].last == |best| - 1
    ensures var n := |glyphs| - 1; AllSpanned(best + [b], glyphs[n := glyphs[n].(last := |best|)])
  {
    var n := |glyphs| - 1;
    assert WholeRun(best, glyphs[n]);
    var (now, more) := (best + [b], glyphs[n := glyphs[n].(last := |best|)]);
    forall t: nat | t < |now| && now[t] != BLANK ensures Spanned(more, t) {
      if t < |best| { LengthenedStays(glyphs, n, |best|, t); } else { LengthenedLast(glyphs, n, |best|); }
    }
  }

  lemma LengthenedStays(glyphs: seq<Glyph>, n: nat, last: nat, t: nat)
    requires n < |glyphs| && glyphs[n].last <= last && Spanned(glyphs, t)
    ensures Spanned(glyphs[n := glyphs[n].(last := last)], t)
  {
    SpannedStays(glyphs, glyphs[n := glyphs[n].(last := last)], t);
  }

  lemma LengthenedLast(glyphs: seq<Glyph>, n: nat, last: nat)
    requires n < |glyphs| && glyphs[n].first <= last
    ensures Spanned(glyphs[n := glyphs[n].(last := last)], last)
  {
    var more := glyphs[n := glyphs[n].(last := last)];
    assert more[n].first <= last <= more[n].last;
  }

  lemma LengthenedWhole(best: seq<nat>, glyphs: seq<Glyph>, b: nat)
    requires AllWhole(best, glyphs) && InTurn(glyphs)
    requires b == Latest(best) != BLANK && glyphs != [] && glyphs[|glyphs| - 1].last == |best| - 1
    ensures var n := |glyphs| - 1; AllWhole(best + [b], glyphs[n := glyphs[n].(last := |best|)])
  {
    var n := |glyphs| - 1;
    LastLonger(best, glyphs[n], b);
    forall i | 0 <= i < n ensures WholeRun(best + [b], glyphs[i]) {
      assert WholeRun(best, glyphs[n]);
      EarlierWhole(best, glyphs[i], b);
    }
  }

  lemma LastLonger(best: seq<nat>, g: Glyph, b: nat)
    requires WholeRun(best, g) && b == Latest(best) && g.last == |best| - 1
    ensures WholeRun(best + [b], g.(last := |best|))
  {
  }

  lemma EarlierWhole(best: seq<nat>, g: Glyph, b: nat)
    requires WholeRun(best, g) && (g.last + 1 < |best| || b != g.symbol)
    ensures WholeRun(best + [b], g)
  {
  }

  lemma LengthenedRuns(best: seq<nat>, glyphs: seq<Glyph>, b: nat)
    requires Runs(best, glyphs) && b == Latest(best) != BLANK && glyphs != [] && glyphs[|glyphs| - 1].last == |best| - 1
    ensures var n := |glyphs| - 1; Runs(best + [b], glyphs[n := glyphs[n].(last := |best|)])
  {
    LengthenedWhole(best, glyphs, b);
    LengthenedSpans(best, glyphs, b);
  }

  lemma BegunSpans(best: seq<nat>, glyphs: seq<Glyph>, b: nat, p: real)
    requires AllSpanned(best, glyphs)
    ensures AllSpanned(best + [b], glyphs + [Glyph(b, |best|, |best|, p)])
  {
    var (now, more) := (best + [b], glyphs + [Glyph(b, |best|, |best|, p)]);
    forall t: nat | t < |now| && now[t] != BLANK ensures Spanned(more, t) {
      if t < |best| { SpannedStays(glyphs, more, t); } else { assert more[|glyphs|].first <= t <= more[|glyphs|].last; }
    }
  }

  lemma SymbolAtEnd(best: seq<nat>, g: Glyph)
    requires WholeRun(best, g)
    ensures g.last + 1 == |best| ==> Latest(best) == g.symbol
  {
  }

  lemma BegunRuns(best: seq<nat>, glyphs: seq<Glyph>, b: nat, p: real)
    requires Runs(best, glyphs) && b != Latest(best) && b != BLANK
    ensures Runs(best + [b], glyphs + [Glyph(b, |best|, |best|, p)])
  {
    BegunSpans(best, glyphs, b, p);
    forall i | 0 <= i < |glyphs| ensures WholeRun(best + [b], glyphs[i]) {
      SymbolAtEnd(best, glyphs[i]);
      EarlierWhole(best, glyphs[i], b);
    }
  }

  lemma BlankedRuns(best: seq<nat>, glyphs: seq<Glyph>)
    requires Runs(best, glyphs)
    ensures Runs(best + [BLANK], glyphs)
  {
    forall i | 0 <= i < |glyphs| ensures WholeRun(best + [BLANK], glyphs[i]) { EarlierWhole(best, glyphs[i], BLANK); }
    forall t: nat | t < |best| + 1 && (best + [BLANK])[t] != BLANK ensures Spanned(glyphs, t) { assert best[t] != BLANK; }
  }

  /** The glyphs after one frame more. */
  function Next(glyphs: seq<Glyph>, previous: nat, t: nat, best: nat, p: real): seq<Glyph> {
    if glyphs != [] && best == previous && best != BLANK then glyphs[|glyphs| - 1 := glyphs[|glyphs| - 1].(last := t)]
    else if best != BLANK then glyphs + [Glyph(best, t, t, p)]
    else glyphs
  }

  lemma NextBlank(best: seq<nat>, glyphs: seq<Glyph>, p: real)
    requires Open(best, glyphs)
    ensures Open(best + [BLANK], Next(glyphs, Latest(best), |best|, BLANK, p))
  {
    BlankedRuns(best, glyphs);
  }

  lemma NextSame(best: seq<nat>, glyphs: seq<Glyph>, b: nat, p: real)
    requires Open(best, glyphs) && b != BLANK && b == Latest(best)
    ensures Open(best + [b], Next(glyphs, Latest(best), |best|, b, p))
  {
    LengthenedRuns(best, glyphs, b);
  }

  lemma NextNew(best: seq<nat>, glyphs: seq<Glyph>, b: nat, p: real)
    requires Open(best, glyphs) && b != BLANK && b != Latest(best)
    ensures Open(best + [b], Next(glyphs, Latest(best), |best|, b, p))
  {
    BegunRuns(best, glyphs, b, p);
  }

  /** A frame that repeats the last symbol lengthens its glyph, one of another
      symbol begins a glyph, a blank one does neither. */
  lemma NextOpen(best: seq<nat>, glyphs: seq<Glyph>, b: nat, p: real)
    requires Open(best, glyphs)
    ensures Open(best + [b], Next(glyphs, Latest(best), |best|, b, p))
  {
    if b == BLANK {
      NextBlank(best, glyphs, p);
    } else if b == Latest(best) {
      NextSame(best, glyphs, b, p);
    } else {
      NextNew(best, glyphs, b, p);
    }
  }

  lemma NextSymbols(glyphs: seq<Glyph>, previous: nat, t: nat, b: nat, p: real)
    requires previous != BLANK ==> glyphs != []
    ensures Symbols(Next(glyphs, previous, t, b, p)) == if b == previous || b == BLANK then Symbols(glyphs) else Symbols(glyphs) + [b]
  {
    var more := Next(glyphs, previous, t, b, p);
    if b != BLANK && b == previous { assert Symbols(more) == Symbols(glyphs); }
    else if b != BLANK { assert Symbols(more) == Symbols(glyphs) + [b]; }
  }

  /** The frames' classes, repeats made one and blanks then dropped. */
  function Emitted(best: seq<nat>): seq<nat> {
    DropBlanks(Collapse(best))
  }

  /** One frame more, for the runs and for what they say. */
  lemma NextFrame(best: seq<nat>, glyphs: seq<Glyph>, b: nat, p: real)
    requires Open(best, glyphs) && Symbols(glyphs) == Emitted(best)
    ensures var more := Next(glyphs, Latest(best), |best|, b, p); Open(best + [b], more) && Symbols(more) == Emitted(best + [b])
  {
    NextOpen(best, glyphs, b, p);
    NextSymbols(glyphs, Latest(best), |best|, b, p);
    EmittedStep(best, b);
  }

  // ---- The decoder ----------------------------------------------------------------------

  lemma RowWithin(total: nat, classes: nat, t: nat)
    requires classes > 0 && t < total / classes
    ensures 0 <= t * classes && t * classes + classes <= total
  {
    assert (t + 1) * classes <= (total / classes) * classes;
    assert (t + 1) * classes == t * classes + classes;
  }

  /** The probabilities of frame `t`; what is left past the last whole frame is unread. */
  function Row(probs: seq<real>, classes: nat, t: nat): seq<real>
    requires classes > 0 && t < |probs| / classes
  {
    RowWithin(|probs|, classes, t);
    probs[t * classes..t * classes + classes]
  }

  /** The best class of each frame. */
  function Bests(probs: seq<real>, classes: nat): (r: seq<nat>)
    requires classes > 0
    ensures |r| == |probs| / classes
    ensures forall t | 0 <= t < |r| :: r[t] == Best(Row(probs, classes, t)).0
  {
    seq(|probs| / classes, t requires 0 <= t < |probs| / classes => Best(Row(probs, classes, t)).0)
  }

  /** The probability of each frame's best class. */
  function Chances(probs: seq<real>, classes: nat): (r: seq<real>)
    requires classes > 0
    ensures |r| == |probs| / classes
    ensures forall t | 0 <= t < |r| :: r[t] == Best(Row(probs, classes, t)).1
  {
    seq(|probs| / classes, t requires 0 <= t < |probs| / classes => Best(Row(probs, classes, t)).1)
  }

  /** Each glyph has the probability of the frame it begins on. */
  ghost predicate FirstProbs(chances: seq<real>, glyphs: seq<Glyph>) {
    forall i | 0 <= i < |glyphs| :: glyphs[i].first < |chances| && glyphs[i].p == chances[glyphs[i].first]
  }

  lemma NextProbs(chances: seq<real>, glyphs: seq<Glyph>, previous: nat, t: nat, b: nat)
    requires FirstProbs(chances, glyphs) && t < |chances|
    ensures FirstProbs(chances, Next(glyphs, previous, t, b, chances[t]))
  {
  }

  /** The best class of frame `t` and its probability. */
  function BestAt(probs: seq<real>, classes: nat, t: nat): (r: (nat, real))
    requires classes > 0 && t < |probs| / classes
    ensures r.0 == Bests(probs, classes)[t] && r.1 == Chances(probs, classes)[t]
  {
    Best(Row(probs, classes, t))
  }

  /** The glyphs of a reading: the runs of its best classes, which are those
      classes, repeats made one and blanks then dropped. */
  method Decode(probs: seq<real>, classes: nat) returns (glyphs: seq<Glyph>, frames: nat)
    requires classes > 0
    ensures frames == |probs| / classes
    ensures Runs(Bests(probs, classes), glyphs)
    ensures Symbols(glyphs) == Emitted(Bests(probs, classes))
    ensures FirstProbs(Chances(probs, classes), glyphs)
  {
    frames := |probs| / classes;
    ghost var bests := Bests(probs, classes);
    glyphs := [];
    var previous := 0;
    for t := 0 to frames
      invariant Open(bests[..t], glyphs) && Symbols(glyphs) == Emitted(bests[..t]) && previous == Latest(bests[..t])
      invariant FirstProbs(Chances(probs, classes), glyphs)
    {
      var (best, p) := BestAt(probs, classes, t);
      NextFrame(bests[..t], glyphs, best, p);
      NextProbs(Chances(probs, classes), glyphs, previous, t, best);
      PrefixeGrandit(bests, t);
      LatestIs(bests, t);
      if glyphs != [] && best == previous && best != 0 {
        glyphs := glyphs[|glyphs| - 1 := glyphs[|glyphs| - 1].(last := t)];
      } else if best != 0 {
        glyphs := glyphs + [Glyph(best, t, t, p)];
      }
      previous := best;
    }
    assert bests[..frames] == bests;
  }

  lemma LatestIs(s: seq<nat>, t: nat)
    requires t < |s|
    ensures Latest(s[..t + 1]) == s[t]
  {
  }

  // ---- Words ---------------------------------------------------------------------------------

  /** The pieces between separators, the empty ones too. */
  function Split<T>(s: seq<T>, sep: T -> bool): (r: seq<seq<T>>)
    ensures r != []
  {
    if s == [] then [[]]
    else
      var rest := Split(s[1..], sep);
      if sep(s[0]) then [[]] + rest else [[s[0]] + rest[0]] + rest[1..]
  }

  function NonEmpty<T(==)>(pieces: seq<seq<T>>): seq<seq<T>> {
    if pieces == [] then [] else (if pieces[0] == [] then [] else [pieces[0]]) + NonEmpty(pieces[1..])
  }

  function Together<T>(pieces: seq<seq<T>>): seq<T> {
    if pieces == [] then [] else pieces[0] + Together(pieces[1..])
  }

  function Keep<T>(s: seq<T>, sep: T -> bool): seq<T> {
    if s == [] then [] else (if sep(s[0]) then [] else [s[0]]) + Keep(s[1..], sep)
  }

  predicate Without<T>(piece: seq<T>, sep: T -> bool) {
    forall k | 0 <= k < |piece| :: !sep(piece[k])
  }

  lemma SplitCons<T>(s: seq<T>, sep: T -> bool)
    requires s != []
    ensures var rest := Split(s[1..], sep);
            && (sep(s[0]) ==> Split(s, sep)[0] == [] && Split(s, sep)[1..] == rest)
            && (!sep(s[0]) ==> Split(s, sep)[0] == [s[0]] + rest[0] && Split(s, sep)[1..] == rest[1..])
  {
    var rest := Split(s[1..], sep);
    assert ([[]] + rest)[1..] == rest;
    assert ([[s[0]] + rest[0]] + rest[1..])[1..] == rest[1..];
  }

  /** The separators, in order. */
  function Separators<T>(s: seq<T>, sep: T -> bool): seq<T> {
    if s == [] then [] else (if sep(s[0]) then [s[0]] else []) + Separators(s[1..], sep)
  }

  /** Pieces with a separator between each and the next. */
  function Woven<T>(pieces: seq<seq<T>>, seps: seq<T>): seq<T>
    requires |pieces| == |seps| + 1
    decreases |seps|
  {
    if seps == [] then pieces[0] else pieces[0] + [seps[0]] + Woven(pieces[1..], seps[1..])
  }

  lemma WovenPush<T>(x: T, pieces: seq<seq<T>>, seps: seq<T>)
    requires |pieces| == |seps| + 1
    ensures Woven([[x] + pieces[0]] + pieces[1..], seps) == [x] + Woven(pieces, seps)
  {
    assert ([[x] + pieces[0]] + pieces[1..])[1..] == pieces[1..];
  }

  lemma WovenCut<T>(x: T, pieces: seq<seq<T>>, seps: seq<T>)
    requires |pieces| == |seps| + 1
    ensures Woven([[]] + pieces, [x] + seps) == [x] + Woven(pieces, seps)
  {
    assert ([[]] + pieces)[1..] == pieces && ([x] + seps)[1..] == seps;
  }

  /** Put back between the pieces, the separators give the whole: there is one piece
      more than there are separators. */
  lemma {:induction false} SplitWoven<T>(s: seq<T>, sep: T -> bool)
    ensures |Split(s, sep)| == |Separators(s, sep)| + 1
    ensures Woven(Split(s, sep), Separators(s, sep)) == s
  {
    if s != [] {
      SplitWoven(s[1..], sep);
      var (rest, seps) := (Split(s[1..], sep), Separators(s[1..], sep));
      assert s == [s[0]] + s[1..];
      if sep(s[0]) {
        WovenCut(s[0], rest, seps);
      } else {
        WovenPush(s[0], rest, seps);
        assert Separators(s, sep) == [] + seps == seps;
      }
    }
  }

  /** The words hold everything but the separators, in order. */
  lemma {:induction false} SplitKeeps<T>(s: seq<T>, sep: T -> bool)
    ensures |Split(s, sep)| == |Separators(s, sep)| + 1 && Woven(Split(s, sep), Separators(s, sep)) == s
    ensures Together(Split(s, sep)) == Keep(s, sep)
    ensures forall k | 0 <= k < |Split(s, sep)| :: Without(Split(s, sep)[k], sep)
  {
    SplitWoven(s, sep);
    if s == [] {
      assert Split(s, sep)[1..] == [] && Together(Split(s, sep)) == s + Together(Split(s, sep)[1..]);
    } else {
      var (pieces, rest) := (Split(s, sep), Split(s[1..], sep));
      SplitCons(s, sep);
      SplitKeeps(s[1..], sep);
      assert [] + Keep(s[1..], sep) == Keep(s[1..], sep) && [] + Together(rest) == Together(rest);
      assert ([s[0]] + rest[0]) + Together(rest[1..]) == [s[0]] + (rest[0] + Together(rest[1..]));
      forall k | 0 <= k < |pieces| ensures Without(pieces[k], sep) {
        if k > 0 { assert pieces[k] == pieces[1..][k - 1]; }
      }
    }
  }

  /** Leaving out the empty pieces leaves out nothing else. */
  lemma {:induction false} TogetherNonEmpty<T>(pieces: seq<seq<T>>)
    ensures Together(NonEmpty(pieces)) == Together(pieces)
    ensures forall piece | piece in NonEmpty(pieces) :: piece != [] && piece in pieces
  {
    if pieces != [] {
      var rest := pieces[1..];
      TogetherNonEmpty(rest);
      if pieces[0] == [] {
        assert [] + NonEmpty(rest) == NonEmpty(rest) && [] + Together(rest) == Together(rest);
      } else {
        assert ([pieces[0]] + NonEmpty(rest))[1..] == NonEmpty(rest);
      }
    }
  }

  /** The pieces still to come when `run` is pending: those of `rest`, the first
      of which `run` begins. */
  function Coming<T(==)>(run: seq<T>, rest: seq<T>, sep: T -> bool): seq<seq<T>> {
    var pieces := Split(rest, sep);
    NonEmpty([run + pieces[0]] + pieces[1..])
  }

  lemma NonEmptyCons<T>(first: seq<T>, pieces: seq<seq<T>>)
    ensures NonEmpty([first] + pieces) == (if first == [] then [] else [first]) + NonEmpty(pieces)
  {
    assert ([first] + pieces)[1..] == pieces;
  }

  lemma ComingStart<T>(s: seq<T>, sep: T -> bool)
    ensures Coming([], s, sep) == NonEmpty(Split(s, sep))
  {
    var pieces := Split(s, sep);
    assert [] + pieces[0] == pieces[0];
    assert [pieces[0]] + pieces[1..] == pieces;
  }

  lemma ComingFlush<T>(run: seq<T>, rest: seq<T>, sep: T -> bool)
    requires rest != [] && sep(rest[0])
    ensures Coming(run, rest, sep) == (if run == [] then [] else [run]) + Coming([], rest[1..], sep)
  {
    SplitCons(rest, sep);
    ComingStart(rest[1..], sep);
    assert run + [] == run;
    NonEmptyCons(run, Split(rest[1..], sep));
  }

  lemma ComingPush<T>(run: seq<T>, rest: seq<T>, sep: T -> bool)
    requires rest != [] && !sep(rest[0])
    ensures Coming(run, rest, sep) == Coming(run + [rest[0]], rest[1..], sep)
  {
    var pieces := Split(rest[1..], sep);
    SplitCons(rest, sep);
    assert run + ([rest[0]] + pieces[0]) == (run + [rest[0]]) + pieces[0];
  }

  lemma ComingEnd<T>(run: seq<T>, sep: T -> bool)
    ensures Coming(run, [], sep) == if run == [] then [] else [run]
  {
    assert run + [] == run;
    NonEmptyCons(run, []);
  }

  datatype Word = Word(line: nat, text: string, x: real, y: real, width: real, height: real)

  function Spell(alphabet: seq<string>, run: seq<Glyph>): string
    requires forall k | 0 <= k < |run| :: run[k].symbol < |alphabet|
  {
    if run == [] then [] else alphabet[run[0].symbol] + Spell(alphabet, run[1..])
  }

  function Min(a: real, b: real): real { if a <= b then a else b }

  /** How far a frame number is across the input. */
  function Across(frame: nat, frames: nat, wide: real): real
    requires frames > 0
  {
    frame as real * (wide / frames as real)
  }

  /** The left edge of a run: a frame before it fires, within what is seen. */
  function Left(run: seq<Glyph>, frames: nat, wide: real, seen: real): real
    requires run != [] && frames > 0
  {
    Min(Across(if run[0].first == 0 then 0 else run[0].first - 1, frames, wide), seen)
  }

  /** The right edge: a frame past its last. */
  function Right(run: seq<Glyph>, frames: nat, wide: real, seen: real): real
    requires run != [] && frames > 0
  {
    Min(Across(run[|run| - 1].last + 2, frames, wide), seen)
  }

  /** A word between two edges of what the segment fills. */
  function WordAt(segment: Segment, seen: real, text: string, x0: real, x1: real): Word
    requires seen > 0.0
  {
    var scale := segment.width / seen;
    Word(segment.line, text, segment.x + x0 * scale, segment.y, (x1 - x0) * scale, segment.height)
  }

  /** The word of a run of glyphs: one frame more each side than it fires on,
      within what the segment fills. */
  function WordOf(alphabet: seq<string>, segment: Segment, seen: real, wide: real, frames: nat, run: seq<Glyph>): Word
    requires run != [] && frames > 0 && seen > 0.0 && forall k | 0 <= k < |run| :: run[k].symbol < |alphabet|
  {
    WordAt(segment, seen, Spell(alphabet, run), Left(run, frames, wide, seen), Right(run, frames, wide, seen))
  }

  /** What the words need: classes the alphabet has, and a seen width. */
  ghost predicate Readable(alphabet: seq<string>, glyphs: seq<Glyph>, seen: real, frames: nat) {
    seen > 0.0 && forall k | 0 <= k < |glyphs| :: glyphs[k].symbol < |alphabet| && glyphs[k].last < frames
  }

  function IsSpace(alphabet: seq<string>): Glyph -> bool {
    (g: Glyph) => g.symbol < |alphabet| && alphabet[g.symbol] == " "
  }

  /** The glyphs of each word. */
  function WordRuns(alphabet: seq<string>, glyphs: seq<Glyph>): seq<seq<Glyph>> {
    NonEmpty(Split(glyphs, IsSpace(alphabet)))
  }

  ghost predicate WordsAre(alphabet: seq<string>, segment: Segment, seen: real, wide: real, frames: nat,
                           words: seq<Word>, runs: seq<seq<Glyph>>)
  {
    && |words| == |runs|
    && forall k | 0 <= k < |words| ::
         runs[k] != [] && frames > 0 && Readable(alphabet, runs[k], seen, frames) &&
         words[k] == WordOf(alphabet, segment, seen, wide, frames, runs[k])
  }

  /** A run's word, if it has any glyph. */
  method Flush(alphabet: seq<string>, segment: Segment, seen: real, wide: real, frames: nat,
               words: seq<Word>, run: seq<Glyph>, ghost runs: seq<seq<Glyph>>)
    returns (more: seq<Word>)
    requires Readable(alphabet, run, seen, frames) && WordsAre(alphabet, segment, seen, wide, frames, words, runs)
    ensures WordsAre(alphabet, segment, seen, wide, frames, more, runs + if run == [] then [] else [run])
  {
    if run == [] {
      assert runs + [] == runs;
      return words;
    }
    assert run[0].last < frames;
    more := words + [WordOf(alphabet, segment, seen, wide, frames, run)];
  }

  /** The runs found, then those still to come from glyph `k` on, are the words'. */
  ghost predicate Underway(alphabet: seq<string>, glyphs: seq<Glyph>, k: nat, run: seq<Glyph>, done: seq<seq<Glyph>>)
    requires k <= |glyphs|
  {
    WordRuns(alphabet, glyphs) == done + Coming(run, glyphs[k..], IsSpace(alphabet))
  }

  lemma RestOf(glyphs: seq<Glyph>, k: nat)
    requires k < |glyphs|
    ensures glyphs[k..] != [] && glyphs[k..][0] == glyphs[k] && glyphs[k..][1..] == glyphs[k + 1..]
  {
  }

  lemma UnderwayCut(alphabet: seq<string>, glyphs: seq<Glyph>, k: nat, run: seq<Glyph>, done: seq<seq<Glyph>>)
    requires k < |glyphs| && Underway(alphabet, glyphs, k, run, done) && IsSpace(alphabet)(glyphs[k])
    ensures Underway(alphabet, glyphs, k + 1, [], done + if run == [] then [] else [run])
  {
    RestOf(glyphs, k);
    ComingFlush(run, glyphs[k..], IsSpace(alphabet));
    Associe(done, if run == [] then [] else [run], Coming([], glyphs[k + 1..], IsSpace(alphabet)));
  }

  lemma UnderwayPush(alphabet: seq<string>, glyphs: seq<Glyph>, k: nat, run: seq<Glyph>, done: seq<seq<Glyph>>)
    requires k < |glyphs| && Underway(alphabet, glyphs, k, run, done) && !IsSpace(alphabet)(glyphs[k])
    ensures Underway(alphabet, glyphs, k + 1, run + [glyphs[k]], done)
  {
    RestOf(glyphs, k);
    ComingPush(run, glyphs[k..], IsSpace(alphabet));
  }

  lemma UnderwayStart(alphabet: seq<string>, glyphs: seq<Glyph>)
    ensures Underway(alphabet, glyphs, 0, [], [])
  {
    ComingStart(glyphs, IsSpace(alphabet));
    assert glyphs[0..] == glyphs;
  }

  lemma UnderwayEnd(alphabet: seq<string>, glyphs: seq<Glyph>, run: seq<Glyph>, done: seq<seq<Glyph>>)
    requires Underway(alphabet, glyphs, |glyphs|, run, done)
    ensures WordRuns(alphabet, glyphs) == done + if run == [] then [] else [run]
  {
    ComingEnd(run, IsSpace(alphabet));
    assert glyphs[|glyphs|..] == [];
  }

  /** The words: one a run of glyphs between spaces, in order, placed where its
      glyphs fired. */
  method Words(glyphs: seq<Glyph>, frames: nat, alphabet: seq<string>, segment: Segment, seen: real, wide: real)
    returns (words: seq<Word>)
    requires Readable(alphabet, glyphs, seen, frames)
    ensures WordsAre(alphabet, segment, seen, wide, frames, words, WordRuns(alphabet, glyphs))
  {
    words := [];
    var run: seq<Glyph> := [];
    ghost var done: seq<seq<Glyph>> := [];
    UnderwayStart(alphabet, glyphs);
    for k := 0 to |glyphs|
      invariant Readable(alphabet, run, seen, frames) && Underway(alphabet, glyphs, k, run, done)
      invariant WordsAre(alphabet, segment, seen, wide, frames, words, done)
    {
      if alphabet[glyphs[k].symbol] == " " {
        UnderwayCut(alphabet, glyphs, k, run, done);
        words := Flush(alphabet, segment, seen, wide, frames, words, run, done);
        done := done + if run == [] then [] else [run];
        run := [];
      } else {
        UnderwayPush(alphabet, glyphs, k, run, done);
        run := run + [glyphs[k]];
      }
    }
    UnderwayEnd(alphabet, glyphs, run, done);
    words := Flush(alphabet, segment, seen, wide, frames, words, run, done);
  }

  // ---- Where the words stand ---------------------------------------------------------------------

  /** Glyphs one after another. */
  ghost predicate InOrder(glyphs: seq<Glyph>) {
    && (forall i | 0 <= i < |glyphs| :: glyphs[i].first <= glyphs[i].last)
    && (forall i, j | 0 <= i < j < |glyphs| :: glyphs[i].last < glyphs[j].first)
  }

  lemma {:induction false} KeepWithin<T>(s: seq<T>, sep: T -> bool)
    ensures forall x | x in Keep(s, sep) :: x in s
  {
    if s != [] { KeepWithin(s[1..], sep); }
  }

  lemma {:induction false} KeepInOrder(glyphs: seq<Glyph>, sep: Glyph -> bool)
    requires InOrder(glyphs)
    ensures InOrder(Keep(glyphs, sep))
  {
    if glyphs != [] {
      KeepInOrder(glyphs[1..], sep);
      KeepWithin(glyphs[1..], sep);
      var rest := Keep(glyphs[1..], sep);
      forall k | 0 <= k < |rest| ensures glyphs[0].last < rest[k].first {
        assert rest[k] in glyphs[1..];
      }
    }
  }

  /** One run wholly before another. */
  ghost predicate Before(a: seq<Glyph>, b: seq<Glyph>) {
    forall i, j | 0 <= i < |a| && 0 <= j < |b| :: a[i].last < b[j].first
  }

  lemma InOrderParts(a: seq<Glyph>, b: seq<Glyph>)
    requires InOrder(a + b)
    ensures InOrder(a) && InOrder(b) && Before(a, b)
  {
    var s := a + b;
    assert forall i | 0 <= i < |a| :: s[i] == a[i];
    assert forall j | 0 <= j < |b| :: s[|a| + j] == b[j];
  }

  lemma {:induction false} BeforeEach(a: seq<Glyph>, pieces: seq<seq<Glyph>>)
    requires Before(a, Together(pieces))
    ensures forall k | 0 <= k < |pieces| :: Before(a, pieces[k])
  {
    if pieces != [] {
      var (first, rest) := (pieces[0], Together(pieces[1..]));
      assert Together(pieces) == first + rest;
      assert forall j | 0 <= j < |first| :: (first + rest)[j] == first[j];
      assert forall j | 0 <= j < |rest| :: (first + rest)[|first| + j] == rest[j];
      BeforeEach(a, pieces[1..]);
    }
  }

  lemma {:induction false} PiecesInOrder(pieces: seq<seq<Glyph>>)
    requires InOrder(Together(pieces))
    ensures forall k | 0 <= k < |pieces| :: InOrder(pieces[k])
    ensures forall j, k | 0 <= j < k < |pieces| :: Before(pieces[j], pieces[k])
  {
    if pieces != [] {
      InOrderParts(pieces[0], Together(pieces[1..]));
      PiecesInOrder(pieces[1..]);
      BeforeEach(pieces[0], pieces[1..]);
    }
  }

  /** The glyphs of the words are in order, word after word. */
  lemma RunsInOrder(alphabet: seq<string>, glyphs: seq<Glyph>)
    requires InOrder(glyphs)
    ensures var runs := WordRuns(alphabet, glyphs);
            && (forall k | 0 <= k < |runs| :: InOrder(runs[k]))
            && (forall j, k | 0 <= j < k < |runs| :: Before(runs[j], runs[k]))
  {
    var sep := IsSpace(alphabet);
    SplitKeeps(glyphs, sep);
    TogetherNonEmpty(Split(glyphs, sep));
    KeepInOrder(glyphs, sep);
    PiecesInOrder(WordRuns(alphabet, glyphs));
  }

  lemma ScaledUp(a: real, b: real, scale: real)
    requires a <= b && scale >= 0.0
    ensures a * scale <= b * scale
  {
  }

  lemma AcrossGrows(a: nat, b: nat, frames: nat, wide: real)
    requires frames > 0 && wide >= 0.0 && a <= b
    ensures 0.0 <= Across(a, frames, wide) <= Across(b, frames, wide)
  {
    var stride := wide / frames as real;
    ScaledUp(0.0, a as real, stride);
    ScaledUp(a as real, b as real, stride);
  }

  lemma ScaleFills(seen: real, width: real)
    requires seen > 0.0
    ensures seen * (width / seen) == width
  {
  }

  lemma EdgesInside(frames: nat, wide: real, seen: real, run: seq<Glyph>)
    requires run != [] && frames > 0 && seen > 0.0 && wide >= 0.0 && InOrder(run)
    ensures 0.0 <= Left(run, frames, wide, seen) <= Right(run, frames, wide, seen) <= seen
  {
    var (first, last) := (run[0].first, run[|run| - 1].last);
    assert first <= run[0].last && (|run| > 1 ==> run[0].last < run[|run| - 1].first <= last);
    AcrossGrows(if first == 0 then 0 else first - 1, last + 2, frames, wide);
  }

  lemma PlacedInside(segment: Segment, seen: real, t: string, l: real, r: real)
    requires seen > 0.0 && segment.width >= 0.0 && 0.0 <= l <= r <= seen
    ensures var w := WordAt(segment, seen, t, l, r);
            w.width >= 0.0 && segment.x <= w.x && w.x + w.width <= segment.x + segment.width
  {
    var scale := segment.width / seen;
    ScaleNotNegative(seen, segment.width);
    ScaleFills(seen, segment.width);
    ScaledUp(0.0, l, scale);
    ScaledUp(l, r, scale);
    ScaledUp(r, seen, scale);
    assert (r - l) * scale == r * scale - l * scale;
  }

  /** A word's box is within its segment, and not inside out. */
  lemma BoxInside(alphabet: seq<string>, segment: Segment, seen: real, wide: real, frames: nat, run: seq<Glyph>)
    requires run != [] && frames > 0 && Readable(alphabet, run, seen, frames) && InOrder(run)
    requires wide >= 0.0 && segment.width >= 0.0
    ensures var w := WordOf(alphabet, segment, seen, wide, frames, run);
            && w.width >= 0.0 && segment.x <= w.x && w.x + w.width <= segment.x + segment.width
            && w.line == segment.line && w.y == segment.y && w.height == segment.height
  {
    EdgesInside(frames, wide, seen, run);
    PlacedInside(segment, seen, Spell(alphabet, run), Left(run, frames, wide, seen), Right(run, frames, wide, seen));
  }

  lemma AcrossNext(frame: nat, frames: nat, wide: real)
    requires frames > 0
    ensures Across(frame + 1, frames, wide) == Across(frame, frames, wide) + wide / frames as real
  {
    OneMore(frame as real, wide / frames as real);
  }

  lemma OneMore(n: real, stride: real)
    ensures (n + 1.0) * stride == n * stride + stride
  {
  }

  /** A word takes one frame more each side than it fires on, short of the edges of
      the page and of what is seen. */
  lemma OneFrameMore(frames: nat, wide: real, seen: real, run: seq<Glyph>)
    requires run != [] && frames > 0 && wide >= 0.0 && InOrder(run)
    ensures var (first, last, stride) := (run[0].first, run[|run| - 1].last, wide / frames as real);
            && (first > 0 && Across(last + 2, frames, wide) <= seen ==> Left(run, frames, wide, seen) == Across(first, frames, wide) - stride)
            && (Across(last + 2, frames, wide) <= seen ==> Right(run, frames, wide, seen) == Across(last + 1, frames, wide) + stride)
            && Left(run, frames, wide, seen) <= Across(first, frames, wide)
            && Min(Across(last + 1, frames, wide), seen) <= Right(run, frames, wide, seen)
  {
    var (first, last) := (run[0].first, run[|run| - 1].last);
    RunSpans(run);
    if first > 0 { AcrossNext(first - 1, frames, wide); }
    AcrossNext(last + 1, frames, wide);
    AcrossGrows(first, last + 2, frames, wide);
    AcrossGrows(if first == 0 then 0 else first - 1, first, frames, wide);
    AcrossGrows(last + 1, last + 2, frames, wide);
  }

  lemma RunSpans(run: seq<Glyph>)
    requires run != [] && InOrder(run)
    ensures run[0].first <= run[|run| - 1].last
  {
    assert run[0].first <= run[0].last && (|run| > 1 ==> run[0].last < run[|run| - 1].first <= run[|run| - 1].last);
  }

  /** The left and right edges of words go with their glyphs. */
  lemma BoxesInOrder(alphabet: seq<string>, segment: Segment, seen: real, wide: real, frames: nat, a: seq<Glyph>, b: seq<Glyph>)
    requires a != [] && b != [] && frames > 0 && Readable(alphabet, a, seen, frames) && Readable(alphabet, b, seen, frames)
    requires wide >= 0.0 && segment.width >= 0.0 && InOrder(a) && InOrder(b) && Before(a, b)
    ensures var (v, w) := (WordOf(alphabet, segment, seen, wide, frames, a), WordOf(alphabet, segment, seen, wide, frames, b));
            v.x <= w.x && v.x + v.width <= w.x + w.width
  {
    EdgesGrow(frames, wide, seen, a, b);
    PlacedInOrder(segment, seen, Spell(alphabet, a), Left(a, frames, wide, seen), Right(a, frames, wide, seen),
                  Spell(alphabet, b), Left(b, frames, wide, seen), Right(b, frames, wide, seen));
  }

  lemma PlacedInOrder(segment: Segment, seen: real, t: string, l: real, r: real, u: string, m: real, s: real)
    requires seen > 0.0 && segment.width >= 0.0 && l <= m && r <= s
    ensures var (v, w) := (WordAt(segment, seen, t, l, r), WordAt(segment, seen, u, m, s));
            v.x <= w.x && v.x + v.width <= w.x + w.width
  {
    ScaleNotNegative(seen, segment.width);
    EdgesScaled(segment.x, segment.width / seen, l, r, m, s);
  }

  lemma ScaleNotNegative(seen: real, width: real)
    requires seen > 0.0 && width >= 0.0
    ensures width / seen >= 0.0
  {
  }

  lemma EdgesScaled(x: real, scale: real, l: real, r: real, m: real, s: real)
    requires scale >= 0.0 && l <= m && r <= s
    ensures x + l * scale <= x + m * scale
    ensures (x + l * scale) + (r - l) * scale <= (x + m * scale) + (s - m) * scale
  {
    assert (r - l) * scale == r * scale - l * scale && (s - m) * scale == s * scale - m * scale;
  }

  lemma EdgesGrow(frames: nat, wide: real, seen: real, a: seq<Glyph>, b: seq<Glyph>)
    requires a != [] && b != [] && frames > 0 && wide >= 0.0 && InOrder(a) && InOrder(b) && Before(a, b)
    ensures Left(a, frames, wide, seen) <= Left(b, frames, wide, seen)
    ensures Right(a, frames, wide, seen) <= Right(b, frames, wide, seen)
  {
    var (f, l, g, m) := (a[0].first, a[|a| - 1].last, b[0].first, b[|b| - 1].last);
    assert f <= a[0].last < g && l < b[|b| - 1].first <= m;
    AcrossGrows(if f == 0 then 0 else f - 1, if g == 0 then 0 else g - 1, frames, wide);
    AcrossGrows(l + 2, m + 2, frames, wide);
  }

  /** The words of a reading stand within their segment, from left to right. */
  lemma WordsPlaced(best: seq<nat>, glyphs: seq<Glyph>, alphabet: seq<string>, segment: Segment, seen: real, wide: real, words: seq<Word>)
    requires Runs(best, glyphs) && wide >= 0.0 && segment.width >= 0.0
    requires WordsAre(alphabet, segment, seen, wide, |best|, words, WordRuns(alphabet, glyphs))
    ensures forall k | 0 <= k < |words| ::
              words[k].width >= 0.0 && segment.x <= words[k].x && words[k].x + words[k].width <= segment.x + segment.width
    ensures forall j, k | 0 <= j < k < |words| :: words[j].x <= words[k].x && words[j].x + words[j].width <= words[k].x + words[k].width
  {
    var runs := WordRuns(alphabet, glyphs);
    RunsInOrder(alphabet, glyphs);
    forall k | 0 <= k < |words| ensures words[k].width >= 0.0 && segment.x <= words[k].x && words[k].x + words[k].width <= segment.x + segment.width {
      BoxInside(alphabet, segment, seen, wide, |best|, runs[k]);
    }
    forall j, k | 0 <= j < k < |words| ensures words[j].x <= words[k].x && words[j].x + words[j].width <= words[k].x + words[k].width {
      BoxesInOrder(alphabet, segment, seen, wide, |best|, runs[j], runs[k]);
    }
  }

  // ---- What the words say ----------------------------------------------------------------------

  /** What each glyph spells. */
  function Letters(alphabet: seq<string>, glyphs: seq<Glyph>): (r: seq<string>)
    requires forall k | 0 <= k < |glyphs| :: glyphs[k].symbol < |alphabet|
    ensures |r| == |glyphs| && forall k | 0 <= k < |r| :: r[k] == alphabet[glyphs[k].symbol]
  {
    seq(|glyphs|, k requires 0 <= k < |glyphs| => alphabet[glyphs[k].symbol])
  }

  lemma {:induction false} SpellIs(alphabet: seq<string>, run: seq<Glyph>)
    requires forall k | 0 <= k < |run| :: run[k].symbol < |alphabet|
    ensures Spell(alphabet, run) == Together(Letters(alphabet, run))
    decreases |run|
  {
    if run != [] {
      SpellIs(alphabet, run[1..]);
      assert Letters(alphabet, run)[1..] == Letters(alphabet, run[1..]);
    }
  }

  lemma {:induction false} TogetherBoth<T>(a: seq<seq<T>>, b: seq<seq<T>>)
    ensures Together(a + b) == Together(a) + Together(b)
    decreases |a|
  {
    if a == [] {
      assert a + b == b;
    } else {
      TogetherBoth(a[1..], b);
      assert (a + b)[1..] == a[1..] + b;
      Associe(a[0], Together(a[1..]), Together(b));
    }
  }

  function Said(words: seq<Word>): (r: seq<string>)
    ensures |r| == |words| && forall k | 0 <= k < |r| :: r[k] == words[k].text
  {
    seq(|words|, k requires 0 <= k < |words| => words[k].text)
  }

  /** Each text spells its run. */
  ghost predicate SpellEach(alphabet: seq<string>, texts: seq<string>, runs: seq<seq<Glyph>>) {
    |texts| == |runs| && forall k | 0 <= k < |texts| :: Known(alphabet, runs[k]) && texts[k] == Spell(alphabet, runs[k])
  }

  ghost predicate Known(alphabet: seq<string>, glyphs: seq<Glyph>) {
    forall k | 0 <= k < |glyphs| :: glyphs[k].symbol < |alphabet|
  }

  lemma LettersBoth(alphabet: seq<string>, a: seq<Glyph>, b: seq<Glyph>)
    requires Known(alphabet, a) && Known(alphabet, b)
    ensures Known(alphabet, a + b) && Together(Letters(alphabet, a + b)) == Together(Letters(alphabet, a)) + Together(Letters(alphabet, b))
  {
    assert Letters(alphabet, a + b) == Letters(alphabet, a) + Letters(alphabet, b);
    TogetherBoth(Letters(alphabet, a), Letters(alphabet, b));
  }

  lemma SpellNext(alphabet: seq<string>, texts: seq<string>, runs: seq<seq<Glyph>>)
    requires runs != [] && SpellEach(alphabet, texts, runs) && Known(alphabet, Together(runs[1..]))
    requires Together(texts[1..]) == Together(Letters(alphabet, Together(runs[1..])))
    ensures Known(alphabet, Together(runs)) && Together(texts) == Together(Letters(alphabet, Together(runs)))
  {
    SpellIs(alphabet, runs[0]);
    LettersBoth(alphabet, runs[0], Together(runs[1..]));
  }

  lemma {:induction false} WordsSpell(alphabet: seq<string>, texts: seq<string>, runs: seq<seq<Glyph>>)
    requires SpellEach(alphabet, texts, runs)
    ensures Known(alphabet, Together(runs)) && Together(texts) == Together(Letters(alphabet, Together(runs)))
    decreases |runs|
  {
    if runs != [] {
      WordsSpell(alphabet, texts[1..], runs[1..]);
      SpellNext(alphabet, texts, runs);
    } else {
      assert Letters(alphabet, []) == [];
    }
  }

  /** The words spell the glyphs that are not spaces, all of them, in order; each is on its
      segment's line, at its height. */
  lemma TextKept(alphabet: seq<string>, segment: Segment, seen: real, wide: real, frames: nat, words: seq<Word>, glyphs: seq<Glyph>)
    requires Readable(alphabet, glyphs, seen, frames) && WordsAre(alphabet, segment, seen, wide, frames, words, WordRuns(alphabet, glyphs))
    ensures forall k | 0 <= k < |Keep(glyphs, IsSpace(alphabet))| :: Keep(glyphs, IsSpace(alphabet))[k].symbol < |alphabet|
    ensures Together(Said(words)) == Together(Letters(alphabet, Keep(glyphs, IsSpace(alphabet))))
    ensures forall k | 0 <= k < |words| :: words[k].line == segment.line && words[k].y == segment.y && words[k].height == segment.height
  {
    var sep := IsSpace(alphabet);
    var kept := Keep(glyphs, sep);
    SplitKeeps(glyphs, sep);
    TogetherNonEmpty(Split(glyphs, sep));
    KeepWithin(glyphs, sep);
    forall k | 0 <= k < |kept| ensures kept[k].symbol < |alphabet| { assert kept[k] in glyphs; }
    WordsSpell(alphabet, Said(words), WordRuns(alphabet, glyphs));
  }
}
