/** Calendar lines (sections 3.1 and 3.3.11 of RFC 5545): a value escaped, then
    folded at 75 octets on character boundaries. Text is octets, in UTF-8. */
module Ics {
  import opened Ordre
  import opened Octets

  // ---- Escaping ---------------------------------------------------------------------

  /** The five replacements, one after the other. */
  function IcsEscape(value: string): string {
    Replace(Replace(Replace(Replace(Replace(value, '\\', "\\\\"), ';', "\\;"), ',', "\\,"), '\r', ""), '\n', "\\n")
  }

  function Backslashed(c: char): string { if c == '\\' then "\\\\" else [c] }
  function Semicolons(c: char): string { if c == ';' then "\\;" else Backslashed(c) }
  function Commas(c: char): string { if c == ',' then "\\," else Semicolons(c) }
  function NoReturn(c: char): string { if c == '\r' then "" else Commas(c) }

  /** What becomes of one character. */
  function EscapeChar(c: char): string { if c == '\n' then "\\n" else NoReturn(c) }

  lemma FlatPair(c: char, d: char, f: char -> string)
    ensures Flat([c, d], f) == f(c) + f(d)
  {
    assert [c, d][1..] == [d];
    FlatOne(d, f);
  }

  lemma FirstStep(value: string)
    ensures Flat(value, Swap('\\', "\\\\")) == Flat(value, Backslashed)
  {
    SameFlat(value, Swap('\\', "\\\\"), Backslashed);
  }

  lemma {:induction false} SameFlat(s: string, f: char -> string, g: char -> string)
    requires forall c :: f(c) == g(c)
    ensures Flat(s, f) == Flat(s, g)
  {
    if s != [] { SameFlat(s[1..], f, g); }
  }

  lemma SecondStep(value: string)
    ensures Flat(Flat(value, Backslashed), Swap(';', "\\;")) == Flat(value, Semicolons)
  {
    var g := Swap(';', "\\;");
    forall c ensures Semicolons(c) == Flat(Backslashed(c), g) {
      if c == '\\' { FlatPair('\\', '\\', g); } else { FlatOne(c, g); }
    }
    FlatTwice(value, Backslashed, g, Semicolons);
  }

  lemma ThirdStep(value: string)
    ensures Flat(Flat(value, Semicolons), Swap(',', "\\,")) == Flat(value, Commas)
  {
    var g := Swap(',', "\\,");
    forall c ensures Commas(c) == Flat(Semicolons(c), g) {
      if c == '\\' { FlatPair('\\', '\\', g); } else if c == ';' { FlatPair('\\', ';', g); } else { FlatOne(c, g); }
    }
    FlatTwice(value, Semicolons, g, Commas);
  }

  lemma FourthStep(value: string)
    ensures Flat(Flat(value, Commas), Swap('\r', "")) == Flat(value, NoReturn)
  {
    var g := Swap('\r', "");
    forall c ensures NoReturn(c) == Flat(Commas(c), g) {
      if c == '\\' || c == ';' || c == ',' { FlatPair('\\', c, g); } else { FlatOne(c, g); }
    }
    FlatTwice(value, Commas, g, NoReturn);
  }

  lemma FifthStep(value: string)
    ensures Flat(Flat(value, NoReturn), Swap('\n', "\\n")) == Flat(value, EscapeChar)
  {
    var g := Swap('\n', "\\n");
    forall c ensures EscapeChar(c) == Flat(NoReturn(c), g) {
      if c == '\r' {} else if c == '\\' || c == ';' || c == ',' { FlatPair('\\', c, g); } else { FlatOne(c, g); }
    }
    FlatTwice(value, NoReturn, g, EscapeChar);
  }

  /** The chain is one pass over the characters, the order of its links safe. */
  lemma IcsEscapeIs(value: string)
    ensures IcsEscape(value) == Flat(value, EscapeChar)
  {
    FirstStep(value);
    SecondStep(value);
    ThirdStep(value);
    FourthStep(value);
    FifthStep(value);
  }

  /** The reader's side (section 3.3.11). */
  function Unescape(s: string): string {
    if |s| >= 2 && s[0] == '\\' then [if s[1] == 'n' || s[1] == 'N' then '\n' else s[1]] + Unescape(s[2..])
    else if s == [] then []
    else [s[0]] + Unescape(s[1..])
  }

  /** A value without its carriage returns. */
  function DropReturns(s: string): string {
    if s == [] then [] else (if s[0] == '\r' then [] else [s[0]]) + DropReturns(s[1..])
  }

  lemma UnescapeChar(c: char, s: string)
    ensures Unescape(EscapeChar(c) + s) == (if c == '\r' then [] else [c]) + Unescape(s)
  {
    var u := EscapeChar(c);
    assert (u + s)[|u|..] == s;
    if c == '\r' { assert u + s == s; assert [] + Unescape(s) == Unescape(s); }
  }

  /** Escaped and read back, a value has lost its carriage returns, and nothing
      else. */
  lemma {:induction false} UnescapeEscape(value: string)
    ensures Unescape(IcsEscape(value)) == DropReturns(value)
  {
    IcsEscapeIs(value);
    UnescapeFlat(value);
  }

  lemma {:induction false} UnescapeFlat(value: string)
    ensures Unescape(Flat(value, EscapeChar)) == DropReturns(value)
  {
    if value != [] {
      UnescapeFlat(value[1..]);
      UnescapeChar(value[0], Flat(value[1..], EscapeChar));
    }
  }

  /** No line break is left in an escaped value. */
  lemma EscapedOneLine(value: string)
    ensures '\r' !in IcsEscape(value) && '\n' !in IcsEscape(value)
  {
    IcsEscapeIs(value);
    FlatWithout(value, EscapeChar, '\r');
    FlatWithout(value, EscapeChar, '\n');
  }

  // ---- UTF-8 ---------------------------------------------------------------------------

  /** An octet that continues a character. */
  predicate Continues(c: char) {
    0x80 <= c as int <= 0xBF
  }

  /** How many octets the character has that this one begins; 0 when it begins none. */
  function Width(c: char): nat {
    var o := c as int;
    if o < 0x80 then 1 else if 0xC2 <= o <= 0xDF then 2 else if 0xE0 <= o <= 0xEF then 3 else if 0xF0 <= o <= 0xF4 then 4 else 0
  }

  predicate Whole(s: string, n: nat) {
    n <= |s| && forall k | 1 <= k < n :: Continues(s[k])
  }

  /** A run of whole characters. */
  predicate Utf8(s: string) {
    s == [] || (Width(s[0]) > 0 && Whole(s, Width(s[0])) && Utf8(s[Width(s[0])..]))
  }

  /** A place where a text can be cut. */
  predicate Boundary(s: string, k: nat) {
    k == |s| || (k < |s| && !Continues(s[k]))
  }

  lemma BoundaryPast(s: string, k: nat)
    requires Utf8(s) && 0 < k <= |s| && Boundary(s, k)
    ensures Width(s[0]) <= k
  {
  }

  /** A text cut on a boundary is two texts. */
  lemma {:induction false} CutUtf8(s: string, k: nat)
    requires Utf8(s) && k <= |s| && Boundary(s, k)
    ensures Utf8(s[..k]) && Utf8(s[k..])
    decreases |s|
  {
    if 0 < k {
      var w := Width(s[0]);
      var t := s[w..];
      BoundaryPast(s, k);
      CutUtf8(t, k - w);
      assert s[..k][w..] == t[..k - w] && s[k..] == t[k - w..];
      assert s[..k][0] == s[0] && Whole(s[..k], w);
    } else {
      assert s[k..] == s;
    }
  }

  lemma WholeStays(a: string, b: string, w: nat)
    requires Whole(a, w) && w > 0
    ensures Whole(a + b, w) && (a + b)[0] == a[0] && (a + b)[w..] == a[w..] + b
  {
  }

  lemma Utf8Step(s: string, w: nat)
    requires s != [] && w == Width(s[0]) && w > 0 && Whole(s, w) && Utf8(s[w..])
    ensures Utf8(s)
  {
  }

  lemma {:induction false} JoinUtf8(a: string, b: string)
    requires Utf8(a) && Utf8(b)
    ensures Utf8(a + b)
    decreases |a|
  {
    if a == [] {
      assert a + b == b;
    } else {
      var w := Width(a[0]);
      JoinUtf8(a[w..], b);
      WholeStays(a, b, w);
      Utf8Step(a + b, w);
    }
  }

  /** Among four octets of a text, one is a boundary. */
  lemma {:induction false} BoundaryNear(s: string, k: nat)
    requires Utf8(s) && k < |s|
    ensures exists j: nat :: j <= k < j + 4 && !Continues(s[j])
    decreases |s|
  {
    var w := Width(s[0]);
    if k < w {
      assert !Continues(s[0]);
    } else {
      var t := s[w..];
      BoundaryNear(t, k - w);
      var j: nat :| j <= k - w < j + 4 && !Continues(t[j]);
      assert s[j + w] == t[j];
    }
  }

  /** What an escape makes of a character that is one octet is characters of one
      octet; the octets of longer ones stay as they are. */
  lemma EscapeCharUtf8(c: char)
    ensures Width(c) == 1 ==> Utf8(EscapeChar(c))
    ensures Width(c) != 1 ==> EscapeChar(c) == [c]
  {
    if Width(c) == 1 {
      var e := EscapeChar(c);
      if |e| == 2 {
        assert e[1..] == [e[1]] && e[1..][1..] == [];
      } else if |e| == 1 {
        assert e[1..] == [];
      }
    }
  }

  lemma {:induction false} FlatAsIs(s: string, f: char -> string, n: nat)
    requires n <= |s| && forall k | 0 <= k < n :: f(s[k]) == [s[k]]
    ensures Flat(s, f) == s[..n] + Flat(s[n..], f)
  {
    assert s == s[..n] + s[n..];
    FlatConcat(s[..n], s[n..], f);
    FlatUnchanged(s[..n], f);
  }

  lemma {:induction false} EscapedUtf8(value: string)
    requires Utf8(value)
    ensures Utf8(Flat(value, EscapeChar))
    decreases |value|
  {
    if value != [] {
      var w := Width(value[0]);
      EscapedUtf8(value[w..]);
      if w == 1 {
        EscapeCharUtf8(value[0]);
        JoinUtf8(EscapeChar(value[0]), Flat(value[1..], EscapeChar));
      } else {
        forall k | 0 <= k < w ensures EscapeChar(value[k]) == [value[k]] { EscapeCharUtf8(value[k]); }
        FlatAsIs(value, EscapeChar, w);
        CharUtf8(value, w);
        JoinUtf8(value[..w], Flat(value[w..], EscapeChar));
      }
    }
  }

  lemma CharUtf8(s: string, w: nat)
    requires s != [] && w == Width(s[0]) > 0 && Whole(s, w)
    ensures Utf8(s[..w])
  {
    assert s[..w][0] == s[0] && s[..w][w..] == [];
  }

  // ---- Folding -----------------------------------------------------------------------------

  const FIRST: nat := 75
  const NEXT: nat := 74

  /** The last boundary no further than `limit`. */
  ghost predicate CutAtLast(s: string, limit: nat, cut: nat) {
    cut <= limit && Boundary(s, cut) && forall k: nat | cut < k <= limit :: !Boundary(s, k)
  }

  /** The backward search for a boundary; it ends before the line does. */
  method CutBefore(s: string, limit: nat) returns (cut: nat)
    requires Utf8(s) && 4 <= limit < |s|
    ensures CutAtLast(s, limit, cut) && limit < cut + 4
  {
    BoundaryNear(s, limit);
    cut := limit;
    while !Boundary(s, cut)
      invariant cut <= limit
      invariant forall k: nat | cut < k <= limit :: !Boundary(s, k)
      invariant exists j: nat :: j <= limit < j + 4 && !Continues(s[j]) && j <= cut
      decreases cut
    {
      cut := cut - 1;
    }
  }

  /** A line cut in pieces of the first width, then of the next; `s` in UTF-8. */
  ghost function Pieces(s: string, limit: nat): seq<string>
    requires Utf8(s) && 4 <= limit
    decreases |s|
  {
    if |s| <= limit then [s] else
    var cut := LastCut(s, limit);
    CutUtf8(s, cut);
    [s[..cut]] + Pieces(s[cut..], NEXT)
  }

  ghost function LastCut(s: string, limit: nat): (cut: nat)
    requires Utf8(s) && 4 <= limit < |s|
    ensures CutAtLast(s, limit, cut) && limit < cut + 4
  {
    LastCutExists(s, limit);
    var cut: nat :| CutAtLast(s, limit, cut) && limit < cut + 4;
    cut
  }

  lemma {:induction false} LastCutFrom(s: string, limit: nat, j: nat)
    requires j <= limit < |s| && !Continues(s[j])
    ensures exists cut: nat :: j <= cut && CutAtLast(s, limit, cut)
    decreases limit
  {
    if !Continues(s[limit]) {
      assert CutAtLast(s, limit, limit);
    } else {
      LastCutFrom(s, limit - 1, j);
      var cut: nat :| j <= cut && CutAtLast(s, limit - 1, cut);
      assert CutAtLast(s, limit, cut);
    }
  }

  lemma LastCutExists(s: string, limit: nat)
    requires Utf8(s) && 4 <= limit < |s|
    ensures exists cut: nat :: CutAtLast(s, limit, cut) && limit < cut + 4
  {
    BoundaryNear(s, limit);
    var j: nat :| j <= limit < j + 4 && !Continues(s[j]);
    LastCutFrom(s, limit, j);
  }

  /** Each piece after the first on a line of its own, that a space begins. */
  function Lines(pieces: seq<string>): string
    requires pieces != []
  {
    if |pieces| == 1 then pieces[0] + "\r\n" else pieces[0] + "\r\n " + Lines(pieces[1..])
  }

  /** The folding of a line. */
  method FoldLine(line: string) returns (out: string)
    requires Utf8(line)
    ensures out == Lines(Pieces(line, FIRST))
  {
    out := "";
    var rest := line;
    var limit := FIRST;
    while |rest| > limit
      invariant Utf8(rest) && (limit == FIRST || limit == NEXT)
      invariant Lines(Pieces(line, FIRST)) == out + Lines(Pieces(rest, limit))
      decreases |rest|
    {
      var cut := CutBefore(rest, limit);
      SameCut(rest, limit, cut);
      CutUtf8(rest, cut);
      FoldOnce(rest, limit, cut);
      Associe(out, rest[..cut] + "\r\n ", Lines(Pieces(rest[cut..], NEXT)));
      Associe(out, rest[..cut], "\r\n ");
      out := out + rest[..cut];
      out := out + "\r\n ";
      rest := rest[cut..];
      limit := NEXT;
    }
    Associe(out, rest, "\r\n");
    out := out + rest;
    out := out + "\r\n";
  }

  lemma SameCut(s: string, limit: nat, cut: nat)
    requires Utf8(s) && 4 <= limit < |s| && CutAtLast(s, limit, cut)
    ensures cut == LastCut(s, limit)
  {
    var other := LastCut(s, limit);
    assert !(cut < other) && !(other < cut);
  }

  /** A property line, escaped then folded. */
  method IcsLine(prop: string, value: string) returns (out: string)
    requires Utf8(prop) && Utf8(value)
    ensures Utf8(prop + ":" + IcsEscape(value))
    ensures out == Lines(Pieces(prop + ":" + IcsEscape(value), FIRST))
  {
    LineUtf8(prop, value);
    out := FoldLine(prop + ":" + IcsEscape(value));
  }

  lemma FoldOnce(s: string, limit: nat, cut: nat)
    requires Utf8(s) && 4 <= limit < |s| && cut == LastCut(s, limit) && Utf8(s[cut..])
    ensures Lines(Pieces(s, limit)) == s[..cut] + "\r\n " + Lines(Pieces(s[cut..], NEXT))
  {
    var rest := Pieces(s[cut..], NEXT);
    assert ([s[..cut]] + rest)[1..] == rest;
  }

  lemma LineUtf8(prop: string, value: string)
    requires Utf8(prop) && Utf8(value)
    ensures Utf8(prop + ":" + IcsEscape(value))
  {
    IcsEscapeIs(value);
    EscapedUtf8(value);
    assert Utf8(":") by { assert ":"[1..] == []; }
    JoinUtf8(prop, ":");
    JoinUtf8(prop + ":", IcsEscape(value));
  }

  // ---- What a reader makes of the lines -----------------------------------------------------

  function Glue(pieces: seq<string>): string {
    if pieces == [] then [] else pieces[0] + Glue(pieces[1..])
  }

  lemma PiecesAre(s: string, limit: nat, cut: nat)
    requires Utf8(s) && 4 <= limit < |s| && cut == LastCut(s, limit) && Utf8(s[cut..])
    ensures Pieces(s, limit) == [s[..cut]] + Pieces(s[cut..], NEXT)
  {
  }

  lemma PiecesStep(s: string, limit: nat) returns (cut: nat)
    requires Utf8(s) && 4 <= limit < |s|
    ensures limit < cut + 4 && cut <= limit && Utf8(s[..cut]) && Utf8(s[cut..])
    ensures Pieces(s, limit) == [s[..cut]] + Pieces(s[cut..], NEXT) && s == s[..cut] + s[cut..]
  {
    cut := LastCut(s, limit);
    CutUtf8(s, cut);
    PiecesAre(s, limit, cut);
  }

  /** The pieces make the line again. */
  lemma {:induction false} PiecesGlue(s: string, limit: nat)
    requires Utf8(s) && (limit == FIRST || limit == NEXT)
    ensures Pieces(s, limit) != [] && Glue(Pieces(s, limit)) == s
    decreases |s|
  {
    if |s| <= limit {
      GlueOne(s);
    } else {
      var cut := PiecesStep(s, limit);
      PiecesGlue(s[cut..], NEXT);
      GlueCons(s[..cut], Pieces(s[cut..], NEXT));
    }
  }

  lemma GlueOne(s: string)
    ensures Glue([s]) == s
  {
    assert [s][1..] == [] && s + [] == s;
  }

  lemma GlueCons(first: string, rest: seq<string>)
    ensures Glue([first] + rest) == first + Glue(rest)
  {
    assert ([first] + rest)[1..] == rest;
  }

  ghost predicate Fitting(p: seq<string>, limit: nat) {
    forall k | 0 <= k < |p| :: Utf8(p[k]) && |p[k]| <= if k == 0 then limit else NEXT
  }

  /** They are whole characters, within their widths. */
  lemma {:induction false} PiecesFit(s: string, limit: nat)
    requires Utf8(s) && (limit == FIRST || limit == NEXT)
    ensures Fitting(Pieces(s, limit), limit)
    decreases |s|
  {
    if |s| > limit {
      var cut := PiecesStep(s, limit);
      PiecesFit(s[cut..], NEXT);
      FittingCons(s[..cut], Pieces(s[cut..], NEXT), limit);
    }
  }

  lemma FittingCons(first: string, rest: seq<string>, limit: nat)
    requires Utf8(first) && |first| <= limit && Fitting(rest, NEXT)
    ensures Fitting([first] + rest, limit)
  {
  }

  /** The physical lines of a text: what each line break ends. */
  function Physical(s: string, from: nat): seq<string>
    requires from <= |s|
    decreases |s| - from
  {
    if from == |s| then (if s == [] then [] else [s])
    else if Starts(s[from..], "\r\n") then [s[..from]] + Physical(s[from + 2..], 0)
    else Physical(s, from + 1)
  }

  lemma {:induction false} PhysicalTo(line: string, rest: string, from: nat)
    requires '\r' !in line && from <= |line|
    ensures Physical(line + "\r\n" + rest, from) == [line] + Physical(rest, 0)
    decreases |line| - from
  {
    var s := line + "\r\n" + rest;
    if from < |line| {
      var (at, eol) := (s[from..], "\r\n");
      assert at[0] == line[from] && line[from] in line && eol[0] == '\r';
      PhysicalTo(line, rest, from + 1);
    } else {
      var (at, eol) := (s[from..], "\r\n");
      assert at == eol + rest && at[0] == eol[0] && at[1] == eol[1];
      assert Starts(at, eol);
      assert s[from + 2..] == rest && s[..from] == line;
    }
  }

  function Spaced(pieces: seq<string>): seq<string> {
    if pieces == [] then [] else [" " + pieces[0]] + Spaced(pieces[1..])
  }

  lemma {:induction false} PhysicalLines(head: string, pieces: seq<string>)
    requires pieces != [] && '\r' !in head && forall p | p in pieces :: '\r' !in p
    ensures Physical(head + Lines(pieces), 0) == [head + pieces[0]] + Spaced(pieces[1..])
    decreases |pieces|
  {
    if |pieces| == 1 {
      assert head + Lines(pieces) == (head + pieces[0]) + "\r\n" + "";
      PhysicalTo(head + pieces[0], "", 0);
    } else {
      var rest := " " + Lines(pieces[1..]);
      assert head + Lines(pieces) == (head + pieces[0]) + "\r\n" + rest;
      PhysicalTo(head + pieces[0], rest, 0);
      PhysicalLines(" ", pieces[1..]);
    }
  }

  lemma {:induction false} SpacedAre(pieces: seq<string>)
    ensures |Spaced(pieces)| == |pieces|
    ensures forall k | 0 <= k < |pieces| :: Spaced(pieces)[k] == " " + pieces[k]
  {
    if pieces != [] { SpacedAre(pieces[1..]); }
  }

  lemma {:induction false} GlueHolds(pieces: seq<string>, c: char)
    requires c !in Glue(pieces)
    ensures forall p | p in pieces :: c !in p
  {
    if pieces != [] {
      assert forall x | x in pieces[0] :: x in Glue(pieces);
      assert forall x | x in Glue(pieces[1..]) :: x in Glue(pieces);
      GlueHolds(pieces[1..], c);
      forall p | p in pieces ensures c !in p { if p != pieces[0] { assert p in pieces[1..]; } }
    }
  }

  lemma SpacedShort(pieces: seq<string>)
    requires forall p | p in pieces :: |p| <= NEXT && Utf8(p)
    ensures forall p | p in Spaced(pieces) :: |p| <= 75 && Utf8(p)
  {
    SpacedAre(pieces);
    forall p | p in Spaced(pieces) ensures |p| <= 75 && Utf8(p) {
      var k :| 0 <= k < |pieces| && p == Spaced(pieces)[k];
      assert pieces[k] in pieces;
      SpaceUtf8();
      JoinUtf8(" ", pieces[k]);
    }
  }

  lemma SpaceUtf8()
    ensures Utf8(" ")
  {
    assert " "[1..] == [];
  }

  lemma LinesShort(pieces: seq<string>)
    requires pieces != [] && forall p | p in pieces :: '\r' !in p && Utf8(p)
    requires |pieces[0]| <= FIRST && forall p | p in pieces[1..] :: |p| <= NEXT
    ensures forall p | p in Physical(Lines(pieces), 0) :: |p| <= 75 && Utf8(p)
  {
    assert "" + Lines(pieces) == Lines(pieces) && "" + pieces[0] == pieces[0];
    PhysicalLines("", pieces);
    SpacedShort(pieces[1..]);
  }

  /** Every physical line of a property is whole characters, 75 octets at most. */
  lemma PhysicalShort(line: string)
    requires Utf8(line) && '\r' !in line
    ensures forall p | p in Physical(Lines(Pieces(line, FIRST)), 0) :: |p| <= 75 && Utf8(p)
  {
    PiecesGlue(line, FIRST);
    PiecesFit(line, FIRST);
    GlueHolds(Pieces(line, FIRST), '\r');
    LinesShort(Pieces(line, FIRST));
  }

  /** Unfolding (section 3.1): each line break with the space after it removed. */
  function Unfold(s: string): string {
    if s == [] then [] else if Starts(s, "\r\n ") then Unfold(s[3..]) else [s[0]] + Unfold(s[1..])
  }

  lemma {:induction false} UnfoldPast(line: string, rest: string)
    requires '\r' !in line
    ensures Unfold(line + rest) == line + Unfold(rest)
  {
    if line == [] {
      assert line + rest == rest;
    } else {
      var eol := "\r\n ";
      assert line[0] in line && eol[0] == '\r' && (line + rest)[0] == line[0];
      assert !Starts(line + rest, eol);
      UnfoldPast(line[1..], rest);
      assert (line + rest)[1..] == line[1..] + rest;
    }
  }

  lemma UnfoldBreak(rest: string)
    ensures Unfold("\r\n " + rest) == Unfold(rest) && Unfold("\r\n") == "\r\n"
  {
    assert ("\r\n " + rest)[3..] == rest;
    assert "\r\n"[1..] == "\n" && "\n"[1..] == [];
  }

  lemma {:induction false} UnfoldLines(pieces: seq<string>)
    requires pieces != [] && forall p | p in pieces :: '\r' !in p
    ensures Unfold(Lines(pieces)) == Glue(pieces) + "\r\n"
    decreases |pieces|
  {
    if |pieces| == 1 {
      UnfoldPast(pieces[0], "\r\n");
      UnfoldBreak("");
      assert pieces[1..] == [];
    } else {
      UnfoldLines(pieces[1..]);
      UnfoldPast(pieces[0], "\r\n " + Lines(pieces[1..]));
      UnfoldBreak(Lines(pieces[1..]));
      Associe(pieces[0], "\r\n ", Lines(pieces[1..]));
      Associe(pieces[0], Glue(pieces[1..]), "\r\n");
    }
  }

  /** What a reader has of a property once its lines are unfolded. */
  function ValueOf(line: string, prop: string): string
    requires |prop| + 3 <= |line|
  {
    Unescape(line[|prop| + 1..|line| - 2])
  }

  /** Unfolded, a property is its line again, and its value, unescaped, the value
      it was given without its carriage returns. */
  lemma RoundTrip(prop: string, value: string)
    requires Utf8(prop) && Utf8(value) && '\r' !in prop && Utf8(prop + ":" + IcsEscape(value))
    ensures var line := prop + ":" + IcsEscape(value);
            && Unfold(Lines(Pieces(line, FIRST))) == line + "\r\n"
            && ValueOf(line + "\r\n", prop) == DropReturns(value)
            && forall p | p in Physical(Lines(Pieces(line, FIRST)), 0) :: |p| <= 75 && Utf8(p)
  {
    var line := prop + ":" + IcsEscape(value);
    EscapedOneLine(value);
    PiecesGlue(line, FIRST);
    assert '\r' !in line;
    GlueHolds(Pieces(line, FIRST), '\r');
    UnfoldLines(Pieces(line, FIRST));
    PhysicalShort(line);
    UnescapeEscape(value);
    assert (line + "\r\n")[|prop| + 1..|line|] == IcsEscape(value);
  }

  // ---- Lines are filled ----------------------------------------------------------------------

  ghost predicate Filling(p: seq<string>, limit: nat) {
    forall k | 0 <= k < |p| - 1 :: |p[k]| + 4 > if k == 0 then limit else NEXT
  }

  lemma {:induction false} PiecesFill(s: string, limit: nat)
    requires Utf8(s) && (limit == FIRST || limit == NEXT)
    ensures Filling(Pieces(s, limit), limit)
    decreases |s|
  {
    if |s| > limit {
      var cut := PiecesStep(s, limit);
      PiecesFill(s[cut..], NEXT);
      FillingCons(s[..cut], Pieces(s[cut..], NEXT), limit);
    }
  }

  lemma FillingCons(first: string, rest: seq<string>, limit: nat)
    requires |first| + 4 > limit && Filling(rest, NEXT)
    ensures Filling([first] + rest, limit)
  {
  }

  lemma SpacedAt(pieces: seq<string>, k: nat)
    requires k < |pieces|
    ensures |Spaced(pieces)| == |pieces| && Spaced(pieces)[k] == " " + pieces[k]
  {
    SpacedAre(pieces);
  }

  /** Every physical line of a property but the last has 72 octets at least. */
  lemma PhysicalFull(line: string, k: nat)
    requires Utf8(line) && '\r' !in line && k + 1 < |Physical(Lines(Pieces(line, FIRST)), 0)|
    ensures 72 <= |Physical(Lines(Pieces(line, FIRST)), 0)[k]|
  {
    var pieces := Pieces(line, FIRST);
    PiecesGlue(line, FIRST);
    PiecesFill(line, FIRST);
    GlueHolds(pieces, '\r');
    assert "" + Lines(pieces) == Lines(pieces) && "" + pieces[0] == pieces[0];
    PhysicalLines("", pieces);
    SpacedAre(pieces[1..]);
    if k > 0 { SpacedAt(pieces[1..], k - 1); }
  }
}
