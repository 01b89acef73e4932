/** Text as the program's string library sees it: octet sequences, written with
    one `char` an octet. Search, replacement, and tagged text read back. */
module Octets {
  import opened Ordre

  // ---- Search -----------------------------------------------------------------

  /** `p` stands in `s` at `k`. */
  predicate Occurs(s: string, p: string, k: nat) {
    k + |p| <= |s| && forall j | 0 <= j < |p| :: s[k + j] == p[j]
  }

  predicate Starts(s: string, p: string) {
    Occurs(s, p, 0)
  }

  /** `r` is where `p` first occurs in `s`, or none. */
  ghost predicate Finds(s: string, p: string, r: Option<nat>) {
    match r
    case None => forall k: nat :: !Occurs(s, p, k)
    case Some(i) => Occurs(s, p, i) && forall k: nat | k < i :: !Occurs(s, p, k)
  }

  lemma {:induction false} FirstFrom(s: string, p: string, n: nat) returns (r: Option<nat>)
    requires forall k: nat | k < n :: !Occurs(s, p, k)
    ensures Finds(s, p, r)
    decreases |s| - n
  {
    if Occurs(s, p, n) { r := Some(n); }
    else if n >= |s| { r := None; }
    else { r := FirstFrom(s, p, n + 1); }
  }

  /** Where `p` first occurs in `s`. */
  ghost function Find(s: string, p: string): (r: Option<nat>)
    ensures Finds(s, p, r)
  {
    assert exists r :: Finds(s, p, r) by { var r := FirstFrom(s, p, 0); }
    var r :| Finds(s, p, r);
    r
  }

  method Search(s: string, p: string) returns (r: Option<nat>)
    ensures r == Find(s, p)
  {
    var k: nat := 0;
    while k <= |s|
      invariant forall j: nat | j < k :: !Occurs(s, p, j)
    {
      if Occurs(s, p, k) {
        FindIs(s, p, Some(k));
        return Some(k);
      }
      k := k + 1;
    }
    FindIs(s, p, None);
    return None;
  }

  lemma FindIs(s: string, p: string, r: Option<nat>)
    requires Finds(s, p, r)
    ensures Find(s, p) == r
  {
    var q := Find(s, p);
    assert Finds(s, p, q);
    if q.Some? && r.Some? {
      assert !(q.value < r.value) && !(r.value < q.value);
    }
  }

  /** No occurrence of `p` starts inside `u`, whatever follows it. */
  ghost predicate Silent(u: string, p: string) {
    forall s: string, k: nat | k < |u| :: !Occurs(u + s, p, k)
  }

  lemma OccursPast(u: string, s: string, p: string, k: nat)
    ensures Occurs(u + s, p, |u| + k) <==> Occurs(s, p, k)
  {
    assert |u + s| == |u| + |s|;
    assert forall m | 0 <= m < |s| :: (u + s)[|u| + m] == s[m];
    if k + |p| <= |s| {
      forall j | 0 <= j < |p| ensures (u + s)[(|u| + k) + j] == p[j] <==> s[k + j] == p[j] { assert (|u| + k) + j == |u| + (k + j); }
    }
  }

  /** A search passes over a silent text. */
  lemma FindPast(u: string, s: string, p: string)
    requires Silent(u, p)
    ensures Find(u + s, p) == match Find(s, p) case None => None case Some(i) => Some(|u| + i)
  {
    var r := match Find(s, p) case None => None case Some(i) => Some(|u| + i);
    forall k: nat | Occurs(u + s, p, k) ensures k >= |u| && Occurs(s, p, k - |u|) {
      if k >= |u| { OccursPast(u, s, p, k - |u|); }
    }
    if r.Some? { OccursPast(u, s, p, r.value - |u|); }
    FindIs(u + s, p, r);
  }

  lemma SilentBoth(u: string, v: string, p: string)
    requires Silent(u, p) && Silent(v, p)
    ensures Silent(u + v, p)
  {
    forall s: string, k: nat | k < |u + v| ensures !Occurs((u + v) + s, p, k) {
      Associe(u, v, s);
      if k >= |u| { OccursPast(u, v + s, p, k - |u|); }
    }
  }

  // ---- Character by character -------------------------------------------------

  /** Each character replaced by a text. */
  function Flat(s: string, f: char -> string): string {
    if s == [] then [] else f(s[0]) + Flat(s[1..], f)
  }

  lemma {:induction false} FlatConcat(a: string, b: string, f: char -> string)
    ensures Flat(a + b, f) == Flat(a, f) + Flat(b, f)
  {
    if a == [] {
      assert a + b == b;
    } else {
      FlatConcat(a[1..], b, f);
      assert (a + b)[1..] == a[1..] + b;
      Associe(f(a[0]), Flat(a[1..], f), Flat(b, f));
    }
  }

  /** Replacing twice is replacing once by the replaced replacement. */
  lemma {:induction false} FlatTwice(s: string, f: char -> string, g: char -> string, h: char -> string)
    requires forall c :: h(c) == Flat(f(c), g)
    ensures Flat(Flat(s, f), g) == Flat(s, h)
  {
    if s != [] {
      FlatConcat(f(s[0]), Flat(s[1..], f), g);
      FlatTwice(s[1..], f, g, h);
    }
  }

  /** Every occurrence of `c` replaced by `r`. */
  function Swap(c: char, r: string): char -> string {
    x => if x == c then r else [x]
  }

  function Replace(s: string, c: char, r: string): string {
    Flat(s, Swap(c, r))
  }

  lemma FlatOne(c: char, f: char -> string)
    ensures Flat([c], f) == f(c)
  {
    assert Flat([c], f) == f(c) + Flat([], f);
  }

  lemma {:induction false} FlatWithout(s: string, f: char -> string, bad: char)
    requires forall c :: bad !in f(c)
    ensures bad !in Flat(s, f)
  {
    if s != [] { FlatWithout(s[1..], f, bad); }
  }

  lemma {:induction false} FlatUnchanged(s: string, f: char -> string)
    requires forall c | c in s :: f(c) == [c]
    ensures Flat(s, f) == s
  {
    if s != [] { FlatUnchanged(s[1..], f); }
  }

  // ---- Tagged text -------------------------------------------------------------

  /** A tag by its name, or a text between tags. */
  datatype Token = Tag(name: string) | Text(text: string)

  predicate Plain(s: string) {
    forall k | 0 <= k < |s| :: s[k] != '<' && s[k] != '>'
  }

  predicate PlainToken(t: Token) {
    Plain(if t.Tag? then t.name else t.text)
  }

  predicate Clean(ts: seq<Token>) {
    forall k | 0 <= k < |ts| :: PlainToken(ts[k])
  }

  function Opening(name: string): (s: string)
    ensures |s| == |name| + 2 && s[0] == '<' && s[|name| + 1] == '>'
    ensures forall k | 0 <= k < |name| :: s[k + 1] == name[k]
  {
    ['<'] + name + ['>']
  }

  function PrintOne(t: Token): string {
    match t case Tag(name) => Opening(name) case Text(text) => text
  }

  function Print(ts: seq<Token>): string {
    if ts == [] then [] else PrintOne(ts[0]) + Print(ts[1..])
  }

  lemma {:induction false} PrintConcat(a: seq<Token>, b: seq<Token>)
    ensures Print(a + b) == Print(a) + Print(b)
  {
    if a == [] {
      assert a + b == b;
    } else {
      PrintConcat(a[1..], b);
      assert (a + b)[1..] == a[1..] + b;
      Associe(PrintOne(a[0]), Print(a[1..]), Print(b));
    }
  }

  lemma TextSilent(t: string, p: string)
    requires Plain(t) && p != [] && p[0] == '<'
    ensures Silent(t, p)
  {
    forall s: string, k: nat | k < |t| ensures !Occurs(t + s, p, k) {
      assert (t + s)[k] == t[k];
    }
  }

  function Closed(n: string, k: nat): char { if k < |n| then n[k] else '>' }

  /** Two names, each closed, part at some character. */
  lemma {:induction false} NamesPart(n: string, q: string) returns (k: nat)
    requires Plain(n) && Plain(q) && n != q
    ensures k <= |n| && k <= |q| && Closed(n, k) != Closed(q, k)
  {
    if n == [] || q == [] || n[0] != q[0] {
      k := 0;
    } else {
      assert n == [n[0]] + n[1..] && q == [q[0]] + q[1..];
      var m := NamesPart(n[1..], q[1..]);
      k := m + 1;
    }
  }

  lemma TagSilent(n: string, q: string)
    requires Plain(n) && Plain(q) && n != q
    ensures Silent(Opening(n), Opening(q))
  {
    var (u, p) := (Opening(n), Opening(q));
    forall s: string, k: nat | k < |u| ensures !Occurs(u + s, p, k) {
      assert (u + s)[k] == u[k];
      if k == 0 {
        var j := NamesPart(n, q);
        assert (u + s)[j + 1] == u[j + 1] == Closed(n, j) && p[j + 1] == Closed(q, j);
      } else if k <= |n| {
        assert u[k] == n[k - 1];
      }
    }
  }

  lemma TokenSilent(t: Token, q: string)
    requires PlainToken(t) && Plain(q) && t != Tag(q)
    ensures Silent(PrintOne(t), Opening(q))
  {
    if t.Tag? { TagSilent(t.name, q); } else { TextSilent(t.text, Opening(q)); }
  }

  lemma {:induction false} TokensSilent(ts: seq<Token>, q: string)
    requires Clean(ts) && Plain(q) && forall k | 0 <= k < |ts| :: ts[k] != Tag(q)
    ensures Silent(Print(ts), Opening(q))
  {
    if ts != [] {
      TokensSilent(ts[1..], q);
      TokenSilent(ts[0], q);
      SilentBoth(PrintOne(ts[0]), Print(ts[1..]), Opening(q));
    }
  }

  // ---- The scanner that reads values back --------------------------------------------

  /** Where the first tag of a name stands. */
  function Place(ts: seq<Token>, name: string): (k: nat)
    ensures k <= |ts|
    ensures k < |ts| ==> ts[k] == Tag(name)
    ensures forall j | 0 <= j < k :: ts[j] != Tag(name)
  {
    if ts == [] || ts[0] == Tag(name) then 0 else 1 + Place(ts[1..], name)
  }

  lemma PrintAt(ts: seq<Token>, k: nat)
    requires k < |ts|
    ensures Print(ts) == Print(ts[..k]) + (PrintOne(ts[k]) + Print(ts[k + 1..]))
  {
    assert ts == ts[..k] + ts[k..];
    PrintConcat(ts[..k], ts[k..]);
    assert ts[k..][1..] == ts[k + 1..];
  }

  lemma OpeningFound(p: string, b: string)
    ensures Find(p + b, p) == Some(0)
  {
    FindIs(p + b, p, Some(0));
  }

  /** Where the scanner finds a tag, and the texts before and past it. */
  lemma FoundAt(ts: seq<Token>, q: string, k: nat)
    requires Clean(ts) && Plain(q) && k == Place(ts, q) < |ts|
    ensures Print(ts) == Print(ts[..k]) + (Opening(q) + Print(ts[k + 1..]))
    ensures Find(Print(ts), Opening(q)) == Some(|Print(ts[..k])|)
  {
    PrintAt(ts, k);
    TokensSilent(ts[..k], q);
    FoundPast(Print(ts[..k]), Opening(q), Print(ts[k + 1..]));
  }

  lemma FoundPast(a: string, p: string, b: string)
    requires Silent(a, p)
    ensures Find(a + (p + b), p) == Some(|a|)
  {
    FindPast(a, p + b, p);
    OpeningFound(p, b);
  }

  /** Where there is no such tag the scanner finds none. */
  lemma NoTag(ts: seq<Token>, q: string)
    requires Clean(ts) && Plain(q) && Place(ts, q) == |ts|
    ensures Find(Print(ts), Opening(q)) == None
  {
    TokensSilent(ts, q);
    FindPast(Print(ts), "", Opening(q));
    FindIs("", Opening(q), None);
    assert Print(ts) + "" == Print(ts);
  }

  /** The texts between each `<tag>` and the next `</tag>`. */
  ghost function TagValues(xml: string, tag: string): seq<string>
    decreases |xml|
  {
    match Find(xml, Opening(tag))
    case None => []
    case Some(i) => ValueThen(xml[i + |Opening(tag)|..], tag)
  }

  /** The text up to the next `</tag>`, then the values past it. */
  ghost function ValueThen(after: string, tag: string): seq<string>
    decreases |after|
  {
    match Find(after, Opening("/" + tag))
    case None => []
    case Some(e) => [after[..e]] + TagValues(after[e + |Opening("/" + tag)|..], tag)
  }

  /** The scanner, as the loop it is. */
  method ReadTagValues(xml: string, tag: string) returns (values: seq<string>)
    ensures values == TagValues(xml, tag)
  {
    values := [];
    var rest := xml;
    while true
      invariant TagValues(xml, tag) == values + TagValues(rest, tag)
      decreases |rest|
    {
      var start := Search(rest, Opening(tag));
      if start.None? { break; }
      var after := rest[start.value + |Opening(tag)|..];
      var end := Search(after, Opening("/" + tag));
      if end.None? { break; }
      values := values + [after[..end.value]];
      rest := after[end.value + |Opening("/" + tag)|..];
    }
  }

  /** The same, over tokens. */
  function TokenValues(ts: seq<Token>, tag: string): seq<string>
    decreases |ts|
  {
    var k := Place(ts, tag);
    if k == |ts| then [] else TokenThen(ts[k + 1..], tag)
  }

  function TokenThen(after: seq<Token>, tag: string): seq<string>
    decreases |after|
  {
    var e := Place(after, "/" + tag);
    if e == |after| then [] else [Print(after[..e])] + TokenValues(after[e + 1..], tag)
  }

  lemma CutAt(a: string, p: string, b: string)
    ensures |a| + |p| <= |a + (p + b)|
    ensures (a + (p + b))[|a| + |p|..] == b && (a + (p + b))[..|a|] == a
  {
  }

  lemma OpenStep(xml: string, a: string, b: string, tag: string)
    requires xml == a + (Opening(tag) + b) && Find(xml, Opening(tag)) == Some(|a|)
    ensures TagValues(xml, tag) == ValueThen(b, tag)
  {
    CutAt(a, Opening(tag), b);
  }

  lemma CloseStep(xml: string, a: string, b: string, tag: string)
    requires xml == a + (Opening("/" + tag) + b) && Find(xml, Opening("/" + tag)) == Some(|a|)
    ensures ValueThen(xml, tag) == [a] + TagValues(b, tag)
  {
    CutAt(a, Opening("/" + tag), b);
  }

  lemma OpenRead(ts: seq<Token>, tag: string, k: nat)
    requires Clean(ts) && Plain(tag) && k == Place(ts, tag) < |ts|
    ensures TagValues(Print(ts), tag) == ValueThen(Print(ts[k + 1..]), tag)
  {
    FoundAt(ts, tag, k);
    OpenStep(Print(ts), Print(ts[..k]), Print(ts[k + 1..]), tag);
  }

  lemma CloseRead(after: seq<Token>, tag: string, e: nat)
    requires Clean(after) && Plain("/" + tag) && e == Place(after, "/" + tag) < |after|
    ensures ValueThen(Print(after), tag) == [Print(after[..e])] + TagValues(Print(after[e + 1..]), tag)
  {
    var q := "/" + tag;
    FoundAt(after, q, e);
    CloseStep(Print(after), Print(after[..e]), Print(after[e + 1..]), tag);
  }

  lemma NothingRead(ts: seq<Token>, tag: string)
    requires Clean(ts) && Plain(tag) && Place(ts, tag) == |ts|
    ensures TagValues(Print(ts), tag) == []
  {
    NoTag(ts, tag);
  }

  lemma NothingClosed(after: seq<Token>, tag: string)
    requires Clean(after) && Plain("/" + tag) && Place(after, "/" + tag) == |after|
    ensures ValueThen(Print(after), tag) == []
  {
    NoTag(after, "/" + tag);
  }

  lemma TokenValuesNext(ts: seq<Token>, tag: string, k: nat)
    requires k == Place(ts, tag) < |ts|
    ensures TokenValues(ts, tag) == TokenThen(ts[k + 1..], tag)
  {
  }

  lemma TokenThenNext(after: seq<Token>, tag: string, e: nat)
    requires e == Place(after, "/" + tag) < |after|
    ensures TokenThen(after, tag) == [Print(after[..e])] + TokenValues(after[e + 1..], tag)
  {
  }

  lemma CleanPast(ts: seq<Token>, k: nat)
    requires Clean(ts) && k < |ts|
    ensures Clean(ts[k + 1..])
  {
  }

  /** The scan of printed tokens reads exactly what stands between the tags. */
  lemma {:induction false} TagValuesAre(ts: seq<Token>, tag: string)
    requires Clean(ts) && Plain(tag) && Plain("/" + tag)
    ensures TagValues(Print(ts), tag) == TokenValues(ts, tag)
    decreases |ts|
  {
    var k := Place(ts, tag);
    if k == |ts| {
      NothingRead(ts, tag);
    } else {
      CleanPast(ts, k);
      ValueThenAre(ts[k + 1..], tag);
      OpenRead(ts, tag, k);
      TokenValuesNext(ts, tag, k);
    }
  }

  lemma {:induction false} ValueThenAre(after: seq<Token>, tag: string)
    requires Clean(after) && Plain(tag) && Plain("/" + tag)
    ensures ValueThen(Print(after), tag) == TokenThen(after, tag)
    decreases |after|
  {
    var e := Place(after, "/" + tag);
    if e == |after| {
      NothingClosed(after, tag);
    } else {
      CleanPast(after, e);
      TagValuesAre(after[e + 1..], tag);
      CloseRead(after, tag, e);
      TokenThenNext(after, tag, e);
    }
  }

  /** Non-overlapping occurrences, left to right. */
  ghost function Matches(s: string, p: string): nat
    requires p != []
    decreases |s|
  {
    match Find(s, p) case None => 0 case Some(i) => 1 + Matches(s[i + |p|..], p)
  }

  method CountMatches(s: string, p: string) returns (n: nat)
    requires p != []
    ensures n == Matches(s, p)
  {
    n := 0;
    var rest := s;
    while true
      invariant Matches(s, p) == n + Matches(rest, p)
      decreases |rest|
    {
      var at := Search(rest, p);
      if at.None? { break; }
      n := n + 1;
      rest := rest[at.value + |p|..];
    }
  }

  function TagCount(ts: seq<Token>, name: string): nat {
    if ts == [] then 0 else (if ts[0] == Tag(name) then 1 else 0) + TagCount(ts[1..], name)
  }

  lemma {:induction false} TagCountFrom(ts: seq<Token>, name: string)
    ensures TagCount(ts, name) == if Place(ts, name) == |ts| then 0 else 1 + TagCount(ts[Place(ts, name) + 1..], name)
  {
    if ts != [] && ts[0] != Tag(name) {
      TagCountFrom(ts[1..], name);
      if Place(ts, name) < |ts| { assert ts[1..][Place(ts[1..], name) + 1..] == ts[Place(ts, name) + 1..]; }
    }
  }

  lemma MatchesStep(s: string, a: string, p: string, b: string)
    requires p != [] && s == a + (p + b) && Find(s, p) == Some(|a|)
    ensures Matches(s, p) == 1 + Matches(b, p)
  {
    CutAt(a, p, b);
  }

  lemma CountRead(ts: seq<Token>, name: string, k: nat)
    requires Clean(ts) && Plain(name) && k == Place(ts, name) < |ts|
    ensures Matches(Print(ts), Opening(name)) == 1 + Matches(Print(ts[k + 1..]), Opening(name))
  {
    FoundAt(ts, name, k);
    MatchesStep(Print(ts), Print(ts[..k]), Opening(name), Print(ts[k + 1..]));
  }

  lemma NothingCounted(ts: seq<Token>, name: string)
    requires Clean(ts) && Plain(name) && Place(ts, name) == |ts|
    ensures Matches(Print(ts), Opening(name)) == 0
  {
    NoTag(ts, name);
  }

  lemma CountsNone(ts: seq<Token>, name: string)
    requires Place(ts, name) == |ts|
    ensures TagCount(ts, name) == 0
  {
    TagCountFrom(ts, name);
  }

  lemma CountsOne(ts: seq<Token>, name: string, k: nat)
    requires k == Place(ts, name) < |ts|
    ensures TagCount(ts, name) == 1 + TagCount(ts[k + 1..], name)
  {
    TagCountFrom(ts, name);
  }

  /** Counting an opening tag in printed tokens counts the tags. */
  lemma {:induction false} MatchesAre(ts: seq<Token>, name: string)
    requires Clean(ts) && Plain(name)
    ensures Matches(Print(ts), Opening(name)) == TagCount(ts, name)
    decreases |ts|
  {
    var k := Place(ts, name);
    if k == |ts| {
      NothingCounted(ts, name);
      CountsNone(ts, name);
    } else {
      CleanPast(ts, k);
      MatchesAre(ts[k + 1..], name);
      CountRead(ts, name, k);
      CountsOne(ts, name, k);
    }
  }
}
