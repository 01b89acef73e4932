/** The check before publication: it reads the files back from their bytes and
    reports every breach of the sitemap contract. */
module SitemapCheck {
  import opened Ordre
  import opened Octets
  import opened Sitemap
  import opened SitemapBuild

  const MAX_UNCOMPRESSED_BYTES: nat := 50 * 1024 * 1024
  const MAX_LOC_LEN: nat := 2048

  datatype Problem =
    | IndexMismatch
    | TooLarge(filename: string, size: nat)
    | TooManyUrls(filename: string, count: nat)
    | OffOrigin(filename: string, loc: string)
    | LocTooLong(filename: string, loc: string)
    | BadlyEscaped(filename: string, loc: string)
    | OutsideWindow(filename: string, date: int)
    | NotADate(filename: string, text: string)
    | Duplicated

  // ---- The rules ------------------------------------------------------------------

  predicate EntityAt(s: string, k: nat) {
    || Occurs(s, "amp;", k)
    || Occurs(s, "lt;", k)
    || Occurs(s, "gt;", k)
    || Occurs(s, "quot;", k)
    || Occurs(s, "apos;", k)
  }

  /** An ampersand that no entity follows. */
  predicate UnescapedAmp(s: string) {
    exists i | 0 <= i < |s| :: s[i] == '&' && !EntityAt(s, i + 1)
  }

  /** What stands after the last slash. */
  function AfterSlash(s: string): (r: string)
    ensures '/' !in r && |r| <= |s| && s[|s| - |r|..] == r
    ensures |r| < |s| ==> s[|s| - |r| - 1] == '/'
  {
    if '/' in s then
      var r := AfterSlash(s[1..]);
      assert s == [s[0]] + s[1..];
      assert |r| < |s|;
      r
    else s
  }

  function Produced(files: seq<SitemapFile>): set<string> {
    set f | f in files && f.kind.Gzip? :: f.filename
  }

  function LastSegments(locs: seq<string>): set<string> {
    set l | l in locs :: AfterSlash(l)
  }

  /** The index lists the compressed files, all of them and no other. */
  ghost predicate IndexAgrees(files: seq<SitemapFile>, index: SitemapFile) {
    LastSegments(TagValues(index.body, "loc")) == Produced(files)
  }

  ghost predicate LocBreach(name: string, loc: string, p: Problem) {
    match p
    case OffOrigin(n, l) => n == name && l == loc && !OnOrigin(loc)
    case LocTooLong(n, l) => n == name && l == loc && |loc| > MAX_LOC_LEN
    case BadlyEscaped(n, l) => n == name && l == loc && ('<' in loc || '>' in loc || UnescapedAmp(loc))
    case _ => false
  }

  ghost predicate DateBreach(cal: Calendar, today: int, name: string, text: string, p: Problem) {
    match p
    case OutsideWindow(n, d) => n == name && cal.read(text) == Some(d) && Plausible(Some(d), today).None?
    case NotADate(n, t) => n == name && t == text && cal.read(text).None?
    case _ => false
  }

  ghost predicate SizeBreach(f: SitemapFile, p: Problem) {
    match p
    case TooLarge(n, size) => n == f.filename && size == |f.body| && size > MAX_UNCOMPRESSED_BYTES
    case TooManyUrls(n, count) => n == f.filename && count == Matches(f.body, Opening("url")) && count > MAX_URLS_PER_SITEMAP
    case _ => false
  }

  /** Problem `p` is true of compressed file `f`. */
  ghost predicate FileBreach(cal: Calendar, today: int, f: SitemapFile, p: Problem) {
    || SizeBreach(f, p)
    || (exists l :: l in TagValues(f.body, "loc") && LocBreach(f.filename, l, p))
    || (exists t :: t in TagValues(f.body, "lastmod") && DateBreach(cal, today, f.filename, t, p))
  }

  ghost predicate EntryBreach(cal: Calendar, today: int, files: seq<SitemapFile>, f: SitemapFile, p: Problem) {
    if f.kind.Xml? then p == IndexMismatch && !IndexAgrees(files, f) else FileBreach(cal, today, f, p)
  }

  predicate Distinct<T(==)>(s: seq<T>) {
    forall i, j | 0 <= i < j < |s| :: s[i] != s[j]
  }

  /** Every address the compressed files list, in order. */
  ghost function AllLocs(files: seq<SitemapFile>): seq<string> {
    if files == [] then [] else
    var (n, f) := (|files| - 1, files[|files| - 1]);
    AllLocs(files[..n]) + if f.kind.Gzip? then TagValues(f.body, "loc") else []
  }

  /** Problem `p` is true of these files. */
  ghost predicate Breach(cal: Calendar, today: int, files: seq<SitemapFile>, p: Problem) {
    || (exists f :: f in files && EntryBreach(cal, today, files, f, p))
    || (p == Duplicated && !Distinct(AllLocs(files)))
  }

  // ---- The check -------------------------------------------------------------------

  method CheckLoc(name: string, loc: string) returns (found: seq<Problem>)
    ensures forall p :: p in found <==> LocBreach(name, loc, p)
  {
    found := [];
    if !OnOrigin(loc) { found := found + [OffOrigin(name, loc)]; }
    if |loc| > MAX_LOC_LEN { found := found + [LocTooLong(name, loc)]; }
    if '<' in loc || '>' in loc || UnescapedAmp(loc) { found := found + [BadlyEscaped(name, loc)]; }
  }

  function SeenTimes(seen: map<string, nat>, l: string): nat {
    if l in seen then seen[l] else 0
  }

  ghost predicate Counts(seen: map<string, nat>, all: seq<string>) {
    forall l :: SeenTimes(seen, l) == multiset(all)[l]
  }

  /** The addresses of one file, counted into `seen`. */
  method CheckLocs(name: string, locs: seq<string>, seen: map<string, nat>, ghost before: seq<string>)
    returns (found: seq<Problem>, counted: map<string, nat>)
    requires Counts(seen, before)
    ensures forall p :: p in found <==> exists l :: l in locs && LocBreach(name, l, p)
    ensures Counts(counted, before + locs)
  {
    found, counted := [], seen;
    assert before + locs[..0] == before;
    for k := 0 to |locs|
      invariant forall p :: p in found <==> exists l :: l in locs[..k] && LocBreach(name, l, p)
      invariant Counts(counted, before + locs[..k])
    {
      CountOne(counted, before + locs[..k], locs[k]);
      assert before + locs[..k + 1] == (before + locs[..k]) + [locs[k]];
      assert locs[..k + 1] == locs[..k] + [locs[k]];
      counted := counted[locs[k] := SeenTimes(counted, locs[k]) + 1];
      var more := CheckLoc(name, locs[k]);
      found := found + more;
    }
    assert locs[..|locs|] == locs;
  }

  lemma CountOne(seen: map<string, nat>, all: seq<string>, l: string)
    requires Counts(seen, all)
    ensures Counts(seen[l := SeenTimes(seen, l) + 1], all + [l])
  {
    var more := seen[l := SeenTimes(seen, l) + 1];
    forall m ensures SeenTimes(more, m) == multiset(all + [l])[m] {
      assert SeenTimes(seen, m) == multiset(all)[m];
    }
  }

  method CheckDate(cal: Calendar, today: int, name: string, text: string) returns (found: seq<Problem>)
    ensures forall p :: p in found <==> DateBreach(cal, today, name, text, p)
  {
    match cal.read(text) {
      case Some(d) => found := if Plausible(Some(d), today).Some? then [] else [OutsideWindow(name, d)];
      case None => found := [NotADate(name, text)];
    }
  }

  method CheckDates(cal: Calendar, today: int, name: string, texts: seq<string>) returns (found: seq<Problem>)
    ensures forall p :: p in found <==> exists t :: t in texts && DateBreach(cal, today, name, t, p)
  {
    found := [];
    for k := 0 to |texts|
      invariant forall p :: p in found <==> exists t :: t in texts[..k] && DateBreach(cal, today, name, t, p)
    {
      assert texts[..k + 1] == texts[..k] + [texts[k]];
      var more := CheckDate(cal, today, name, texts[k]);
      found := found + more;
    }
    assert texts[..|texts|] == texts;
  }

  method CheckSizes(f: SitemapFile) returns (found: seq<Problem>)
    ensures forall p :: p in found <==> SizeBreach(f, p)
  {
    found := [];
    if |f.body| > MAX_UNCOMPRESSED_BYTES { found := [TooLarge(f.filename, |f.body|)]; }
    var count := CountMatches(f.body, Opening("url"));
    if count > MAX_URLS_PER_SITEMAP { found := found + [TooManyUrls(f.filename, count)]; }
  }

  /** One compressed file, its addresses counted into `seen`. */
  method CheckFile(cal: Calendar, today: int, f: SitemapFile, seen: map<string, nat>, ghost before: seq<string>)
    returns (found: seq<Problem>, counted: map<string, nat>)
    requires Counts(seen, before)
    ensures forall p :: p in found <==> FileBreach(cal, today, f, p)
    ensures Counts(counted, before + TagValues(f.body, "loc"))
  {
    var sizes := CheckSizes(f);
    var locs := ReadTagValues(f.body, "loc");
    var ofLocs;
    ofLocs, counted := CheckLocs(f.filename, locs, seen, before);
    var texts := ReadTagValues(f.body, "lastmod");
    var ofDates := CheckDates(cal, today, f.filename, texts);
    found := sizes + ofLocs + ofDates;
  }

  method CheckIndex(files: seq<SitemapFile>, index: SitemapFile) returns (found: seq<Problem>)
    ensures found == if IndexAgrees(files, index) then [] else [IndexMismatch]
  {
    var locs := ReadTagValues(index.body, "loc");
    var listed := LastSegments(locs);
    var (missing, extra) := (Produced(files) - listed, listed - Produced(files));
    if missing == {} && extra == {} {
      assert forall n :: n in listed <==> n in Produced(files) by {
        forall n ensures n in listed <==> n in Produced(files) {
          assert n !in missing && n !in extra;
        }
      }
      found := [];
    } else {
      assert listed != Produced(files);
      found := [IndexMismatch];
    }
  }

  method AnyTwice(seen: map<string, nat>) returns (r: bool)
    ensures r <==> exists l :: l in seen && seen[l] > 1
  {
    var keys := seen.Keys;
    r := false;
    while keys != {}
      invariant keys <= seen.Keys
      invariant r <==> exists l :: l in seen && l !in keys && seen[l] > 1
    {
      var l :| l in keys;
      keys := keys - {l};
      if seen[l] > 1 { r := true; }
    }
  }

  lemma {:induction false} DistinctCounts(s: seq<string>)
    ensures Distinct(s) <==> forall l :: multiset(s)[l] <= 1
  {
    if s != [] {
      var (prefix, last) := (s[..|s| - 1], s[|s| - 1]);
      DistinctCounts(prefix);
      assert s == prefix + [last];
      assert forall l :: multiset(s)[l] == multiset(prefix)[l] + if l == last then 1 else 0;
      if last in prefix {
        var i :| 0 <= i < |prefix| && prefix[i] == last;
        assert s[i] == s[|s| - 1];
        assert multiset(s)[last] > 1;
      } else {
        assert Distinct(s) <==> Distinct(prefix) by { SameDistinct(prefix, last); }
        assert multiset(s)[last] == 1;
      }
    }
  }

  lemma SameDistinct(prefix: seq<string>, last: string)
    requires last !in prefix
    ensures Distinct(prefix + [last]) <==> Distinct(prefix)
  {
    var s := prefix + [last];
    assert forall i | 0 <= i < |prefix| :: s[i] == prefix[i];
  }

  lemma TwiceIsRepeat(seen: map<string, nat>, all: seq<string>)
    requires Counts(seen, all)
    ensures (exists l :: l in seen && seen[l] > 1) <==> !Distinct(all)
  {
    DistinctCounts(all);
    if !Distinct(all) {
      var l :| multiset(all)[l] > 1;
      assert SeenTimes(seen, l) > 1;
    } else {
      forall l | l in seen ensures seen[l] <= 1 { assert SeenTimes(seen, l) == multiset(all)[l]; }
    }
  }

  /** Reports the problems of the files: those that are true of them, and all
      of those. */
  /** What `problems` holds once the files before `k` have been checked. */
  ghost predicate Reported(cal: Calendar, today: int, files: seq<SitemapFile>, problems: seq<Problem>, k: nat)
    requires k <= |files|
  {
    forall p :: p in problems <==> exists f :: f in files[..k] && EntryBreach(cal, today, files, f, p)
  }

  lemma ReportedNext(cal: Calendar, today: int, files: seq<SitemapFile>, problems: seq<Problem>, more: seq<Problem>, k: nat)
    requires k < |files| && Reported(cal, today, files, problems, k)
    requires forall p :: p in more <==> EntryBreach(cal, today, files, files[k], p)
    ensures Reported(cal, today, files, problems + more, k + 1)
  {
    PrefixeGrandit(files, k);
  }

  lemma ReportedAll(cal: Calendar, today: int, files: seq<SitemapFile>, problems: seq<Problem>)
    requires Reported(cal, today, files, problems, |files|)
    ensures forall p :: p in problems + (if Distinct(AllLocs(files)) then [] else [Duplicated]) <==> Breach(cal, today, files, p)
  {
    assert files[..|files|] == files;
  }

  lemma LocsOfNext(files: seq<SitemapFile>, k: nat)
    requires k < |files|
    ensures AllLocs(files[..k + 1]) == AllLocs(files[..k]) + if files[k].kind.Xml? then [] else TagValues(files[k].body, "loc")
  {
    PrefixeGrandit(files, k);
    assert files[..k + 1][..k] == files[..k];
  }

  method Validate(cal: Calendar, today: int, files: seq<SitemapFile>) returns (problems: seq<Problem>)
    ensures forall p :: p in problems <==> Breach(cal, today, files, p)
  {
    problems := [];
    var seen: map<string, nat> := map[];
    for k := 0 to |files|
      invariant Reported(cal, today, files, problems, k)
      invariant Counts(seen, AllLocs(files[..k]))
    {
      LocsOfNext(files, k);
      var more;
      if files[k].kind.Xml? {
        more := CheckIndex(files, files[k]);
        assert AllLocs(files[..k + 1]) == AllLocs(files[..k]);
      } else {
        more, seen := CheckFile(cal, today, files[k], seen, AllLocs(files[..k]));
      }
      ReportedNext(cal, today, files, problems, more, k);
      problems := problems + more;
    }
    assert files[..|files|] == files;
    TwiceIsRepeat(seen, AllLocs(files));
    ReportedAll(cal, today, files, problems);
    var twice := AnyTwice(seen);
    if twice { problems := problems + [Duplicated]; }
  }
}
