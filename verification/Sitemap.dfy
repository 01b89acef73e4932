/** The sitemap writer: escaping, entries, files cut per section, the index. */
module Sitemap {
  import opened Ordre
  import opened Octets

  const MAX_URLS_PER_SITEMAP: nat := 50_000
  const BASE_URL: string := "https://librejustice.fr"
  const SITEMAP_INDEX_NAME: string := "sitemap-index.xml"
  const XML_DECLARATION: string := "?xml version=\"1.0\" encoding=\"UTF-8\"?"
  const SCHEMA: string := "http://www.sitemaps.org/" + "schemas/sitemap/0.9\""
  const URLSET: string := "urlset xmlns=\"" + SCHEMA
  const SITEMAPINDEX: string := "sitemapindex xmlns=\"" + SCHEMA

  /** How a date is written and read, as `%Y-%m-%d`. Dates are day numbers, 0
      being 1 January 1970. */
  datatype Calendar = Calendar(write: int -> string, read: string -> Option<int>) {
    /** What is written is plain text, and a publishable date reads back. */
    ghost predicate Faithful() {
      && (forall d: int :: Plain(write(d)))
      && (forall d: int | LASTMOD_FLOOR <= d :: read(write(d)) == Some(d))
    }
  }

  const LASTMOD_FLOOR: int := 0

  /** A date the source knows, if it can be published: neither before the epoch
      nor after the run. */
  function Plausible(lastmod: Option<int>, today: int): Option<int> {
    if lastmod.Some? && LASTMOD_FLOOR <= lastmod.value <= today then lastmod else None
  }

  // ---- Escaping -----------------------------------------------------------------

  /** `&`, `<` and `>` replaced, one after the other. */
  function XmlEscape(value: string): string {
    Replace(Replace(Replace(value, '&', "&amp;"), '<', "&lt;"), '>', "&gt;")
  }

  function EscapeOne(c: char): string {
    if c == '&' then "&amp;" else if c == '<' then "&lt;" else if c == '>' then "&gt;" else [c]
  }

  function TwoEscaped(c: char): string {
    if c == '&' then "&amp;" else if c == '<' then "&lt;" else [c]
  }

  lemma FirstTwo(value: string)
    ensures Flat(Flat(value, Swap('&', "&amp;")), Swap('<', "&lt;")) == Flat(value, TwoEscaped)
  {
    var (f, g) := (Swap('&', "&amp;"), Swap('<', "&lt;"));
    forall c ensures TwoEscaped(c) == Flat(f(c), g) {
      if c == '&' { FlatUnchanged("&amp;", g); } else { FlatOne(c, g); }
    }
    FlatTwice(value, f, g, TwoEscaped);
  }

  lemma LastOne(value: string)
    ensures Flat(Flat(value, TwoEscaped), Swap('>', "&gt;")) == Flat(value, EscapeOne)
  {
    var h := Swap('>', "&gt;");
    forall c ensures EscapeOne(c) == Flat(TwoEscaped(c), h) {
      if c == '&' { FlatUnchanged("&amp;", h); } else if c == '<' { FlatUnchanged("&lt;", h); } else { FlatOne(c, h); }
    }
    FlatTwice(value, TwoEscaped, h, EscapeOne);
  }

  /** The three replacements are one pass over the characters. */
  lemma XmlEscapeIs(value: string)
    ensures XmlEscape(value) == Flat(value, EscapeOne)
  {
    FirstTwo(value);
    LastOne(value);
  }

  /** The reader's side of the escaping. */
  function Unescape(s: string): string {
    if s == [] then []
    else if Starts(s, "&amp;") then "&" + Unescape(s[5..])
    else if Starts(s, "&lt;") then "<" + Unescape(s[4..])
    else if Starts(s, "&gt;") then ">" + Unescape(s[4..])
    else [s[0]] + Unescape(s[1..])
  }

  lemma UnescapeOne(c: char, s: string)
    ensures Unescape(EscapeOne(c) + s) == [c] + Unescape(s)
  {
    var t := EscapeOne(c) + s;
    assert t[|EscapeOne(c)|..] == s;
    assert forall k | 0 <= k < |EscapeOne(c)| :: t[k] == EscapeOne(c)[k];
    var (amp, lt, gt) := ("&amp;", "&lt;", "&gt;");
    assert amp[0] == '&' && amp[1] == 'a' && lt[0] == '&' && lt[1] == 'l' && gt[0] == '&' && gt[1] == 'g';
    if c == '&' { assert Starts(t, amp); }
    else if c == '<' { assert t[1] == 'l'; assert Starts(t, lt) && !Starts(t, amp); }
    else if c == '>' { assert t[1] == 'g'; assert Starts(t, gt) && !Starts(t, amp) && !Starts(t, lt); }
    else { assert t[0] == c; assert !Starts(t, amp) && !Starts(t, lt) && !Starts(t, gt); }
  }

  /** Escaping loses nothing. */
  lemma {:induction false} UnescapeEscape(value: string)
    ensures Unescape(XmlEscape(value)) == value
  {
    XmlEscapeIs(value);
    UnescapeFlat(value);
  }

  lemma {:induction false} UnescapeFlat(value: string)
    ensures Unescape(Flat(value, EscapeOne)) == value
  {
    if value != [] {
      UnescapeFlat(value[1..]);
      UnescapeOne(value[0], Flat(value[1..], EscapeOne));
      assert value == [value[0]] + value[1..];
    }
  }

  /** So two addresses escape alike only if they are the same. */
  lemma EscapeInjective(a: string, b: string)
    requires XmlEscape(a) == XmlEscape(b)
    ensures a == b
  {
    UnescapeEscape(a);
    UnescapeEscape(b);
  }

  lemma EscapePlain(value: string)
    ensures Plain(XmlEscape(value))
  {
    XmlEscapeIs(value);
    FlatWithout(value, EscapeOne, '<');
    FlatWithout(value, EscapeOne, '>');
    var s := XmlEscape(value);
    forall k | 0 <= k < |s| ensures s[k] != '<' && s[k] != '>' { assert s[k] in s; }
  }

  // ---- Entries and files -----------------------------------------------------------

  /** An address, and when the source last saw it change. */
  datatype Entry = Entry(loc: string, lastmod: Option<int>)

  function FormatUrlEntry(cal: Calendar, loc: string, lastmod: Option<int>): string {
    match lastmod
    case Some(d) => "<url><loc>" + XmlEscape(loc) + "</loc><lastmod>" + cal.write(d) + "</lastmod></url>"
    case None => "<url><loc>" + XmlEscape(loc) + "</loc></url>"
  }

  datatype Kind = Gzip | Xml

  /** `body` is the file before compression. */
  datatype SitemapFile = SitemapFile(filename: string, kind: Kind, body: string, lastmod: int)

  function Digit(d: nat): char
    requires d < 10
  {
    ['0', '1', '2', '3', '4', '5', '6', '7', '8', '9'][d]
  }

  function DecimalNat(n: nat): string {
    if n < 10 then [Digit(n)] else DecimalNat(n / 10) + [Digit(n % 10)]
  }

  function Decimal(n: int): string {
    if n < 0 then "-" + DecimalNat(-n) else DecimalNat(n)
  }

  function Filename(section: string, n: nat): string {
    "sitemap-" + section + "-" + DecimalNat(n) + ".xml.gz"
  }

  function Concat(parts: seq<string>): string {
    if parts == [] then [] else Concat(parts[..|parts|-1]) + parts[|parts|-1]
  }

  function UrlsetBody(entries: seq<string>): string {
    "<" + XML_DECLARATION + "><" + URLSET + ">" + Concat(entries) + "</urlset>"
  }

  /** The latest publishable date of some entries. */
  function LatestPublishable(entries: seq<Entry>, today: int): Option<int> {
    if entries == [] then None else
    var avant := LatestPublishable(entries[..|entries|-1], today);
    match Plausible(entries[|entries|-1].lastmod, today)
    case None => avant
    case Some(d) => if avant.None? || d > avant.value then Some(d) else avant
  }

  /** The source's date of an entry, from the epoch to the day of the run. */
  predicate DatedAt(e: Entry, d: int, today: int) {
    e.lastmod == Some(d) && 0 <= d <= today
  }

  lemma {:induction false} LatestIsMax(entries: seq<Entry>, today: int)
    ensures match LatestPublishable(entries, today)
            case None => forall e, d | e in entries :: !DatedAt(e, d, today)
            case Some(d) => (exists e :: e in entries && DatedAt(e, d, today)) && forall e, f | e in entries && DatedAt(e, f, today) :: f <= d
  {
    if entries != [] {
      var (avant, e) := (entries[..|entries|-1], entries[|entries|-1]);
      LatestIsMax(avant, today);
      assert entries == avant + [e];
      assert e in entries;
      if LatestPublishable(avant, today).Some? {
        var f :| f in avant && DatedAt(f, LatestPublishable(avant, today).value, today);
        assert f in entries;
      }
    }
  }

  function Formatted(cal: Calendar, entries: seq<Entry>, today: int): (r: seq<string>)
    ensures |r| == |entries|
    ensures forall k | 0 <= k < |entries| :: r[k] == FormatUrlEntry(cal, entries[k].loc, Plausible(entries[k].lastmod, today))
  {
    seq(|entries|, k requires 0 <= k < |entries| => FormatUrlEntry(cal, entries[k].loc, Plausible(entries[k].lastmod, today)))
  }

  /** The `n`th file of a section, holding these entries. */
  function FileOf(cal: Calendar, section: string, today: int, n: nat, entries: seq<Entry>): SitemapFile {
    var latest := LatestPublishable(entries, today);
    SitemapFile(Filename(section, n), Gzip, UrlsetBody(Formatted(cal, entries, today)), if latest.Some? then latest.value else today)
  }

  /** How many files hold `n` entries. */
  function FileCount(n: nat): nat {
    (n + MAX_URLS_PER_SITEMAP - 1) / MAX_URLS_PER_SITEMAP
  }

  /** The entries of file `k`: a full one, but perhaps the last. */
  function Slice(entries: seq<Entry>, k: nat): (s: seq<Entry>)
    requires k < FileCount(|entries|)
    ensures 0 < |s| <= MAX_URLS_PER_SITEMAP
    ensures k + 1 < FileCount(|entries|) ==> |s| == MAX_URLS_PER_SITEMAP
  {
    var (from, to) := (k * MAX_URLS_PER_SITEMAP, (k + 1) * MAX_URLS_PER_SITEMAP);
    entries[from..if to <= |entries| then to else |entries|]
  }

  /** A section cut into files, in the order it was pushed. */
  function SectionFiles(cal: Calendar, section: string, today: int, entries: seq<Entry>): (files: seq<SitemapFile>)
    ensures |files| == FileCount(|entries|)
    ensures forall k | 0 <= k < |files| :: files[k] == FileOf(cal, section, today, k + 1, Slice(entries, k))
  {
    seq(FileCount(|entries|), k requires 0 <= k < FileCount(|entries|) => FileOf(cal, section, today, k + 1, Slice(entries, k)))
  }

  function Joined(entries: seq<Entry>, k: nat): seq<Entry>
    requires k <= FileCount(|entries|)
  {
    if k == 0 then [] else Joined(entries, k - 1) + Slice(entries, k - 1)
  }

  lemma {:induction false} JoinedPrefix(entries: seq<Entry>, k: nat)
    requires k <= FileCount(|entries|)
    ensures var n := k * MAX_URLS_PER_SITEMAP; Joined(entries, k) == entries[..if n <= |entries| then n else |entries|]
  {
    if k > 0 { JoinedPrefix(entries, k - 1); }
  }

  /** The files of a section hold its entries, all of them, in order. */
  lemma SlicesCover(entries: seq<Entry>)
    ensures Joined(entries, FileCount(|entries|)) == entries
  {
    JoinedPrefix(entries, FileCount(|entries|));
  }

  /** A writer's files and pending entries stand for what was pushed: full files
      for what is flushed, then the rest. */
  ghost predicate Written(cal: Calendar, section: string, today: int, files: seq<SitemapFile>, entries: seq<string>,
                          maxLastmod: Option<int>, pushed: seq<Entry>)
  {
    var done := |files| * MAX_URLS_PER_SITEMAP;
    && done <= |pushed|
    && files == Filed(cal, section, today, FullParts(pushed, |files|))
    && entries == Formatted(cal, pushed[done..], today)
    && maxLastmod == LatestPublishable(pushed[done..], today)
  }

  /** The entries of a full file. */
  function Full(pushed: seq<Entry>, k: nat): seq<Entry> {
    if (k + 1) * MAX_URLS_PER_SITEMAP <= |pushed| then pushed[k * MAX_URLS_PER_SITEMAP..(k + 1) * MAX_URLS_PER_SITEMAP] else []
  }

  /** The entries of the first full files, in order. */
  function FullParts(pushed: seq<Entry>, n: nat): seq<seq<Entry>> {
    if n == 0 then [] else FullParts(pushed, n - 1) + [Full(pushed, n - 1)]
  }

  /** Their files. */
  function Filed(cal: Calendar, section: string, today: int, parts: seq<seq<Entry>>): (r: seq<SitemapFile>)
    ensures |r| == |parts| && forall k | 0 <= k < |parts| :: r[k] == FileOf(cal, section, today, k + 1, parts[k])
  {
    seq(|parts|, k requires 0 <= k < |parts| => FileOf(cal, section, today, k + 1, parts[k]))
  }

  lemma FiledGrows(cal: Calendar, section: string, today: int, parts: seq<seq<Entry>>, part: seq<Entry>)
    ensures Filed(cal, section, today, parts + [part]) == Filed(cal, section, today, parts) + [FileOf(cal, section, today, |parts| + 1, part)]
  {
  }

  lemma {:induction false} FullPartsAt(pushed: seq<Entry>, n: nat)
    ensures |FullParts(pushed, n)| == n
    ensures forall k | 0 <= k < n :: FullParts(pushed, n)[k] == Full(pushed, k)
  {
    if n > 0 { FullPartsAt(pushed, n - 1); }
  }

  lemma FullStays(pushed: seq<Entry>, e: Entry, k: nat)
    requires (k + 1) * MAX_URLS_PER_SITEMAP <= |pushed|
    ensures Full(pushed + [e], k) == Full(pushed, k)
  {
  }

  lemma {:induction false} FullPartsStay(pushed: seq<Entry>, e: Entry, n: nat)
    requires n * MAX_URLS_PER_SITEMAP <= |pushed|
    ensures FullParts(pushed + [e], n) == FullParts(pushed, n)
  {
    if n > 0 {
      FullPartsStay(pushed, e, n - 1);
      FullStays(pushed, e, n - 1);
    }
  }

  lemma NothingWritten(cal: Calendar, section: string, today: int)
    ensures Written(cal, section, today, [], [], None, [])
  {
    var none: seq<Entry> := [];
    assert none[0..] == [];
    assert Formatted(cal, [], today) == [];
  }

  lemma PushWritten(cal: Calendar, section: string, today: int, files: seq<SitemapFile>, entries: seq<string>,
                    maxLastmod: Option<int>, pushed: seq<Entry>, e: Entry)
    requires Written(cal, section, today, files, entries, maxLastmod, pushed)
    ensures var kept := Plausible(e.lastmod, today);
            Written(cal, section, today, files, entries + [FormatUrlEntry(cal, e.loc, kept)],
                    if kept.Some? && (maxLastmod.None? || kept.value > maxLastmod.value) then kept else maxLastmod, pushed + [e])
  {
    var done := |files| * MAX_URLS_PER_SITEMAP;
    PendingGrows(pushed, done, e);
    FormattedGrows(cal, pushed[done..], e, today);
    LatestGrows(pushed[done..], e, today);
    FullPartsStay(pushed, e, |files|);
  }

  lemma PendingGrows(pushed: seq<Entry>, done: nat, e: Entry)
    requires done <= |pushed|
    ensures (pushed + [e])[done..] == pushed[done..] + [e]
  {
  }

  lemma FormattedGrows(cal: Calendar, pending: seq<Entry>, e: Entry, today: int)
    ensures Formatted(cal, pending + [e], today) == Formatted(cal, pending, today) + [FormatUrlEntry(cal, e.loc, Plausible(e.lastmod, today))]
  {
  }

  lemma LatestGrows(pending: seq<Entry>, e: Entry, today: int)
    ensures var (kept, latest) := (Plausible(e.lastmod, today), LatestPublishable(pending, today));
            LatestPublishable(pending + [e], today) ==
            if kept.Some? && (latest.None? || kept.value > latest.value) then kept else latest
  {
    assert (pending + [e])[..|pending|] == pending;
  }

  lemma NothingFormatted(cal: Calendar, today: int)
    ensures Formatted(cal, [], today) == [] && LatestPublishable([], today) == None
  {
  }

  lemma FlushIsFile(cal: Calendar, section: string, today: int, n: nat, entries: seq<Entry>)
    ensures Flushed(section, today, n, Formatted(cal, entries, today), LatestPublishable(entries, today)) ==
            FileOf(cal, section, today, n + 1, entries)
  {
  }

  lemma FlushWritten(cal: Calendar, section: string, today: int, files: seq<SitemapFile>, entries: seq<string>,
                     maxLastmod: Option<int>, pushed: seq<Entry>)
    requires Written(cal, section, today, files, entries, maxLastmod, pushed) && |entries| == MAX_URLS_PER_SITEMAP
    ensures Written(cal, section, today, files + [Flushed(section, today, |files|, entries, maxLastmod)], [], None, pushed)
  {
    var n := |files|;
    LastFull(pushed, n);
    FlushIsFile(cal, section, today, n, Full(pushed, n));
    FullPartsAt(pushed, n);
    FiledGrows(cal, section, today, FullParts(pushed, n), Full(pushed, n));
    NothingFormatted(cal, today);
  }

  lemma LastFull(pushed: seq<Entry>, n: nat)
    requires |pushed| == (n + 1) * MAX_URLS_PER_SITEMAP
    ensures pushed[n * MAX_URLS_PER_SITEMAP..] == Full(pushed, n)
    ensures pushed[(n + 1) * MAX_URLS_PER_SITEMAP..] == []
  {
  }

  lemma FinishWritten(cal: Calendar, section: string, today: int, files: seq<SitemapFile>, entries: seq<string>,
                      maxLastmod: Option<int>, pushed: seq<Entry>)
    requires Written(cal, section, today, files, entries, maxLastmod, pushed) && |entries| < MAX_URLS_PER_SITEMAP
    ensures SectionFiles(cal, section, today, pushed) ==
            files + if entries == [] then [] else [Flushed(section, today, |files|, entries, maxLastmod)]
  {
    var n := |files|;
    FullPart(cal, section, today, pushed, n);
    if entries == [] {
      assert files + [] == files;
    } else {
      SliceRest(pushed, n);
      FlushIsFile(cal, section, today, n, pushed[n * MAX_URLS_PER_SITEMAP..]);
    }
  }

  /** The files of a section: its full ones, then the file of the rest. */
  lemma FullPart(cal: Calendar, section: string, today: int, pushed: seq<Entry>, n: nat)
    requires n * MAX_URLS_PER_SITEMAP <= |pushed| < (n + 1) * MAX_URLS_PER_SITEMAP
    ensures var r := SectionFiles(cal, section, today, pushed);
            if n * MAX_URLS_PER_SITEMAP == |pushed| then r == Filed(cal, section, today, FullParts(pushed, n))
            else |r| == n + 1 && r == Filed(cal, section, today, FullParts(pushed, n)) + [r[n]]
  {
    var (r, full) := (SectionFiles(cal, section, today, pushed), Filed(cal, section, today, FullParts(pushed, n)));
    FullPartsAt(pushed, n);
    forall k | 0 <= k < n ensures r[k] == full[k] { SliceFull(pushed, k); }
    SamePrefix(r, full);
  }

  lemma SamePrefix<T>(r: seq<T>, full: seq<T>)
    requires |full| <= |r| <= |full| + 1 && forall k | 0 <= k < |full| :: r[k] == full[k]
    ensures if |r| == |full| then r == full else r == full + [r[|full|]]
  {
  }

  lemma SliceFull(pushed: seq<Entry>, k: nat)
    requires (k + 1) * MAX_URLS_PER_SITEMAP <= |pushed|
    ensures k < FileCount(|pushed|) && Slice(pushed, k) == Full(pushed, k)
  {
  }

  lemma SliceRest(pushed: seq<Entry>, n: nat)
    requires n * MAX_URLS_PER_SITEMAP < |pushed| < (n + 1) * MAX_URLS_PER_SITEMAP
    ensures n < FileCount(|pushed|) && Slice(pushed, n) == pushed[n * MAX_URLS_PER_SITEMAP..]
  {
  }

  /** The file a flush makes of the pending entries. */
  function Flushed(section: string, today: int, n: nat, entries: seq<string>, maxLastmod: Option<int>): SitemapFile {
    SitemapFile(Filename(section, n + 1), Gzip, UrlsetBody(entries), if maxLastmod.Some? then maxLastmod.value else today)
  }

  /** The writer of one section: entries pile up and are cut at 50 000. */
  class SectionWriter {
    const cal: Calendar
    const section: string
    const today: int
    var files: seq<SitemapFile>
    var entries: seq<string>
    var maxLastmod: Option<int>
    ghost var pushed: seq<Entry>

    ghost predicate Valid()
      reads this
    {
      Written(cal, section, today, files, entries, maxLastmod, pushed) && |entries| < MAX_URLS_PER_SITEMAP
    }

    constructor (cal: Calendar, section: string, today: int)
      ensures Valid() && pushed == [] && this.cal == cal && this.section == section && this.today == today
    {
      this.cal, this.section, this.today := cal, section, today;
      files, entries, maxLastmod, pushed := [], [], None, [];
      NothingWritten(cal, section, today);
    }

    method Flush()
      modifies this`files, this`entries, this`maxLastmod
      ensures entries == []
      ensures maxLastmod == if old(entries) == [] then old(maxLastmod) else None
      ensures files == old(files) + if old(entries) == [] then [] else [Flushed(section, today, |old(files)|, old(entries), old(maxLastmod))]
    {
      if entries == [] { return; }
      var latest := if maxLastmod.Some? then maxLastmod.value else today;
      maxLastmod := None;
      files := files + [SitemapFile(Filename(section, |files| + 1), Gzip, UrlsetBody(entries), latest)];
      entries := [];
    }

    method Push(loc: string, lastmod: Option<int>)
      requires Valid()
      modifies this
      ensures Valid() && pushed == old(pushed) + [Entry(loc, lastmod)]
    {
      PushWritten(cal, section, today, files, entries, maxLastmod, pushed, Entry(loc, lastmod));
      pushed := pushed + [Entry(loc, lastmod)];
      var kept := Plausible(lastmod, today);
      entries := entries + [FormatUrlEntry(cal, loc, kept)];
      if kept.Some? && (maxLastmod.None? || kept.value > maxLastmod.value) { maxLastmod := kept; }
      if |entries| >= MAX_URLS_PER_SITEMAP {
        FlushWritten(cal, section, today, files, entries, maxLastmod, pushed);
        Flush();
      }
    }

    /** Flushes the rest; the files of everything pushed. */
    method Finish() returns (r: seq<SitemapFile>)
      requires Valid()
      modifies this
      ensures r == SectionFiles(cal, section, today, pushed) && pushed == old(pushed)
    {
      FinishWritten(cal, section, today, files, entries, maxLastmod, pushed);
      Flush();
      r := files;
    }
  }
}
