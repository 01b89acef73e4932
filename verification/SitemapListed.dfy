/** What is read back from the files that are published: every address the source owes and
    no other, in order; the dates that can be published; and a name of its own for each file. */
module SitemapListed {
  import opened Ordre
  import opened Octets
  import opened Sitemap
  import opened SitemapBuild
  import opened SitemapCheck
  import opened SitemapAccepted
  import opened SitemapPublish
  import opened SitemapSections

  // ---- Listings, page by page ---------------------------------------------------------

  /** Page `n` of year `y` of jurisdiction `h`, at its place: pages 1 to the last, and no more. */
  lemma HubPageAt(hubs: seq<Hub>, h: nat, y: nat, n: nat, blocks: seq<seq<string>>, years: seq<seq<string>>, before: nat, at: nat)
    requires h < |hubs| && blocks == HubBlocks(hubs) && years == YearBlocks(HubUrl(hubs[h]), hubs[h].years)
    requires y < |years| && 1 <= n <= |years[y]| && before == Before(years, y) + (n - 1) && at == Before(blocks, h) + (1 + before)
    ensures at < |Flatten(blocks)| && Flatten(blocks)[at] == years[y][n - 1]
  {
    HubBlockIs(hubs, h, blocks, years);
    InnerAt(blocks, h, HubUrl(hubs[h]), years, y, n - 1, before, at);
  }

  lemma InnerAt(blocks: seq<seq<string>>, h: nat, first: string, inner: seq<seq<string>>, y: nat, k: nat, before: nat, at: nat)
    requires h < |blocks| && blocks[h] == [first] + Flatten(inner) && y < |inner| && k < |inner[y]|
    requires before == Before(inner, y) + k && at == Before(blocks, h) + (1 + before)
    ensures at < |Flatten(blocks)| && Flatten(blocks)[at] == inner[y][k]
  {
    FlattenTo(inner, y, k, before);
    AfterFirst(blocks[h], first, Flatten(inner), before);
    FlattenTo(blocks, h, 1 + before, at);
  }

  lemma FlattenTo(blocks: seq<seq<string>>, i: nat, k: nat, at: nat)
    requires i < |blocks| && k < |blocks[i]| && at == Before(blocks, i) + k
    ensures at < |Flatten(blocks)| && Flatten(blocks)[at] == blocks[i][k]
  {
    FlattenAt(blocks, i, k);
  }

  lemma HubBlockIs(hubs: seq<Hub>, h: nat, blocks: seq<seq<string>>, years: seq<seq<string>>)
    requires h < |hubs| && blocks == HubBlocks(hubs) && years == YearBlocks(HubUrl(hubs[h]), hubs[h].years)
    ensures h < |blocks| && blocks[h] == [HubUrl(hubs[h])] + Flatten(years)
  {
  }

  lemma AfterFirst(block: seq<string>, first: string, rest: seq<string>, m: nat)
    requires block == [first] + rest && m < |rest|
    ensures 1 + m < |block| && block[1 + m] == rest[m]
  {
  }




  /** Page `n` of year `y` of a jurisdiction, from 1 to the last. */
  predicate IsYearPage(hub: Hub, y: nat, n: nat, path: string) {
    && y < |hub.years| && 1 <= n <= PageCount(hub.years[y].1)
    && path == PageUrl("/decision-index/" + hub.juris + "/" + hub.code + "/" + Decimal(hub.years[y].0), n)
  }

  lemma HubPathIn(hub: Hub, path: string)
    ensures path in [HubUrl(hub)] + Flatten(YearBlocks(HubUrl(hub), hub.years)) <==>
            path == HubUrl(hub) || exists y: nat, n: nat :: IsYearPage(hub, y, n, path)
  {
    var years := YearBlocks(HubUrl(hub), hub.years);
    FlattenIn(years, path);
    if y :| 0 <= y < |years| && path in years[y] {
      var k :| 0 <= k < |years[y]| && years[y][k] == path;
      assert IsYearPage(hub, y, k + 1, path);
    }
    if y: nat, n: nat :| IsYearPage(hub, y, n, path) {
      assert years[y][n - 1] == path;
    }
  }

  /** The listings of decisions are the page of each jurisdiction, and page `n` of each of its
      years for every `n` from 1 to the number of pages, or 1 alone. */
  lemma HubPathsIff(src: Source, today: int, path: string)
    ensures Entry(BASE_URL + path, Some(today)) in Sections(src, today)[1].entries <==>
            exists h :: 0 <= h < |src.hubs| && (path == HubUrl(src.hubs[h]) || exists y: nat, n: nat :: IsYearPage(src.hubs[h], y, n, path))
  {
    var blocks := HubBlocks(src.hubs);
    SectionsAre(src, today);
    OnTheDayIn(Flatten(blocks), today, path);
    FlattenIn(blocks, path);
    forall h | 0 <= h < |src.hubs|
      ensures path in blocks[h] <==> (path == HubUrl(src.hubs[h]) || exists y: nat, n: nat :: IsYearPage(src.hubs[h], y, n, path))
    {
      HubPathIn(src.hubs[h], path);
    }
  }

  lemma OnTheDayIn(paths: seq<string>, today: int, path: string)
    ensures Entry(BASE_URL + path, Some(today)) in OnTheDay(paths, today) <==> path in paths
  {
    if Entry(BASE_URL + path, Some(today)) in OnTheDay(paths, today) {
      var k :| 0 <= k < |paths| && OnTheDay(paths, today)[k] == Entry(BASE_URL + path, Some(today));
      SamePath(path, paths[k]);
    }
    if path in paths {
      var k :| 0 <= k < |paths| && paths[k] == path;
      assert OnTheDay(paths, today)[k] == Entry(BASE_URL + path, Some(today));
    }
  }

  lemma SamePath(a: string, b: string)
    requires BASE_URL + a == BASE_URL + b
    ensures a == b
  {
    assert (BASE_URL + a)[|BASE_URL|..] == a && (BASE_URL + b)[|BASE_URL|..] == b;
  }

  // ---- Numbers and segments ---------------------------------------------------------------

  function DigitValue(c: char): nat
    requires '0' <= c <= '9'
  {
    c as nat - '0' as nat
  }

  predicate Numeral(s: string) {
    s != [] && forall k | 0 <= k < |s| :: '0' <= s[k] <= '9'
  }

  /** The number some digits write. */
  function ValueOf(s: string): nat
    requires forall k | 0 <= k < |s| :: '0' <= s[k] <= '9'
  {
    if s == [] then 0 else 10 * ValueOf(s[..|s|-1]) + DigitValue(s[|s|-1])
  }

  /** A number is written in decimal, without a zero before it. */
  lemma {:induction false} DecimalReads(n: nat)
    ensures Numeral(DecimalNat(n)) && ValueOf(DecimalNat(n)) == n
    ensures n > 0 ==> DecimalNat(n)[0] != '0'
    decreases n
  {
    DigitReads(n % 10);
    if n >= 10 {
      DecimalReads(n / 10);
      assert DecimalNat(n)[..|DecimalNat(n)|-1] == DecimalNat(n / 10);
      assert DecimalNat(n)[0] == DecimalNat(n / 10)[0];
    } else {
      assert DecimalNat(n)[..0] == [];
    }
  }

  lemma DigitReads(d: nat)
    requires d < 10
    ensures '0' <= Digit(d) <= '9' && DigitValue(Digit(d)) == d
  {
  }

  lemma DecimalInjective(m: nat, n: nat)
    requires DecimalNat(m) == DecimalNat(n)
    ensures m == n
  {
    DecimalReads(m);
    DecimalReads(n);
  }

  // ---- Addresses read back ------------------------------------------------------------------

  /** Every entry the source owes, section after section. */
  function Listed(src: Source, today: int): seq<Entry> {
    OnTheDay(STATIC_PATHS, today)
    + OnTheDay(Flatten(HubBlocks(src.hubs)), today)
    + OnTheDay(Flatten(NormBlocks(src.normHubs, None)), today)
    + (NoticeIndexes(src.departements, today) + Notices(src.annonces))
    + (Texts(src.texts) + Articles(src.referential))
    + Entities(src.entities)
    + Decisions(src.decisions)
  }

  lemma EntriesOfSeven(a: seq<Entry>, b: seq<Entry>, c: seq<Entry>, d: seq<Entry>, e: seq<Entry>, f: seq<Entry>, g: seq<Entry>)
    ensures AllEntries(SevenSections(a, b, c, d, e, f, g)) == a + b + c + d + e + f + g
  {
    var s := SevenSections(a, b, c, d, e, f, g);
    FirstFour(s);
    EntriesNext(s, 4);
    EntriesNext(s, 5);
    EntriesNext(s, 6);
    assert s[..7] == s;
  }

  lemma FirstFour(s: seq<Section>)
    requires |s| == 7
    ensures AllEntries(s[..4]) == s[0].entries + s[1].entries + s[2].entries + s[3].entries
  {
    NoEntries();
    assert s[..0] == [];
    EntriesNext(s, 0);
    EntriesNext(s, 1);
    EntriesNext(s, 2);
    EntriesNext(s, 3);
  }

  lemma NoEntries()
    ensures AllEntries([]) == []
  {
  }

  lemma EntriesNext(s: seq<Section>, k: nat)
    requires k < |s|
    ensures AllEntries(s[..k + 1]) == AllEntries(s[..k]) + s[k].entries
  {
    PrefixeGrandit(s, k);
  }

  lemma AllListed(src: Source, today: int)
    ensures AllEntries(Sections(src, today)) == Listed(src, today)
  {
    DatedAre(STATIC_PATHS, today);
    HubsAre(src.hubs);
    DatedAre(HubPaths(src.hubs), today);
    NormsAre(src.normHubs, None);
    DatedAre(NormHubPaths(src.normHubs, None), today);
    NoticeIndexesAre(src.departements, today);
    NoticesAre(src.annonces);
    TextsAre(src.texts);
    ArticlesAre(src.referential);
    EntitiesAre(src.entities);
    DecisionsAre(src.decisions);
    EntriesOfSeven(Dated(STATIC_PATHS, today), Dated(HubPaths(src.hubs), today), Dated(NormHubPaths(src.normHubs, None), today),
      Dated(NoticeIndexPaths(src.departements), today) + NoticeEntries(src.annonces),
      TextEntries(src.texts) + ArticleEntries(src.referential), EntityEntries(src.entities), DecisionEntries(src.decisions));
  }

  /** Read back from the published files, the addresses are those the source owes, escaped, in order. */
  lemma AddressesPublished(cal: Calendar, src: Source, today: int)
    requires cal.Faithful()
    ensures AllLocs(Published(cal, src, today)) == EscapedLocs(Listed(src, today))
  {
    IndexAddsNoLoc(cal, SubFiles(cal, Sections(src, today), today));
    SubLocs(cal, Sections(src, today), today);
    AllListed(src, today);
  }

  /** So each decision is there, the last ones read, at its place. */
  lemma DecisionPublished(cal: Calendar, src: Source, today: int, k: nat, at: int)
    requires cal.Faithful() && k < |src.decisions| && at == |AllLocs(Published(cal, src, today))| - |src.decisions| + k
    ensures 0 <= at < |AllLocs(Published(cal, src, today))|
    ensures AllLocs(Published(cal, src, today))[at] == XmlEscape(BASE_URL + src.decisions[k].0)
  {
    AddressesPublished(cal, src, today);
    DecisionEscaped(src, Listed(src, today), today, k, at);
  }

  lemma DecisionEscaped(src: Source, listed: seq<Entry>, today: int, k: nat, at: int)
    requires listed == Listed(src, today) && k < |src.decisions| && at == |EscapedLocs(listed)| - |src.decisions| + k
    ensures 0 <= at < |EscapedLocs(listed)| && EscapedLocs(listed)[at] == XmlEscape(BASE_URL + src.decisions[k].0)
  {
    DecisionListed(src, listed, today, k, at);
    EscapedAt(listed, at);
  }

  lemma EscapedAt(entries: seq<Entry>, i: nat)
    requires i < |entries|
    ensures |EscapedLocs(entries)| == |entries| && EscapedLocs(entries)[i] == XmlEscape(entries[i].loc)
  {
  }

  lemma DecisionListed(src: Source, listed: seq<Entry>, today: int, k: nat, at: int)
    requires listed == Listed(src, today) && k < |src.decisions| && at == |listed| - |src.decisions| + k
    ensures 0 <= at < |listed| && listed[at].loc == BASE_URL + src.decisions[k].0
  {
    EndOf(listed, Decisions(src.decisions), k, at);
  }

  lemma EndOf(all: seq<Entry>, end: seq<Entry>, k: nat, at: int)
    requires k < |end| <= |all| && all[|all| - |end|..] == end && at == |all| - |end| + k
    ensures 0 <= at < |all| && all[at] == end[k]
  {
    assert all[|all| - |end|..][k] == all[at];
  }

  // ---- Dates read back -------------------------------------------------------------------------

  /** Every date the compressed files give, in order. */
  ghost function AllDates(files: seq<SitemapFile>): seq<string> {
    if files == [] then [] else
    AllDates(files[..|files| - 1]) + if files[|files| - 1].kind.Gzip? then TagValues(files[|files| - 1].body, "lastmod") else []
  }

  /** The date of an entry, where the source has one from the epoch to the day of the run. */
  function DateOf(cal: Calendar, e: Entry, today: int): seq<string> {
    if e.lastmod.Some? && 0 <= e.lastmod.value <= today then [cal.write(e.lastmod.value)] else []
  }

  function DatesOf(cal: Calendar, entries: seq<Entry>, today: int): seq<string> {
    Flatten(seq(|entries|, k requires 0 <= k < |entries| => DateOf(cal, entries[k], today)))
  }

  lemma {:induction false} WrittenAre(cal: Calendar, entries: seq<Entry>, today: int)
    ensures WrittenDates(cal, entries, today) == DatesOf(cal, entries, today)
    decreases |entries|
  {
    if entries != [] {
      WrittenAre(cal, entries[1..], today);
      var rest := seq(|entries[1..]|, k requires 0 <= k < |entries[1..]| => DateOf(cal, entries[1..][k], today));
      assert seq(|entries|, k requires 0 <= k < |entries| => DateOf(cal, entries[k], today)) == [DateOf(cal, entries[0], today)] + rest;
      FlattenCons(DateOf(cal, entries[0], today), rest);
    }
  }

  lemma WrittenCons(cal: Calendar, e: Entry, entries: seq<Entry>, today: int)
    ensures WrittenDates(cal, [e] + entries, today) == DateOf(cal, e, today) + WrittenDates(cal, entries, today)
  {
    assert ([e] + entries)[1..] == entries;
  }

  lemma {:induction false} WrittenBoth(cal: Calendar, a: seq<Entry>, b: seq<Entry>, today: int)
    ensures WrittenDates(cal, a + b, today) == WrittenDates(cal, a, today) + WrittenDates(cal, b, today)
    decreases |a|
  {
    if a == [] {
      assert a + b == b;
    } else {
      WrittenBoth(cal, a[1..], b, today);
      assert a == [a[0]] + a[1..] && a + b == [a[0]] + (a[1..] + b);
      WrittenCons(cal, a[0], a[1..], today);
      WrittenCons(cal, a[0], a[1..] + b, today);
      Associe(DateOf(cal, a[0], today), WrittenDates(cal, a[1..], today), WrittenDates(cal, b, today));
    }
  }

  lemma DatesGrow(files: seq<SitemapFile>, k: nat)
    requires k < |files|
    ensures AllDates(files[..k + 1]) == AllDates(files[..k]) + if files[k].kind.Gzip? then TagValues(files[k].body, "lastmod") else []
  {
    PrefixeGrandit(files, k);
  }

  lemma {:induction false} DatesBoth(a: seq<SitemapFile>, b: seq<SitemapFile>)
    ensures AllDates(a + b) == AllDates(a) + AllDates(b)
    decreases |b|
  {
    if b == [] {
      assert a + b == a;
    } else {
      assert (a + b)[..|a + b| - 1] == a + b[..|b| - 1];
      DatesBoth(a, b[..|b| - 1]);
    }
  }

  /** Each file gives the dates of its slice. */
  ghost predicate Dating(cal: Calendar, files: seq<SitemapFile>, today: int, entries: seq<Entry>) {
    && |files| == FileCount(|entries|)
    && forall k | 0 <= k < |files| :: files[k].kind.Gzip? && TagValues(files[k].body, "lastmod") == WrittenDates(cal, Slice(entries, k), today)
  }

  lemma SectionDated(cal: Calendar, section: string, today: int, entries: seq<Entry>)
    requires cal.Faithful()
    ensures Dating(cal, SectionFiles(cal, section, today, entries), today, entries)
  {
    forall k | 0 <= k < FileCount(|entries|) { SliceDates(cal, section, today, entries, k); }
  }

  lemma SliceDates(cal: Calendar, section: string, today: int, entries: seq<Entry>, k: nat)
    requires cal.Faithful() && k < FileCount(|entries|)
    ensures var f := SectionFiles(cal, section, today, entries)[k];
            f.kind.Gzip? && TagValues(f.body, "lastmod") == WrittenDates(cal, Slice(entries, k), today)
  {
    UrlsetRead(cal, Slice(entries, k), today);
  }

  lemma SectionDatesNext(cal: Calendar, files: seq<SitemapFile>, today: int, entries: seq<Entry>, k: nat)
    requires k < |files| && Dating(cal, files, today, entries) && AllDates(files[..k]) == WrittenDates(cal, Joined(entries, k), today)
    ensures AllDates(files[..k + 1]) == WrittenDates(cal, Joined(entries, k + 1), today)
  {
    DatesGrow(files, k);
    WrittenBoth(cal, Joined(entries, k), Slice(entries, k), today);
  }

  lemma NoDates(cal: Calendar, entries: seq<Entry>, today: int)
    ensures AllDates([]) == WrittenDates(cal, Joined(entries, 0), today)
  {
  }

  lemma {:induction false} SectionDates(cal: Calendar, files: seq<SitemapFile>, today: int, entries: seq<Entry>, k: nat)
    requires k <= |files| && Dating(cal, files, today, entries)
    ensures AllDates(files[..k]) == WrittenDates(cal, Joined(entries, k), today)
    decreases k
  {
    if k == 0 {
      assert files[..0] == [];
      NoDates(cal, entries, today);
    } else {
      SectionDates(cal, files, today, entries, k - 1);
      SectionDatesNext(cal, files, today, entries, k - 1);
    }
  }

  lemma WholeSectionDates(cal: Calendar, s: Section, today: int)
    requires cal.Faithful()
    ensures AllDates(SectionFiles(cal, s.name, today, s.entries)) == WrittenDates(cal, s.entries, today)
  {
    var files := SectionFiles(cal, s.name, today, s.entries);
    SectionDated(cal, s.name, today, s.entries);
    SectionDates(cal, files, today, s.entries, |files|);
    assert files[..|files|] == files;
    SlicesCover(s.entries);
  }

  lemma {:induction false} SubDates(cal: Calendar, sections: seq<Section>, today: int)
    requires cal.Faithful()
    ensures AllDates(SubFiles(cal, sections, today)) == WrittenDates(cal, AllEntries(sections), today)
    decreases |sections|
  {
    if sections != [] {
      var (before, s) := (sections[..|sections|-1], sections[|sections|-1]);
      SubDates(cal, before, today);
      WholeSectionDates(cal, s, today);
      DatesBoth(SubFiles(cal, before, today), SectionFiles(cal, s.name, today, s.entries));
      WrittenBoth(cal, AllEntries(before), s.entries, today);
    }
  }

  /** Read back from the published files, the dates are those of the source's entries that lie
      between the epoch and the day of the run, in order. */
  lemma DatesPublished(cal: Calendar, src: Source, today: int)
    requires cal.Faithful()
    ensures AllDates(Published(cal, src, today)) == DatesOf(cal, Listed(src, today), today)
  {
    var subs := SubFiles(cal, Sections(src, today), today);
    DatesBoth(subs, [IndexFile(cal, subs)]);
    assert [IndexFile(cal, subs)][..0] == [];
    SubDates(cal, Sections(src, today), today);
    AllListed(src, today);
    WrittenAre(cal, Listed(src, today), today);
  }

  // ---- The index's own dates -----------------------------------------------------------------

  lemma {:induction false} LatestFileIsMax(files: seq<SitemapFile>)
    ensures match LatestFile(files)
            case None => files == []
            case Some(d) => (exists f :: f in files && f.lastmod == d) && forall f | f in files :: f.lastmod <= d
    decreases |files|
  {
    if files != [] {
      var (avant, f) := (files[..|files|-1], files[|files|-1]);
      LatestFileIsMax(avant);
      assert files == avant + [f];
      assert f in files;
      if LatestFile(avant).Some? {
        var g :| g in avant && g.lastmod == LatestFile(avant).value;
        assert g in files;
      }
    }
  }

  /** The date of the index is the latest of its files', or the epoch where there are none. */
  lemma IndexDated(cal: Calendar, files: seq<SitemapFile>)
    ensures if files == [] then IndexFile(cal, files).lastmod == 0
            else (exists f :: f in files && f.lastmod == IndexFile(cal, files).lastmod)
                 && forall f | f in files :: f.lastmod <= IndexFile(cal, files).lastmod
  {
    LatestFileIsMax(files);
  }

  /** That of a file is the latest of its entries' from the epoch to the day of the run, or that
      day where none has one. */
  lemma FileDated(cal: Calendar, section: string, today: int, n: nat, entries: seq<Entry>)
    ensures var f := FileOf(cal, section, today, n, entries);
            if exists e, d :: e in entries && DatedAt(e, d, today) then
              (exists e :: e in entries && DatedAt(e, f.lastmod, today)) && forall e, d | e in entries && DatedAt(e, d, today) :: d <= f.lastmod
            else f.lastmod == today
  {
    LatestIsMax(entries, today);
  }

  // ---- Names ------------------------------------------------------------------------------------

  lemma TailCut(a: string, b: string, tail: string)
    requires a + tail == b + tail
    ensures a == b
  {
    assert |a| == |b|;
    assert (a + tail)[..|a|] == a && (b + tail)[..|b|] == b;
  }

  lemma HeadCut(head: string, a: string, b: string)
    requires head + a == head + b
    ensures a == b
  {
    assert (head + a)[|head|..] == a && (head + b)[|head|..] == b;
  }

  function FirstDash(s: string): nat {
    if s == [] || s[0] == '-' then 0 else 1 + FirstDash(s[1..])
  }

  lemma {:induction false} FirstDashIs(a: string, m: string)
    requires '-' !in a
    ensures FirstDash(a + ("-" + m)) == |a|
    decreases |a|
  {
    if a != [] {
      FirstDashIs(a[1..], m);
      assert (a + ("-" + m))[1..] == a[1..] + ("-" + m);
    } else {
      assert a + ("-" + m) == "-" + m;
    }
  }

  lemma DashCut(a: string, m: string, b: string, n: string)
    requires '-' !in a && '-' !in b && a + ("-" + m) == b + ("-" + n)
    ensures a == b && m == n
  {
    FirstDashIs(a, m);
    FirstDashIs(b, n);
    var (s, t) := (a + ("-" + m), b + ("-" + n));
    assert s[..|a|] == a && t[..|b|] == b && s[|a| + 1..] == m && t[|b| + 1..] == n;
  }

  /** A file's name tells its section and its number. */
  lemma FilenameTells(a: string, m: nat, b: string, n: nat)
    requires '-' !in a && '-' !in b && Filename(a, m) == Filename(b, n)
    ensures a == b && m == n
  {
    var (x, y) := (a + ("-" + DecimalNat(m)), b + ("-" + DecimalNat(n)));
    FilenameParts(a, m);
    FilenameParts(b, n);
    TailCut("sitemap-" + x, "sitemap-" + y, ".xml.gz");
    HeadCut("sitemap-", x, y);
    DashCut(a, DecimalNat(m), b, DecimalNat(n));
    DecimalInjective(m, n);
  }

  lemma FilenameParts(a: string, m: nat)
    ensures Filename(a, m) == "sitemap-" + (a + ("-" + DecimalNat(m))) + ".xml.gz"
  {
    Associe("sitemap-", a, "-");
    Associe("sitemap-", a + "-", DecimalNat(m));
    Associe(a, "-", DecimalNat(m));
  }

  ghost predicate NamesApart(files: seq<SitemapFile>) {
    forall i, j | 0 <= i < j < |files| :: files[i].filename != files[j].filename
  }

  /** `f` is named for one of the first `n` sections. */
  ghost predicate NamedFor(sections: seq<Section>, n: nat, f: SitemapFile)
    requires n <= |sections|
  {
    exists s, i: nat :: 0 <= s < n && f.filename == Filename(sections[s].name, i)
  }

  ghost predicate AllNamedFor(sections: seq<Section>, n: nat, files: seq<SitemapFile>)
    requires n <= |sections|
  {
    forall f | f in files :: NamedFor(sections, n, f)
  }

  ghost predicate NamesSound(sections: seq<Section>) {
    && (forall s | 0 <= s < |sections| :: '-' !in sections[s].name)
    && (forall i, j | 0 <= i < j < |sections| :: sections[i].name != sections[j].name)
  }

  lemma FirstDashless()
    ensures '-' !in "pages" && '-' !in "juridictions" && '-' !in "normes" && '-' !in "annonces"
  {
  }

  lemma LastDashless()
    ensures '-' !in "textes" && '-' !in "entites" && '-' !in "decisions"
  {
  }

  function NameSize(k: nat): nat {
    if k == 0 then 5 else if k == 1 then 12 else if k == 2 then 6 else if k == 3 then 8 else if k == 4 then 6 else if k == 5 then 7 else 9
  }

  lemma SevenSizes(a: seq<Entry>, b: seq<Entry>, c: seq<Entry>, d: seq<Entry>, e: seq<Entry>, f: seq<Entry>, g: seq<Entry>, k: nat)
    requires k < 7
    ensures |SevenSections(a, b, c, d, e, f, g)[k].name| == NameSize(k)
    ensures k == 2 ==> SevenSections(a, b, c, d, e, f, g)[k].name[0] == 'n'
    ensures k == 4 ==> SevenSections(a, b, c, d, e, f, g)[k].name[0] == 't'
  {
  }

  lemma SevenNames(a: seq<Entry>, b: seq<Entry>, c: seq<Entry>, d: seq<Entry>, e: seq<Entry>, f: seq<Entry>, g: seq<Entry>)
    ensures NamesSound(SevenSections(a, b, c, d, e, f, g))
  {
    FirstDashless();
    LastDashless();
    var s := SevenSections(a, b, c, d, e, f, g);
    forall i, j | 0 <= i < j < 7 ensures s[i].name != s[j].name {
      SevenSizes(a, b, c, d, e, f, g, i);
      SevenSizes(a, b, c, d, e, f, g, j);
    }
  }

  lemma SectionNames(src: Source, today: int)
    ensures NamesSound(Sections(src, today))
  {
    SevenNames(Dated(STATIC_PATHS, today), Dated(HubPaths(src.hubs), today), Dated(NormHubPaths(src.normHubs, None), today),
      Dated(NoticeIndexPaths(src.departements), today) + NoticeEntries(src.annonces),
      TextEntries(src.texts) + ArticleEntries(src.referential), EntityEntries(src.entities), DecisionEntries(src.decisions));
  }

  lemma PartNames(cal: Calendar, s: Section, today: int)
    requires '-' !in s.name
    ensures NamesApart(SectionFiles(cal, s.name, today, s.entries))
    ensures forall f | f in SectionFiles(cal, s.name, today, s.entries) :: exists i: nat :: f.filename == Filename(s.name, i)
  {
    var files := SectionFiles(cal, s.name, today, s.entries);
    forall i, j | 0 <= i < j < |files| ensures files[i].filename != files[j].filename {
      if Filename(s.name, i + 1) == Filename(s.name, j + 1) { FilenameTells(s.name, i + 1, s.name, j + 1); }
    }
    forall f | f in files ensures exists i: nat :: f.filename == Filename(s.name, i) {
      var k :| 0 <= k < |files| && files[k] == f;
      assert f.filename == Filename(s.name, k + 1);
    }
  }

  lemma NamesTogether(a: seq<SitemapFile>, b: seq<SitemapFile>)
    requires NamesApart(a) && NamesApart(b) && forall f, g | f in a && g in b :: f.filename != g.filename
    ensures NamesApart(a + b)
  {
    forall i, j | 0 <= i < j < |a + b| ensures (a + b)[i].filename != (a + b)[j].filename {
      if i < |a| <= j { assert (a + b)[i] in a && (a + b)[j] in b; }
    }
  }

  lemma OtherSection(sections: seq<Section>, n: nat, f: SitemapFile, g: SitemapFile)
    requires NamesSound(sections) && n < |sections| && NamedFor(sections, n, f) && exists i: nat :: g.filename == Filename(sections[n].name, i)
    ensures f.filename != g.filename
  {
    var s, i: nat :| 0 <= s < n && f.filename == Filename(sections[s].name, i);
    var j: nat :| g.filename == Filename(sections[n].name, j);
    if f.filename == g.filename { FilenameTells(sections[s].name, i, sections[n].name, j); }
  }

  lemma {:induction false} SubNames(cal: Calendar, sections: seq<Section>, today: int, n: nat)
    requires NamesSound(sections) && n <= |sections|
    ensures NamesApart(SubFiles(cal, sections[..n], today))
    ensures AllNamedFor(sections, n, SubFiles(cal, sections[..n], today))
    decreases n
  {
    if n > 0 {
      SubNames(cal, sections, today, n - 1);
      SubNamesNext(cal, sections, today, n - 1);
    }
  }

  lemma SubNamesNext(cal: Calendar, sections: seq<Section>, today: int, n: nat)
    requires NamesSound(sections) && n < |sections| && NamesApart(SubFiles(cal, sections[..n], today))
    requires AllNamedFor(sections, n, SubFiles(cal, sections[..n], today))
    ensures NamesApart(SubFiles(cal, sections[..n + 1], today))
    ensures AllNamedFor(sections, n + 1, SubFiles(cal, sections[..n + 1], today))
  {
    var (a, b) := (SubFiles(cal, sections[..n], today), SectionFiles(cal, sections[n].name, today, sections[n].entries));
    PrefixeGrandit(sections, n);
    assert sections[..n + 1][..n] == sections[..n];
    PartNames(cal, sections[n], today);
    forall f, g | f in a && g in b ensures f.filename != g.filename { OtherSection(sections, n, f, g); }
    NamesTogether(a, b);
    forall f | f in a + b ensures NamedFor(sections, n + 1, f) { NamedLater(sections, n, f, b); }
  }

  lemma NamedLater(sections: seq<Section>, n: nat, f: SitemapFile, b: seq<SitemapFile>)
    requires n < |sections| && (NamedFor(sections, n, f) || f in b)
    requires forall g | g in b :: exists i: nat :: g.filename == Filename(sections[n].name, i)
    ensures NamedFor(sections, n + 1, f)
  {
  }

  lemma NotIndex(section: string, n: nat)
    ensures Filename(section, n) != SITEMAP_INDEX_NAME
  {
    var f := Filename(section, n);
    assert f[|f| - 1] == 'z';
  }

  /** No two published files bear one name: none takes the place of another in the store. */
  lemma FilesNamedApart(cal: Calendar, src: Source, today: int)
    ensures NamesApart(Published(cal, src, today))
  {
    var sections := Sections(src, today);
    SectionNames(src, today);
    SubNames(cal, sections, today, |sections|);
    assert sections[..|sections|] == sections;
    var subs := SubFiles(cal, sections, today);
    forall f | f in subs ensures f.filename != SITEMAP_INDEX_NAME {
      var s, i: nat :| 0 <= s < |sections| && f.filename == Filename(sections[s].name, i);
      NotIndex(sections[s].name, i);
    }
    NamesTogether(subs, [IndexFile(cal, subs)]);
  }

  // ---- The listings of norms -----------------------------------------------------------------------

  /** Page `n` of year `t` of a collection, from 1 to the last. */
  predicate IsTokenPage(hub: NormHub, t: nat, n: nat, path: string) {
    t < |hub.tokens| && 1 <= n <= PageCount(hub.tokens[t].1) && path == PageUrl("/norm-index/" + hub.juris + "/" + hub.fond + "/" + hub.tokens[t].0, n)
  }

  lemma NormPathIn(hub: NormHub, own: seq<string>, path: string)
    ensures path in own + [FondUrl(hub)] + Flatten(TokenBlocks(FondUrl(hub), hub.tokens)) <==>
            || path in own || path == FondUrl(hub)
            || exists t: nat, n: nat :: IsTokenPage(hub, t, n, path)
  {
    var blocks := TokenBlocks(FondUrl(hub), hub.tokens);
    FlattenIn(blocks, path);
    if t :| 0 <= t < |blocks| && path in blocks[t] {
      var k :| 0 <= k < |blocks[t]| && blocks[t][k] == path;
      assert IsTokenPage(hub, t, k + 1, path);
    }
    if t: nat, n: nat :| IsTokenPage(hub, t, n, path) {
      assert blocks[t][n - 1] == path;
    }
  }

  /** Those of norms are the page of each jurisdiction, where its collections begin, the page of
      each collection, and pages 1 to the last of each of its years. */
  /** A page that collection `h` brings: that of its jurisdiction, where the one before is of
      another, its own, and pages 1 to the last of each of its years. */
  predicate NormPathOf(hubs: seq<NormHub>, h: nat, path: string)
    requires h < |hubs|
  {
    || (path == "/norm-index/" + hubs[h].juris && (h > 0 ==> hubs[h - 1].juris != hubs[h].juris))
    || path == "/norm-index/" + hubs[h].juris + "/" + hubs[h].fond
    || exists t: nat, n: nat | t < |hubs[h].tokens| && n <= PageCount(hubs[h].tokens[t].1) :: IsTokenPage(hubs[h], t, n, path)
  }

  lemma NormBlockIn(hubs: seq<NormHub>, h: nat, path: string)
    requires h < |hubs|
    ensures path in NormBlocks(hubs, None)[h] <==> NormPathOf(hubs, h, path)
  {
    NormPathIn(hubs[h], OwnPage(hubs[h].juris, JurisBefore(hubs, h, None)), path);
  }

  lemma NormPathsIff(src: Source, today: int, path: string)
    ensures Entry(BASE_URL + path, Some(today)) in Sections(src, today)[2].entries <==>
            exists h: nat :: h < |src.normHubs| && NormPathOf(src.normHubs, h, path)
  {
    var (hubs, blocks) := (src.normHubs, NormBlocks(src.normHubs, None));
    SectionsAre(src, today);
    OnTheDayIn(Flatten(blocks), today, path);
    FlattenIn(blocks, path);
    forall h: nat | h < |hubs| ensures path in blocks[h] <==> NormPathOf(hubs, h, path) { NormBlockIn(hubs, h, path); }
  }

  /** The segment of a jurisdiction: `eu` for the Union, else its code in small letters. */
  lemma SegmentIs(juris: string)
    ensures juris == "UE" ==> UrlSegment(juris) == "eu"
    ensures juris != "UE" ==> |UrlSegment(juris)| == |juris| && forall k | 0 <= k < |juris| ::
      if 'A' <= juris[k] <= 'Z' then UrlSegment(juris)[k] as int == juris[k] as int + 32 else UrlSegment(juris)[k] == juris[k]
  {
  }
}
