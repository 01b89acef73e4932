/** Writer and check agree: what is built passes the check exactly when the
    source's addresses are distinct and within the published limits. */
module SitemapAccepted {
  import opened Ordre
  import opened Octets
  import opened Sitemap
  import opened SitemapBuild
  import opened SitemapCheck

  // ---- An escaped address is well escaped -------------------------------------------

  lemma OriginUnchanged()
    ensures Flat(BASE_URL, EscapeOne) == BASE_URL
  {
    FlatUnchanged(BASE_URL, EscapeOne);
  }

  lemma EscapedOnOrigin(loc: string)
    requires OnOrigin(loc)
    ensures OnOrigin(XmlEscape(loc))
  {
    XmlEscapeIs(loc);
    var path := loc[|BASE_URL|..];
    assert loc == BASE_URL + path;
    FlatConcat(BASE_URL, path, EscapeOne);
    OriginUnchanged();
    var (base, e) := (BASE_URL, Flat(path, EscapeOne));
    assert (base + e)[..|base|] == base;
  }

  lemma EntityStays(c: char, s: string)
    requires c == '&' || c == '<' || c == '>'
    ensures EntityAt(EscapeOne(c) + s, 1)
    ensures forall i | 0 < i < |EscapeOne(c)| :: EscapeOne(c)[i] != '&'
  {
    var (u, amp, lt, gt) := (EscapeOne(c), "amp;", "lt;", "gt;");
    assert forall k | 0 <= k < |u| :: (u + s)[k] == u[k];
    if c == '&' { assert Occurs(u + s, amp, 1); }
    else if c == '<' { assert Occurs(u + s, lt, 1); }
    else { assert Occurs(u + s, gt, 1); }
  }

  lemma EntityPast(u: string, s: string, k: nat)
    ensures EntityAt(u + s, |u| + k) <==> EntityAt(s, k)
  {
    OccursPast(u, s, "amp;", k);
    OccursPast(u, s, "lt;", k);
    OccursPast(u, s, "gt;", k);
    OccursPast(u, s, "quot;", k);
    OccursPast(u, s, "apos;", k);
  }

  lemma EscapedStep(c: char, s: string)
    requires !UnescapedAmp(s)
    ensures !UnescapedAmp(EscapeOne(c) + s)
  {
    var u := EscapeOne(c);
    forall i | 0 <= i < |u + s| && (u + s)[i] == '&' ensures EntityAt(u + s, i + 1) {
      if i >= |u| {
        assert s[i - |u|] == '&';
        EntityPast(u, s, i - |u| + 1);
        assert |u| + (i - |u| + 1) == i + 1;
      } else {
        assert u[i] == '&';
        if c == '&' || c == '<' || c == '>' { EntityStays(c, s); }
      }
    }
  }

  lemma {:induction false} EscapedAmps(value: string)
    ensures !UnescapedAmp(Flat(value, EscapeOne))
  {
    if value != [] {
      EscapedAmps(value[1..]);
      EscapedStep(value[0], Flat(value[1..], EscapeOne));
    }
  }

  lemma EscapedWell(loc: string)
    ensures var e := XmlEscape(loc); '<' !in e && '>' !in e && !UnescapedAmp(e)
  {
    XmlEscapeIs(loc);
    EscapedAmps(loc);
    EscapePlain(loc);
  }

  // ---- The breaches of one file ------------------------------------------------------

  const HEADER: nat := |XML_DECLARATION| + |URLSET| + 13

  /** The octets of an entry. */
  function EntrySize(cal: Calendar, e: Entry, today: int): nat {
    |XmlEscape(e.loc)| + match Plausible(e.lastmod, today) case Some(d) => 41 + |cal.write(d)| case None => 22
  }

  function EntriesSize(cal: Calendar, entries: seq<Entry>, today: int): nat {
    if entries == [] then 0 else EntrySize(cal, entries[0], today) + EntriesSize(cal, entries[1..], today)
  }

  lemma {:induction false} EntriesSized(cal: Calendar, entries: seq<Entry>, today: int)
    ensures |Concat(Formatted(cal, entries, today))| == EntriesSize(cal, entries, today)
  {
    if entries != [] {
      EntriesSized(cal, entries[1..], today);
      FormattedCons(cal, entries, today);
    }
  }

  /** The octets of a file, counted from its entries. */
  lemma BodySized(cal: Calendar, entries: seq<Entry>, today: int)
    ensures |UrlsetBody(Formatted(cal, entries, today))| == HEADER + EntriesSize(cal, entries, today)
  {
    EntriesSized(cal, entries, today);
  }

  lemma OnlyTooLong(name: string, loc: string, p: Problem)
    requires OnOrigin(loc)
    ensures LocBreach(name, XmlEscape(loc), p) <==> |XmlEscape(loc)| > MAX_LOC_LEN && p == LocTooLong(name, XmlEscape(loc))
  {
    EscapedOnOrigin(loc);
    EscapedWell(loc);
  }

  lemma {:induction false} DatesSound(cal: Calendar, entries: seq<Entry>, today: int, t: string)
    requires cal.Faithful() && t in WrittenDates(cal, entries, today)
    ensures cal.read(t).Some? && Plausible(cal.read(t), today).Some?
  {
    if t !in WrittenDates(cal, entries[1..], today) {
      assert Plausible(entries[0].lastmod, today).Some?;
      DateReadBack(cal, entries[0].lastmod.value);
    } else {
      DatesSound(cal, entries[1..], today, t);
    }
  }

  lemma DateReadBack(cal: Calendar, d: int)
    requires cal.Faithful() && LASTMOD_FLOOR <= d
    ensures cal.read(cal.write(d)) == Some(d)
  {
  }

  ghost predicate Fits(cal: Calendar, entries: seq<Entry>, today: int) {
    HEADER + EntriesSize(cal, entries, today) <= MAX_UNCOMPRESSED_BYTES
  }

  predicate Short(loc: string) {
    |XmlEscape(loc)| <= MAX_LOC_LEN
  }

  ghost predicate AllShort(entries: seq<Entry>) {
    forall e | e in entries :: Short(e.loc)
  }

  lemma LocsSound(name: string, entries: seq<Entry>, l: string, p: Problem)
    requires Home(entries) && AllShort(entries) && l in EscapedLocs(entries)
    ensures !LocBreach(name, l, p)
  {
    var k :| 0 <= k < |entries| && EscapedLocs(entries)[k] == l;
    assert entries[k] in entries && Short(entries[k].loc);
    OnlyTooLong(name, entries[k].loc, p);
  }

  lemma LocOfPart(cal: Calendar, section: string, today: int, n: nat, entries: seq<Entry>, l: string, p: Problem)
    requires cal.Faithful() && Home(entries) && AllShort(entries)
    requires l in TagValues(FileOf(cal, section, today, n, entries).body, "loc")
    ensures !LocBreach(Filename(section, n), l, p)
  {
    UrlsetRead(cal, entries, today);
    LocsSound(Filename(section, n), entries, l, p);
  }

  lemma DateOfPart(cal: Calendar, section: string, today: int, n: nat, entries: seq<Entry>, t: string, p: Problem)
    requires cal.Faithful() && t in TagValues(FileOf(cal, section, today, n, entries).body, "lastmod")
    ensures !DateBreach(cal, today, Filename(section, n), t, p)
  {
    UrlsetRead(cal, entries, today);
    DatesSound(cal, entries, today, t);
  }

  lemma SizeOfPart(cal: Calendar, section: string, today: int, n: nat, entries: seq<Entry>, p: Problem)
    requires cal.Faithful() && |entries| <= MAX_URLS_PER_SITEMAP && Fits(cal, entries, today)
    ensures !SizeBreach(FileOf(cal, section, today, n, entries), p)
  {
    UrlsetRead(cal, entries, today);
    BodySized(cal, entries, today);
  }

  /** A file of few, short addresses that fits has no breach. */
  lemma PartSound(cal: Calendar, section: string, today: int, n: nat, entries: seq<Entry>, p: Problem)
    requires cal.Faithful() && Home(entries) && |entries| <= MAX_URLS_PER_SITEMAP
    requires AllShort(entries) && Fits(cal, entries, today)
    ensures !FileBreach(cal, today, FileOf(cal, section, today, n, entries), p)
  {
    var f := FileOf(cal, section, today, n, entries);
    SizeOfPart(cal, section, today, n, entries, p);
    forall l | l in TagValues(f.body, "loc") ensures !LocBreach(f.filename, l, p) { LocOfPart(cal, section, today, n, entries, l, p); }
    forall t | t in TagValues(f.body, "lastmod") ensures !DateBreach(cal, today, f.filename, t, p) {
      DateOfPart(cal, section, today, n, entries, t, p);
    }
  }

  /** A file that does not fit, or holds a long address, has one. */
  lemma PartFails(cal: Calendar, section: string, today: int, n: nat, entries: seq<Entry>) returns (p: Problem)
    requires cal.Faithful() && Home(entries)
    requires !AllShort(entries) || !Fits(cal, entries, today)
    ensures FileBreach(cal, today, FileOf(cal, section, today, n, entries), p)
  {
    var f := FileOf(cal, section, today, n, entries);
    UrlsetRead(cal, entries, today);
    BodySized(cal, entries, today);
    if !Fits(cal, entries, today) {
      p := TooLarge(f.filename, |f.body|);
    } else {
      var e :| e in entries && !Short(e.loc);
      var k :| 0 <= k < |entries| && entries[k] == e;
      p := LocTooLong(f.filename, XmlEscape(e.loc));
      assert EscapedLocs(entries)[k] in TagValues(f.body, "loc");
      assert LocBreach(f.filename, XmlEscape(e.loc), p);
    }
  }

  // ---- The files of all sections -----------------------------------------------------

  /** `f` is the file of slice `k` of a section. */
  ghost predicate IsPart(cal: Calendar, section: Section, today: int, f: SitemapFile, k: nat) {
    k < FileCount(|section.entries|) && f == FileOf(cal, section.name, today, k + 1, Slice(section.entries, k))
  }

  lemma SubOfLast(cal: Calendar, sections: seq<Section>, today: int, f: SitemapFile)
    requires f in SubFiles(cal, sections, today)
    ensures sections != []
    ensures var n := |sections| - 1;
            f in SubFiles(cal, sections[..n], today) || f in SectionFiles(cal, sections[n].name, today, sections[n].entries)
  {
  }

  lemma SectionFileAt(cal: Calendar, section: Section, today: int, f: SitemapFile) returns (k: nat)
    requires f in SectionFiles(cal, section.name, today, section.entries)
    ensures IsPart(cal, section, today, f, k)
  {
    k :| 0 <= k < |SectionFiles(cal, section.name, today, section.entries)| && SectionFiles(cal, section.name, today, section.entries)[k] == f;
  }

  lemma {:induction false} SubsAre(cal: Calendar, sections: seq<Section>, today: int, f: SitemapFile) returns (s: nat, k: nat)
    requires f in SubFiles(cal, sections, today)
    ensures s < |sections| && IsPart(cal, sections[s], today, f, k)
  {
    SubOfLast(cal, sections, today, f);
    var n := |sections| - 1;
    if f in SubFiles(cal, sections[..n], today) {
      s, k := SubsAre(cal, sections[..n], today, f);
    } else {
      s := n;
      k := SectionFileAt(cal, sections[n], today, f);
    }
  }

  lemma PartOfLast(cal: Calendar, sections: seq<Section>, today: int, f: SitemapFile, n: nat, k: nat)
    requires n == |sections| - 1 && IsPart(cal, sections[n], today, f, k)
    ensures f in SubFiles(cal, sections, today)
  {
    assert SectionFiles(cal, sections[n].name, today, sections[n].entries)[k] == f;
  }

  lemma SubOfEarlier(cal: Calendar, sections: seq<Section>, today: int, f: SitemapFile, n: nat)
    requires n == |sections| - 1 && f in SubFiles(cal, sections[..n], today)
    ensures f in SubFiles(cal, sections, today)
  {
  }

  lemma {:induction false} PartsAre(cal: Calendar, sections: seq<Section>, today: int, f: SitemapFile, s: nat, k: nat)
    requires s < |sections| && IsPart(cal, sections[s], today, f, k)
    ensures f in SubFiles(cal, sections, today)
    decreases |sections|
  {
    var n := |sections| - 1;
    if s < n {
      PartsAre(cal, sections[..n], today, f, s, k);
      SubOfEarlier(cal, sections, today, f, n);
    } else {
      PartOfLast(cal, sections, today, f, n, k);
    }
  }

  /** The entries of every section, in order. */
  function AllEntries(sections: seq<Section>): seq<Entry> {
    if sections == [] then [] else AllEntries(sections[..|sections|-1]) + sections[|sections|-1].entries
  }

  lemma {:induction false} EscapedBoth(a: seq<Entry>, b: seq<Entry>)
    ensures EscapedLocs(a + b) == EscapedLocs(a) + EscapedLocs(b)
  {
  }

  lemma {:induction false} LocsBoth(a: seq<SitemapFile>, b: seq<SitemapFile>)
    ensures AllLocs(a + b) == AllLocs(a) + AllLocs(b)
  {
    if b == [] {
      assert a + b == a;
    } else {
      assert (a + b)[..|a + b| - 1] == a + b[..|b| - 1];
      LocsBoth(a, b[..|b| - 1]);
    }
  }

  lemma PartLocs(cal: Calendar, section: string, today: int, n: nat, entries: seq<Entry>)
    requires cal.Faithful()
    ensures TagValues(FileOf(cal, section, today, n, entries).body, "loc") == EscapedLocs(entries)
  {
    UrlsetRead(cal, entries, today);
  }

  lemma LocsGrow(files: seq<SitemapFile>, k: nat)
    requires k < |files| && files[k].kind.Gzip?
    ensures AllLocs(files[..k + 1]) == AllLocs(files[..k]) + TagValues(files[k].body, "loc")
  {
    PrefixeGrandit(files, k);
  }

  /** Each file lists the addresses of its slice. */
  ghost predicate Listing(files: seq<SitemapFile>, entries: seq<Entry>) {
    && |files| == FileCount(|entries|)
    && forall k | 0 <= k < |files| :: files[k].kind.Gzip? && TagValues(files[k].body, "loc") == EscapedLocs(Slice(entries, k))
  }

  lemma LocsStep(files: seq<SitemapFile>, entries: seq<Entry>, k: nat)
    requires k < |files| && k < FileCount(|entries|) && files[k].kind.Gzip? && AllLocs(files[..k]) == EscapedLocs(Joined(entries, k))
    requires TagValues(files[k].body, "loc") == EscapedLocs(Slice(entries, k))
    ensures AllLocs(files[..k + 1]) == EscapedLocs(Joined(entries, k + 1))
  {
    LocsGrow(files, k);
    EscapedBoth(Joined(entries, k), Slice(entries, k));
  }

  lemma ListingAt(files: seq<SitemapFile>, entries: seq<Entry>, k: nat)
    requires Listing(files, entries) && k < |files|
    ensures k < FileCount(|entries|) && files[k].kind.Gzip? && TagValues(files[k].body, "loc") == EscapedLocs(Slice(entries, k))
  {
  }

  lemma SectionLocsNext(files: seq<SitemapFile>, entries: seq<Entry>, k: nat)
    requires k < |files| && Listing(files, entries) && AllLocs(files[..k]) == EscapedLocs(Joined(entries, k))
    ensures AllLocs(files[..k + 1]) == EscapedLocs(Joined(entries, k + 1))
  {
    ListingAt(files, entries, k);
    LocsStep(files, entries, k);
  }

  lemma SectionLocsNone(entries: seq<Entry>)
    ensures AllLocs([]) == EscapedLocs(Joined(entries, 0))
  {
  }

  lemma {:induction false} SectionLocs(files: seq<SitemapFile>, entries: seq<Entry>, k: nat)
    requires k <= |files| && Listing(files, entries)
    ensures AllLocs(files[..k]) == EscapedLocs(Joined(entries, k))
  {
    if k > 0 {
      SectionLocs(files, entries, k - 1);
      SectionLocsNext(files, entries, k - 1);
    } else {
      assert files[..0] == [];
      SectionLocsNone(entries);
    }
  }

  lemma SectionLists(cal: Calendar, section: Section, today: int)
    requires cal.Faithful()
    ensures Listing(SectionFiles(cal, section.name, today, section.entries), section.entries)
  {
    forall k | 0 <= k < FileCount(|section.entries|) { FileLocs(cal, section, today, k); }
  }

  lemma FileLocs(cal: Calendar, section: Section, today: int, k: nat)
    requires cal.Faithful() && k < FileCount(|section.entries|)
    ensures var f := SectionFiles(cal, section.name, today, section.entries)[k];
            f.kind.Gzip? && TagValues(f.body, "loc") == EscapedLocs(Slice(section.entries, k))
  {
    PartLocs(cal, section.name, today, k + 1, Slice(section.entries, k));
  }

  lemma {:induction false} SubLocs(cal: Calendar, sections: seq<Section>, today: int)
    requires cal.Faithful()
    ensures AllLocs(SubFiles(cal, sections, today)) == EscapedLocs(AllEntries(sections))
  {
    if sections != [] {
      var (before, s) := (sections[..|sections|-1], sections[|sections|-1]);
      SubLocs(cal, before, today);
      var files := SectionFiles(cal, s.name, today, s.entries);
      SectionLists(cal, s, today);
      SectionLocs(files, s.entries, |files|);
      assert files[..|files|] == files;
      SlicesCover(s.entries);
      LocsBoth(SubFiles(cal, before, today), files);
      EscapedBoth(AllEntries(before), s.entries);
    }
  }

  function RawLocs(entries: seq<Entry>): seq<string> {
    seq(|entries|, k requires 0 <= k < |entries| => entries[k].loc)
  }

  /** The check sees a repeated address exactly when the source has one. */
  lemma RepeatsAre(entries: seq<Entry>)
    ensures Distinct(EscapedLocs(entries)) <==> Distinct(RawLocs(entries))
  {
    var (raw, escaped) := (RawLocs(entries), EscapedLocs(entries));
    forall i, j | 0 <= i < j < |entries| ensures raw[i] == raw[j] <==> escaped[i] == escaped[j] {
      if escaped[i] == escaped[j] { EscapeInjective(entries[i].loc, entries[j].loc); }
    }
  }
}
