/** The index read back: it lists every file by its public address. */
module SitemapIndex {
  import opened Ordre
  import opened Octets
  import opened Sitemap
  import opened SitemapBuild
  import opened SitemapCheck

  // ---- The index as tokens -----------------------------------------------------------

  function ItemTokens(url: string, date: string, rest: seq<Token>): seq<Token> {
    [Tag("sitemap")] + ([Tag("loc")] + ([Text(url)] + ([Tag("/loc")] +
    ([Tag("lastmod")] + ([Text(date)] + ([Tag("/lastmod")] + ([Tag("/sitemap")] + rest)))))))
  }

  function ItemsTokens(cal: Calendar, files: seq<SitemapFile>, rest: seq<Token>): seq<Token> {
    if files == [] then rest else
    ItemTokens(XmlEscape(SitemapUrl(files[0].filename)), cal.write(files[0].lastmod), ItemsTokens(cal, files[1..], rest))
  }

  function IndexTokens(cal: Calendar, files: seq<SitemapFile>): seq<Token> {
    [Tag(XML_DECLARATION)] + ([Tag(SITEMAPINDEX)] + ItemsTokens(cal, files, [Tag("/sitemapindex")]))
  }

  lemma ItemHead(u: string, r: string)
    ensures Opening("sitemap") + (Opening("loc") + (u + (Opening("/loc") + r))) == "<sitemap><loc>" + u + "</loc>" + r
  {
    assert Opening("sitemap") == "<sitemap>" && Opening("loc") == "<loc>" && Opening("/loc") == "</loc>";
  }

  lemma ItemTail(d: string, r: string)
    ensures Opening("lastmod") + (d + (Opening("/lastmod") + (Opening("/sitemap") + r))) == "<lastmod>" + d + "</lastmod></sitemap>" + r
  {
    assert Opening("lastmod") == "<lastmod>" && Opening("/lastmod") == "</lastmod>" && Opening("/sitemap") == "</sitemap>";
  }

  lemma ItemText(u: string, d: string, r: string)
    ensures "<sitemap><loc>" + u + "</loc>" + ("<lastmod>" + d + "</lastmod></sitemap>" + r) ==
            "<sitemap><loc>" + u + "</loc><lastmod>" + d + "</lastmod></sitemap>" + r
  {
  }

  lemma PrintTail(date: string, rest: seq<Token>)
    ensures Print([Tag("lastmod")] + ([Text(date)] + ([Tag("/lastmod")] + ([Tag("/sitemap")] + rest)))) ==
            "<lastmod>" + date + "</lastmod></sitemap>" + Print(rest)
  {
    var r := [Tag("/sitemap")] + rest;
    PrintCons(Tag("/sitemap"), rest);
    PrintCons(Tag("/lastmod"), r);
    PrintCons(Text(date), [Tag("/lastmod")] + r);
    PrintCons(Tag("lastmod"), [Text(date)] + ([Tag("/lastmod")] + r));
    ItemTail(date, Print(rest));
  }

  lemma PrintHead(url: string, q: seq<Token>)
    ensures Print([Tag("sitemap")] + ([Tag("loc")] + ([Text(url)] + ([Tag("/loc")] + q)))) == "<sitemap><loc>" + url + "</loc>" + Print(q)
  {
    PrintCons(Tag("/loc"), q);
    PrintCons(Text(url), [Tag("/loc")] + q);
    PrintCons(Tag("loc"), [Text(url)] + ([Tag("/loc")] + q));
    PrintCons(Tag("sitemap"), [Tag("loc")] + ([Text(url)] + ([Tag("/loc")] + q)));
    ItemHead(url, Print(q));
  }

  lemma PrintItem(url: string, date: string, rest: seq<Token>)
    ensures Print(ItemTokens(url, date, rest)) == "<sitemap><loc>" + url + "</loc><lastmod>" + date + "</lastmod></sitemap>" + Print(rest)
  {
    PrintTail(date, rest);
    PrintHead(url, [Tag("lastmod")] + ([Text(date)] + ([Tag("/lastmod")] + ([Tag("/sitemap")] + rest))));
    ItemText(url, date, Print(rest));
  }

  lemma {:induction false} PrintItems(cal: Calendar, files: seq<SitemapFile>, rest: seq<Token>)
    ensures Print(ItemsTokens(cal, files, rest)) == Concat(IndexEntries(cal, files)) + Print(rest)
  {
    if files == [] {
      assert [] + Print(rest) == Print(rest);
    } else {
      PrintItems(cal, files[1..], rest);
      PrintItem(XmlEscape(SitemapUrl(files[0].filename)), cal.write(files[0].lastmod), ItemsTokens(cal, files[1..], rest));
      EntriesCons(cal, files);
      Associe(IndexEntry(cal, files[0]), Concat(IndexEntries(cal, files[1..])), Print(rest));
    }
  }

  lemma EntriesCons(cal: Calendar, files: seq<SitemapFile>)
    requires files != []
    ensures Concat(IndexEntries(cal, files)) == IndexEntry(cal, files[0]) + Concat(IndexEntries(cal, files[1..]))
  {
    ConcatCons(IndexEntry(cal, files[0]), IndexEntries(cal, files[1..]));
    assert IndexEntries(cal, files) == [IndexEntry(cal, files[0])] + IndexEntries(cal, files[1..]);
  }

  lemma PrintIndex(cal: Calendar, files: seq<SitemapFile>)
    ensures Print(IndexTokens(cal, files)) == IndexBody(Concat(IndexEntries(cal, files)))
  {
    var inner := ItemsTokens(cal, files, [Tag("/sitemapindex")]);
    PrintItems(cal, files, [Tag("/sitemapindex")]);
    PrintLast();
    PrintCons(Tag(SITEMAPINDEX), inner);
    PrintCons(Tag(XML_DECLARATION), [Tag(SITEMAPINDEX)] + inner);
    BodyText(XML_DECLARATION, SITEMAPINDEX, Concat(IndexEntries(cal, files)), "</sitemapindex>");
  }

  lemma PrintLast()
    ensures Print([Tag("/sitemapindex")]) == "</sitemapindex>"
  {
    PrintAlone(Tag("/sitemapindex"));
    assert Opening("/sitemapindex") == "</sitemapindex>";
  }

  lemma ItemClean(url: string, date: string, rest: seq<Token>)
    requires Plain(url) && Plain(date) && Clean(rest)
    ensures Clean(ItemTokens(url, date, rest))
  {
    var r := [Tag("/sitemap")] + rest;
    CleanCons(Tag("/sitemap"), rest);
    CleanCons(Tag("/lastmod"), r);
    CleanCons(Text(date), [Tag("/lastmod")] + r);
    var q := [Tag("lastmod")] + ([Text(date)] + ([Tag("/lastmod")] + r));
    CleanCons(Tag("lastmod"), [Text(date)] + ([Tag("/lastmod")] + r));
    CleanCons(Tag("/loc"), q);
    CleanCons(Text(url), [Tag("/loc")] + q);
    CleanCons(Tag("loc"), [Text(url)] + ([Tag("/loc")] + q));
    CleanCons(Tag("sitemap"), [Tag("loc")] + ([Text(url)] + ([Tag("/loc")] + q)));
  }

  lemma {:induction false} ItemsClean(cal: Calendar, files: seq<SitemapFile>, rest: seq<Token>)
    requires cal.Faithful() && Clean(rest)
    ensures Clean(ItemsTokens(cal, files, rest))
  {
    if files != [] {
      ItemsClean(cal, files[1..], rest);
      EscapePlain(SitemapUrl(files[0].filename));
      DatePlain(cal, files[0].lastmod);
      ItemClean(XmlEscape(SitemapUrl(files[0].filename)), cal.write(files[0].lastmod), ItemsTokens(cal, files[1..], rest));
    }
  }

  lemma IndexClean(cal: Calendar, files: seq<SitemapFile>)
    requires cal.Faithful()
    ensures Clean(IndexTokens(cal, files))
  {
    DeclarationPlain();
    SitemapindexPlain();
    var inner := ItemsTokens(cal, files, [Tag("/sitemapindex")]);
    ItemsClean(cal, files, [Tag("/sitemapindex")]);
    CleanCons(Tag(SITEMAPINDEX), inner);
    CleanCons(Tag(XML_DECLARATION), [Tag(SITEMAPINDEX)] + inner);
  }

  lemma ItemRead(url: string, date: string, rest: seq<Token>)
    ensures TokenValues(ItemTokens(url, date, rest), "loc") == [url] + TokenValues(rest, "loc")
  {
    var r := [Tag("/sitemap")] + rest;
    ValuesPast(Tag("/sitemap"), rest, "loc");
    ClosedAs("lastmod");
    ElementPast("lastmod", date, r, "loc");
    var q := [Tag("lastmod")] + ([Text(date)] + ([Tag("/lastmod")] + r));
    ClosedAs("loc");
    ValueRead(url, q, "loc");
    ValuesPast(Tag("sitemap"), [Tag("loc")] + ([Text(url)] + ([Tag("/loc")] + q)), "loc");
  }

  /** The public addresses of some files, escaped. */
  function Addresses(files: seq<SitemapFile>): (r: seq<string>)
    ensures |r| == |files| && forall k | 0 <= k < |files| :: r[k] == XmlEscape(BASE_URL + "/sitemaps/" + files[k].filename)
  {
    if files == [] then [] else [XmlEscape(SitemapUrl(files[0].filename))] + Addresses(files[1..])
  }

  lemma {:induction false} ItemsRead(cal: Calendar, files: seq<SitemapFile>, rest: seq<Token>)
    requires TokenValues(rest, "loc") == []
    ensures TokenValues(ItemsTokens(cal, files, rest), "loc") == Addresses(files)
  {
    if files != [] {
      ItemsRead(cal, files[1..], rest);
      ItemRead(XmlEscape(SitemapUrl(files[0].filename)), cal.write(files[0].lastmod), ItemsTokens(cal, files[1..], rest));
    }
  }

  lemma HeaderSkipped(inner: seq<Token>)
    ensures TokenValues([Tag(XML_DECLARATION)] + ([Tag(SITEMAPINDEX)] + inner), "loc") == TokenValues(inner, "loc")
  {
    NamesDiffer();
    ValuesPast(Tag(SITEMAPINDEX), inner, "loc");
    ValuesPast(Tag(XML_DECLARATION), [Tag(SITEMAPINDEX)] + inner, "loc");
  }

  lemma LastReadsNothing()
    ensures TokenValues([Tag("/sitemapindex")], "loc") == []
  {
    assert [Tag("/sitemapindex")] == [Tag("/sitemapindex")] + [];
    ValuesPast(Tag("/sitemapindex"), [], "loc");
  }

  /** Scanned back, the index gives the address of every file, in order. */
  lemma IndexRead(cal: Calendar, files: seq<SitemapFile>)
    requires cal.Faithful()
    ensures TagValues(IndexFile(cal, files).body, "loc") == Addresses(files)
  {
    TagNamesPlain();
    PrintIndex(cal, files);
    IndexClean(cal, files);
    TagValuesAre(IndexTokens(cal, files), "loc");
    HeaderSkipped(ItemsTokens(cal, files, [Tag("/sitemapindex")]));
    LastReadsNothing();
    ItemsRead(cal, files, [Tag("/sitemapindex")]);
  }

  lemma ItemDateRead(url: string, date: string, rest: seq<Token>)
    ensures TokenValues(ItemTokens(url, date, rest), "lastmod") == [date] + TokenValues(rest, "lastmod")
  {
    var r := [Tag("/sitemap")] + rest;
    ValuesPast(Tag("/sitemap"), rest, "lastmod");
    ClosedAs("lastmod");
    ValueRead(date, r, "lastmod");
    var q := [Tag("lastmod")] + ([Text(date)] + ([Tag("/lastmod")] + r));
    ClosedAs("loc");
    ElementPast("loc", url, q, "lastmod");
    ValuesPast(Tag("sitemap"), [Tag("loc")] + ([Text(url)] + ([Tag("/loc")] + q)), "lastmod");
  }

  /** When each file was last modified, as written. */
  function FileDates(cal: Calendar, files: seq<SitemapFile>): (r: seq<string>)
    ensures |r| == |files| && forall k | 0 <= k < |files| :: r[k] == cal.write(files[k].lastmod)
  {
    if files == [] then [] else [cal.write(files[0].lastmod)] + FileDates(cal, files[1..])
  }

  lemma {:induction false} ItemDatesRead(cal: Calendar, files: seq<SitemapFile>, rest: seq<Token>)
    requires TokenValues(rest, "lastmod") == []
    ensures TokenValues(ItemsTokens(cal, files, rest), "lastmod") == FileDates(cal, files)
    decreases |files|
  {
    if files != [] {
      ItemDatesRead(cal, files[1..], rest);
      ItemDateRead(XmlEscape(SitemapUrl(files[0].filename)), cal.write(files[0].lastmod), ItemsTokens(cal, files[1..], rest));
    }
  }

  lemma HeaderUndated(inner: seq<Token>)
    ensures TokenValues([Tag(XML_DECLARATION)] + ([Tag(SITEMAPINDEX)] + inner), "lastmod") == TokenValues(inner, "lastmod")
    ensures TokenValues([Tag("/sitemapindex")], "lastmod") == []
  {
    NamesDiffer();
    ValuesPast(Tag(SITEMAPINDEX), inner, "lastmod");
    ValuesPast(Tag(XML_DECLARATION), [Tag(SITEMAPINDEX)] + inner, "lastmod");
    assert [Tag("/sitemapindex")] == [Tag("/sitemapindex")] + [];
    ValuesPast(Tag("/sitemapindex"), [], "lastmod");
  }

  /** And when each was last modified, in the same order. */
  lemma IndexDatesRead(cal: Calendar, files: seq<SitemapFile>)
    requires cal.Faithful()
    ensures TagValues(IndexFile(cal, files).body, "lastmod") == FileDates(cal, files)
  {
    TagNamesPlain();
    PrintIndex(cal, files);
    IndexClean(cal, files);
    TagValuesAre(IndexTokens(cal, files), "lastmod");
    HeaderUndated(ItemsTokens(cal, files, [Tag("/sitemapindex")]));
    ItemDatesRead(cal, files, [Tag("/sitemapindex")]);
  }

  // ---- Names of files --------------------------------------------------------------------

  /** No character of a name is escaped, nor a slash. */
  predicate Slug(name: string) {
    '/' !in name && '&' !in name && '<' !in name && '>' !in name
  }

  lemma SlugBoth(a: string, b: string)
    requires Slug(a) && Slug(b)
    ensures Slug(a + b)
  {
  }

  lemma {:induction false} DecimalSlug(n: nat)
    ensures Slug(DecimalNat(n))
  {
    if n >= 10 {
      DecimalSlug(n / 10);
      SlugBoth(DecimalNat(n / 10), [Digit(n % 10)]);
    }
  }

  lemma FilenameSlug(section: string, n: nat)
    requires Slug(section)
    ensures Slug(Filename(section, n))
  {
    var (head, dash, tail) := ("sitemap-", "-", ".xml.gz");
    DecimalSlug(n);
    assert Slug(head) && Slug(dash) && Slug(tail);
    SlugBoth(head, section);
    SlugBoth(head + section, dash);
    SlugBoth(head + section + dash, DecimalNat(n));
    SlugBoth(head + section + dash + DecimalNat(n), tail);
  }

  lemma AfterSlashNext(c: char, s: string)
    requires '/' in s
    ensures AfterSlash([c] + s) == AfterSlash(s)
  {
    assert ([c] + s)[1..] == s;
  }

  lemma AfterSlashFirst(name: string)
    requires '/' !in name
    ensures AfterSlash("/" + name) == name
  {
    assert ("/" + name)[1..] == name;
  }

  lemma SlashWithin(a: string, name: string)
    ensures '/' in a + "/" + name
  {
    assert (a + "/" + name)[|a|] == '/';
  }

  lemma JoinedNext(a: string, name: string)
    requires a != []
    ensures a + "/" + name == [a[0]] + (a[1..] + "/" + name)
  {
  }

  lemma {:induction false} AfterSlashIs(a: string, name: string)
    requires '/' !in name
    ensures AfterSlash(a + "/" + name) == name
  {
    if a == [] {
      AfterSlashFirst(name);
      assert a + "/" + name == "/" + name;
    } else {
      var c := a[0];
      AfterSlashIs(a[1..], name);
      SlashWithin(a[1..], name);
      JoinedNext(a, name);
      AfterSlashNext(c, a[1..] + "/" + name);
    }
  }

  const SITEMAPS_DIR: string := BASE_URL + "/sitemaps"

  lemma UrlIs(filename: string)
    ensures SitemapUrl(filename) == SITEMAPS_DIR + "/" + filename
  {
    assert "/sitemaps/" == "/sitemaps" + "/";
  }

  lemma DirUnchanged()
    ensures Flat(SITEMAPS_DIR, EscapeOne) == SITEMAPS_DIR
  {
    FlatUnchanged(SITEMAPS_DIR, EscapeOne);
  }

  lemma SlashUnchanged()
    ensures Flat("/", EscapeOne) == "/"
  {
    FlatUnchanged("/", EscapeOne);
  }

  lemma AddressUnchanged(dir: string, filename: string)
    requires Slug(filename) && Flat(dir, EscapeOne) == dir
    ensures Flat(dir + "/" + filename, EscapeOne) == dir + "/" + filename
  {
    SlashUnchanged();
    FlatUnchanged(filename, EscapeOne);
    FlatConcat(dir + "/", filename, EscapeOne);
    FlatConcat(dir, "/", EscapeOne);
  }

  /** A file's public address leads back to its name. */
  lemma AddressLeadsBack(filename: string)
    requires Slug(filename)
    ensures AfterSlash(XmlEscape(SitemapUrl(filename))) == filename
  {
    UrlIs(filename);
    XmlEscapeIs(SitemapUrl(filename));
    DirUnchanged();
    AddressUnchanged(SITEMAPS_DIR, filename);
    AfterSlashIs(SITEMAPS_DIR, filename);
  }

  lemma SegmentProduced(subs: seq<SitemapFile>, locs: seq<string>, n: string)
    requires |locs| == |subs| && forall k | 0 <= k < |subs| :: AfterSlash(locs[k]) == subs[k].filename
    requires forall f | f in subs :: f.kind.Gzip?
    requires n in LastSegments(locs)
    ensures n in Produced(subs)
  {
    var l :| l in locs && AfterSlash(l) == n;
    var k :| 0 <= k < |locs| && locs[k] == l;
    assert subs[k] in subs;
  }

  lemma ProducedSegment(subs: seq<SitemapFile>, locs: seq<string>, n: string)
    requires |locs| == |subs| && forall k | 0 <= k < |subs| :: AfterSlash(locs[k]) == subs[k].filename
    requires n in Produced(subs)
    ensures n in LastSegments(locs)
  {
    var f :| f in subs && f.filename == n;
    var k :| 0 <= k < |subs| && subs[k] == f;
    assert locs[k] in locs;
  }

  lemma SegmentsAre(subs: seq<SitemapFile>, locs: seq<string>)
    requires |locs| == |subs| && forall k | 0 <= k < |subs| :: AfterSlash(locs[k]) == subs[k].filename
    requires forall f | f in subs :: f.kind.Gzip?
    ensures LastSegments(locs) == Produced(subs)
  {
    forall n | n in LastSegments(locs) ensures n in Produced(subs) { SegmentProduced(subs, locs, n); }
    forall n | n in Produced(subs) ensures n in LastSegments(locs) { ProducedSegment(subs, locs, n); }
  }

  lemma AddressesLeadBack(subs: seq<SitemapFile>)
    requires forall f | f in subs :: Slug(f.filename)
    ensures forall k | 0 <= k < |subs| :: AfterSlash(Addresses(subs)[k]) == subs[k].filename
  {
    forall k | 0 <= k < |subs| ensures AfterSlash(Addresses(subs)[k]) == subs[k].filename {
      assert subs[k] in subs;
      AddressLeadsBack(subs[k].filename);
    }
  }

  lemma IndexNotProduced(cal: Calendar, subs: seq<SitemapFile>)
    ensures Produced(subs + [IndexFile(cal, subs)]) == Produced(subs)
  {
  }

  /** The index lists the files it was made from, all of them and no other. */
  lemma IndexAgreesWith(cal: Calendar, subs: seq<SitemapFile>)
    requires cal.Faithful()
    requires forall f | f in subs :: f.kind.Gzip? && Slug(f.filename)
    ensures var index := IndexFile(cal, subs); IndexAgrees(subs + [index], index)
  {
    IndexRead(cal, subs);
    AddressesLeadBack(subs);
    SegmentsAre(subs, Addresses(subs));
    IndexNotProduced(cal, subs);
  }
}
