/** What is published: the addresses of each section from the source's tables,
    the files, the index, and the reading of a file back into its entries. */
module SitemapBuild {
  import opened Ordre
  import opened Octets
  import opened Sitemap

  // ---- Addresses ---------------------------------------------------------------

  /** A jurisdiction hub: years and how many listing pages each has. */
  datatype Hub = Hub(juris: string, code: string, years: seq<(int, int)>)

  datatype NormHub = NormHub(juris: string, fond: string, tokens: seq<(string, int)>)

  datatype Source = Source(
    hubs: seq<Hub>,
    normHubs: seq<NormHub>,
    departements: seq<string>,
    annonces: seq<(string, Option<int>)>,
    texts: seq<(string, string, Option<int>)>,
    referential: seq<(string, string, string, Option<int>)>,
    entities: seq<(string, string, Option<int>)>,
    decisions: seq<(string, Option<int>)>)

  const STATIC_PATHS: seq<string> := [
    "/", "/decision-search", "/norm-search", "/sources", "/decision-index/fr", "/decision-index/eu",
    "/decision-index/intl", "/notice-search", "/notice-index/fr", "/norm-index/fr/codes", "/norm-index/fr/in-force",
    "/entity-search", "/entity-index/fr/entreprises", "/entity-index/fr/personnes-publiques",
    "/entity-index/fr/associations", "/entity-index/fr/cabinets", "/mcp-guide", "/legal-notice", "/privacy"
  ]

  function Lower(c: char): char {
    if 'A' <= c <= 'Z' then (c as int + 32) as char else c
  }

  function UrlSegment(juris: string): string {
    if juris == "UE" then "eu" else Image(Lower, juris)
  }

  function NormPath(juris: string, slug: string): string {
    "/norm/" + UrlSegment(juris) + "/" + slug
  }

  /** The namespaces an entity address exists for; any other is a panic. */
  predicate KnownNamespace(ns: string) {
    ns == "siren" || ns == "rna" || ns == "cnb" || ns == "oacc"
  }

  function EntityPath(ns: string, id: string): string {
    "/entity/fr/" + ns + "/" + id
  }

  function Here(path: string, lastmod: Option<int>): Entry {
    Entry(BASE_URL + path, lastmod)
  }

  /** One address a page of a listing: bare for the first, numbered after. */
  function Paginated(base: string, pages: int): seq<string> {
    [base] + seq(if pages > 1 then pages - 1 else 0, k requires 0 <= k => base + "?page=" + Decimal(k + 2))
  }

  function Dated(paths: seq<string>, today: int): seq<Entry> {
    if paths == [] then [] else [Here(paths[0], Some(today))] + Dated(paths[1..], today)
  }

  function YearPaths(hub: string, years: seq<(int, int)>): seq<string> {
    if years == [] then [] else Paginated(hub + "/" + Decimal(years[0].0), years[0].1) + YearPaths(hub, years[1..])
  }

  function HubPaths(hubs: seq<Hub>): seq<string> {
    if hubs == [] then [] else
    var hub := "/decision-index/" + hubs[0].juris + "/" + hubs[0].code;
    [hub] + YearPaths(hub, hubs[0].years) + HubPaths(hubs[1..])
  }

  function TokenPaths(hub: string, tokens: seq<(string, int)>): seq<string> {
    if tokens == [] then [] else Paginated(hub + "/" + tokens[0].0, tokens[0].1) + TokenPaths(hub, tokens[1..])
  }

  /** The catalogue of norms; a jurisdiction's own page comes before its first
      hub, `last` being the jurisdiction of the hub before. */
  function NormHubPaths(hubs: seq<NormHub>, last: Option<string>): seq<string> {
    if hubs == [] then [] else
    var index := "/norm-index/" + hubs[0].juris;
    var hub := index + "/" + hubs[0].fond;
    (if last != Some(hubs[0].juris) then [index] else []) + [hub] + TokenPaths(hub, hubs[0].tokens) +
    NormHubPaths(hubs[1..], Some(hubs[0].juris))
  }

  function NoticeIndexPaths(codes: seq<string>): seq<string> {
    if codes == [] then [] else ["/notice-index/fr/" + codes[0]] + NoticeIndexPaths(codes[1..])
  }

  function NoticeEntries(annonces: seq<(string, Option<int>)>): seq<Entry> {
    if annonces == [] then [] else [Here("/notice/fr/" + annonces[0].0, annonces[0].1)] + NoticeEntries(annonces[1..])
  }

  function TextEntries(texts: seq<(string, string, Option<int>)>): seq<Entry> {
    if texts == [] then [] else [Here(NormPath(texts[0].1, texts[0].0), texts[0].2)] + TextEntries(texts[1..])
  }

  function ArticleEntries(articles: seq<(string, string, string, Option<int>)>): seq<Entry> {
    if articles == [] then [] else
    [Here(NormPath(articles[0].2, articles[0].0) + "/" + articles[0].1, articles[0].3)] + ArticleEntries(articles[1..])
  }

  function EntityEntries(entities: seq<(string, string, Option<int>)>): seq<Entry> {
    if entities == [] then [] else [Here(EntityPath(entities[0].0, entities[0].1), entities[0].2)] + EntityEntries(entities[1..])
  }

  function DecisionEntries(decisions: seq<(string, Option<int>)>): seq<Entry> {
    if decisions == [] then [] else [Here(decisions[0].0, decisions[0].1)] + DecisionEntries(decisions[1..])
  }

  datatype Section = Section(name: string, entries: seq<Entry>)

  function SevenSections(pages: seq<Entry>, juridictions: seq<Entry>, normes: seq<Entry>, annonces: seq<Entry>,
                         textes: seq<Entry>, entites: seq<Entry>, decisions: seq<Entry>): (r: seq<Section>)
    ensures |r| == 7
  {
    [Section("pages", pages), Section("juridictions", juridictions), Section("normes", normes), Section("annonces", annonces),
     Section("textes", textes), Section("entites", entites), Section("decisions", decisions)]
  }

  /** The seven sections, in the order they are written. */
  function Sections(src: Source, today: int): seq<Section> {
    SevenSections(
      Dated(STATIC_PATHS, today),
      Dated(HubPaths(src.hubs), today),
      Dated(NormHubPaths(src.normHubs, None), today),
      Dated(NoticeIndexPaths(src.departements), today) + NoticeEntries(src.annonces),
      TextEntries(src.texts) + ArticleEntries(src.referential),
      EntityEntries(src.entities),
      DecisionEntries(src.decisions))
  }

  predicate OnOrigin(loc: string) {
    |BASE_URL| <= |loc| && loc[..|BASE_URL|] == BASE_URL
  }

  /** Every address is on the site's own origin. */
  ghost predicate Home(entries: seq<Entry>) {
    forall k | 0 <= k < |entries| :: OnOrigin(entries[k].loc)
  }

  lemma HereHome(path: string, lastmod: Option<int>, entries: seq<Entry>)
    requires Home(entries)
    ensures Home([Here(path, lastmod)] + entries)
  {
    assert Here(path, lastmod).loc[..|BASE_URL|] == BASE_URL;
  }

  lemma {:induction false} DatedHome(paths: seq<string>, today: int)
    ensures Home(Dated(paths, today))
  {
    if paths != [] { DatedHome(paths[1..], today); HereHome(paths[0], Some(today), Dated(paths[1..], today)); }
  }

  lemma {:induction false} NoticesHome(annonces: seq<(string, Option<int>)>)
    ensures Home(NoticeEntries(annonces))
  {
    if annonces != [] { NoticesHome(annonces[1..]); HereHome("/notice/fr/" + annonces[0].0, annonces[0].1, NoticeEntries(annonces[1..])); }
  }

  lemma {:induction false} TextsHome(texts: seq<(string, string, Option<int>)>)
    ensures Home(TextEntries(texts))
  {
    if texts != [] { TextsHome(texts[1..]); HereHome(NormPath(texts[0].1, texts[0].0), texts[0].2, TextEntries(texts[1..])); }
  }

  lemma {:induction false} ArticlesHome(articles: seq<(string, string, string, Option<int>)>)
    ensures Home(ArticleEntries(articles))
  {
    if articles != [] {
      ArticlesHome(articles[1..]);
      HereHome(NormPath(articles[0].2, articles[0].0) + "/" + articles[0].1, articles[0].3, ArticleEntries(articles[1..]));
    }
  }

  lemma {:induction false} EntitiesHome(entities: seq<(string, string, Option<int>)>)
    ensures Home(EntityEntries(entities))
  {
    if entities != [] { EntitiesHome(entities[1..]); HereHome(EntityPath(entities[0].0, entities[0].1), entities[0].2, EntityEntries(entities[1..])); }
  }

  lemma {:induction false} DecisionsHome(decisions: seq<(string, Option<int>)>)
    ensures Home(DecisionEntries(decisions))
  {
    if decisions != [] { DecisionsHome(decisions[1..]); HereHome(decisions[0].0, decisions[0].1, DecisionEntries(decisions[1..])); }
  }

  lemma HomeBoth(a: seq<Entry>, b: seq<Entry>)
    requires Home(a) && Home(b)
    ensures Home(a + b)
  {
  }

  lemma SectionsHome(src: Source, today: int)
    ensures forall k | 0 <= k < |Sections(src, today)| :: Home(Sections(src, today)[k].entries)
  {
    DatedHome(STATIC_PATHS, today);
    DatedHome(HubPaths(src.hubs), today);
    DatedHome(NormHubPaths(src.normHubs, None), today);
    DatedHome(NoticeIndexPaths(src.departements), today);
    NoticesHome(src.annonces);
    HomeBoth(Dated(NoticeIndexPaths(src.departements), today), NoticeEntries(src.annonces));
    TextsHome(src.texts);
    ArticlesHome(src.referential);
    HomeBoth(TextEntries(src.texts), ArticleEntries(src.referential));
    EntitiesHome(src.entities);
    DecisionsHome(src.decisions);
  }

  // ---- Files and index -----------------------------------------------------------

  /** The files of some sections, section after section. */
  function SubFiles(cal: Calendar, sections: seq<Section>, today: int): seq<SitemapFile> {
    if sections == [] then [] else
    var n := |sections| - 1;
    SubFiles(cal, sections[..n], today) + SectionFiles(cal, sections[n].name, today, sections[n].entries)
  }

  function SitemapUrl(filename: string): string {
    BASE_URL + "/sitemaps/" + filename
  }

  function IndexEntry(cal: Calendar, f: SitemapFile): string {
    "<sitemap><loc>" + XmlEscape(SitemapUrl(f.filename)) + "</loc><lastmod>" + cal.write(f.lastmod) + "</lastmod></sitemap>"
  }

  function IndexEntries(cal: Calendar, files: seq<SitemapFile>): seq<string> {
    seq(|files|, k requires 0 <= k < |files| => IndexEntry(cal, files[k]))
  }

  function LatestFile(files: seq<SitemapFile>): Option<int> {
    if files == [] then None else
    var (avant, d) := (LatestFile(files[..|files|-1]), files[|files|-1].lastmod);
    if avant.None? || d > avant.value then Some(d) else avant
  }

  function IndexBody(entries: string): string {
    "<" + XML_DECLARATION + "><" + SITEMAPINDEX + ">" + entries + "</sitemapindex>"
  }

  function IndexFile(cal: Calendar, files: seq<SitemapFile>): SitemapFile {
    var latest := LatestFile(files);
    SitemapFile(SITEMAP_INDEX_NAME, Xml, IndexBody(Concat(IndexEntries(cal, files))),
                if latest.Some? then latest.value else LASTMOD_FLOOR)
  }

  /** What is published: the sections' files, then the index of them. */
  function Published(cal: Calendar, src: Source, today: int): seq<SitemapFile> {
    var subs := SubFiles(cal, Sections(src, today), today);
    subs + [IndexFile(cal, subs)]
  }

  /** The files of one section, pushed entry by entry. */
  method WriteSection(cal: Calendar, section: Section, today: int) returns (files: seq<SitemapFile>)
    ensures files == SectionFiles(cal, section.name, today, section.entries)
  {
    var writer := new SectionWriter(cal, section.name, today);
    for k := 0 to |section.entries|
      invariant writer.Valid() && writer.pushed == section.entries[..k]
    {
      writer.Push(section.entries[k].loc, section.entries[k].lastmod);
      PrefixeGrandit(section.entries, k);
    }
    PrefixWhole(section.entries);
    files := writer.Finish();
  }

  /** The files of every section, one section after another. */
  method BuildSubs(cal: Calendar, sections: seq<Section>, today: int) returns (files: seq<SitemapFile>)
    ensures files == SubFiles(cal, sections, today)
  {
    files := [];
    for k := 0 to |sections|
      invariant files == SubFiles(cal, sections[..k], today)
    {
      var more := WriteSection(cal, sections[k], today);
      assert sections[..k + 1][..k] == sections[..k];
      files := files + more;
    }
    assert sections[..|sections|] == sections;
  }

  lemma PrefixWhole<T>(s: seq<T>)
    ensures s[..|s|] == s
  {
  }

  lemma ConcatGrows(parts: seq<string>, k: nat)
    requires k < |parts|
    ensures Concat(parts[..k + 1]) == Concat(parts[..k]) + parts[k]
  {
    PrefixeGrandit(parts, k);
  }

  lemma LatestFileGrows(files: seq<SitemapFile>, k: nat)
    requires k < |files|
    ensures var (avant, d) := (LatestFile(files[..k]), files[k].lastmod);
            LatestFile(files[..k + 1]) == if avant.None? || d > avant.value then Some(d) else avant
  {
    PrefixeGrandit(files, k);
  }

  /** The entries of the index, and the latest date of its files. */
  method ListFiles(cal: Calendar, files: seq<SitemapFile>) returns (entries: string, latest: Option<int>)
    ensures entries == Concat(IndexEntries(cal, files)) && latest == LatestFile(files)
  {
    ghost var parts := IndexEntries(cal, files);
    entries, latest := "", None;
    for k := 0 to |files|
      invariant entries == Concat(parts[..k]) && latest == LatestFile(files[..k])
    {
      ConcatGrows(parts, k);
      LatestFileGrows(files, k);
      entries := entries + IndexEntry(cal, files[k]);
      if latest.None? || files[k].lastmod > latest.value { latest := Some(files[k].lastmod); }
    }
    assert files[..|files|] == files && parts[..|files|] == parts;
  }

  /** Every file of the sitemap, the index last. */
  method Build(cal: Calendar, src: Source, today: int) returns (files: seq<SitemapFile>)
    requires forall e | e in src.entities :: KnownNamespace(e.0)
    ensures files == Published(cal, src, today)
  {
    files := BuildSubs(cal, Sections(src, today), today);
    var entries, latest := ListFiles(cal, files);
    files := files + [SitemapFile(SITEMAP_INDEX_NAME, Xml, IndexBody(entries), if latest.Some? then latest.value else LASTMOD_FLOOR)];
  }

  // ---- Files as tokens --------------------------------------------------------------

  function LastmodTokens(cal: Calendar, lastmod: Option<int>, rest: seq<Token>): seq<Token> {
    match lastmod
    case Some(d) => [Tag("lastmod")] + ([Text(cal.write(d))] + ([Tag("/lastmod")] + rest))
    case None => rest
  }

  /** An entry's tokens, followed by `rest`. */
  function UrlTokens(cal: Calendar, loc: string, lastmod: Option<int>, rest: seq<Token>): seq<Token> {
    [Tag("url")] + ([Tag("loc")] + ([Text(XmlEscape(loc))] + ([Tag("/loc")] + LastmodTokens(cal, lastmod, [Tag("/url")] + rest))))
  }

  function EntriesTokens(cal: Calendar, entries: seq<Entry>, today: int, rest: seq<Token>): seq<Token> {
    if entries == [] then rest else
    UrlTokens(cal, entries[0].loc, Plausible(entries[0].lastmod, today), EntriesTokens(cal, entries[1..], today, rest))
  }

  function UrlsetTokens(cal: Calendar, entries: seq<Entry>, today: int): seq<Token> {
    [Tag(XML_DECLARATION)] + ([Tag(URLSET)] + EntriesTokens(cal, entries, today, [Tag("/urlset")]))
  }

  lemma PrintCons(t: Token, ts: seq<Token>)
    ensures Print([t] + ts) == PrintOne(t) + Print(ts)
  {
    assert ([t] + ts)[1..] == ts;
  }

  lemma FiveJoined(o: string, d: string, c: string, u: string, r: string)
    ensures o + (d + (c + (u + r))) == o + d + (c + u) + r
  {
  }

  lemma LastmodOpening()
    ensures Opening("lastmod") == "<lastmod>"
  {
  }

  lemma LastmodClosing()
    ensures Opening("/lastmod") == "</lastmod>"
  {
  }

  lemma UrlClosing()
    ensures Opening("/url") == "</url>"
  {
  }

  lemma LastmodTags()
    ensures Opening("lastmod") == "<lastmod>" && Opening("/lastmod") + Opening("/url") == "</lastmod></url>"
  {
    LastmodOpening();
    LastmodClosing();
    UrlClosing();
    assert "</lastmod>" + "</url>" == "</lastmod></url>";
  }

  lemma LastmodText(d: string, r: string)
    ensures Opening("lastmod") + (d + (Opening("/lastmod") + (Opening("/url") + r))) == "<lastmod>" + d + "</lastmod></url>" + r
  {
    LastmodTags();
    FiveJoined(Opening("lastmod"), d, Opening("/lastmod"), Opening("/url"), r);
  }

  lemma LocText(e: string, r: string)
    ensures Opening("url") + (Opening("loc") + (e + (Opening("/loc") + r))) == "<url><loc>" + e + "</loc>" + r
  {
    assert Opening("url") == "<url>" && Opening("loc") == "<loc>" && Opening("/loc") == "</loc>";
  }

  lemma EntryText(e: string, d: string, r: string)
    ensures "<url><loc>" + e + "</loc>" + ("<lastmod>" + d + "</lastmod></url>" + r) == "<url><loc>" + e + "</loc><lastmod>" + d + "</lastmod></url>" + r
    ensures "<url><loc>" + e + "</loc>" + (Opening("/url") + r) == "<url><loc>" + e + "</loc></url>" + r
  {
    assert Opening("/url") == "</url>";
  }

  lemma PrintLastmod(cal: Calendar, lastmod: Option<int>, rest: seq<Token>)
    ensures Print(LastmodTokens(cal, lastmod, [Tag("/url")] + rest)) ==
            (match lastmod
             case Some(d) => "<lastmod>" + cal.write(d) + "</lastmod></url>" + Print(rest)
             case None => Opening("/url") + Print(rest))
  {
    PrintCons(Tag("/url"), rest);
    if lastmod.Some? {
      var (d, r) := (cal.write(lastmod.value), [Tag("/url")] + rest);
      PrintCons(Tag("/lastmod"), r);
      PrintCons(Text(d), [Tag("/lastmod")] + r);
      PrintCons(Tag("lastmod"), [Text(d)] + ([Tag("/lastmod")] + r));
      LastmodText(d, Print(rest));
    }
  }

  lemma PrintUrl(cal: Calendar, loc: string, lastmod: Option<int>, rest: seq<Token>)
    ensures Print(UrlTokens(cal, loc, lastmod, rest)) == FormatUrlEntry(cal, loc, lastmod) + Print(rest)
  {
    var (e, r) := (XmlEscape(loc), LastmodTokens(cal, lastmod, [Tag("/url")] + rest));
    PrintLastmod(cal, lastmod, rest);
    PrintCons(Tag("/loc"), r);
    PrintCons(Text(e), [Tag("/loc")] + r);
    PrintCons(Tag("loc"), [Text(e)] + ([Tag("/loc")] + r));
    PrintCons(Tag("url"), [Tag("loc")] + ([Text(e)] + ([Tag("/loc")] + r)));
    LocText(e, Print(r));
    EntryText(e, if lastmod.Some? then cal.write(lastmod.value) else [], Print(rest));
  }

  lemma {:induction false} ConcatCons(first: string, parts: seq<string>)
    ensures Concat([first] + parts) == first + Concat(parts)
  {
    if parts == [] {
      assert [first] + parts == [first];
      assert [first][..0] == [];
    } else {
      var n := |parts| - 1;
      assert ([first] + parts)[..n + 1] == [first] + parts[..n];
      ConcatCons(first, parts[..n]);
    }
  }

  lemma FormattedCons(cal: Calendar, entries: seq<Entry>, today: int)
    requires entries != []
    ensures Concat(Formatted(cal, entries, today)) ==
            FormatUrlEntry(cal, entries[0].loc, Plausible(entries[0].lastmod, today)) + Concat(Formatted(cal, entries[1..], today))
  {
    var first := FormatUrlEntry(cal, entries[0].loc, Plausible(entries[0].lastmod, today));
    ConcatCons(first, Formatted(cal, entries[1..], today));
    assert Formatted(cal, entries, today) == [first] + Formatted(cal, entries[1..], today);
  }

  lemma {:induction false} PrintEntries(cal: Calendar, entries: seq<Entry>, today: int, rest: seq<Token>)
    ensures Print(EntriesTokens(cal, entries, today, rest)) == Concat(Formatted(cal, entries, today)) + Print(rest)
  {
    if entries == [] {
      assert [] + Print(rest) == Print(rest);
    } else {
      PrintEntries(cal, entries[1..], today, rest);
      PrintUrl(cal, entries[0].loc, Plausible(entries[0].lastmod, today), EntriesTokens(cal, entries[1..], today, rest));
      FormattedCons(cal, entries, today);
      Associe(FormatUrlEntry(cal, entries[0].loc, Plausible(entries[0].lastmod, today)), Concat(Formatted(cal, entries[1..], today)), Print(rest));
    }
  }

  lemma PrintAlone(t: Token)
    ensures Print([t]) == PrintOne(t)
  {
    PrintCons(t, []);
    assert [t] + [] == [t] && PrintOne(t) + [] == PrintOne(t);
  }

  lemma PrintClosing()
    ensures Print([Tag("/urlset")]) == "</urlset>"
  {
    PrintAlone(Tag("/urlset"));
    assert Opening("/urlset") == "</urlset>";
  }

  lemma BodyText(declaration: string, root: string, inside: string, close: string)
    ensures Opening(declaration) + (Opening(root) + (inside + close)) == "<" + declaration + "><" + root + ">" + inside + close
  {
  }

  /** A sitemap's body is its tokens, printed. */
  lemma PrintUrlset(cal: Calendar, entries: seq<Entry>, today: int)
    ensures Print(UrlsetTokens(cal, entries, today)) == UrlsetBody(Formatted(cal, entries, today))
  {
    var inner := EntriesTokens(cal, entries, today, [Tag("/urlset")]);
    PrintEntries(cal, entries, today, [Tag("/urlset")]);
    PrintClosing();
    PrintCons(Tag(URLSET), inner);
    PrintCons(Tag(XML_DECLARATION), [Tag(URLSET)] + inner);
    BodyText(XML_DECLARATION, URLSET, Concat(Formatted(cal, entries, today)), "</urlset>");
  }

  lemma PlainIs(s: string)
    requires '<' !in s && '>' !in s
    ensures Plain(s)
  {
    forall k | 0 <= k < |s| ensures s[k] != '<' && s[k] != '>' { assert s[k] in s; }
  }

  lemma PlainBoth(a: string, b: string)
    requires Plain(a) && Plain(b)
    ensures Plain(a + b)
  {
  }

  lemma DeclarationPlain()
    ensures Plain(XML_DECLARATION)
  {
    PlainIs("?xml version=\"1.0\" ");
    PlainIs("encoding=\"UTF-8\"?");
    PlainBoth("?xml version=\"1.0\" ", "encoding=\"UTF-8\"?");
  }

  lemma SchemaPlain()
    ensures Plain(SCHEMA)
  {
    PlainIs("http://www.sitemaps.org/");
    PlainIs("schemas/sitemap/0.9\"");
    PlainBoth("http://www.sitemaps.org/", "schemas/sitemap/0.9\"");
  }

  lemma UrlsetPlain()
    ensures Plain(URLSET)
  {
    SchemaPlain();
    PlainIs("urlset xmlns=\"");
    PlainBoth("urlset xmlns=\"", SCHEMA);
  }

  lemma SitemapindexPlain()
    ensures Plain(SITEMAPINDEX)
  {
    SchemaPlain();
    PlainIs("sitemapindex xmlns=\"");
    PlainBoth("sitemapindex xmlns=\"", SCHEMA);
  }

  lemma CleanCons(t: Token, ts: seq<Token>)
    requires PlainToken(t) && Clean(ts)
    ensures Clean([t] + ts)
  {
  }

  lemma DatePlain(cal: Calendar, d: int)
    requires cal.Faithful()
    ensures Plain(cal.write(d))
  {
  }

  lemma UrlClean(cal: Calendar, loc: string, lastmod: Option<int>, rest: seq<Token>)
    requires cal.Faithful() && Clean(rest)
    ensures Clean(UrlTokens(cal, loc, lastmod, rest))
  {
    EscapePlain(loc);
    var r := [Tag("/url")] + rest;
    CleanCons(Tag("/url"), rest);
    if lastmod.Some? {
      DatePlain(cal, lastmod.value);
      CleanCons(Tag("/lastmod"), r);
      CleanCons(Text(cal.write(lastmod.value)), [Tag("/lastmod")] + r);
      CleanCons(Tag("lastmod"), [Text(cal.write(lastmod.value))] + ([Tag("/lastmod")] + r));
    }
    var q := LastmodTokens(cal, lastmod, r);
    CleanCons(Tag("/loc"), q);
    CleanCons(Text(XmlEscape(loc)), [Tag("/loc")] + q);
    CleanCons(Tag("loc"), [Text(XmlEscape(loc))] + ([Tag("/loc")] + q));
    CleanCons(Tag("url"), [Tag("loc")] + ([Text(XmlEscape(loc))] + ([Tag("/loc")] + q)));
  }

  lemma {:induction false} EntriesClean(cal: Calendar, entries: seq<Entry>, today: int, rest: seq<Token>)
    requires cal.Faithful() && Clean(rest)
    ensures Clean(EntriesTokens(cal, entries, today, rest))
  {
    if entries != [] {
      EntriesClean(cal, entries[1..], today, rest);
      UrlClean(cal, entries[0].loc, Plausible(entries[0].lastmod, today), EntriesTokens(cal, entries[1..], today, rest));
    }
  }

  lemma UrlsetClean(cal: Calendar, entries: seq<Entry>, today: int)
    requires cal.Faithful()
    ensures Clean(UrlsetTokens(cal, entries, today))
  {
    DeclarationPlain();
    UrlsetPlain();
    EntriesClean(cal, entries, today, [Tag("/urlset")]);
    CleanCons(Tag(URLSET), EntriesTokens(cal, entries, today, [Tag("/urlset")]));
    CleanCons(Tag(XML_DECLARATION), [Tag(URLSET)] + EntriesTokens(cal, entries, today, [Tag("/urlset")]));
  }

  // ---- What the scanner reads ----------------------------------------------------------

  lemma PlaceCons(t: Token, ts: seq<Token>, tag: string)
    ensures Place([t] + ts, tag) == if t == Tag(tag) then 0 else 1 + Place(ts, tag)
  {
    assert ([t] + ts)[1..] == ts;
  }

  /** A token that is not the tag is read past. */
  lemma ValuesPast(t: Token, ts: seq<Token>, tag: string)
    requires t != Tag(tag)
    ensures TokenValues([t] + ts, tag) == TokenValues(ts, tag)
  {
    PlaceCons(t, ts, tag);
    TailShift(t, ts, Place(ts, tag));
  }

  lemma TailShift(t: Token, ts: seq<Token>, k: nat)
    ensures k < |ts| ==> ([t] + ts)[k + 2..] == ts[k + 1..]
  {
  }

  lemma ValueOpens(ts: seq<Token>, tag: string)
    ensures TokenValues([Tag(tag)] + ts, tag) == TokenThen(ts, tag)
  {
    PlaceCons(Tag(tag), ts, tag);
    assert ([Tag(tag)] + ts)[1..] == ts;
  }

  lemma ValueCloses(text: string, ts: seq<Token>, tag: string)
    ensures TokenThen([Text(text)] + ([Tag("/" + tag)] + ts), tag) == [text] + TokenValues(ts, tag)
  {
    var close := "/" + tag;
    var after := [Text(text)] + ([Tag(close)] + ts);
    PlaceCons(Text(text), [Tag(close)] + ts, close);
    PlaceCons(Tag(close), ts, close);
    assert after[..1] == [Text(text)] && after[2..] == ts;
    PrintCons(Text(text), []);
    assert [Text(text)] + [] == [Text(text)];
    assert Print([Text(text)]) == text + [] == text;
    var e := Place(after, close);
    assert e == 1 && |after| > 1;
  }

  /** A tag, a text and the closing tag are a value. */
  lemma ValueRead(text: string, ts: seq<Token>, tag: string)
    ensures TokenValues([Tag(tag)] + ([Text(text)] + ([Tag("/" + tag)] + ts)), tag) == [text] + TokenValues(ts, tag)
  {
    ValueOpens([Text(text)] + ([Tag("/" + tag)] + ts), tag);
    ValueCloses(text, ts, tag);
  }

  /** An element of another name is read past. */
  lemma ElementPast(name: string, text: string, ts: seq<Token>, tag: string)
    requires name != tag && "/" + name != tag
    ensures TokenValues([Tag(name)] + ([Text(text)] + ([Tag("/" + name)] + ts)), tag) == TokenValues(ts, tag)
  {
    ValuesPast(Tag("/" + name), ts, tag);
    ValuesPast(Text(text), [Tag("/" + name)] + ts, tag);
    ValuesPast(Tag(name), [Text(text)] + ([Tag("/" + name)] + ts), tag);
  }

  lemma LocRead(cal: Calendar, loc: string, lastmod: Option<int>, rest: seq<Token>)
    ensures TokenValues(UrlTokens(cal, loc, lastmod, rest), "loc") == [XmlEscape(loc)] + TokenValues(rest, "loc")
  {
    var (e, r) := (XmlEscape(loc), [Tag("/url")] + rest);
    ValuesPast(Tag("/url"), rest, "loc");
    DatePast(cal, lastmod, r);
    var q := LastmodTokens(cal, lastmod, r);
    ClosedAs("loc");
    ValueRead(e, q, "loc");
    ValuesPast(Tag("url"), [Tag("loc")] + ([Text(e)] + ([Tag("/loc")] + q)), "loc");
  }

  lemma ClosedAs(name: string)
    ensures name == "loc" ==> "/" + name == "/loc"
    ensures name == "lastmod" ==> "/" + name == "/lastmod"
  {
  }

  lemma DatePast(cal: Calendar, lastmod: Option<int>, r: seq<Token>)
    ensures TokenValues(LastmodTokens(cal, lastmod, r), "loc") == TokenValues(r, "loc")
  {
    if lastmod.Some? {
      ClosedAs("lastmod");
      ElementPast("lastmod", cal.write(lastmod.value), r, "loc");
    }
  }

  lemma DateRead(cal: Calendar, lastmod: Option<int>, r: seq<Token>)
    ensures TokenValues(LastmodTokens(cal, lastmod, r), "lastmod") ==
            (if lastmod.Some? then [cal.write(lastmod.value)] else []) + TokenValues(r, "lastmod")
  {
    if lastmod.Some? {
      ClosedAs("lastmod");
      ValueRead(cal.write(lastmod.value), r, "lastmod");
    }
  }

  lemma LastmodRead(cal: Calendar, loc: string, lastmod: Option<int>, rest: seq<Token>)
    ensures TokenValues(UrlTokens(cal, loc, lastmod, rest), "lastmod") ==
            (if lastmod.Some? then [cal.write(lastmod.value)] else []) + TokenValues(rest, "lastmod")
  {
    var (e, r) := (XmlEscape(loc), [Tag("/url")] + rest);
    ValuesPast(Tag("/url"), rest, "lastmod");
    DateRead(cal, lastmod, r);
    var q := LastmodTokens(cal, lastmod, r);
    ClosedAs("loc");
    ElementPast("loc", e, q, "lastmod");
    ValuesPast(Tag("url"), [Tag("loc")] + ([Text(e)] + ([Tag("/loc")] + q)), "lastmod");
  }

  function EscapedLocs(entries: seq<Entry>): (r: seq<string>)
    ensures |r| == |entries| && forall k | 0 <= k < |entries| :: r[k] == XmlEscape(entries[k].loc)
  {
    if entries == [] then [] else [XmlEscape(entries[0].loc)] + EscapedLocs(entries[1..])
  }

  function WrittenDates(cal: Calendar, entries: seq<Entry>, today: int): seq<string> {
    if entries == [] then [] else
    (if Plausible(entries[0].lastmod, today).Some? then [cal.write(Plausible(entries[0].lastmod, today).value)] else []) +
    WrittenDates(cal, entries[1..], today)
  }

  lemma {:induction false} LocsRead(cal: Calendar, entries: seq<Entry>, today: int, rest: seq<Token>)
    requires TokenValues(rest, "loc") == []
    ensures TokenValues(EntriesTokens(cal, entries, today, rest), "loc") == EscapedLocs(entries)
  {
    if entries != [] {
      LocsRead(cal, entries[1..], today, rest);
      LocRead(cal, entries[0].loc, Plausible(entries[0].lastmod, today), EntriesTokens(cal, entries[1..], today, rest));
    }
  }

  lemma {:induction false} DatesRead(cal: Calendar, entries: seq<Entry>, today: int, rest: seq<Token>)
    requires TokenValues(rest, "lastmod") == []
    ensures TokenValues(EntriesTokens(cal, entries, today, rest), "lastmod") == WrittenDates(cal, entries, today)
  {
    if entries != [] {
      DatesRead(cal, entries[1..], today, rest);
      LastmodRead(cal, entries[0].loc, Plausible(entries[0].lastmod, today), EntriesTokens(cal, entries[1..], today, rest));
    }
  }

  lemma NamesDiffer()
    ensures |XML_DECLARATION| > 10 && |URLSET| > 10 && |SITEMAPINDEX| > 10
  {
  }

  lemma HeaderPast(inner: seq<Token>, tag: string)
    requires |tag| <= 10
    ensures TokenValues([Tag(XML_DECLARATION)] + ([Tag(URLSET)] + inner), tag) == TokenValues(inner, tag)
  {
    NamesDiffer();
    ValuesPast(Tag(URLSET), inner, tag);
    ValuesPast(Tag(XML_DECLARATION), [Tag(URLSET)] + inner, tag);
  }

  lemma ClosingReadsNothing(tag: string)
    requires tag != "/urlset"
    ensures TokenValues([Tag("/urlset")], tag) == []
  {
    assert [Tag("/urlset")] == [Tag("/urlset")] + [];
    ValuesPast(Tag("/urlset"), [], tag);
  }

  lemma TokensRead(cal: Calendar, entries: seq<Entry>, today: int)
    ensures TokenValues(UrlsetTokens(cal, entries, today), "loc") == EscapedLocs(entries)
    ensures TokenValues(UrlsetTokens(cal, entries, today), "lastmod") == WrittenDates(cal, entries, today)
  {
    var inner := EntriesTokens(cal, entries, today, [Tag("/urlset")]);
    HeaderPast(inner, "loc");
    HeaderPast(inner, "lastmod");
    ClosingReadsNothing("loc");
    ClosingReadsNothing("lastmod");
    LocsRead(cal, entries, today, [Tag("/urlset")]);
    DatesRead(cal, entries, today, [Tag("/urlset")]);
  }

  lemma TagNamesPlain()
    ensures Plain("loc") && Plain("/" + "loc") && Plain("lastmod") && Plain("/" + "lastmod") && Plain("url")
  {
  }

  /** Scanned back, a file gives its addresses escaped and its publishable dates,
      in order, and counts its entries. */
  lemma UrlsetRead(cal: Calendar, entries: seq<Entry>, today: int)
    requires cal.Faithful()
    ensures var body := UrlsetBody(Formatted(cal, entries, today));
            && TagValues(body, "loc") == EscapedLocs(entries)
            && TagValues(body, "lastmod") == WrittenDates(cal, entries, today)
            && Matches(body, Opening("url")) == |entries|
  {
    TagNamesPlain();
    PrintUrlset(cal, entries, today);
    UrlsetClean(cal, entries, today);
    TokensScan(UrlsetTokens(cal, entries, today));
    TokensRead(cal, entries, today);
    UrlsCounted(cal, entries, today);
  }

  lemma TokensScan(ts: seq<Token>)
    requires Clean(ts)
    ensures TagValues(Print(ts), "loc") == TokenValues(ts, "loc")
    ensures TagValues(Print(ts), "lastmod") == TokenValues(ts, "lastmod")
    ensures Matches(Print(ts), Opening("url")) == TagCount(ts, "url")
  {
    TagNamesPlain();
    TagValuesAre(ts, "loc");
    TagValuesAre(ts, "lastmod");
    MatchesAre(ts, "url");
  }

  lemma CountCons(t: Token, ts: seq<Token>, name: string)
    ensures TagCount([t] + ts, name) == (if t == Tag(name) then 1 else 0) + TagCount(ts, name)
  {
    assert ([t] + ts)[1..] == ts;
  }

  lemma UrlCounted(cal: Calendar, loc: string, lastmod: Option<int>, rest: seq<Token>)
    ensures TagCount(UrlTokens(cal, loc, lastmod, rest), "url") == 1 + TagCount(rest, "url")
  {
    var r := [Tag("/url")] + rest;
    CountCons(Tag("/url"), rest, "url");
    if lastmod.Some? {
      var d := Text(cal.write(lastmod.value));
      CountCons(Tag("/lastmod"), r, "url");
      CountCons(d, [Tag("/lastmod")] + r, "url");
      CountCons(Tag("lastmod"), [d] + ([Tag("/lastmod")] + r), "url");
    }
    var (q, e) := (LastmodTokens(cal, lastmod, r), Text(XmlEscape(loc)));
    CountCons(Tag("/loc"), q, "url");
    CountCons(e, [Tag("/loc")] + q, "url");
    CountCons(Tag("loc"), [e] + ([Tag("/loc")] + q), "url");
    CountCons(Tag("url"), [Tag("loc")] + ([e] + ([Tag("/loc")] + q)), "url");
  }

  lemma {:induction false} EntriesCounted(cal: Calendar, entries: seq<Entry>, today: int, rest: seq<Token>)
    ensures TagCount(EntriesTokens(cal, entries, today, rest), "url") == |entries| + TagCount(rest, "url")
  {
    if entries != [] {
      EntriesCounted(cal, entries[1..], today, rest);
      UrlCounted(cal, entries[0].loc, Plausible(entries[0].lastmod, today), EntriesTokens(cal, entries[1..], today, rest));
    }
  }

  lemma UrlsCounted(cal: Calendar, entries: seq<Entry>, today: int)
    ensures TagCount(UrlsetTokens(cal, entries, today), "url") == |entries|
  {
    NamesDiffer();
    var inner := EntriesTokens(cal, entries, today, [Tag("/urlset")]);
    EntriesCounted(cal, entries, today, [Tag("/urlset")]);
    assert [Tag("/urlset")] == [Tag("/urlset")] + [];
    CountCons(Tag("/urlset"), [], "url");
    CountCons(Tag(URLSET), inner, "url");
    CountCons(Tag(XML_DECLARATION), [Tag(URLSET)] + inner, "url");
  }
}
