/** What the sitemap lists: the addresses and dates of each section, entry by entry from the
    source's tables, as they are read back from the files that are published. */
module SitemapSections {
  import opened Ordre
  import opened Octets
  import opened Sitemap
  import opened SitemapBuild
  import opened SitemapCheck

  // ---- Blocks one after another ----------------------------------------------------

  function Flatten<T>(blocks: seq<seq<T>>): seq<T> {
    if blocks == [] then [] else blocks[0] + Flatten(blocks[1..])
  }

  /** What stands before block `i`. */
  function Before<T>(blocks: seq<seq<T>>, i: nat): nat
    requires i <= |blocks|
  {
    if i == 0 then 0 else Before(blocks, i - 1) + |blocks[i - 1]|
  }

  lemma {:induction false} BeforeTail<T>(blocks: seq<seq<T>>, i: nat)
    requires 0 < i <= |blocks|
    ensures Before(blocks, i) == |blocks[0]| + Before(blocks[1..], i - 1)
    decreases i
  {
    if i > 1 { BeforeTail(blocks, i - 1); }
  }

  lemma {:induction false} FlattenAt<T>(blocks: seq<seq<T>>, i: nat, k: nat)
    requires i < |blocks| && k < |blocks[i]|
    ensures Before(blocks, i) + k < |Flatten(blocks)| && Flatten(blocks)[Before(blocks, i) + k] == blocks[i][k]
    decreases i
  {
    if i > 0 {
      FlattenAt(blocks[1..], i - 1, k);
      BeforeTail(blocks, i);
    }
  }

  lemma {:induction false} FlattenIn<T>(blocks: seq<seq<T>>, x: T)
    ensures x in Flatten(blocks) <==> exists i :: 0 <= i < |blocks| && x in blocks[i]
    decreases |blocks|
  {
    if blocks != [] {
      FlattenIn(blocks[1..], x);
      if i :| 0 <= i < |blocks[1..]| && x in blocks[1..][i] { assert x in blocks[i + 1]; }
      if i :| 0 < i < |blocks| && x in blocks[i] { assert x in blocks[1..][i - 1]; }
    }
  }

  // ---- What each table owes ---------------------------------------------------------

  /** How many pages a listing has: one at least. */
  function PageCount(pages: int): nat {
    if pages > 1 then pages else 1
  }

  /** Page `n` of a listing: the first without a number. */
  function PageUrl(base: string, n: int): string {
    if n == 1 then base else base + "?page=" + Decimal(n)
  }

  /** Pages 1 to the last. */
  function Pages(base: string, pages: int): (r: seq<string>)
    ensures |r| == PageCount(pages) && forall n | 1 <= n <= PageCount(pages) :: r[n - 1] == PageUrl(base, n)
  {
    seq(PageCount(pages), n requires 0 <= n => PageUrl(base, n + 1))
  }

  function HubUrl(hub: Hub): string { "/decision-index/" + hub.juris + "/" + hub.code }

  function YearBlocks(base: string, years: seq<(int, int)>): (r: seq<seq<string>>)
    ensures |r| == |years| && forall y | 0 <= y < |years| :: r[y] == Pages(base + "/" + Decimal(years[y].0), years[y].1)
  {
    seq(|years|, y requires 0 <= y < |years| => Pages(base + "/" + Decimal(years[y].0), years[y].1))
  }

  /** A jurisdiction: its own page, then the pages of each of its years. */
  function HubBlocks(hubs: seq<Hub>): (r: seq<seq<string>>)
    ensures |r| == |hubs| && forall h | 0 <= h < |hubs| :: r[h] == [HubUrl(hubs[h])] + Flatten(YearBlocks(HubUrl(hubs[h]), hubs[h].years))
  {
    seq(|hubs|, h requires 0 <= h < |hubs| => [HubUrl(hubs[h])] + Flatten(YearBlocks(HubUrl(hubs[h]), hubs[h].years)))
  }

  function FondUrl(hub: NormHub): string { "/norm-index/" + hub.juris + "/" + hub.fond }

  function TokenBlocks(base: string, tokens: seq<(string, int)>): (r: seq<seq<string>>)
    ensures |r| == |tokens| && forall t | 0 <= t < |tokens| :: r[t] == Pages(base + "/" + tokens[t].0, tokens[t].1)
  {
    seq(|tokens|, t requires 0 <= t < |tokens| => Pages(base + "/" + tokens[t].0, tokens[t].1))
  }

  /** The page of a jurisdiction, before the first of its hubs that follow one another. */
  function OwnPage(juris: string, before: Option<string>): seq<string> {
    if before == Some(juris) then [] else ["/norm-index/" + juris]
  }

  function JurisBefore(hubs: seq<NormHub>, h: nat, last: Option<string>): Option<string>
    requires h < |hubs|
  {
    if h == 0 then last else Some(hubs[h - 1].juris)
  }

  /** A collection of norms: that page where it is due, its own, then those of each of its years. */
  function NormBlocks(hubs: seq<NormHub>, last: Option<string>): (r: seq<seq<string>>)
    ensures |r| == |hubs| && forall h | 0 <= h < |hubs| ::
      r[h] == OwnPage(hubs[h].juris, JurisBefore(hubs, h, last)) + [FondUrl(hubs[h])] + Flatten(TokenBlocks(FondUrl(hubs[h]), hubs[h].tokens))
  {
    seq(|hubs|, h requires 0 <= h < |hubs| =>
      OwnPage(hubs[h].juris, JurisBefore(hubs, h, last)) + [FondUrl(hubs[h])] + Flatten(TokenBlocks(FondUrl(hubs[h]), hubs[h].tokens)))
  }

  function OnTheDay(paths: seq<string>, today: int): (r: seq<Entry>)
    ensures |r| == |paths| && forall k | 0 <= k < |paths| :: r[k] == Entry(BASE_URL + paths[k], Some(today))
  {
    seq(|paths|, k requires 0 <= k < |paths| => Entry(BASE_URL + paths[k], Some(today)))
  }

  function NoticeIndexes(codes: seq<string>, today: int): (r: seq<Entry>)
    ensures |r| == |codes| && forall k | 0 <= k < |codes| :: r[k] == Entry(BASE_URL + "/notice-index/fr/" + codes[k], Some(today))
  {
    seq(|codes|, k requires 0 <= k < |codes| => Entry(BASE_URL + "/notice-index/fr/" + codes[k], Some(today)))
  }

  function Notices(annonces: seq<(string, Option<int>)>): (r: seq<Entry>)
    ensures |r| == |annonces| && forall k | 0 <= k < |annonces| :: r[k] == Entry(BASE_URL + "/notice/fr/" + annonces[k].0, annonces[k].1)
  {
    seq(|annonces|, k requires 0 <= k < |annonces| => Entry(BASE_URL + "/notice/fr/" + annonces[k].0, annonces[k].1))
  }

  /** Slug, jurisdiction, date. */
  function Texts(texts: seq<(string, string, Option<int>)>): (r: seq<Entry>)
    ensures |r| == |texts| && forall k | 0 <= k < |texts| ::
      r[k] == Entry(BASE_URL + "/norm/" + UrlSegment(texts[k].1) + "/" + texts[k].0, texts[k].2)
  {
    seq(|texts|, k requires 0 <= k < |texts| => Entry(BASE_URL + "/norm/" + UrlSegment(texts[k].1) + "/" + texts[k].0, texts[k].2))
  }

  /** Slug, number, jurisdiction, date. */
  function Articles(articles: seq<(string, string, string, Option<int>)>): (r: seq<Entry>)
    ensures |r| == |articles| && forall k | 0 <= k < |articles| ::
      r[k] == Entry(BASE_URL + "/norm/" + UrlSegment(articles[k].2) + "/" + articles[k].0 + "/" + articles[k].1, articles[k].3)
  {
    seq(|articles|, k requires 0 <= k < |articles| =>
      Entry(BASE_URL + "/norm/" + UrlSegment(articles[k].2) + "/" + articles[k].0 + "/" + articles[k].1, articles[k].3))
  }

  function Entities(entities: seq<(string, string, Option<int>)>): (r: seq<Entry>)
    ensures |r| == |entities| && forall k | 0 <= k < |entities| ::
      r[k] == Entry(BASE_URL + "/entity/fr/" + entities[k].0 + "/" + entities[k].1, entities[k].2)
  {
    seq(|entities|, k requires 0 <= k < |entities| =>
      Entry(BASE_URL + "/entity/fr/" + entities[k].0 + "/" + entities[k].1, entities[k].2))
  }

  function Decisions(decisions: seq<(string, Option<int>)>): (r: seq<Entry>)
    ensures |r| == |decisions| && forall k | 0 <= k < |decisions| :: r[k] == Entry(BASE_URL + decisions[k].0, decisions[k].1)
  {
    seq(|decisions|, k requires 0 <= k < |decisions| => Entry(BASE_URL + decisions[k].0, decisions[k].1))
  }

  // ---- The sections are that ---------------------------------------------------------------

  lemma {:induction false} DatedAre(paths: seq<string>, today: int)
    ensures Dated(paths, today) == OnTheDay(paths, today)
    decreases |paths|
  {
    if paths != [] { DatedAre(paths[1..], today); }
  }

  lemma PathJoined(a: string, b: string)
    ensures BASE_URL + (a + b) == BASE_URL + a + b
  {
  }

  lemma {:induction false} NoticeIndexesAre(codes: seq<string>, today: int)
    ensures Dated(NoticeIndexPaths(codes), today) == NoticeIndexes(codes, today)
    decreases |codes|
  {
    if codes != [] {
      NoticeIndexesAre(codes[1..], today);
      PathJoined("/notice-index/fr/", codes[0]);
      assert NoticeIndexPaths(codes)[1..] == NoticeIndexPaths(codes[1..]);
    }
  }

  lemma {:induction false} NoticesAre(annonces: seq<(string, Option<int>)>)
    ensures NoticeEntries(annonces) == Notices(annonces)
    decreases |annonces|
  {
    if annonces != [] {
      NoticesAre(annonces[1..]);
      PathJoined("/notice/fr/", annonces[0].0);
    }
  }

  lemma NormUrl(juris: string, slug: string)
    ensures BASE_URL + NormPath(juris, slug) == BASE_URL + "/norm/" + UrlSegment(juris) + "/" + slug
  {
  }

  lemma {:induction false} TextsAre(texts: seq<(string, string, Option<int>)>)
    ensures TextEntries(texts) == Texts(texts)
    decreases |texts|
  {
    if texts != [] {
      TextsAre(texts[1..]);
      NormUrl(texts[0].1, texts[0].0);
    }
  }

  lemma ArticleUrl(juris: string, slug: string, num: string)
    ensures BASE_URL + (NormPath(juris, slug) + "/" + num) == BASE_URL + "/norm/" + UrlSegment(juris) + "/" + slug + "/" + num
  {
    NormUrl(juris, slug);
    Associe(BASE_URL, NormPath(juris, slug), "/" + num);
    Associe(NormPath(juris, slug), "/", num);
    Associe(BASE_URL + NormPath(juris, slug), "/", num);
  }

  lemma {:induction false} ArticlesAre(articles: seq<(string, string, string, Option<int>)>)
    ensures ArticleEntries(articles) == Articles(articles)
    decreases |articles|
  {
    if articles != [] {
      ArticlesAre(articles[1..]);
      ArticleUrl(articles[0].2, articles[0].0, articles[0].1);
    }
  }

  lemma EntityUrl(ns: string, id: string)
    ensures BASE_URL + EntityPath(ns, id) == BASE_URL + "/entity/fr/" + ns + "/" + id
  {
  }

  lemma {:induction false} EntitiesAre(entities: seq<(string, string, Option<int>)>)
    ensures EntityEntries(entities) == Entities(entities)
    decreases |entities|
  {
    if entities != [] {
      EntitiesAre(entities[1..]);
      EntityUrl(entities[0].0, entities[0].1);
    }
  }

  lemma {:induction false} DecisionsAre(decisions: seq<(string, Option<int>)>)
    ensures DecisionEntries(decisions) == Decisions(decisions)
    decreases |decisions|
  {
    if decisions != [] { DecisionsAre(decisions[1..]); }
  }

  lemma PaginatedIs(base: string, pages: int)
    ensures Paginated(base, pages) == Pages(base, pages)
  {
    forall n: nat | n < |Pages(base, pages)| ensures Paginated(base, pages)[n] == Pages(base, pages)[n] {
      assert Pages(base, pages)[n + 1 - 1] == PageUrl(base, n + 1);
    }
  }

  lemma FlattenCons<T>(block: seq<T>, blocks: seq<seq<T>>)
    ensures Flatten([block] + blocks) == block + Flatten(blocks)
  {
    assert ([block] + blocks)[1..] == blocks;
  }

  lemma YearsTail(base: string, years: seq<(int, int)>)
    requires years != []
    ensures YearBlocks(base, years) == [Pages(base + "/" + Decimal(years[0].0), years[0].1)] + YearBlocks(base, years[1..])
  {
  }

  lemma YearsHead(base: string, years: seq<(int, int)>)
    requires years != []
    ensures YearPaths(base, years) == Pages(base + "/" + Decimal(years[0].0), years[0].1) + YearPaths(base, years[1..])
  {
    PaginatedIs(base + "/" + Decimal(years[0].0), years[0].1);
  }

  lemma {:induction false} YearsAre(base: string, years: seq<(int, int)>)
    ensures YearPaths(base, years) == Flatten(YearBlocks(base, years))
    decreases |years|
  {
    if years != [] {
      YearsAre(base, years[1..]);
      YearsHead(base, years);
      YearsTail(base, years);
      FlattenCons(Pages(base + "/" + Decimal(years[0].0), years[0].1), YearBlocks(base, years[1..]));
    }
  }

  lemma {:induction false} HubsAre(hubs: seq<Hub>)
    ensures HubPaths(hubs) == Flatten(HubBlocks(hubs))
    decreases |hubs|
  {
    if hubs != [] {
      HubsAre(hubs[1..]);
      YearsAre(HubUrl(hubs[0]), hubs[0].years);
      assert HubBlocks(hubs) == [HubBlocks(hubs)[0]] + HubBlocks(hubs[1..]);
      FlattenCons(HubBlocks(hubs)[0], HubBlocks(hubs[1..]));
    }
  }

  lemma {:induction false} TokensAre(base: string, tokens: seq<(string, int)>)
    ensures TokenPaths(base, tokens) == Flatten(TokenBlocks(base, tokens))
    decreases |tokens|
  {
    if tokens != [] {
      TokensAre(base, tokens[1..]);
      PaginatedIs(base + "/" + tokens[0].0, tokens[0].1);
      assert TokenBlocks(base, tokens) == [TokenBlocks(base, tokens)[0]] + TokenBlocks(base, tokens[1..]);
      FlattenCons(TokenBlocks(base, tokens)[0], TokenBlocks(base, tokens[1..]));
    }
  }

  lemma NormBlocksTail(hubs: seq<NormHub>, last: Option<string>)
    requires hubs != []
    ensures NormBlocks(hubs, last) == [NormBlocks(hubs, last)[0]] + NormBlocks(hubs[1..], Some(hubs[0].juris))
  {
    var (a, b) := (NormBlocks(hubs, last), NormBlocks(hubs[1..], Some(hubs[0].juris)));
    forall h | 0 < h < |hubs| ensures a[h] == b[h - 1] {
      assert JurisBefore(hubs, h, last) == JurisBefore(hubs[1..], h - 1, Some(hubs[0].juris));
      assert hubs[1..][h - 1] == hubs[h];
    }
  }

  lemma {:induction false} NormsAre(hubs: seq<NormHub>, last: Option<string>)
    ensures NormHubPaths(hubs, last) == Flatten(NormBlocks(hubs, last))
    decreases |hubs|
  {
    if hubs != [] {
      NormsAre(hubs[1..], Some(hubs[0].juris));
      TokensAre(FondUrl(hubs[0]), hubs[0].tokens);
      NormBlocksTail(hubs, last);
      FlattenCons(NormBlocks(hubs, last)[0], NormBlocks(hubs[1..], Some(hubs[0].juris)));
    }
  }

  /** The seven sections, each its source table, entry by entry. */
  lemma SectionsAre(src: Source, today: int)
    ensures Sections(src, today) == [
      Section("pages", OnTheDay(STATIC_PATHS, today)),
      Section("juridictions", OnTheDay(Flatten(HubBlocks(src.hubs)), today)),
      Section("normes", OnTheDay(Flatten(NormBlocks(src.normHubs, None)), today)),
      Section("annonces", NoticeIndexes(src.departements, today) + Notices(src.annonces)),
      Section("textes", Texts(src.texts) + Articles(src.referential)),
      Section("entites", Entities(src.entities)),
      Section("decisions", Decisions(src.decisions))]
  {
    DatedAre(STATIC_PATHS, today);
    HubsAre(src.hubs);
    DatedAre(HubPaths(src.hubs), today);
    NormsAre(src.normHubs, None);
    DatedAre(NormHubPaths(src.normHubs, None), today);
    NoticeIndexesAre(src.departements, today);
    NoticesAre(src.annonces);
    TextsAre(src.texts);
    ArticlesAre(src.referential);
    EntitiesAre(src.entities);
    DecisionsAre(src.decisions);
  }
}
