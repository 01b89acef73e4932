/** Publication: what is built is published exactly when the check finds nothing,
    which the source's own addresses decide. */
module SitemapPublish {
  import opened Ordre
  import opened Sitemap
  import opened SitemapBuild
  import opened SitemapCheck
  import opened SitemapAccepted
  import opened SitemapIndex

  ghost predicate AllFit(cal: Calendar, sections: seq<Section>, today: int) {
    forall s: nat, k: nat | s < |sections| && k < FileCount(|sections[s].entries|) :: Fits(cal, Slice(sections[s].entries, k), today)
  }

  /** What the source owes: no address twice, none too long once escaped, and no
      run of 50 000 entries too large. */
  ghost predicate Publishable(cal: Calendar, sections: seq<Section>, today: int) {
    && Distinct(RawLocs(AllEntries(sections)))
    && AllShort(AllEntries(sections))
    && AllFit(cal, sections, today)
  }

  ghost predicate Sound(sections: seq<Section>) {
    forall s | 0 <= s < |sections| :: Home(sections[s].entries) && Slug(sections[s].name)
  }

  // ---- Entries, sections, slices ------------------------------------------------------

  lemma {:induction false} InAll(sections: seq<Section>, s: nat, e: Entry)
    requires s < |sections| && e in sections[s].entries
    ensures e in AllEntries(sections)
  {
    var n := |sections| - 1;
    if s < n { InAll(sections[..n], s, e); }
  }

  lemma {:induction false} SectionHolding(sections: seq<Section>, e: Entry) returns (s: nat)
    requires e in AllEntries(sections)
    ensures s < |sections| && e in sections[s].entries
  {
    var n := |sections| - 1;
    if e in sections[n].entries { s := n; } else { s := SectionHolding(sections[..n], e); }
  }

  lemma SliceHolding(entries: seq<Entry>, e: Entry) returns (k: nat)
    requires e in entries
    ensures k < FileCount(|entries|) && e in Slice(entries, k)
  {
    var i :| 0 <= i < |entries| && entries[i] == e;
    k := i / MAX_URLS_PER_SITEMAP;
    var from := k * MAX_URLS_PER_SITEMAP;
    assert from <= i < from + MAX_URLS_PER_SITEMAP;
    assert Slice(entries, k)[i - from] == e;
  }

  lemma SliceWithin(entries: seq<Entry>, k: nat)
    requires k < FileCount(|entries|)
    ensures forall e | e in Slice(entries, k) :: e in entries
    ensures Home(entries) ==> Home(Slice(entries, k))
  {
    var from := k * MAX_URLS_PER_SITEMAP;
    forall i | 0 <= i < |Slice(entries, k)| ensures Slice(entries, k)[i] == entries[from + i] {}
  }

  // ---- Both directions ------------------------------------------------------------------

  lemma SliceShort(sections: seq<Section>, s: nat, k: nat)
    requires Sound(sections) && AllShort(AllEntries(sections))
    requires s < |sections| && k < FileCount(|sections[s].entries|)
    ensures AllShort(Slice(sections[s].entries, k)) && Home(Slice(sections[s].entries, k))
  {
    SliceWithin(sections[s].entries, k);
    forall e | e in Slice(sections[s].entries, k) ensures Short(e.loc) { InAll(sections, s, e); }
  }

  ghost predicate SoundPart(cal: Calendar, slice: seq<Entry>, today: int) {
    |slice| <= MAX_URLS_PER_SITEMAP && Home(slice) && AllShort(slice) && Fits(cal, slice, today)
  }

  lemma SlicesSound(cal: Calendar, sections: seq<Section>, today: int, s: nat, k: nat)
    requires Sound(sections) && AllShort(AllEntries(sections)) && AllFit(cal, sections, today)
    requires s < |sections| && k < FileCount(|sections[s].entries|)
    ensures SoundPart(cal, Slice(sections[s].entries, k), today)
  {
    SliceShort(sections, s, k);
  }

  lemma SubSound(cal: Calendar, sections: seq<Section>, today: int, f: SitemapFile, p: Problem)
    requires cal.Faithful() && Sound(sections) && AllShort(AllEntries(sections)) && AllFit(cal, sections, today)
    requires f in SubFiles(cal, sections, today)
    ensures f.kind.Gzip? && !FileBreach(cal, today, f, p)
  {
    var s, k := SubsAre(cal, sections, today, f);
    SlicesSound(cal, sections, today, s, k);
    PartHolds(cal, sections[s], today, f, k, p);
  }

  lemma PartHolds(cal: Calendar, section: Section, today: int, f: SitemapFile, k: nat, p: Problem)
    requires cal.Faithful() && IsPart(cal, section, today, f, k) && SoundPart(cal, Slice(section.entries, k), today)
    ensures f.kind.Gzip? && !FileBreach(cal, today, f, p)
  {
    SoundPartHolds(cal, section.name, today, k + 1, Slice(section.entries, k), p);
  }

  lemma SoundPartHolds(cal: Calendar, section: string, today: int, n: nat, slice: seq<Entry>, p: Problem)
    requires cal.Faithful() && SoundPart(cal, slice, today)
    ensures !FileBreach(cal, today, FileOf(cal, section, today, n, slice), p)
  {
    PartSound(cal, section, today, n, slice, p);
  }

  lemma PartNamed(cal: Calendar, section: Section, today: int, f: SitemapFile, k: nat)
    requires Slug(section.name) && IsPart(cal, section, today, f, k)
    ensures f.kind.Gzip? && Slug(f.filename)
  {
    FilenameSlug(section.name, k + 1);
  }

  lemma SubNamed(cal: Calendar, sections: seq<Section>, today: int, f: SitemapFile)
    requires Sound(sections) && f in SubFiles(cal, sections, today)
    ensures f.kind.Gzip? && Slug(f.filename)
  {
    var s, k := SubsAre(cal, sections, today, f);
    PartNamed(cal, sections[s], today, f, k);
  }

  lemma SubsNamed(cal: Calendar, sections: seq<Section>, today: int)
    requires Sound(sections)
    ensures forall f | f in SubFiles(cal, sections, today) :: f.kind.Gzip? && Slug(f.filename)
  {
    forall f | f in SubFiles(cal, sections, today) ensures f.kind.Gzip? && Slug(f.filename) { SubNamed(cal, sections, today, f); }
  }

  lemma IndexAddsNoLoc(cal: Calendar, subs: seq<SitemapFile>)
    ensures AllLocs(subs + [IndexFile(cal, subs)]) == AllLocs(subs)
  {
    var files := subs + [IndexFile(cal, subs)];
    assert files[..|files| - 1] == subs;
    assert AllLocs(subs) + [] == AllLocs(subs);
  }

  lemma PublishedLocs(cal: Calendar, sections: seq<Section>, today: int)
    requires cal.Faithful()
    ensures var subs := SubFiles(cal, sections, today);
            Distinct(AllLocs(subs + [IndexFile(cal, subs)])) <==> Distinct(RawLocs(AllEntries(sections)))
  {
    IndexAddsNoLoc(cal, SubFiles(cal, sections, today));
    SubLocs(cal, sections, today);
    RepeatsAre(AllEntries(sections));
  }

  lemma NoBreach(cal: Calendar, sections: seq<Section>, today: int, p: Problem)
    requires cal.Faithful() && Sound(sections) && Publishable(cal, sections, today)
    ensures var subs := SubFiles(cal, sections, today); !Breach(cal, today, subs + [IndexFile(cal, subs)], p)
  {
    var subs := SubFiles(cal, sections, today);
    var files := subs + [IndexFile(cal, subs)];
    PublishedLocs(cal, sections, today);
    SubsNamed(cal, sections, today);
    IndexAgreesWith(cal, subs);
    forall f | f in files ensures !EntryBreach(cal, today, files, f, p) {
      if f in subs { SubSound(cal, sections, today, f, p); }
    }
  }

  lemma PartBreaches(cal: Calendar, sections: seq<Section>, today: int, s: nat, k: nat) returns (f: SitemapFile, p: Problem)
    requires cal.Faithful() && Sound(sections) && s < |sections| && k < FileCount(|sections[s].entries|)
    requires !AllShort(Slice(sections[s].entries, k)) || !Fits(cal, Slice(sections[s].entries, k), today)
    ensures f in SubFiles(cal, sections, today) && f.kind.Gzip? && FileBreach(cal, today, f, p)
  {
    var slice := Slice(sections[s].entries, k);
    SliceWithin(sections[s].entries, k);
    p := PartFails(cal, sections[s].name, today, k + 1, slice);
    f := FileOf(cal, sections[s].name, today, k + 1, slice);
    PartsAre(cal, sections, today, f, s, k);
  }

  lemma SomeBreach(cal: Calendar, sections: seq<Section>, today: int) returns (p: Problem)
    requires cal.Faithful() && Sound(sections) && !Publishable(cal, sections, today)
    ensures var subs := SubFiles(cal, sections, today); Breach(cal, today, subs + [IndexFile(cal, subs)], p)
  {
    var subs := SubFiles(cal, sections, today);
    if !Distinct(RawLocs(AllEntries(sections))) {
      PublishedLocs(cal, sections, today);
      p := Duplicated;
    } else {
      var s: nat, k: nat;
      if !AllShort(AllEntries(sections)) {
        var e :| e in AllEntries(sections) && !Short(e.loc);
        s := SectionHolding(sections, e);
        k := SliceHolding(sections[s].entries, e);
      } else {
        s, k :| s < |sections| && k < FileCount(|sections[s].entries|) && !Fits(cal, Slice(sections[s].entries, k), today);
      }
      var f;
      f, p := PartBreaches(cal, sections, today, s, k);
      assert f in subs + [IndexFile(cal, subs)];
      assert EntryBreach(cal, today, subs + [IndexFile(cal, subs)], f, p);
    }
  }

  // ---- Main result ------------------------------------------------------------------------

  lemma SectionsSlug(a: seq<Entry>, b: seq<Entry>, c: seq<Entry>, d: seq<Entry>, e: seq<Entry>, f: seq<Entry>, g: seq<Entry>)
    ensures forall s | 0 <= s < 7 :: Slug(SevenSections(a, b, c, d, e, f, g)[s].name)
  {
    FirstNames();
    LastNames();
  }

  lemma FirstNames()
    ensures Slug("pages") && Slug("juridictions") && Slug("normes") && Slug("annonces")
  {
  }

  lemma LastNames()
    ensures Slug("textes") && Slug("entites") && Slug("decisions")
  {
  }

  lemma SectionsSound(src: Source, today: int)
    ensures Sound(Sections(src, today))
  {
    SectionsHome(src, today);
    SectionsSlug(Dated(STATIC_PATHS, today), Dated(HubPaths(src.hubs), today), Dated(NormHubPaths(src.normHubs, None), today),
      Dated(NoticeIndexPaths(src.departements), today) + NoticeEntries(src.annonces),
      TextEntries(src.texts) + ArticleEntries(src.referential), EntityEntries(src.entities), DecisionEntries(src.decisions));
  }

  /** What is built has no breach if and only if the source's addresses are
      distinct, short enough, and their files small enough. */
  lemma AcceptedIff(cal: Calendar, src: Source, today: int)
    requires cal.Faithful()
    ensures (forall p :: !Breach(cal, today, Published(cal, src, today), p)) <==> Publishable(cal, Sections(src, today), today)
  {
    var sections := Sections(src, today);
    SectionsSound(src, today);
    if Publishable(cal, sections, today) {
      forall p ensures !Breach(cal, today, Published(cal, src, today), p) { NoBreach(cal, sections, today, p); }
    } else {
      var p := SomeBreach(cal, sections, today);
      assert Breach(cal, today, Published(cal, src, today), p);
    }
  }

  /** Builds the files, and hands them over only if the check finds nothing. */
  method BuildSitemaps(cal: Calendar, src: Source, today: int) returns (r: Option<seq<SitemapFile>>)
    requires cal.Faithful()
    requires forall e | e in src.entities :: KnownNamespace(e.0)
    ensures r == if Publishable(cal, Sections(src, today), today) then Some(Published(cal, src, today)) else None
  {
    var files := Build(cal, src, today);
    var problems := Validate(cal, today, files);
    AcceptedIff(cal, src, today);
    if problems == [] {
      assert forall p :: p !in problems;
      r := Some(files);
    } else {
      assert problems[0] in problems;
      r := None;
    }
  }
}
