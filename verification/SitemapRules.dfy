/** The rules of the check, each told from the bytes of the files. */
module SitemapRules {
  import opened Ordre
  import opened Octets
  import opened Sitemap
  import opened SitemapBuild
  import opened SitemapCheck

  /** A compressed file of that name lists that address. */
  ghost predicate Lists(files: seq<SitemapFile>, name: string, loc: string) {
    exists f :: f in files && f.kind.Gzip? && f.filename == name && loc in TagValues(f.body, "loc")
  }

  ghost predicate Dates(files: seq<SitemapFile>, name: string, text: string) {
    exists f :: f in files && f.kind.Gzip? && f.filename == name && text in TagValues(f.body, "lastmod")
  }

  /** At `k`, `s` goes on with `t`. */
  predicate Follows(s: string, k: nat, t: string) {
    k + |t| <= |s| && s[k..k + |t|] == t
  }

  /** An ampersand that begins none of the five entities. */
  predicate BareAmp(s: string, i: nat) {
    i < |s| && s[i] == '&' && !Follows(s, i + 1, "amp;") && !Follows(s, i + 1, "lt;") && !Follows(s, i + 1, "gt;")
    && !Follows(s, i + 1, "quot;") && !Follows(s, i + 1, "apos;")
  }

  lemma FollowsIs(s: string, k: nat, t: string)
    ensures Follows(s, k, t) <==> Occurs(s, t, k)
  {
    if Occurs(s, t, k) { assert s[k..k + |t|] == t; }
    if Follows(s, k, t) { forall i | 0 <= i < |t| ensures s[k + i] == t[i] { assert s[k..k + |t|][i] == t[i]; } }
  }

  lemma BareAmps(s: string, i: nat)
    requires i < |s| && s[i] == '&'
    ensures BareAmp(s, i) <==> !EntityAt(s, i + 1)
  {
    FollowsIs(s, i + 1, "amp;");
    FollowsIs(s, i + 1, "lt;");
    FollowsIs(s, i + 1, "gt;");
    FollowsIs(s, i + 1, "quot;");
    FollowsIs(s, i + 1, "apos;");
  }

  lemma UnescapedAmps(s: string)
    ensures UnescapedAmp(s) <==> exists i: nat :: BareAmp(s, i)
  {
    if i :| 0 <= i < |s| && s[i] == '&' && !EntityAt(s, i + 1) { BareAmps(s, i); }
    if i: nat :| BareAmp(s, i) { BareAmps(s, i); }
  }

  lemma OfLoc(cal: Calendar, today: int, files: seq<SitemapFile>, name: string, loc: string, p: Problem)
    requires p == OffOrigin(name, loc) || p == LocTooLong(name, loc) || p == BadlyEscaped(name, loc)
    ensures Breach(cal, today, files, p) <==> Lists(files, name, loc) && LocBreach(name, loc, p)
  {
    if Breach(cal, today, files, p) {
      var f :| f in files && EntryBreach(cal, today, files, f, p);
      var l :| l in TagValues(f.body, "loc") && LocBreach(f.filename, l, p);
    }
    if Lists(files, name, loc) && LocBreach(name, loc, p) {
      var f :| f in files && f.kind.Gzip? && f.filename == name && loc in TagValues(f.body, "loc");
      assert EntryBreach(cal, today, files, f, p);
    }
  }

  /** An address off the origin. */
  lemma OffOriginSaid(cal: Calendar, today: int, files: seq<SitemapFile>, name: string, loc: string)
    ensures Breach(cal, today, files, OffOrigin(name, loc)) <==> Lists(files, name, loc) && !("https://librejustice.fr" <= loc)
  {
    OfLoc(cal, today, files, name, loc, OffOrigin(name, loc));
  }

  /** One longer than 2048 octets. */
  lemma LocTooLongSaid(cal: Calendar, today: int, files: seq<SitemapFile>, name: string, loc: string)
    ensures Breach(cal, today, files, LocTooLong(name, loc)) <==> Lists(files, name, loc) && |loc| > 2048
  {
    OfLoc(cal, today, files, name, loc, LocTooLong(name, loc));
  }

  /** One with an angle bracket, or an ampersand that no entity follows. */
  lemma BadlyEscapedSaid(cal: Calendar, today: int, files: seq<SitemapFile>, name: string, loc: string)
    ensures Breach(cal, today, files, BadlyEscaped(name, loc)) <==>
            Lists(files, name, loc) && ('<' in loc || '>' in loc || exists i: nat :: BareAmp(loc, i))
  {
    OfLoc(cal, today, files, name, loc, BadlyEscaped(name, loc));
    UnescapedAmps(loc);
  }

  lemma OfFile(cal: Calendar, today: int, files: seq<SitemapFile>, name: string, n: nat, p: Problem)
    requires p == TooLarge(name, n) || p == TooManyUrls(name, n)
    ensures Breach(cal, today, files, p) <==> exists f :: f in files && f.kind.Gzip? && SizeBreach(f, p)
  {
    if Breach(cal, today, files, p) {
      var f :| f in files && EntryBreach(cal, today, files, f, p);
      assert SizeBreach(f, p);
    }
    if f :| f in files && f.kind.Gzip? && SizeBreach(f, p) { assert EntryBreach(cal, today, files, f, p); }
  }

  /** A file over 50 MiB before compression. */
  lemma TooLargeSaid(cal: Calendar, today: int, files: seq<SitemapFile>, name: string, n: nat)
    ensures Breach(cal, today, files, TooLarge(name, n)) <==>
            n > 52_428_800 && exists f :: f in files && f.kind.Gzip? && f.filename == name && |f.body| == n
  {
    OfFile(cal, today, files, name, n, TooLarge(name, n));
    if f :| f in files && f.kind.Gzip? && f.filename == name && |f.body| == n && n > 52_428_800 { assert SizeBreach(f, TooLarge(name, n)); }
  }

  lemma UrlTag()
    ensures Opening("url") == "<url>"
  {
  }

  /** A file of more than 50 000 entries. */
  lemma TooManyUrlsSaid(cal: Calendar, today: int, files: seq<SitemapFile>, name: string, n: nat)
    ensures Breach(cal, today, files, TooManyUrls(name, n)) <==>
            n > 50_000 && exists f :: f in files && f.kind.Gzip? && f.filename == name && Matches(f.body, "<url>") == n
  {
    UrlTag();
    OfFile(cal, today, files, name, n, TooManyUrls(name, n));
    if f :| f in files && f.kind.Gzip? && f.filename == name && Matches(f.body, "<url>") == n && n > 50_000 {
      assert SizeBreach(f, TooManyUrls(name, n));
    }
  }

  lemma OfDate(cal: Calendar, today: int, files: seq<SitemapFile>, name: string, p: Problem)
    requires (p.OutsideWindow? || p.NotADate?) && p.filename == name
    ensures Breach(cal, today, files, p) <==> exists t :: Dates(files, name, t) && DateBreach(cal, today, name, t, p)
  {
    if Breach(cal, today, files, p) {
      var f :| f in files && EntryBreach(cal, today, files, f, p);
      var t :| t in TagValues(f.body, "lastmod") && DateBreach(cal, today, f.filename, t, p);
      assert Dates(files, name, t);
    }
    if t :| Dates(files, name, t) && DateBreach(cal, today, name, t, p) {
      var f :| f in files && f.kind.Gzip? && f.filename == name && t in TagValues(f.body, "lastmod");
      assert EntryBreach(cal, today, files, f, p);
    }
  }

  /** A date before the epoch or after the day of the run. */
  lemma OutsideWindowSaid(cal: Calendar, today: int, files: seq<SitemapFile>, name: string, d: int)
    ensures Breach(cal, today, files, OutsideWindow(name, d)) <==>
            !(0 <= d <= today) && exists t :: Dates(files, name, t) && cal.read(t) == Some(d)
  {
    OfDate(cal, today, files, name, OutsideWindow(name, d));
    if t :| Dates(files, name, t) && cal.read(t) == Some(d) && !(0 <= d <= today) { assert DateBreach(cal, today, name, t, OutsideWindow(name, d)); }
    if t :| Dates(files, name, t) && DateBreach(cal, today, name, t, OutsideWindow(name, d)) { assert cal.read(t) == Some(d); }
  }

  /** A text that is no date. */
  lemma NotADateSaid(cal: Calendar, today: int, files: seq<SitemapFile>, name: string, text: string)
    ensures Breach(cal, today, files, NotADate(name, text)) <==> Dates(files, name, text) && cal.read(text).None?
  {
    OfDate(cal, today, files, name, NotADate(name, text));
    if Dates(files, name, text) && cal.read(text).None? { assert DateBreach(cal, today, name, text, NotADate(name, text)); }
  }

  /** An address that the compressed files list twice. */
  lemma DuplicatedSaid(cal: Calendar, today: int, files: seq<SitemapFile>)
    ensures Breach(cal, today, files, Duplicated) <==> exists i, j :: 0 <= i < j < |AllLocs(files)| && AllLocs(files)[i] == AllLocs(files)[j]
  {
    NotOfFile(cal, today, files);
    TwiceSaid(AllLocs(files));
  }

  lemma NotOfFile(cal: Calendar, today: int, files: seq<SitemapFile>)
    ensures Breach(cal, today, files, Duplicated) <==> !Distinct(AllLocs(files))
  {
    forall f | f in files ensures !EntryBreach(cal, today, files, f, Duplicated) {}
  }

  lemma TwiceSaid(locs: seq<string>)
    ensures !Distinct(locs) <==> exists i, j :: 0 <= i < j < |locs| && locs[i] == locs[j]
  {
  }

  /** `n` is what stands after the last slash of an address the index lists. */
  ghost predicate Named(index: SitemapFile, n: string) {
    exists l :: l in TagValues(index.body, "loc") && AfterSlash(l) == n
  }

  ghost predicate Made(files: seq<SitemapFile>, n: string) {
    exists f :: f in files && f.kind.Gzip? && f.filename == n
  }

  lemma AgreesSaid(files: seq<SitemapFile>, index: SitemapFile)
    ensures IndexAgrees(files, index) <==> forall n :: Named(index, n) <==> Made(files, n)
  {
    var (a, b) := (LastSegments(TagValues(index.body, "loc")), Produced(files));
    forall n ensures (n in a <==> Named(index, n)) && (n in b <==> Made(files, n)) {}
    if forall n :: Named(index, n) <==> Made(files, n) { assert a == b; }
  }

  /** An index that names a file not made, or not one that is. */
  lemma IndexMismatchSaid(cal: Calendar, today: int, files: seq<SitemapFile>)
    ensures Breach(cal, today, files, IndexMismatch) <==>
            exists f, n :: f in files && f.kind.Xml? && (Named(f, n) <==> !Made(files, n))
  {
    if Breach(cal, today, files, IndexMismatch) {
      var f :| f in files && EntryBreach(cal, today, files, f, IndexMismatch);
      AgreesSaid(files, f);
    }
    if f, n :| f in files && f.kind.Xml? && (Named(f, n) <==> !Made(files, n)) {
      AgreesSaid(files, f);
      assert EntryBreach(cal, today, files, f, IndexMismatch);
    }
  }
}
