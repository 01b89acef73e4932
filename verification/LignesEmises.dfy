/** What a line says of its channels, and which channels it holds, told from the batch. */
module LignesEmises {
  import opened Ordre
  import opened Annonces
  import opened UnionFind
  import opened Regroupement
  import opened Composantes
  import opened Identites
  import opened Reconciliation
  import opened Garanties

  // ---- The line of a group ----------------------------------------------------------

  predicate AUneAdresse(s: AnnonceBrute) {
    s.urlAvis.Some? || s.urlDce.Some? || s.urlRc.Some?
  }

  /** Where to act, by one channel: its notice, else its documents, else its rules. */
  predicate Adresse(s: AnnonceBrute, u: string) {
    if s.urlAvis.Some? then s.urlAvis == Some(u)
    else if s.urlDce.Some? then s.urlDce == Some(u)
    else s.urlRc == Some(u)
  }

  /** The address of the first channel that has one and only republishes no notice; of the
      first that has one, where all of them do. */
  ghost predicate AdresseDe(ss: seq<AnnonceBrute>, u: string) {
    exists k :: 0 <= k < |ss| && Adresse(ss[k], u) && AUneAdresse(ss[k])
      && (ss[k].moteur == "boamp" ==> forall j | 0 <= j < |ss| && AUneAdresse(ss[j]) :: ss[j].moteur == "boamp")
      && forall j | 0 <= j < k && AUneAdresse(ss[j]) :: (ss[j].moteur == "boamp") != (ss[k].moteur == "boamp")
  }

  /** The earliest publication date, or the day of the run where none is known. */
  ghost predicate DateDe(ss: seq<AnnonceBrute>, d: int, jour: int) {
    if exists s :: s in ss && s.datePublication.Some? then
      && (exists s :: s in ss && s.datePublication == Some(d))
      && forall s | s in ss && s.datePublication.Some? :: d <= s.datePublication.value
    else d == jour
  }

  /** The reference of the first channel that has one. */
  ghost predicate ReferenceDe(ss: seq<AnnonceBrute>, r: Option<string>) {
    if r.None? then forall s | s in ss :: s.reference.None?
    else exists k :: 0 <= k < |ss| && ss[k].reference == r && forall j | 0 <= j < k :: ss[j].reference.None?
  }

  predicate Nomme(ctx: Contexte, s: AnnonceBrute) {
    ctx.rogner(s.objet) != [] && ctx.nommeUnObjet(ctx.rogner(s.objet))
  }

  /** The trimmed object, recast, of the first channel whose object names something; of the
      first that has one, where none does. */
  ghost predicate TitreDe(ctx: Contexte, ss: seq<AnnonceBrute>, t: string) {
    exists k :: 0 <= k < |ss| && ctx.rogner(ss[k].objet) != [] && t == ctx.embellir(ctx.rogner(ss[k].objet))
      && if exists s :: s in ss && Nomme(ctx, s)
         then Nomme(ctx, ss[k]) && forall j | 0 <= j < k :: !Nomme(ctx, ss[j])
         else forall j | 0 <= j < k :: ctx.rogner(ss[j].objet) == []
  }

  ghost predicate LigneDite(ctx: Contexte, a: AnnonceCanonique, jour: int) {
    AdresseDe(a.sources, a.urlAction) && DateDe(a.sources, a.datePublication, jour)
    && ReferenceDe(a.sources, a.reference) && TitreDe(ctx, a.sources, a.titre)
  }

  lemma {:induction false} PremierUrlDit(ss: seq<AnnonceBrute>, boamp: bool)
    ensures match PremierUrl(ss, boamp)
            case None => forall j | 0 <= j < |ss| && AUneAdresse(ss[j]) :: (ss[j].moteur == "boamp") != boamp
            case Some(u) => exists k :: 0 <= k < |ss| && Adresse(ss[k], u) && AUneAdresse(ss[k]) && (ss[k].moteur == "boamp") == boamp
                              && forall j | 0 <= j < k && AUneAdresse(ss[j]) :: (ss[j].moteur == "boamp") != boamp
    decreases |ss|
  {
    if ss != [] && !((ss[0].moteur == "boamp") == boamp && Url(ss[0]).Some?) {
      PremierUrlDit(ss[1..], boamp);
      if PremierUrl(ss[1..], boamp).Some? {
        var u := PremierUrl(ss[1..], boamp).value;
        var k :| 0 <= k < |ss[1..]| && Adresse(ss[1..][k], u) && AUneAdresse(ss[1..][k]) && (ss[1..][k].moteur == "boamp") == boamp
                 && forall j | 0 <= j < k && AUneAdresse(ss[1..][j]) :: (ss[1..][j].moteur == "boamp") != boamp;
        Decale(ss, k);
        assert Adresse(ss[k + 1], u) && AUneAdresse(ss[k + 1]) && (ss[k + 1].moteur == "boamp") == boamp;
      } else {
        forall j | 0 <= j < |ss| && AUneAdresse(ss[j]) ensures (ss[j].moteur == "boamp") != boamp {
          if j > 0 { assert ss[j] == ss[1..][j - 1]; }
        }
      }
    }
  }

  lemma Decale(ss: seq<AnnonceBrute>, k: nat)
    requires k < |ss| - 1
    ensures ss[1..][k] == ss[k + 1] && forall j | 0 < j <= k + 1 :: ss[j] == ss[1..][j - 1]
  {
  }

  lemma AdresseDite(ss: seq<AnnonceBrute>)
    ensures PremierUrl(ss, false).Some? ==> AdresseDe(ss, PremierUrl(ss, false).value)
    ensures PremierUrl(ss, false).None? && PremierUrl(ss, true).Some? ==> AdresseDe(ss, PremierUrl(ss, true).value)
  {
    PremierUrlDit(ss, false);
    PremierUrlDit(ss, true);
  }

  lemma {:induction false} DateMinDit(ss: seq<AnnonceBrute>)
    ensures match DateMin(ss)
            case None => forall s | s in ss :: s.datePublication.None?
            case Some(d) =>
              && (exists s :: s in ss && s.datePublication == Some(d))
              && forall s | s in ss && s.datePublication.Some? :: d <= s.datePublication.value
    decreases |ss|
  {
    if ss != [] {
      DateMinDit(ss[1..]);
      assert ss == [ss[0]] + ss[1..];
      assert ss[0] in ss;
      if s :| s in ss[1..] && s.datePublication == DateMin(ss[1..]) { assert s in ss; }
    }
  }

  lemma {:induction false} PremiereReferenceDite(ss: seq<AnnonceBrute>)
    ensures ReferenceDe(ss, PremiereReference(ss))
    decreases |ss|
  {
    if ss != [] {
      PremiereReferenceDite(ss[1..]);
      assert ss == [ss[0]] + ss[1..];
      if ss[0].reference.None? && PremiereReference(ss[1..]).Some? {
        var k :| 0 <= k < |ss[1..]| && ss[1..][k].reference == PremiereReference(ss[1..]) && forall j | 0 <= j < k :: ss[1..][j].reference.None?;
        Decale(ss, k);
        assert ss[k + 1].reference == PremiereReference(ss);
      }
    }
  }

  /** The first object there is. */
  lemma {:induction false} PremierObjet(ctx: Contexte, ss: seq<AnnonceBrute>) returns (k: nat)
    requires Objets(ctx, ss) != []
    ensures k < |ss| && ctx.rogner(ss[k].objet) == Objets(ctx, ss)[0] != [] && forall j | 0 <= j < k :: ctx.rogner(ss[j].objet) == []
    decreases |ss|
  {
    if ctx.rogner(ss[0].objet) != [] {
      k := 0;
    } else {
      var i := PremierObjet(ctx, ss[1..]);
      Decale(ss, i);
      k := i + 1;
    }
  }

  lemma ObjetsSuivent(ctx: Contexte, ss: seq<AnnonceBrute>, o: string)
    requires ss != [] && o == ctx.rogner(ss[0].objet)
    ensures Objets(ctx, ss) == if o != [] then [o] + Objets(ctx, ss[1..]) else Objets(ctx, ss[1..])
  {
    assert [] + Objets(ctx, ss[1..]) == Objets(ctx, ss[1..]);
  }

  lemma NommantDe(ctx: Contexte, o: string, reste: seq<string>)
    ensures PremierNommant(ctx, [o] + reste) == if ctx.nommeUnObjet(o) then Some(o) else PremierNommant(ctx, reste)
  {
    assert ([o] + reste)[1..] == reste;
  }

  lemma NommantSuit(ctx: Contexte, ss: seq<AnnonceBrute>)
    requires ss != []
    ensures PremierNommant(ctx, Objets(ctx, ss)) ==
            if Nomme(ctx, ss[0]) then Some(ctx.rogner(ss[0].objet)) else PremierNommant(ctx, Objets(ctx, ss[1..]))
  {
    var o := ctx.rogner(ss[0].objet);
    ObjetsSuivent(ctx, ss, o);
    NommantDe(ctx, o, Objets(ctx, ss[1..]));
  }

  /** The first that names something, if one does. */
  lemma {:induction false} PremierQuiNomme(ctx: Contexte, ss: seq<AnnonceBrute>)
    ensures match PremierNommant(ctx, Objets(ctx, ss))
            case None => forall j | 0 <= j < |ss| :: !Nomme(ctx, ss[j])
            case Some(o) =>
              exists k :: 0 <= k < |ss| && Nomme(ctx, ss[k]) && o == ctx.rogner(ss[k].objet) && forall j | 0 <= j < k :: !Nomme(ctx, ss[j])
    decreases |ss|
  {
    if ss != [] {
      NommantSuit(ctx, ss);
      if !Nomme(ctx, ss[0]) {
        PremierQuiNomme(ctx, ss[1..]);
        if PremierNommant(ctx, Objets(ctx, ss[1..])).Some? {
          var o := PremierNommant(ctx, Objets(ctx, ss[1..])).value;
          var k :| 0 <= k < |ss[1..]| && Nomme(ctx, ss[1..][k]) && o == ctx.rogner(ss[1..][k].objet)
                   && forall j | 0 <= j < k :: !Nomme(ctx, ss[1..][j]);
          Decale(ss, k);
          assert Nomme(ctx, ss[k + 1]);
        } else {
          forall j | 0 <= j < |ss| ensures !Nomme(ctx, ss[j]) {
            if j > 0 { assert ss[j] == ss[1..][j - 1]; }
          }
        }
      }
    }
  }

  lemma TitreDit(ctx: Contexte, ss: seq<AnnonceBrute>)
    requires Objets(ctx, ss) != []
    ensures var n := PremierNommant(ctx, Objets(ctx, ss)); TitreDe(ctx, ss, ctx.embellir(if n.Some? then n.value else Objets(ctx, ss)[0]))
  {
    PremierQuiNomme(ctx, ss);
    if PremierNommant(ctx, Objets(ctx, ss)).Some? {
      var k :| 0 <= k < |ss| && Nomme(ctx, ss[k]) && PremierNommant(ctx, Objets(ctx, ss)).value == ctx.rogner(ss[k].objet)
               && forall j | 0 <= j < k :: !Nomme(ctx, ss[j]);
      assert ss[k] in ss;
    } else {
      var k := PremierObjet(ctx, ss);
    }
  }

  /** A group's line says its address, date, reference and title of its channels. */
  lemma FusionnerDit(ctx: Contexte, uid: string, ss: seq<AnnonceBrute>, jour: int)
    requires Fusionner(ctx, uid, ss, jour).Some?
    ensures LigneDite(ctx, Fusionner(ctx, uid, ss, jour).value, jour)
  {
    AdresseDite(ss);
    DateMinDit(ss);
    PremiereReferenceDite(ss);
    TitreDit(ctx, ss);
  }

  lemma {:induction false} LignesFusionnees(ctx: Contexte, rows: seq<AnnonceBrute>, rs: seq<Election>, jour: int, k: nat)
    requires forall k, j | 0 <= k < |rs| && 0 <= j < |rs[k].1| :: rs[k].1[j] < |rows|
    requires Lignes(ctx, rows, rs, jour).Some? && k < |rs|
    ensures |Lignes(ctx, rows, rs, jour).value| == |rs|
    ensures Fusionner(ctx, rs[k].0, Choisir(rows, rs[k].1), jour) == Some(Lignes(ctx, rows, rs, jour).value[k])
    decreases |rs|
  {
    var avant := rs[..|rs|-1];
    assert forall k | 0 <= k < |avant| :: avant[k] == rs[k];
    if k < |avant| {
      LignesFusionnees(ctx, rows, avant, jour, k);
    } else if avant != [] {
      LignesFusionnees(ctx, rows, avant, jour, 0);
    }
  }

  /** So does every line of a result. */
  lemma ChaqueLigneDite(ctx: Contexte, batch: seq<AnnonceBrute>, stock: Stock, jour: int, k: nat)
    requires Canonique(ctx, batch, stock, jour).Some? && k < |Canonique(ctx, batch, stock, jour).value.annonces|
    ensures LigneDite(ctx, Canonique(ctx, batch, stock, jour).value.annonces[k], jour)
  {
    var l := LotDe(ctx, batch, stock);
    ResultatExiste(ctx, batch, stock, jour);
    LignesFusionnees(ctx, l.rows, Repliees(ctx, l), jour, k);
    FusionnerDit(ctx, Repliees(ctx, l)[k].0, Choisir(l.rows, Repliees(ctx, l)[k].1), jour);
  }

  // ---- Which channels are shown ------------------------------------------------------

  lemma {:induction false} SourceDeLigne(ls: seq<AnnonceCanonique>, b: AnnonceBrute)
    ensures b in ToutesSources(ls) <==> exists k :: 0 <= k < |ls| && b in ls[k].sources
    decreases |ls|
  {
    if ls != [] {
      var avant := ls[..|ls|-1];
      SourceDeLigne(avant, b);
      if k :| 0 <= k < |avant| && b in avant[k].sources { assert b in ls[k].sources; }
      if k :| 0 <= k < |ls| && b in ls[k].sources {
        if k < |avant| { assert b in avant[k].sources; }
      }
    }
  }

  /** A channel of the batch is in a line if and only if it has an object and an address and
      is no demonstration; and nothing else is. */
  lemma SourcesSsi(ctx: Contexte, batch: seq<AnnonceBrute>, stock: Stock, jour: int, b: AnnonceBrute)
    ensures Canonique(ctx, batch, stock, jour).Some?
    ensures var ls := Canonique(ctx, batch, stock, jour).value.annonces;
            (exists k :: 0 <= k < |ls| && b in ls[k].sources)
            <==> b in batch && ctx.rogner(b.objet) != [] && AUneAdresse(b)
                 && !ctx.deTest(if b.acheteur.Some? then b.acheteur.value else [], [b.objet, if b.description.Some? then b.description.value else []])
  {
    Conservation(ctx, batch, stock, jour);
    var ls := Canonique(ctx, batch, stock, jour).value.annonces;
    SourceDeLigne(ls, b);
    assert b in ToutesSources(ls) <==> b in multiset(ToutesSources(ls));
    assert b in Filtrer(ctx, batch) <==> b in multiset(Filtrer(ctx, batch));
  }

  // ---- In which order -------------------------------------------------------------------

  function Rang(moteur: string): nat { Position(PRIORITE, moteur) }

  /** `x` may stand before `y`: with a reference where `y` has none, or alike in that and of an
      engine at least as trusted, or of one engine and not after it by its uid. */
  predicate PeutPreceder(x: AnnonceBrute, y: AnnonceBrute) {
    || (x.reference.Some? && y.reference.None?)
    || ((x.reference.Some? <==> y.reference.Some?) &&
        (Rang(x.moteur) < Rang(y.moteur) || (Rang(x.moteur) == Rang(y.moteur) && LexLe(x.sourceUid, y.sourceUid))))
  }

  ghost predicate EnOrdre(ss: seq<AnnonceBrute>) {
    forall i, j | 0 <= i < j < |ss| :: PeutPreceder(ss[i], ss[j])
  }

  lemma {:induction false} FiltrerEnOrdre(ctx: Contexte, rows: seq<AnnonceBrute>)
    requires EnOrdre(rows)
    ensures EnOrdre(Filtrer(ctx, rows))
    decreases |rows|
  {
    if rows != [] {
      FiltrerReste(rows);
      FiltrerEnOrdre(ctx, rows[1..]);
      var reste := Filtrer(ctx, rows[1..]);
      forall j | 0 <= j < |reste| ensures PeutPreceder(rows[0], reste[j]) {
        assert reste[j] in rows[1..];
        var i :| 0 <= i < |rows[1..]| && rows[1..][i] == reste[j];
        assert rows[i + 1] == reste[j];
      }
    }
  }

  lemma FiltrerReste(rows: seq<AnnonceBrute>)
    requires rows != [] && EnOrdre(rows)
    ensures EnOrdre(rows[1..])
  {
  }

  lemma PrepareEnOrdre(ctx: Contexte, batch: seq<AnnonceBrute>)
    ensures EnOrdre(Preparer(ctx, batch))
  {
    AvantEstUnOrdre();
    TrierTrie(AvantOuEgal, batch);
    var rows := Trier(AvantOuEgal, batch);
    forall i, j | 0 <= i < j < |rows| ensures PeutPreceder(rows[i], rows[j]) { assert AvantOuEgal(rows[i], rows[j]); }
    FiltrerEnOrdre(ctx, rows);
  }

  ghost predicate Montante(idx: seq<nat>) {
    forall i, j | 0 <= i < j < |idx| :: idx[i] <= idx[j]
  }

  lemma {:induction false} MembresMontent(rho: seq<nat>, r: nat, n: nat)
    requires n <= |rho|
    ensures Montante(Membres(rho, r, n)) && forall i | i in Membres(rho, r, n) :: i < n && rho[i] == r
    decreases n
  {
    if n > 0 {
      MembresMontent(rho, r, n - 1);
      MembresPas(rho, r, n);
      var avant := Membres(rho, r, n - 1);
      forall k | 0 <= k < |avant| ensures avant[k] < n - 1 { assert avant[k] in avant; }
    }
  }

  /** The indices of each line go up, from the first line's to the last's. */
  ghost predicate Rangees(rs: seq<Election>) {
    && (forall k | 0 <= k < |rs| :: rs[k].1 != [] && Montante(rs[k].1))
    && (forall j, k | 0 <= j < k < |rs| :: rs[j].1[0] <= rs[k].1[0])
  }

  lemma TrierMonte(a: seq<nat>)
    ensures Montante(Trier(Croissant, a)) && |Trier(Croissant, a)| == |a| && forall i :: i in Trier(Croissant, a) <==> i in a
  {
    TrierTrie(Croissant, a);
    TrierPermute(Croissant, a);
    var t := Trier(Croissant, a);
    forall i, j | 0 <= i < j < |t| ensures t[i] <= t[j] { assert Croissant(t[i], t[j]); }
    MemeTaille(t, a);
    forall i ensures i in t <==> i in a { assert i in multiset(t) <==> i in multiset(a); }
  }

  lemma PremierDuTri(a: seq<nat>, b: seq<nat>)
    requires a != [] && Montante(a) && forall i | i in b :: a[0] <= i
    ensures Trier(Croissant, a + b) != [] && Trier(Croissant, a + b)[0] == a[0]
  {
    var t := Trier(Croissant, a + b);
    TrierMonte(a + b);
    assert t[0] in a + b;
    assert a[0] in a + b;
    var k :| 0 <= k < |t| && t[k] == a[0];
    if t[0] in a { var i :| 0 <= i < |a| && a[i] == t[0]; }
  }

  lemma ReplierUnRange(rs: seq<Election>, e: Election)
    requires Rangees(rs) && e.1 != [] && Montante(e.1) && forall k | 0 <= k < |rs| :: rs[k].1[0] <= e.1[0]
    ensures Rangees(ReplierUn(rs, e)) && forall k | 0 <= k < |ReplierUn(rs, e)| :: ReplierUn(rs, e)[k].1[0] <= e.1[0]
  {
    var k := Place(rs, e.0);
    if k < |rs| {
      forall i | i in e.1 ensures rs[k].1[0] <= i { var m :| 0 <= m < |e.1| && e.1[m] == i; }
      PremierDuTri(rs[k].1, e.1);
      TrierMonte(rs[k].1 + e.1);
    }
  }

  ghost predicate Fondees(es: seq<Election>, n: nat) {
    && (forall k | 0 <= k < |es| :: es[k].1 != [] && Montante(es[k].1) && es[k].1[0] < n)
    && (forall j, k | 0 <= j < k < |es| :: es[j].1[0] < es[k].1[0])
  }

  lemma RacinePremiere(rho: seq<nat>, r: nat)
    requires Partition(rho) && r < |rho| && rho[r] == r
    ensures Membres(rho, r, |rho|) != [] && Membres(rho, r, |rho|)[0] == r && Montante(Membres(rho, r, |rho|))
  {
    MembresMontent(rho, r, |rho|);
    MembresDisent(rho, r, |rho|, r);
    var ms := Membres(rho, r, |rho|);
    var k :| 0 <= k < |ms| && ms[k] == r;
    assert ms[0] in ms;
    assert rho[ms[0]] == r && rho[ms[0]] <= ms[0];
  }

  lemma {:induction false} ElectionsFondees(rho: seq<nat>, elus: seq<string>, n: nat)
    requires Partition(rho) && |elus| == |rho| && n <= |rho|
    ensures Fondees(Elections(rho, elus, n), n)
    decreases n
  {
    if n > 0 {
      ElectionsFondees(rho, elus, n - 1);
      if rho[n - 1] == n - 1 { RacinePremiere(rho, n - 1); }
    }
  }

  lemma FondeesReste(es: seq<Election>, n: nat)
    requires es != [] && Fondees(es, n)
    ensures Fondees(es[..|es|-1], es[|es|-1].1[0])
  {
  }

  lemma {:induction false} ReplierRange(es: seq<Election>, n: nat)
    requires Fondees(es, n)
    ensures Rangees(Replier(es)) && forall k | 0 <= k < |Replier(es)| :: Replier(es)[k].1[0] < n
    decreases |es|
  {
    if es != [] {
      FondeesReste(es, n);
      ReplierRange(es[..|es|-1], es[|es|-1].1[0]);
      ReplierUnRange(Replier(es[..|es|-1]), es[|es|-1]);
    }
  }

  lemma RepliesRanges(ctx: Contexte, l: Lot)
    requires l.Valide()
    ensures Rangees(Repliees(ctx, l))
  {
    ElectionsFondees(l.rho, Elus(l, ctx), |l.rho|);
    ReplierRange(Elections(l.rho, Elus(l, ctx), |l.rho|), |l.rho|);
  }

  lemma ChoisisEnOrdre(rows: seq<AnnonceBrute>, ss: seq<AnnonceBrute>, idx: seq<nat>)
    requires EnOrdre(rows) && Montante(idx) && |ss| == |idx| && forall j | 0 <= j < |idx| :: idx[j] < |rows| && ss[j] == rows[idx[j]]
    ensures EnOrdre(ss)
  {
    forall i, j | 0 <= i < j < |ss| ensures PeutPreceder(ss[i], ss[j]) {
      RangsEnOrdre(rows, idx[i], idx[j]);
    }
  }

  lemma RangsEnOrdre(rows: seq<AnnonceBrute>, i: nat, j: nat)
    requires EnOrdre(rows) && i <= j < |rows|
    ensures PeutPreceder(rows[i], rows[j])
  {
    if i == j { LexEstUnOrdre(); assert Total(LexLe); assert LexLe(rows[i].sourceUid, rows[i].sourceUid); }
  }

  /** The channels of a line go in order of trust, and the lines in that of their first channel. */
  lemma LignesEnOrdre(ctx: Contexte, batch: seq<AnnonceBrute>, stock: Stock, jour: int)
    ensures Canonique(ctx, batch, stock, jour).Some?
    ensures var ls := Canonique(ctx, batch, stock, jour).value.annonces;
            && (forall k | 0 <= k < |ls| :: ls[k].sources != [] && EnOrdre(ls[k].sources))
            && (forall j, k | 0 <= j < k < |ls| :: PeutPreceder(ls[j].sources[0], ls[k].sources[0]))
  {
    var l := LotDe(ctx, batch, stock);
    ResultatExiste(ctx, batch, stock, jour);
    Conservation(ctx, batch, stock, jour);
    var (ls, rs) := (Canonique(ctx, batch, stock, jour).value.annonces, Repliees(ctx, l));
    PrepareEnOrdre(ctx, batch);
    RepliesRanges(ctx, l);
    forall k | 0 <= k < |ls| ensures EnOrdre(ls[k].sources) { ChoisisEnOrdre(l.rows, ls[k].sources, rs[k].1); }
    forall j, k | 0 <= j < k < |ls| ensures PeutPreceder(ls[j].sources[0], ls[k].sources[0]) {
      RangsEnOrdre(l.rows, rs[j].1[0], rs[k].1[0]);
    }
  }

  // ---- One line for a group ----------------------------------------------------------------

  lemma MemeUidMemeLigne(ls: seq<AnnonceCanonique>, k: nat, m: nat)
    requires k < |ls| && m < |ls| && ls[k].uid == ls[m].uid && forall j, k | 0 <= j < k < |ls| :: ls[j].uid != ls[k].uid
    ensures k == m
  {
  }

  lemma LignesTenant(ctx: Contexte, l: Lot, ls: seq<AnnonceCanonique>, i: nat, j: nat) returns (k: nat)
    requires l.Valide() && Traduit(ls, Repliees(ctx, l), l.rows) && i < |l.rows| && j < |l.rows| && l.rho[i] == l.rho[j]
    requires forall j, k | 0 <= j < k < |ls| :: ls[j].uid != ls[k].uid
    ensures k < |ls| && l.rows[i] in ls[k].sources && l.rows[j] in ls[k].sources
  {
    k := LigneTenant(ctx, l, ls, i);
    var m := LigneTenant(ctx, l, ls, j);
    UidDeLigne(ctx, l, ls, k, i);
    UidDeLigne(ctx, l, ls, m, j);
    MemeUidMemeLigne(ls, k, m);
  }

  /** Two channels of one group are in one line. */
  lemma GroupeDansUneLigne(ctx: Contexte, batch: seq<AnnonceBrute>, stock: Stock, jour: int, i: nat, j: nat) returns (k: nat)
    requires var rows := Preparer(ctx, batch); i < |rows| && j < |rows| && Classes(ctx, rows)[i] == Classes(ctx, rows)[j]
    ensures Canonique(ctx, batch, stock, jour).Some?
    ensures var (ls, rows) := (Canonique(ctx, batch, stock, jour).value.annonces, Preparer(ctx, batch));
            k < |ls| && rows[i] in ls[k].sources && rows[j] in ls[k].sources
  {
    ResultatExiste(ctx, batch, stock, jour);
    Conservation(ctx, batch, stock, jour);
    k := LignesTenant(ctx, LotDe(ctx, batch, stock), Canonique(ctx, batch, stock, jour).value.annonces, i, j);
  }

  // ---- The uid of a line -----------------------------------------------------------------------

  /** The keys by which group `r` claims `u`: own uids and join keys of its channels, assigned to it. */
  ghost function Revendications(l: Lot, r: nat, u: string): set<string>
    requires |l.rho| == |l.rows|
  {
    set c | c in l.stock && l.stock[c] == u && exists i :: 0 <= i < |l.rows| && l.rho[i] == r && PorteExacte(l.rows[i], c)
  }

  /** Group `r` carries `u` by more keys than any other, or as many as others and first. */
  ghost predicate Emporte(l: Lot, r: nat, u: string)
    requires |l.rho| == |l.rows|
  {
    && r < |l.rho| && l.rho[r] == r && Revendications(l, r, u) != {}
    && forall g | 0 <= g < |l.rho| && l.rho[g] == g && g != r ::
         |Revendications(l, g, u)| < |Revendications(l, r, u)| || (|Revendications(l, g, u)| == |Revendications(l, r, u)| && r < g)
  }

  /** `u` is the uid of group `r`: of those it carries off the one by most keys, the smallest of
      as many; else struck from its first channel. */
  ghost predicate UidDuGroupe(ctx: Contexte, l: Lot, r: nat, u: string)
    requires |l.rho| == |l.rows| && r < |l.rows|
  {
    if exists v :: Emporte(l, r, v) then
      && Emporte(l, r, u)
      && forall v | Emporte(l, r, v) ::
           |Revendications(l, r, v)| < |Revendications(l, r, u)| || (|Revendications(l, r, v)| == |Revendications(l, r, u)| && LexLe(u, v))
    else u == "marche:" + ctx.empreinte("src|" + l.rows[r].sourceUid)
  }

  lemma PorteursEcrits(l: Lot, r: nat, u: string)
    requires |l.rho| == |l.rows|
    ensures l.Porteurs(r, u) == Revendications(l, r, u)
  {
    forall c ensures c in l.Porteurs(r, u) <==> c in Revendications(l, r, u) {
      if c in l.Porteurs(r, u) {
        var i :| 0 <= i < |l.rows| && l.rho[i] == r && c in Cles(l.rows[i]);
        assert PorteExacte(l.rows[i], c);
      }
      if c in Revendications(l, r, u) {
        var i :| 0 <= i < |l.rows| && l.rho[i] == r && PorteExacte(l.rows[i], c);
        assert c in Cles(l.rows[i]);
      }
    }
  }

  lemma EmporteSsi(l: Lot, r: nat, u: string)
    requires |l.rho| == |l.rows|
    ensures Emporte(l, r, u) <==> u in l.Possedes(r)
  {
    forall g: nat ensures l.Poids(g, u) == |Revendications(l, g, u)| { PorteursEcrits(l, g, u); }
    if Emporte(l, r, u) {
      var c :| c in Revendications(l, r, u);
      assert l.stock[c] in l.stock.Values;
      forall g: nat | l.Racine(g) && g != r ensures l.Devance(r, g, u) {}
    }
    if u in l.Possedes(r) {
      assert l.Gagne(r, u) && l.Poids(r, u) > 0;
      forall g: nat | g < |l.rho| && l.rho[g] == g && g != r
        ensures |Revendications(l, g, u)| < |Revendications(l, r, u)| || (|Revendications(l, g, u)| == |Revendications(l, r, u)| && r < g)
      {
        assert l.Racine(g) && l.Devance(r, g, u);
      }
    }
  }

  lemma PremierPrefere(l: Lot, r: nat, v: string)
    requires |l.rho| == |l.rows| && v in l.Classement(r)
    ensures l.Preference(r)(l.Classement(r)[0], v)
  {
    var cs := l.Classement(r);
    PreferenceEstUnOrdre(l, r);
    TrierTrie(l.Preference(r), EnSequence(l.Possedes(r)));
    var k :| 0 <= k < |cs| && cs[k] == v;
    if k > 0 { assert l.Preference(r)(cs[0], cs[k]); } else { PrefereSoi(l, r, v); }
  }

  lemma PrefereSoi(l: Lot, r: nat, v: string)
    requires |l.rho| == |l.rows|
    ensures l.Preference(r)(v, v)
  {
    LexTotal(v, v);
  }

  lemma PrefereDit(l: Lot, r: nat, u: string, v: string)
    requires |l.rho| == |l.rows| && l.Preference(r)(u, v)
    ensures |Revendications(l, r, v)| < |Revendications(l, r, u)| || (|Revendications(l, r, v)| == |Revendications(l, r, u)| && LexLe(u, v))
  {
    PorteursEcrits(l, r, v);
    PorteursEcrits(l, r, u);
    assert l.Poids(r, v) == |Revendications(l, r, v)| && l.Poids(r, u) == |Revendications(l, r, u)|;
    assert l.Poids(r, u) > l.Poids(r, v) || (l.Poids(r, u) == l.Poids(r, v) && LexLe(u, v));
  }

  lemma EluDit(ctx: Contexte, l: Lot, r: nat)
    requires l.Valide() && l.Racine(r)
    ensures UidDuGroupe(ctx, l, r, l.Elu(ctx, r))
  {
    ClassementComplet(l, r);
    forall v ensures Emporte(l, r, v) <==> v in l.Classement(r) { EmporteSsi(l, r, v); }
    if l.Classement(r) != [] {
      assert l.Classement(r)[0] in l.Classement(r);
      forall v | Emporte(l, r, v)
        ensures |Revendications(l, r, v)| < |Revendications(l, r, l.Classement(r)[0])|
                || (|Revendications(l, r, v)| == |Revendications(l, r, l.Classement(r)[0])| && LexLe(l.Classement(r)[0], v))
      {
        PremierPrefere(l, r, v);
        PrefereDit(l, r, l.Classement(r)[0], v);
      }
    }
  }

  lemma UidUnique(ctx: Contexte, l: Lot, r: nat, u: string, v: string)
    requires |l.rho| == |l.rows| && r < |l.rows| && UidDuGroupe(ctx, l, r, u) && UidDuGroupe(ctx, l, r, v)
    ensures u == v
  {
    if Emporte(l, r, u) && Emporte(l, r, v) { LexAntisymetrique(u, v); }
  }


  /** The line that holds a channel bears the uid of its group, told from the batch and the stock. */
  lemma UidDit(ctx: Contexte, batch: seq<AnnonceBrute>, stock: Stock, jour: int, k: nat, i: nat)
    requires Canonique(ctx, batch, stock, jour).Some? && k < |Canonique(ctx, batch, stock, jour).value.annonces|
    requires var rows := Preparer(ctx, batch); i < |rows| && rows[i] in Canonique(ctx, batch, stock, jour).value.annonces[k].sources
    ensures var l := LotDe(ctx, batch, stock); UidDuGroupe(ctx, l, l.rho[i], Canonique(ctx, batch, stock, jour).value.annonces[k].uid)
  {
    var l := LotDe(ctx, batch, stock);
    ResultatExiste(ctx, batch, stock, jour);
    UidDeLigne(ctx, l, Canonique(ctx, batch, stock, jour).value.annonces, k, i);
    assert l.Racine(l.rho[i]);
    EluDit(ctx, l, l.rho[i]);
  }

  /** The merges are, for each group, from every other uid it carries off to its own. */
  lemma FusionsDites(ctx: Contexte, batch: seq<AnnonceBrute>, stock: Stock, jour: int, f: Fusion)
    ensures Canonique(ctx, batch, stock, jour).Some?
    ensures var l := LotDe(ctx, batch, stock);
            f in Canonique(ctx, batch, stock, jour).value.fusions <==>
            exists r :: 0 <= r < |l.rho| && Emporte(l, r, f.ancien) && f.ancien != f.nouveau && UidDuGroupe(ctx, l, r, f.nouveau)
  {
    var l := LotDe(ctx, batch, stock);
    ResultatExiste(ctx, batch, stock, jour);
    FusionsDisent(l, ctx, f);
    if r: nat :| l.Absorbe(r, f.ancien) && l.Elu(ctx, r) == f.nouveau {
      AbsorbeDit(ctx, l, r, f);
    }
    if r :| 0 <= r < |l.rho| && Emporte(l, r, f.ancien) && f.ancien != f.nouveau && UidDuGroupe(ctx, l, r, f.nouveau) {
      EmporteAbsorbe(ctx, l, r, f);
    }
  }

  lemma AbsorbeDit(ctx: Contexte, l: Lot, r: nat, f: Fusion)
    requires l.Valide() && l.Absorbe(r, f.ancien) && l.Elu(ctx, r) == f.nouveau
    ensures Emporte(l, r, f.ancien) && f.ancien != f.nouveau && UidDuGroupe(ctx, l, r, f.nouveau)
  {
    AbsorbePossede(l, r, f.ancien);
    EmporteSsi(l, r, f.ancien);
    EluDit(ctx, l, r);
    ClassementComplet(l, r);
  }

  lemma EmporteAbsorbe(ctx: Contexte, l: Lot, r: nat, f: Fusion)
    requires l.Valide() && r < |l.rho| && Emporte(l, r, f.ancien) && f.ancien != f.nouveau && UidDuGroupe(ctx, l, r, f.nouveau)
    ensures l.Absorbe(r, f.ancien) && l.Elu(ctx, r) == f.nouveau
  {
    EmporteSsi(l, r, f.ancien);
    EluDit(ctx, l, r);
    UidUnique(ctx, l, r, f.nouveau, l.Elu(ctx, r));
    AbsorbeSinonElu(ctx, l, r, f.ancien);
  }

  /** A uid a group keeps is the one it elects, or one it absorbs. */
  lemma AbsorbeSinonElu(ctx: Contexte, l: Lot, r: nat, u: string)
    requires l.Valide() && l.Racine(r) && u in l.Possedes(r)
    ensures l.Elu(ctx, r) == u || l.Absorbe(r, u)
  {
    ClassementComplet(l, r);
    assert u in l.Classement(r);
    assert l.Classement(r) == [l.Classement(r)[0]] + l.Classement(r)[1..];
  }
}
