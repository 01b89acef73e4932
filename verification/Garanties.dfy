/** What reconciliation guarantees about its whole result, for every batch,
    every stock and every order of the input. */
module Garanties {
  import opened Ordre
  import opened Annonces
  import opened UnionFind
  import opened Identites
  import opened Reconciliation

  // ---- Lines and their channels ------------------------------------------------

  function ToutesSources(ls: seq<AnnonceCanonique>): seq<AnnonceBrute> {
    if ls == [] then [] else ToutesSources(ls[..|ls|-1]) + ls[|ls|-1].sources
  }

  /** Line `k` carries the uid and the channels of election `k`. */
  ghost predicate Traduit(ls: seq<AnnonceCanonique>, rs: seq<Election>, rows: seq<AnnonceBrute>) {
    |ls| == |rs| && forall k | 0 <= k < |rs| ::
      && ls[k].uid == rs[k].0
      && |ls[k].sources| == |rs[k].1|
      && forall j | 0 <= j < |rs[k].1| :: rs[k].1[j] < |rows| && ls[k].sources[j] == rows[rs[k].1[j]]
  }

  lemma SourcesAffichables(ctx: Contexte, rows: seq<AnnonceBrute>, idx: seq<nat>)
    requires forall r | r in rows :: Affichable(ctx, r)
    requires forall j | 0 <= j < |idx| :: idx[j] < |rows|
    ensures forall s | s in Choisir(rows, idx) :: Affichable(ctx, s)
  {
    forall s | s in Choisir(rows, idx) ensures Affichable(ctx, s) { assert s in rows; }
  }

  lemma LigneAjoutee(ctx: Contexte, rows: seq<AnnonceBrute>, rs: seq<Election>, jour: int, ls: seq<AnnonceCanonique>, a: AnnonceCanonique)
    requires rs != [] && forall k, j | 0 <= k < |rs| && 0 <= j < |rs[k].1| :: rs[k].1[j] < |rows|
    requires Traduit(ls, rs[..|rs|-1], rows)
    requires Fusionner(ctx, rs[|rs|-1].0, Choisir(rows, rs[|rs|-1].1), jour) == Some(a)
    ensures Traduit(ls + [a], rs, rows)
  {
  }

  lemma {:induction false} LignesAboutissent(ctx: Contexte, rows: seq<AnnonceBrute>, rs: seq<Election>, jour: int)
    requires forall r | r in rows :: Affichable(ctx, r)
    requires forall k | 0 <= k < |rs| :: rs[k].1 != []
    requires forall k, j | 0 <= k < |rs| && 0 <= j < |rs[k].1| :: rs[k].1[j] < |rows|
    ensures Lignes(ctx, rows, rs, jour).Some? && Traduit(Lignes(ctx, rows, rs, jour).value, rs, rows)
  {
    if rs != [] {
      var (avant, e) := (rs[..|rs|-1], rs[|rs|-1]);
      assert forall k | 0 <= k < |avant| :: avant[k] == rs[k];
      LignesAboutissent(ctx, rows, avant, jour);
      SourcesAffichables(ctx, rows, e.1);
      FusionnerAboutit(ctx, e.0, Choisir(rows, e.1), jour);
      LigneAjoutee(ctx, rows, rs, jour, Lignes(ctx, rows, avant, jour).value, Fusionner(ctx, e.0, Choisir(rows, e.1), jour).value);
    }
  }

  lemma SourcesAjoutees(ls: seq<AnnonceCanonique>, rs: seq<Election>)
    requires ls != [] && rs != []
    ensures ToutesSources(ls) == ToutesSources(ls[..|ls|-1]) + ls[|ls|-1].sources
    ensures Indices(rs) == Indices(rs[..|rs|-1]) + rs[|rs|-1].1
  {
  }

  lemma {:induction false} SourcesDesIndices(ls: seq<AnnonceCanonique>, rs: seq<Election>, rows: seq<AnnonceBrute>)
    requires Traduit(ls, rs, rows)
    ensures |ToutesSources(ls)| == |Indices(rs)|
    ensures forall j | 0 <= j < |Indices(rs)| :: Indices(rs)[j] < |rows| && ToutesSources(ls)[j] == rows[Indices(rs)[j]]
  {
    if rs != [] {
      SourcesDesIndices(ls[..|ls|-1], rs[..|rs|-1], rows);
      SourcesAjoutees(ls, rs);
      var (s, n) := (ls[|ls|-1].sources, |Indices(rs[..|rs|-1])|);
      assert forall j | 0 <= j < |s| :: rs[|rs|-1].1[j] < |rows| && s[j] == rows[rs[|rs|-1].1[j]];
    }
  }

  ghost predicate Bornes(s: seq<nat>, n: nat) {
    forall k | 0 <= k < |s| :: s[k] < n
  }

  function SansUn(b: seq<nat>, i: nat): seq<nat>
    requires i < |b|
  {
    b[..i] + b[i + 1..]
  }

  lemma RetirerUn(rows: seq<AnnonceBrute>, b: seq<nat>, i: nat)
    requires i < |b| && Bornes(b, |rows|)
    ensures Bornes(SansUn(b, i), |rows|) && |SansUn(b, i)| == |b| - 1
    ensures multiset(b) == multiset(SansUn(b, i)) + multiset([b[i]])
    ensures multiset(Choisir(rows, b)) == multiset(Choisir(rows, SansUn(b, i))) + multiset([rows[b[i]]])
  {
    var (avant, apres) := (b[..i], b[i + 1..]);
    assert b == avant + [b[i]] + apres;
    CompterMilieu(avant, b[i], apres);
    ChoisirMilieu(rows, avant, b[i], apres);
    CompterMilieu(Choisir(rows, avant), rows[b[i]], Choisir(rows, apres));
  }

  lemma CompterMilieu<T>(a: seq<T>, x: T, b: seq<T>)
    ensures multiset(a + [x] + b) == multiset(a + b) + multiset([x])
  {
  }

  lemma ChoisirMilieu(rows: seq<AnnonceBrute>, a: seq<nat>, x: nat, b: seq<nat>)
    requires Bornes(a, |rows|) && x < |rows| && Bornes(b, |rows|)
    ensures Bornes(a + b, |rows|) && Choisir(rows, a + b) == Choisir(rows, a) + Choisir(rows, b)
    ensures Bornes(a + [x] + b, |rows|) && Choisir(rows, a + [x] + b) == Choisir(rows, a) + [rows[x]] + Choisir(rows, b)
  {
  }

  /** Rearranging indices rearranges what they select. */
  lemma {:induction false} ChoisirPermute(rows: seq<AnnonceBrute>, a: seq<nat>, b: seq<nat>)
    requires multiset(a) == multiset(b) && Bornes(a, |rows|) && Bornes(b, |rows|)
    ensures multiset(Choisir(rows, a)) == multiset(Choisir(rows, b))
    decreases |a|
  {
    MemeTaille(a, b);
    if a != [] {
      assert a[0] in multiset(b);
      var i :| 0 <= i < |b| && b[i] == a[0];
      RetirerUn(rows, b, i);
      RetirerUn(rows, a, 0);
      Retrait(multiset(SansUn(a, 0)), multiset(SansUn(b, i)), a[0]);
      ChoisirPermute(rows, SansUn(a, 0), SansUn(b, i));
    }
  }

  lemma PreparerFiltre(ctx: Contexte, batch: seq<AnnonceBrute>)
    ensures multiset(Preparer(ctx, batch)) == multiset(Filtrer(ctx, batch))
    ensures forall r :: r in Preparer(ctx, batch) <==> r in batch && Affichable(ctx, r)
  {
    TrierPermute(AvantOuEgal, batch);
    FiltrerMultiset(ctx, batch);
    FiltrerMultiset(ctx, Trier(AvantOuEgal, batch));
    forall r ensures r in Trier(AvantOuEgal, batch) <==> r in batch {
      assert r in multiset(Trier(AvantOuEgal, batch)) <==> r in multiset(batch);
    }
  }

  /** The result always exists, and its lines carry the elections. */
  lemma ResultatExiste(ctx: Contexte, batch: seq<AnnonceBrute>, stock: Stock, jour: int)
    ensures var c := Canonique(ctx, batch, stock, jour);
            var l := LotDe(ctx, batch, stock);
            c.Some? && Traduit(c.value.annonces, Repliees(ctx, l), l.rows) && c.value.fusions == FusionsDuLot(ctx, l)
  {
    var l := LotDe(ctx, batch, stock);
    PreparerFiltre(ctx, batch);
    LignesAboutissent(ctx, l.rows, Repliees(ctx, l), jour);
  }

  /** No panic, no channel lost or repeated, no two lines of one uid. */
  lemma Conservation(ctx: Contexte, batch: seq<AnnonceBrute>, stock: Stock, jour: int)
    ensures Canonique(ctx, batch, stock, jour).Some?
    ensures var ls := Canonique(ctx, batch, stock, jour).value.annonces;
            && multiset(ToutesSources(ls)) == multiset(Filtrer(ctx, batch))
            && (forall j, k | 0 <= j < k < |ls| :: ls[j].uid != ls[k].uid)
            && (forall k | 0 <= k < |ls| :: ls[k].sources != [])
  {
    ResultatExiste(ctx, batch, stock, jour);
    var l := LotDe(ctx, batch, stock);
    var (ls, rs) := (Canonique(ctx, batch, stock, jour).value.annonces, Repliees(ctx, l));
    SourcesDesIndices(ls, rs, l.rows);
    assert ToutesSources(ls) == Choisir(l.rows, Indices(rs));
    ToutesChoisies(l.rows, Indices(rs));
    PreparerFiltre(ctx, batch);
  }

  lemma ToutesChoisies(rows: seq<AnnonceBrute>, idx: seq<nat>)
    requires multiset(idx) == multiset(Discrete(|rows|)) && Bornes(idx, |rows|)
    ensures multiset(Choisir(rows, idx)) == multiset(rows)
  {
    ChoisirPermute(rows, idx, Discrete(|rows|));
    assert Choisir(rows, Discrete(|rows|)) == rows;
  }

  /** Where one uid names one channel, the result is the same for every order
      of the batch. */
  lemma OrdreIndifferent(ctx: Contexte, a: seq<AnnonceBrute>, b: seq<AnnonceBrute>, stock: Stock, jour: int)
    requires multiset(a) == multiset(b)
    requires forall x, y | x in a && y in a && x.sourceUid == y.sourceUid :: x == y
    ensures Canonique(ctx, a, stock, jour) == Canonique(ctx, b, stock, jour)
  {
    AvantEstUnOrdre();
    TrierIgnoreOrdre(AvantOuEgal, a, b);
  }

  // ---- Uids and merges -------------------------------------------------------------

  lemma {:induction false} ElectionsUids(rho: seq<nat>, elus: seq<string>, n: nat)
    requires |elus| == |rho| && n <= |rho|
    ensures forall u :: u in Uids(Elections(rho, elus, n)) <==> exists r :: 0 <= r < n && rho[r] == r && elus[r] == u
  {
    if n > 0 {
      ElectionsUids(rho, elus, n - 1);
      var (avant, es) := (Elections(rho, elus, n - 1), Elections(rho, elus, n));
      forall u ensures u in Uids(es) <==> u in Uids(avant) || (rho[n - 1] == n - 1 && elus[n - 1] == u) {
        if u in Uids(avant) {
          var k :| 0 <= k < |avant| && avant[k].0 == u;
          assert es[k].0 == u;
        }
        if rho[n - 1] == n - 1 { assert es[|avant|].0 == elus[n - 1]; }
        if u in Uids(es) {
          var k :| 0 <= k < |es| && es[k].0 == u;
          if k < |avant| { assert avant[k].0 == u; }
        }
      }
    }
  }

  /** The uids of the lines are those the groups elect. */
  lemma UidsEmis(ctx: Contexte, l: Lot, u: string)
    requires l.Valide()
    ensures u in Uids(Repliees(ctx, l)) <==> exists r: nat :: l.Racine(r) && l.Elu(ctx, r) == u
  {
    var elus := Elus(l, ctx);
    ElectionsNonVides(l.rho, elus, |l.rho|);
    ReplierConserve(Elections(l.rho, elus, |l.rho|));
    ElectionsUids(l.rho, elus, |l.rho|);
    if r: nat :| l.Racine(r) && l.Elu(ctx, r) == u { assert elus[r] == u; }
  }

  /** `f` merges a uid the root `r` keeps, but not its first, into its elected one. */
  ghost predicate FusionDe(rho: seq<nat>, cs: seq<seq<string>>, elus: seq<string>, r: nat, f: Fusion)
    requires |cs| == |elus| == |rho|
  {
    r < |rho| && rho[r] == r && cs[r] != [] && f.ancien in cs[r][1..] && f.nouveau == elus[r]
  }

  lemma FusionsDeDisent(cs: seq<string>, elu: string, f: Fusion)
    ensures f in FusionsDe(cs, elu) <==> cs != [] && f.ancien in cs[1..] && f.nouveau == elu
  {
    if cs != [] && f.ancien in cs[1..] && f.nouveau == elu {
      var k :| 0 <= k < |cs[1..]| && cs[1..][k] == f.ancien;
      assert VersElu(cs[1..], elu)[k] == f;
    }
  }

  lemma {:induction false} FusionsListees(rho: seq<nat>, cs: seq<seq<string>>, elus: seq<string>, n: nat, f: Fusion)
    requires |cs| == |elus| == |rho| && n <= |rho|
    ensures f in Fusions(rho, cs, elus, n) <==> exists r: nat :: r < n && FusionDe(rho, cs, elus, r, f)
  {
    if n > 0 {
      FusionsListees(rho, cs, elus, n - 1, f);
      FusionsDeDisent(cs[n - 1], elus[n - 1], f);
      if f in Fusions(rho, cs, elus, n) && f !in Fusions(rho, cs, elus, n - 1) {
        assert FusionDe(rho, cs, elus, n - 1, f);
      }
    }
  }

  lemma FusionsDisent(l: Lot, ctx: Contexte, f: Fusion)
    requires l.Valide()
    ensures f in FusionsDuLot(ctx, l) <==> exists r: nat :: l.Absorbe(r, f.ancien) && l.Elu(ctx, r) == f.nouveau
  {
    FusionsListees(l.rho, Classements(l), Elus(l, ctx), |l.rho|, f);
    if r: nat :| l.Absorbe(r, f.ancien) && l.Elu(ctx, r) == f.nouveau {
      assert FusionDe(l.rho, Classements(l), Elus(l, ctx), r, f);
    }
  }

  lemma {:induction false} AnciensListes(rho: seq<nat>, cs: seq<seq<string>>, elus: seq<string>, n: nat)
    requires |cs| == |elus| == |rho| && n <= |rho|
    requires forall r, i, j | 0 <= r < n && 0 <= i < j < |cs[r]| :: cs[r][i] != cs[r][j]
    requires forall r, s, u | 0 <= r < n && 0 <= s < n && rho[r] == r && rho[s] == s && u in cs[r] && u in cs[s] :: r == s
    ensures forall j, k | 0 <= j < k < |Fusions(rho, cs, elus, n)| ::
              Fusions(rho, cs, elus, n)[j].ancien != Fusions(rho, cs, elus, n)[k].ancien
  {
    if n > 0 {
      AnciensListes(rho, cs, elus, n - 1);
      var (avant, fs, d) := (Fusions(rho, cs, elus, n - 1), Fusions(rho, cs, elus, n), FusionsDe(cs[n - 1], elus[n - 1]));
      forall j, k | 0 <= j < k < |fs| ensures fs[j].ancien != fs[k].ancien {
        if j < |avant| <= k {
          assert fs[j] in avant && fs[k] in d;
          FusionsListees(rho, cs, elus, n - 1, fs[j]);
          FusionsDeDisent(cs[n - 1], elus[n - 1], fs[k]);
          var r: nat :| r < n - 1 && FusionDe(rho, cs, elus, r, fs[j]);
          assert fs[j].ancien in cs[r] && fs[k].ancien in cs[n - 1];
        } else if |avant| <= j {
          assert fs[j] == d[j - |avant|] && fs[k] == d[k - |avant|];
        }
      }
    }
  }

  lemma AnciensDistincts(l: Lot, ctx: Contexte)
    requires l.Valide()
    ensures forall j, k | 0 <= j < k < |FusionsDuLot(ctx, l)| :: FusionsDuLot(ctx, l)[j].ancien != FusionsDuLot(ctx, l)[k].ancien
  {
    var cs := Classements(l);
    forall r | 0 <= r < |l.rho| ensures forall i, j | 0 <= i < j < |cs[r]| :: cs[r][i] != cs[r][j] { ClassementComplet(l, r); }
    forall r, s, u | 0 <= r < |l.rho| && 0 <= s < |l.rho| && u in cs[r] && u in cs[s] ensures r == s {
      ClassementComplet(l, r);
      ClassementComplet(l, s);
      GagnantUnique(l, r, s, u);
    }
    AnciensListes(l.rho, cs, Elus(l, ctx), |l.rho|);
  }

  ghost predicate Emis(c: Canonicalisation, u: string) {
    exists k :: 0 <= k < |c.annonces| && c.annonces[k].uid == u
  }

  ghost predicate Ancien(c: Canonicalisation, u: string) {
    exists f :: f in c.fusions && f.ancien == u
  }

  ghost predicate Nouveau(c: Canonicalisation, u: string) {
    exists f :: f in c.fusions && f.nouveau == u
  }

  /** The stock uid `u` is claimed by a key of a channel of the batch. */
  ghost predicate Revendique(ctx: Contexte, batch: seq<AnnonceBrute>, stock: Stock, u: string) {
    exists b, cle :: b in batch && Affichable(ctx, b) && cle in Cles(b) && cle in stock && stock[cle] == u
  }

  lemma EmisSsiElu(ctx: Contexte, batch: seq<AnnonceBrute>, stock: Stock, jour: int, u: string)
    ensures Canonique(ctx, batch, stock, jour).Some?
    ensures var l := LotDe(ctx, batch, stock);
            Emis(Canonique(ctx, batch, stock, jour).value, u) <==> exists r: nat :: l.Racine(r) && l.Elu(ctx, r) == u
  {
    ResultatExiste(ctx, batch, stock, jour);
    var l := LotDe(ctx, batch, stock);
    var (ls, rs) := (Canonique(ctx, batch, stock, jour).value.annonces, Repliees(ctx, l));
    UidsEmis(ctx, l, u);
    if u in Uids(rs) {
      var k :| 0 <= k < |rs| && rs[k].0 == u;
      assert ls[k].uid == u;
    }
    if Emis(Canonique(ctx, batch, stock, jour).value, u) {
      var k :| 0 <= k < |ls| && ls[k].uid == u;
      assert rs[k].0 == u;
    }
  }

  lemma AncienSsiAbsorbe(ctx: Contexte, batch: seq<AnnonceBrute>, stock: Stock, jour: int, u: string)
    ensures Canonique(ctx, batch, stock, jour).Some?
    ensures var l := LotDe(ctx, batch, stock);
            Ancien(Canonique(ctx, batch, stock, jour).value, u) <==> exists r: nat :: l.Absorbe(r, u)
  {
    ResultatExiste(ctx, batch, stock, jour);
    var l := LotDe(ctx, batch, stock);
    var c := Canonique(ctx, batch, stock, jour).value;
    if r: nat :| l.Absorbe(r, u) {
      FusionsDisent(l, ctx, Fusion(u, l.Elu(ctx, r)));
      assert Fusion(u, l.Elu(ctx, r)) in c.fusions;
    }
    if f :| f in c.fusions && f.ancien == u { FusionsDisent(l, ctx, f); }
  }

  lemma CleRevendique(l: Lot, i: nat, cle: string, u: string)
    requires l.Valide() && i < |l.rows| && cle in Cles(l.rows[i]) && cle in l.stock && l.stock[cle] == u
    ensures l.Racine(l.rho[i]) && l.Poids(l.rho[i], u) > 0
  {
    assert cle in l.ClesDe(l.rho[i]);
    assert cle in l.Porteurs(l.rho[i], u);
  }

  lemma RevendiqueParGroupe(ctx: Contexte, batch: seq<AnnonceBrute>, stock: Stock, u: string) returns (g: nat)
    requires Revendique(ctx, batch, stock, u)
    ensures LotDe(ctx, batch, stock).Racine(g) && LotDe(ctx, batch, stock).Poids(g, u) > 0
  {
    var l := LotDe(ctx, batch, stock);
    PreparerFiltre(ctx, batch);
    var b, cle :| b in batch && Affichable(ctx, b) && cle in Cles(b) && cle in stock && stock[cle] == u;
    assert b in l.rows;
    var i :| 0 <= i < |l.rows| && l.rows[i] == b;
    g := l.rho[i];
    CleRevendique(l, i, cle, u);
  }

  lemma RevendiqueGarde(ctx: Contexte, batch: seq<AnnonceBrute>, stock: Stock, jour: int, u: string)
    requires Revendique(ctx, batch, stock, u)
    ensures Canonique(ctx, batch, stock, jour).Some?
    ensures Emis(Canonique(ctx, batch, stock, jour).value, u) || Ancien(Canonique(ctx, batch, stock, jour).value, u)
  {
    EmisSsiElu(ctx, batch, stock, jour, u);
    AncienSsiAbsorbe(ctx, batch, stock, jour, u);
    var g := RevendiqueParGroupe(ctx, batch, stock, u);
    IdentiteGardee(LotDe(ctx, batch, stock), ctx, g, u);
  }

  lemma NouveauEmis(ctx: Contexte, batch: seq<AnnonceBrute>, stock: Stock, jour: int, u: string)
    ensures Canonique(ctx, batch, stock, jour).Some?
    ensures var c := Canonique(ctx, batch, stock, jour).value;
            Nouveau(c, u) ==> u in stock.Values && Emis(c, u) && !Ancien(c, u)
  {
    EmisSsiElu(ctx, batch, stock, jour, u);
    AncienSsiAbsorbe(ctx, batch, stock, jour, u);
    ResultatExiste(ctx, batch, stock, jour);
    var l := LotDe(ctx, batch, stock);
    if f :| f in FusionsDuLot(ctx, l) && f.nouveau == u { CibleElue(l, ctx, f); }
  }

  lemma CibleElue(l: Lot, ctx: Contexte, f: Fusion)
    requires l.Valide() && f in FusionsDuLot(ctx, l)
    ensures exists r: nat :: l.Racine(r) && l.Elu(ctx, r) == f.nouveau
    ensures f.nouveau in l.stock.Values
    ensures forall g: nat :: !l.Absorbe(g, f.nouveau)
  {
    FusionsDisent(l, ctx, f);
    var r: nat :| l.Absorbe(r, f.ancien) && l.Elu(ctx, r) == f.nouveau;
    EluNonAbsorbe(l, ctx, r, r);
    forall g: nat ensures !l.Absorbe(g, f.nouveau) { EluNonAbsorbe(l, ctx, r, g); }
  }

  lemma AncienDuStock(ctx: Contexte, batch: seq<AnnonceBrute>, stock: Stock, jour: int, u: string)
    ensures Canonique(ctx, batch, stock, jour).Some?
    ensures Ancien(Canonique(ctx, batch, stock, jour).value, u) ==> u in stock.Values
  {
    AncienSsiAbsorbe(ctx, batch, stock, jour, u);
    var l := LotDe(ctx, batch, stock);
    if r: nat :| l.Absorbe(r, u) { AbsorbePossede(l, r, u); }
  }

  /** Every claimed stock uid stays the uid of a line or is merged, once; uids
      are merged only into uids of lines, and never chain. */
  lemma AucuneIdentitePerdue(ctx: Contexte, batch: seq<AnnonceBrute>, stock: Stock, jour: int)
    ensures Canonique(ctx, batch, stock, jour).Some?
    ensures var c := Canonique(ctx, batch, stock, jour).value;
            && (forall u | Revendique(ctx, batch, stock, u) :: Emis(c, u) || Ancien(c, u))
            && (forall j, k | 0 <= j < k < |c.fusions| :: c.fusions[j].ancien != c.fusions[k].ancien)
            && (forall u | Ancien(c, u) :: u in stock.Values && !Nouveau(c, u))
            && (forall u | Nouveau(c, u) :: u in stock.Values && Emis(c, u))
  {
    ResultatExiste(ctx, batch, stock, jour);
    var c := Canonique(ctx, batch, stock, jour).value;
    forall u | Revendique(ctx, batch, stock, u) ensures Emis(c, u) || Ancien(c, u) {
      RevendiqueGarde(ctx, batch, stock, jour, u);
    }
    AnciensDistincts(LotDe(ctx, batch, stock), ctx);
    forall u | Nouveau(c, u) ensures u in stock.Values && Emis(c, u) && !Ancien(c, u) {
      NouveauEmis(ctx, batch, stock, jour, u);
    }
    forall u | Ancien(c, u) ensures u in stock.Values {
      AncienDuStock(ctx, batch, stock, jour, u);
    }
  }

  /** A channel founds a group that keeps no uid, and strikes `u`. */
  ghost predicate EstFrappe(ctx: Contexte, batch: seq<AnnonceBrute>, stock: Stock, u: string) {
    var l := LotDe(ctx, batch, stock);
    exists r: nat :: l.Racine(r) && l.Classement(r) == [] && Frapper(ctx, l.rows[r]) == u
  }

  /** A line carries a uid merged away if and only if a group that keeps no
      uid strikes that very one. */
  lemma LigneAbsorbeeSsiFrappee(ctx: Contexte, batch: seq<AnnonceBrute>, stock: Stock, jour: int, u: string)
    ensures Canonique(ctx, batch, stock, jour).Some?
    ensures var c := Canonique(ctx, batch, stock, jour).value;
            Ancien(c, u) ==> (Emis(c, u) <==> EstFrappe(ctx, batch, stock, u))
  {
    EmisSsiElu(ctx, batch, stock, jour, u);
    AncienSsiAbsorbe(ctx, batch, stock, jour, u);
    var l := LotDe(ctx, batch, stock);
    forall r: nat, g: nat | l.Absorbe(r, u) && l.Racine(g) && l.Classement(g) != [] ensures l.Elu(ctx, g) != u {
      EluNonAbsorbe(l, ctx, g, r);
    }
  }

  /** A uid is merged away and a line's if and only if it is struck and absorbed. */
  lemma AbsorbeeEmise(ctx: Contexte, batch: seq<AnnonceBrute>, stock: Stock, jour: int, u: string)
    ensures Canonique(ctx, batch, stock, jour).Some?
    ensures var (c, l) := (Canonique(ctx, batch, stock, jour).value, LotDe(ctx, batch, stock));
            Ancien(c, u) && Emis(c, u) <==>
            exists r: nat, g: nat :: l.Racine(r) && l.Classement(r) == [] && Frapper(ctx, l.rows[r]) == u && l.Absorbe(g, u)
  {
    LigneAbsorbeeSsiFrappee(ctx, batch, stock, jour, u);
    AncienSsiAbsorbe(ctx, batch, stock, jour, u);
  }

  /** No line carries a uid merged away if and only if no group that keeps no uid would
      strike one that a group absorbs. */
  lemma AucuneLigneAbsorbeeSsi(ctx: Contexte, batch: seq<AnnonceBrute>, stock: Stock, jour: int)
    ensures Canonique(ctx, batch, stock, jour).Some?
    ensures var (c, l) := (Canonique(ctx, batch, stock, jour).value, LotDe(ctx, batch, stock));
            (forall u :: !(Ancien(c, u) && Emis(c, u))) <==>
            (forall r: nat, g: nat | l.Racine(r) && l.Classement(r) == [] :: !l.Absorbe(g, Frapper(ctx, l.rows[r])))
  {
    var l := LotDe(ctx, batch, stock);
    ResultatExiste(ctx, batch, stock, jour);
    var c := Canonique(ctx, batch, stock, jour).value;
    if r: nat, g: nat :| l.Racine(r) && l.Classement(r) == [] && l.Absorbe(g, Frapper(ctx, l.rows[r])) {
      AbsorbeeEmise(ctx, batch, stock, jour, Frapper(ctx, l.rows[r]));
    }
    if u :| Ancien(c, u) && Emis(c, u) {
      AbsorbeeEmise(ctx, batch, stock, jour, u);
    }
  }

  /** Where the groups that keep no uid strike none the batch claims, no line carries
      a uid merged away. */
  lemma AucuneLigneAbsorbee(ctx: Contexte, batch: seq<AnnonceBrute>, stock: Stock, jour: int, u: string)
    requires LotDe(ctx, batch, stock).FrappesNeuves(ctx)
    ensures Canonique(ctx, batch, stock, jour).Some?
    ensures !(Emis(Canonique(ctx, batch, stock, jour).value, u) && Ancien(Canonique(ctx, batch, stock, jour).value, u))
  {
    LigneAbsorbeeSsiFrappee(ctx, batch, stock, jour, u);
    AncienSsiAbsorbe(ctx, batch, stock, jour, u);
    var l := LotDe(ctx, batch, stock);
    forall r: nat | l.Absorbe(r, u) ensures !EstFrappe(ctx, batch, stock, u) { AbsorbePossede(l, r, u); }
  }

  // ---- Run after run ------------------------------------------------------------------

  /** The uid the last line written gives a channel. */
  function UidEcrit(ls: seq<AnnonceCanonique>, canal: string): Option<string> {
    if ls == [] then None
    else if exists s :: s in ls[|ls|-1].sources && s.sourceUid == canal then Some(ls[|ls|-1].uid)
    else UidEcrit(ls[..|ls|-1], canal)
  }

  function Rediriger(fs: seq<Fusion>, u: string): string {
    if fs == [] then u else if fs[0].ancien == u then fs[0].nouveau else Rediriger(fs[1..], u)
  }

  function Canaux(ls: seq<AnnonceCanonique>): set<string> {
    set k, s | 0 <= k < |ls| && s in ls[k].sources :: s.sourceUid
  }

  /** The stock once a result is stored: its channels follow their line, then
      every assignment to a merged uid moves. */
  function EcrireEnBase(stock: Stock, c: Canonicalisation): Stock {
    map canal | canal in stock.Keys + Canaux(c.annonces) ::
      Rediriger(c.fusions, match UidEcrit(c.annonces, canal)
                           case Some(u) => u
                           case None => if canal in stock then stock[canal] else [])
  }

  lemma {:induction false} RedirigerDit(fs: seq<Fusion>, u: string)
    ensures (exists f :: f in fs && f.ancien == u && f.nouveau == Rediriger(fs, u)) ||
            (Rediriger(fs, u) == u && forall f | f in fs :: f.ancien != u)
  {
    if fs != [] {
      RedirigerDit(fs[1..], u);
      if fs[0].ancien == u { assert fs[0] in fs; }
    }
  }

  lemma CanauxAjoutes(ls: seq<AnnonceCanonique>)
    requires ls != []
    ensures Canaux(ls) == Canaux(ls[..|ls|-1]) + set s | s in ls[|ls|-1].sources :: s.sourceUid
  {
    var avant := ls[..|ls|-1];
    forall c | c in Canaux(avant) ensures c in Canaux(ls) {
      var k, s :| 0 <= k < |avant| && s in avant[k].sources && s.sourceUid == c;
      assert s in ls[k].sources;
    }
    forall c | c in Canaux(ls) ensures c in Canaux(avant) || exists s :: s in ls[|ls|-1].sources && s.sourceUid == c {
      var k, s :| 0 <= k < |ls| && s in ls[k].sources && s.sourceUid == c;
      if k < |avant| { assert s in avant[k].sources; }
    }
  }

  lemma {:induction false} UidEcritDit(ls: seq<AnnonceCanonique>, canal: string)
    ensures match UidEcrit(ls, canal)
            case Some(u) => exists k, s :: 0 <= k < |ls| && ls[k].uid == u && s in ls[k].sources && s.sourceUid == canal
            case None => canal !in Canaux(ls)
  {
    if ls != [] {
      var (avant, d) := (ls[..|ls|-1], ls[|ls|-1]);
      if s :| s in d.sources && s.sourceUid == canal {
        assert ls[|ls|-1].uid == d.uid;
      } else {
        UidEcritDit(avant, canal);
        if UidEcrit(avant, canal).Some? {
          var k, s :| 0 <= k < |avant| && avant[k].uid == UidEcrit(avant, canal).value && s in avant[k].sources && s.sourceUid == canal;
          assert ls[k] == avant[k];
        }
        CanauxAjoutes(ls);
      }
    }
  }

  lemma {:induction false} MembresDisent(rho: seq<nat>, r: nat, n: nat, i: nat)
    requires n <= |rho|
    ensures i in Membres(rho, r, n) <==> i < n && rho[i] == r
  {
    MembresCompte(rho, r, n, i);
    assert i in Membres(rho, r, n) <==> multiset(Membres(rho, r, n))[i] > 0;
  }

  lemma {:induction false} ElectionsDisent(rho: seq<nat>, elus: seq<string>, n: nat, k: nat, i: nat)
    requires |elus| == |rho| && n <= |rho| && k < |Elections(rho, elus, n)| && i in Elections(rho, elus, n)[k].1
    ensures i < |rho| && rho[i] < |rho| && Elections(rho, elus, n)[k].0 == elus[rho[i]]
  {
    if k < |Elections(rho, elus, n - 1)| {
      ElectionsDisent(rho, elus, n - 1, k, i);
    } else {
      MembresDisent(rho, n - 1, |rho|, i);
    }
  }

  lemma {:induction false} ReplierDit(es: seq<Election>, k: nat, i: nat)
    requires k < |Replier(es)| && i in Replier(es)[k].1
    ensures exists j :: 0 <= j < |es| && es[j].0 == Replier(es)[k].0 && i in es[j].1
  {
    var (avant, e) := (es[..|es|-1], es[|es|-1]);
    var rs := Replier(avant);
    var p := Place(rs, e.0);
    if k == p {
      if p < |rs| {
        TrierPermute(Croissant, rs[k].1 + e.1);
        assert i in multiset(rs[k].1 + e.1);
      }
      if i in e.1 { assert es[|es|-1] == e; }
    }
    if k < |rs| && i in rs[k].1 {
      ReplierDit(avant, k, i);
      var j :| 0 <= j < |avant| && avant[j].0 == rs[k].0 && i in avant[j].1;
      assert es[j] == avant[j];
    }
  }

  /** A channel's line carries the uid its group elected. */
  lemma LigneDuCanal(ctx: Contexte, l: Lot, k: nat, i: nat)
    requires l.Valide() && k < |Repliees(ctx, l)| && i in Repliees(ctx, l)[k].1
    ensures i < |l.rows| && Repliees(ctx, l)[k].0 == l.Elu(ctx, l.rho[i])
  {
    var elus := Elus(l, ctx);
    var es := Elections(l.rho, elus, |l.rho|);
    ReplierDit(es, k, i);
    var j :| 0 <= j < |es| && es[j].0 == Replier(es)[k].0 && i in es[j].1;
    ElectionsDisent(l.rho, elus, |l.rho|, j, i);
  }

  lemma {:induction false} IndexQuelquePart(rs: seq<Election>, i: nat)
    requires i in Indices(rs)
    ensures exists k :: 0 <= k < |rs| && i in rs[k].1
  {
    var avant := rs[..|rs|-1];
    if i in Indices(avant) {
      IndexQuelquePart(avant, i);
      var k :| 0 <= k < |avant| && i in avant[k].1;
      assert i in rs[k].1;
    }
  }

  /** The line of a result that holds channel `i`. */
  lemma LigneTenant(ctx: Contexte, l: Lot, ls: seq<AnnonceCanonique>, i: nat) returns (k: nat)
    requires l.Valide() && Traduit(ls, Repliees(ctx, l), l.rows) && i < |l.rows|
    ensures k < |ls| && l.rows[i] in ls[k].sources
  {
    var rs := Repliees(ctx, l);
    DiscretCompte(|l.rows|, i);
    assert i in multiset(Indices(rs));
    IndexQuelquePart(rs, i);
    k :| 0 <= k < |rs| && i in rs[k].1;
    var j :| 0 <= j < |rs[k].1| && rs[k].1[j] == i;
    assert ls[k].sources[j] == l.rows[i];
  }

  lemma PropreDansCanaux(ctx: Contexte, l: Lot, ls: seq<AnnonceCanonique>, i: nat)
    requires l.Valide() && Traduit(ls, Repliees(ctx, l), l.rows) && i < |l.rows|
    ensures l.rows[i].sourceUid in Canaux(ls)
  {
    var k := LigneTenant(ctx, l, ls, i);
  }

  lemma CanalPropre(l: Lot, rs: seq<Election>, ls: seq<AnnonceCanonique>, canal: string)
    requires |l.rho| == |l.rows| && Traduit(ls, rs, l.rows) && canal in Canaux(ls)
    ensures l.Propre(canal)
  {
    var k, s :| 0 <= k < |ls| && s in ls[k].sources && s.sourceUid == canal;
    var j :| 0 <= j < |ls[k].sources| && ls[k].sources[j] == s;
    assert l.rows[rs[k].1[j]] == s;
  }

  lemma CanauxSsiPropres(ctx: Contexte, l: Lot, ls: seq<AnnonceCanonique>, canal: string)
    requires l.Valide() && Traduit(ls, Repliees(ctx, l), l.rows)
    ensures canal in Canaux(ls) <==> l.Propre(canal)
  {
    if l.Propre(canal) {
      var i :| 0 <= i < |l.rows| && l.rows[i].sourceUid == canal;
      PropreDansCanaux(ctx, l, ls, i);
    }
    if canal in Canaux(ls) { CanalPropre(l, Repliees(ctx, l), ls, canal); }
  }

  lemma EcritureDit(ctx: Contexte, l: Lot, c: Canonicalisation)
    requires l.Valide() && Traduit(c.annonces, Repliees(ctx, l), l.rows) && c.fusions == FusionsDuLot(ctx, l)
    ensures StockApres(l, ctx, EcrireEnBase(l.stock, c))
  {
    var (s, rs, ls) := (EcrireEnBase(l.stock, c), Repliees(ctx, l), c.annonces);
    forall canal ensures canal in s <==> canal in l.stock || l.Propre(canal) {
      CanauxSsiPropres(ctx, l, ls, canal);
    }
    forall canal | canal in s ensures exists u :: Ecrit(l, ctx, canal, u) && Redirige(l, ctx, u, s[canal]) {
      CanauxSsiPropres(ctx, l, ls, canal);
      UidEcritDit(ls, canal);
      var u := match UidEcrit(ls, canal) case Some(u) => u case None => if canal in l.stock then l.stock[canal] else [];
      if UidEcrit(ls, canal).Some? {
        var k, src :| 0 <= k < |ls| && ls[k].uid == u && src in ls[k].sources && src.sourceUid == canal;
        assert canal in Canaux(ls);
        var j :| 0 <= j < |ls[k].sources| && ls[k].sources[j] == src;
        LigneDuCanal(ctx, l, k, rs[k].1[j]);
        assert l.rows[rs[k].1[j]].sourceUid == canal;
      }
      assert Ecrit(l, ctx, canal, u);
      RedirigerDit(c.fusions, u);
      if f :| f in c.fusions && f.ancien == u && f.nouveau == s[canal] {
        FusionsDisent(l, ctx, f);
      } else {
        forall r: nat ensures !l.Absorbe(r, u) {
          if l.Absorbe(r, u) { FusionsDisent(l, ctx, Fusion(u, l.Elu(ctx, r))); }
        }
      }
      assert Redirige(l, ctx, u, s[canal]);
    }
  }

  lemma {:induction false} ElectionsMemes(rho: seq<nat>, a: seq<string>, b: seq<string>, n: nat)
    requires |a| == |rho| == |b| && n <= |rho|
    requires forall r | 0 <= r < n && rho[r] == r :: a[r] == b[r]
    ensures Elections(rho, a, n) == Elections(rho, b, n)
  {
    if n > 0 { ElectionsMemes(rho, a, b, n - 1); }
  }

  lemma {:induction false} AucuneFusion(rho: seq<nat>, cs: seq<seq<string>>, elus: seq<string>, n: nat)
    requires |cs| == |elus| == |rho| && n <= |rho|
    requires forall r | 0 <= r < n && rho[r] == r :: |cs[r]| <= 1
    ensures Fusions(rho, cs, elus, n) == []
  {
    if n > 0 { AucuneFusion(rho, cs, elus, n - 1); }
  }

  /** A line that holds a channel carries the uid of its group. */
  lemma UidDeLigne(ctx: Contexte, l: Lot, ls: seq<AnnonceCanonique>, k: nat, i: nat)
    requires l.Valide() && Traduit(ls, Repliees(ctx, l), l.rows) && k < |ls| && i < |l.rows| && l.rows[i] in ls[k].sources
    ensures ls[k].uid == l.Elu(ctx, l.rho[i])
  {
    var rs := Repliees(ctx, l);
    var j :| 0 <= j < |ls[k].sources| && ls[k].sources[j] == l.rows[i];
    LigneDuCanal(ctx, l, k, rs[k].1[j]);
    assert l.rows[i].sourceUid in Cles(l.rows[i]) && l.rows[rs[k].1[j]] == l.rows[i];
  }

  /** Two runs over the same groups give the same lines only where every group elects
      the same uid. */
  lemma MemesLignesMemesElus(ctx: Contexte, l: Lot, m: Lot, ls: seq<AnnonceCanonique>, r: nat)
    requires l.Valide() && m == l.(stock := m.stock) && m.Valide() && l.Racine(r)
    requires Traduit(ls, Repliees(ctx, l), l.rows) && Traduit(ls, Repliees(ctx, m), m.rows)
    ensures m.Elu(ctx, r) == l.Elu(ctx, r)
  {
    var k := LigneTenant(ctx, l, ls, r);
    UidDeLigne(ctx, l, ls, k, r);
    UidDeLigne(ctx, m, ls, k, r);
  }

  /** What is stored after a run, and the next run's groups. */
  lemma RunSuivant(ctx: Contexte, batch: seq<AnnonceBrute>, stock: Stock, jour: int) returns (s: Stock)
    ensures Canonique(ctx, batch, stock, jour).Some?
    ensures s == EcrireEnBase(stock, Canonique(ctx, batch, stock, jour).value)
    ensures var l := LotDe(ctx, batch, stock); StockApres(l, ctx, s) && LotDe(ctx, batch, s) == l.(stock := s)
  {
    ResultatExiste(ctx, batch, stock, jour);
    var c := Canonique(ctx, batch, stock, jour).value;
    s := EcrireEnBase(stock, c);
    EcritureDit(ctx, LotDe(ctx, batch, stock), c);
  }

  lemma MemesElections(ctx: Contexte, l: Lot, m: Lot)
    requires l.Valide() && m.Valide() && m == l.(stock := m.stock)
    requires forall r: nat | l.Racine(r) :: m.Elu(ctx, r) == l.Elu(ctx, r) && |m.Classement(r)| <= 1
    ensures Repliees(ctx, m) == Repliees(ctx, l) && FusionsDuLot(ctx, m) == []
  {
    ElectionsMemes(l.rho, Elus(l, ctx), Elus(m, ctx), |l.rho|);
    AucuneFusion(m.rho, Classements(m), Elus(m, ctx), |m.rho|);
  }

  /** Reconciled against what the run before stored, a batch whose keeping groups
      outweigh their rivals gives the same lines and no merge; and they still do. */
  lemma RunStable(ctx: Contexte, batch: seq<AnnonceBrute>, stock: Stock, jour: int)
    requires LotDe(ctx, batch, stock).Tenu(ctx)
    ensures Canonique(ctx, batch, stock, jour).Some?
    ensures var c := Canonique(ctx, batch, stock, jour).value;
            var s := EcrireEnBase(stock, c);
            Canonique(ctx, batch, s, jour) == Some(Canonicalisation(c.annonces, [])) && LotDe(ctx, batch, s).Tenu(ctx)
  {
    var l := LotDe(ctx, batch, stock);
    var s := RunSuivant(ctx, batch, stock, jour);
    TenuSuit(l, ctx, s);
    forall r: nat | l.Racine(r) ensures l.(stock := s).Elu(ctx, r) == l.Elu(ctx, r) && |l.(stock := s).Classement(r)| <= 1 {
      Stabilite(l, ctx, s, r);
    }
    MemesElections(ctx, l, l.(stock := s));
  }

  /** The digest gives no two channels of the batch one uid. */
  ghost predicate EmpreinteSepare(ctx: Contexte, batch: seq<AnnonceBrute>) {
    forall x, y | x in batch && y in batch && Frapper(ctx, x) == Frapper(ctx, y) :: x.sourceUid == y.sourceUid
  }

  lemma FrappesApart(ctx: Contexte, batch: seq<AnnonceBrute>, stock: Stock)
    requires EmpreinteSepare(ctx, batch)
    ensures LotDe(ctx, batch, stock).FrappesDistinctes(ctx)
  {
    var l := LotDe(ctx, batch, stock);
    PreparerFiltre(ctx, batch);
    forall r: nat, g: nat | l.Racine(r) && l.Racine(g) && Frapper(ctx, l.rows[r]) == Frapper(ctx, l.rows[g]) ensures r == g {
      assert l.rows[r] in l.rows && l.rows[g] in l.rows;
      assert l.rows[r].sourceUid in Cles(l.rows[r]) && l.rows[r].sourceUid in Cles(l.rows[g]);
    }
  }

  /** Running again on what a run stored gives the same lines, and then no merge, if
      and only if each group that keeps a uid outweighs those that strike one of its. */
  lemma StabiliteSsi(ctx: Contexte, batch: seq<AnnonceBrute>, stock: Stock, jour: int)
    requires EmpreinteSepare(ctx, batch)
    ensures Canonique(ctx, batch, stock, jour).Some?
    ensures var c := Canonique(ctx, batch, stock, jour).value;
            var d := Canonique(ctx, batch, EcrireEnBase(stock, c), jour);
            d.Some? && (d.value.annonces == c.annonces <==> LotDe(ctx, batch, stock).Tenu(ctx))
            && (d.value.annonces == c.annonces ==> d.value.fusions == [])
  {
    var l := LotDe(ctx, batch, stock);
    var s := RunSuivant(ctx, batch, stock, jour);
    ResultatExiste(ctx, batch, stock, jour);
    ResultatExiste(ctx, batch, s, jour);
    var (c, d) := (Canonique(ctx, batch, stock, jour).value, Canonique(ctx, batch, s, jour).value);
    if l.Tenu(ctx) {
      RunStable(ctx, batch, stock, jour);
    } else if d.annonces == c.annonces {
      FrappesApart(ctx, batch, stock);
      var h: nat :| l.Racine(h) && l.Classement(h) != [] && !l.Tient(ctx, h);
      var r := Instabilite(l, ctx, s, h);
      MemesLignesMemesElus(ctx, l, LotDe(ctx, batch, s), c.annonces, r);
    }
  }

  /** The stock after `n` runs of one batch, each stored before the next. */
  ghost function ApresRuns(ctx: Contexte, batch: seq<AnnonceBrute>, stock: Stock, jour: int, n: nat): Stock
    decreases n
  {
    if n == 0 then stock else
    match Canonique(ctx, batch, stock, jour)
    case Some(c) => ApresRuns(ctx, batch, EcrireEnBase(stock, c), jour, n - 1)
    case None => stock
  }

  /** Then every later run gives those lines, and no merge: a uid is not recomputed. */
  lemma {:induction false} StabiliteDesRuns(ctx: Contexte, batch: seq<AnnonceBrute>, stock: Stock, jour: int, n: nat)
    requires LotDe(ctx, batch, stock).Tenu(ctx) && n > 0
    ensures Canonique(ctx, batch, stock, jour).Some?
    ensures Canonique(ctx, batch, ApresRuns(ctx, batch, stock, jour, n), jour)
         == Some(Canonicalisation(Canonique(ctx, batch, stock, jour).value.annonces, []))
    decreases n
  {
    RunStable(ctx, batch, stock, jour);
    var s := EcrireEnBase(stock, Canonique(ctx, batch, stock, jour).value);
    if n > 1 {
      StabiliteDesRuns(ctx, batch, s, jour, n - 1);
    } else {
      assert ApresRuns(ctx, batch, s, jour, 0) == s;
    }
  }

  /** A batch whose strikes are fresh is such a one: nothing it strikes is kept by a group. */
  lemma NeuvesTiennent(ctx: Contexte, batch: seq<AnnonceBrute>, stock: Stock)
    requires LotDe(ctx, batch, stock).FrappesNeuves(ctx)
    ensures LotDe(ctx, batch, stock).Tenu(ctx)
  {
    var l := LotDe(ctx, batch, stock);
    forall h: nat, g: nat | l.Racine(h) ensures !l.Rival(ctx, g, h) {
    }
  }
}
