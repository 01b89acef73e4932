/** Reconciliation of a batch: its result as a function of the batch and the
    stock, and what that result guarantees. */
module Reconciliation {
  import opened Ordre
  import opened Annonces
  import opened UnionFind
  import opened Regroupement
  import opened Identites

  /** A uid and the channels it stands for. */
  type Election = (string, seq<nat>)

  function Membres(rho: seq<nat>, r: nat, n: nat): (idx: seq<nat>)
    requires n <= |rho|
  {
    if n == 0 then [] else Membres(rho, r, n - 1) + (if rho[n - 1] == r then [n - 1] else [])
  }

  /** The uid each root elects. */
  ghost function Elus(l: Lot, ctx: Contexte): (elus: seq<string>)
    requires |l.rho| == |l.rows|
    ensures |elus| == |l.rows| && forall r | 0 <= r < |l.rows| :: elus[r] == l.Elu(ctx, r)
  {
    seq(|l.rows|, r requires 0 <= r < |l.rows| => l.Elu(ctx, r))
  }

  /** The elections of the roots below `n`, in root order. */
  function Elections(rho: seq<nat>, elus: seq<string>, n: nat): seq<Election>
    requires |elus| == |rho| && n <= |rho|
  {
    if n == 0 then [] else
    Elections(rho, elus, n - 1) + (if rho[n - 1] == n - 1 then [(elus[n - 1], Membres(rho, n - 1, |rho|))] else [])
  }

  function VersElu(uids: seq<string>, elu: string): (fs: seq<Fusion>)
    ensures |fs| == |uids| && forall k | 0 <= k < |uids| :: fs[k] == Fusion(uids[k], elu)
  {
    seq(|uids|, k requires 0 <= k < |uids| => Fusion(uids[k], elu))
  }

  /** The uids each root keeps, ranked. */
  ghost function Classements(l: Lot): (cs: seq<seq<string>>)
    requires |l.rho| == |l.rows|
    ensures |cs| == |l.rows| && forall r | 0 <= r < |l.rows| :: cs[r] == l.Classement(r)
  {
    seq(|l.rows|, r requires 0 <= r < |l.rows| => l.Classement(r))
  }

  /** Every kept uid but the first merges into the elected one. */
  function FusionsDe(classement: seq<string>, elu: string): seq<Fusion> {
    if classement == [] then [] else VersElu(classement[1..], elu)
  }

  function Fusions(rho: seq<nat>, cs: seq<seq<string>>, elus: seq<string>, n: nat): seq<Fusion>
    requires |cs| == |elus| == |rho| && n <= |rho|
  {
    if n == 0 then [] else
    Fusions(rho, cs, elus, n - 1) + (if rho[n - 1] == n - 1 then FusionsDe(cs[n - 1], elus[n - 1]) else [])
  }

  ghost function FusionsDuLot(ctx: Contexte, l: Lot): seq<Fusion>
    requires |l.rho| == |l.rows|
  {
    Fusions(l.rho, Classements(l), Elus(l, ctx), |l.rho|)
  }

  function Croissant(a: nat, b: nat): bool { a <= b }

  function Place(rs: seq<Election>, uid: string): (k: nat)
    ensures k <= |rs|
    ensures k < |rs| ==> rs[k].0 == uid
    ensures forall j | 0 <= j < k :: rs[j].0 != uid
  {
    if rs == [] || rs[0].0 == uid then 0 else 1 + Place(rs[1..], uid)
  }

  /** Elections of one uid fold into one line, at the place of the first. */
  function ReplierUn(rs: seq<Election>, e: Election): seq<Election> {
    var k := Place(rs, e.0);
    if k < |rs| then rs[k := (e.0, Trier(Croissant, rs[k].1 + e.1))] else rs + [e]
  }

  function Replier(es: seq<Election>): seq<Election> {
    if es == [] then [] else ReplierUn(Replier(es[..|es|-1]), es[|es|-1])
  }

  function Choisir(rows: seq<AnnonceBrute>, idx: seq<nat>): (s: seq<AnnonceBrute>)
    requires forall k | 0 <= k < |idx| :: idx[k] < |rows|
    ensures |s| == |idx| && forall k | 0 <= k < |idx| :: s[k] == rows[idx[k]]
  {
    seq(|idx|, k requires 0 <= k < |idx| => rows[idx[k]])
  }

  /** The line of each election; `None` if folding one of them panics. */
  function Lignes(ctx: Contexte, rows: seq<AnnonceBrute>, rs: seq<Election>, jour: int): Option<seq<AnnonceCanonique>>
    requires forall k, j | 0 <= k < |rs| && 0 <= j < |rs[k].1| :: rs[k].1[j] < |rows|
  {
    if rs == [] then Some([]) else
    var (avant, dernier) := (rs[..|rs|-1], rs[|rs|-1]);
    assert forall k | 0 <= k < |avant| :: avant[k] == rs[k];
    match (Lignes(ctx, rows, avant, jour), Fusionner(ctx, dernier.0, Choisir(rows, dernier.1), jour))
    case (Some(ls), Some(a)) => Some(ls + [a])
    case _ => None
  }

  /** The prepared batch, its groups and the stock. */
  ghost function LotDe(ctx: Contexte, batch: seq<AnnonceBrute>, stock: Stock): (l: Lot)
    ensures l.Valide() && l.rows == Preparer(ctx, batch) && l.stock == stock
  {
    var rows := Preparer(ctx, batch);
    LotValide(ctx, rows, stock);
    Lot(rows, Classes(ctx, rows), stock)
  }

  lemma LotValide(ctx: Contexte, rows: seq<AnnonceBrute>, stock: Stock)
    ensures Lot(rows, Classes(ctx, rows), stock).Valide()
  {
    forall i, j, c | 0 <= i < |rows| && 0 <= j < |rows| && c in Cles(rows[i]) && c in Cles(rows[j])
      ensures Classes(ctx, rows)[i] == Classes(ctx, rows)[j]
    {
      CleDansUnGroupe(ctx, rows, i, j);
    }
  }

  ghost function Repliees(ctx: Contexte, l: Lot): (rs: seq<Election>)
    requires l.Valide()
    ensures Repartition(rs, |l.rows|)
  {
    ReplieesRepartissent(l.rho, Elus(l, ctx));
    Replier(Elections(l.rho, Elus(l, ctx), |l.rho|))
  }

  /** Reconciliation, as a function. */
  ghost function Canonique(ctx: Contexte, batch: seq<AnnonceBrute>, stock: Stock, jour: int): Option<Canonicalisation> {
    var l := LotDe(ctx, batch, stock);
    match Lignes(ctx, l.rows, Repliees(ctx, l), jour)
    case None => None
    case Some(ls) => Some(Canonicalisation(ls, FusionsDuLot(ctx, l)))
  }

  // ---- Each channel in exactly one line --------------------------------------

  function Indices(es: seq<Election>): seq<nat> {
    if es == [] then [] else Indices(es[..|es|-1]) + es[|es|-1].1
  }

  lemma MembresUneDePlus(rho: seq<nat>, r: nat, n: nat, i: nat)
    requires 0 < n <= |rho| && Une(Membres(rho, r, n - 1), i, i < n - 1 && rho[i] == r)
    ensures Une(Membres(rho, r, n), i, i < n && rho[i] == r)
  {
    MembresPas(rho, r, n);
    if rho[n - 1] == r { CompteUn(Membres(rho, r, n - 1), n - 1, i); }
  }

  lemma {:induction false} MembresUne(rho: seq<nat>, r: nat, n: nat, i: nat)
    requires n <= |rho|
    ensures Une(Membres(rho, r, n), i, i < n && rho[i] == r)
    decreases n
  {
    if n > 0 {
      MembresUne(rho, r, n - 1, i);
      MembresUneDePlus(rho, r, n, i);
    }
  }

  lemma MembresCompte(rho: seq<nat>, r: nat, n: nat, i: nat)
    requires n <= |rho|
    ensures multiset(Membres(rho, r, n))[i] == if i < n && rho[i] == r then 1 else 0
  {
    MembresUne(rho, r, n, i);
  }

  lemma MembresPas(rho: seq<nat>, r: nat, n: nat)
    requires 0 < n <= |rho|
    ensures Membres(rho, r, n) == if rho[n - 1] == r then Membres(rho, r, n - 1) + [n - 1] else Membres(rho, r, n - 1)
  {
  }

  lemma CompteUn(a: seq<nat>, x: nat, i: nat)
    ensures multiset(a + [x])[i] == multiset(a)[i] + if i == x then 1 else 0
  {
  }

  lemma IndicesAjoute(es: seq<Election>, e: Election)
    ensures Indices(es + [e]) == Indices(es) + e.1
    ensures multiset(Indices(es + [e])) == multiset(Indices(es)) + multiset(e.1)
  {
    assert (es + [e])[..|es|] == es;
  }

  lemma CompteSomme(a: seq<nat>, b: seq<nat>, i: nat)
    ensures multiset(a + b)[i] == multiset(a)[i] + multiset(b)[i]
  {
    assert multiset(a + b) == multiset(a) + multiset(b);
  }

  /** The channels of the roots below `n`, group after group. */
  ghost function ParGroupe(rho: seq<nat>, n: nat): seq<nat>
    requires n <= |rho|
  {
    if n == 0 then [] else ParGroupe(rho, n - 1) + (if rho[n - 1] == n - 1 then Membres(rho, n - 1, |rho|) else [])
  }

  /** `i` stands once in `s`, or not at all. */
  ghost predicate Une(s: seq<nat>, i: nat, presente: bool) {
    multiset(s)[i] == if presente then 1 else 0
  }

  lemma UneDePlus(rho: seq<nat>, n: nat, i: nat)
    requires Partition(rho) && 0 < n <= |rho| && rho[n - 1] == n - 1
    requires Une(ParGroupe(rho, n - 1), i, i < |rho| && rho[i] < n - 1)
    ensures Une(ParGroupe(rho, n), i, i < |rho| && rho[i] < n)
  {
    MembresCompte(rho, n - 1, |rho|, i);
    UneDeDeux(ParGroupe(rho, n - 1), Membres(rho, n - 1, |rho|), i, i < |rho| && rho[i] < n - 1, i < |rho| && rho[i] == n - 1);
    ParGroupePas(rho, n);
  }

  lemma PasDeGroupe(rho: seq<nat>, n: nat, i: nat)
    requires Partition(rho) && 0 < n <= |rho| && rho[n - 1] != n - 1
    ensures i < |rho| ==> rho[i] != n - 1
  {
    RacineDeSoi(rho, i);
  }

  lemma UneEncore(rho: seq<nat>, n: nat, i: nat)
    requires Partition(rho) && 0 < n <= |rho|
    requires Une(ParGroupe(rho, n - 1), i, i < |rho| && rho[i] < n - 1)
    ensures Une(ParGroupe(rho, n), i, i < |rho| && rho[i] < n)
  {
    if rho[n - 1] == n - 1 {
      UneDePlus(rho, n, i);
    } else {
      ParGroupePas(rho, n);
      PasDeGroupe(rho, n, i);
    }
  }

  lemma {:induction false} ParGroupeCompte(rho: seq<nat>, n: nat, i: nat)
    requires Partition(rho) && n <= |rho|
    ensures Une(ParGroupe(rho, n), i, i < |rho| && rho[i] < n)
  {
    if n > 0 {
      ParGroupeCompte(rho, n - 1, i);
      UneEncore(rho, n, i);
    }
  }

  lemma UneDeDeux(a: seq<nat>, b: seq<nat>, i: nat, dansA: bool, dansB: bool)
    requires Une(a, i, dansA) && Une(b, i, dansB) && !(dansA && dansB)
    ensures Une(a + b, i, dansA || dansB)
  {
    CompteSomme(a, b, i);
  }

  lemma ParGroupePas(rho: seq<nat>, n: nat)
    requires 0 < n <= |rho|
    ensures ParGroupe(rho, n) == if rho[n - 1] == n - 1 then ParGroupe(rho, n - 1) + Membres(rho, n - 1, |rho|) else ParGroupe(rho, n - 1)
  {
  }

  lemma RacineDeSoi(rho: seq<nat>, i: nat)
    requires Partition(rho)
    ensures i < |rho| ==> rho[i] < |rho| && rho[rho[i]] == rho[i]
  {
  }

  lemma {:induction false} ElectionsParGroupe(rho: seq<nat>, elus: seq<string>, n: nat)
    requires Partition(rho) && |elus| == |rho| && n <= |rho|
    ensures Indices(Elections(rho, elus, n)) == ParGroupe(rho, n)
  {
    if n > 0 {
      var avant := Elections(rho, elus, n - 1);
      ElectionsParGroupe(rho, elus, n - 1);
      if rho[n - 1] == n - 1 {
        var e := (elus[n - 1], Membres(rho, n - 1, |rho|));
        IndicesAjoute(avant, e);
        assert Elections(rho, elus, n) == avant + [e];
      } else {
        assert Elections(rho, elus, n) == avant + [] == avant;
      }
    }
  }

  lemma RacineMembre(rho: seq<nat>, r: nat)
    requires r < |rho| && rho[r] == r
    ensures Membres(rho, r, |rho|) != []
  {
    MembresCompte(rho, r, |rho|, r);
  }

  lemma {:induction false} ElectionsNonVides(rho: seq<nat>, elus: seq<string>, n: nat)
    requires Partition(rho) && |elus| == |rho| && n <= |rho|
    ensures forall k | 0 <= k < |Elections(rho, elus, n)| :: Elections(rho, elus, n)[k].1 != []
  {
    if n > 0 {
      ElectionsNonVides(rho, elus, n - 1);
      if rho[n - 1] == n - 1 { RacineMembre(rho, n - 1); }
    }
  }

  lemma Simplifier(a: multiset<nat>, b: multiset<nat>, c: multiset<nat>, d: multiset<nat>)
    requires a + b == c + (b + d)
    ensures a == c + d
  {
    forall i: nat ensures a[i] == (c + d)[i] {
      assert (a + b)[i] == a[i] + b[i] && (c + (b + d))[i] == c[i] + b[i] + d[i];
    }
  }

  lemma IndicesDernier(rs: seq<Election>)
    requires rs != []
    ensures multiset(Indices(rs)) == multiset(Indices(rs[..|rs|-1])) + multiset(rs[|rs|-1].1)
  {
    IndicesAjoute(rs[..|rs|-1], rs[|rs|-1]);
    assert rs == rs[..|rs|-1] + [rs[|rs|-1]];
  }

  lemma IndicesRemplaceDernier(rs: seq<Election>, k: nat, e: Election)
    requires k == |rs| - 1
    ensures multiset(Indices(rs[k := e])) + multiset(rs[k].1) == multiset(Indices(rs)) + multiset(e.1)
  {
    IndicesDernier(rs[k := e]);
    IndicesDernier(rs);
    assert rs[k := e][..k] == rs[..k];
  }

  lemma IndicesRemplaceAvant(rs: seq<Election>, k: nat, e: Election, d: nat)
    requires k < d == |rs| - 1
    requires multiset(Indices(rs[..d][k := e])) + multiset(rs[k].1) == multiset(Indices(rs[..d])) + multiset(e.1)
    ensures multiset(Indices(rs[k := e])) + multiset(rs[k].1) == multiset(Indices(rs)) + multiset(e.1)
  {
    IndicesDernier(rs[k := e]);
    IndicesDernier(rs);
    assert rs[k := e][..d] == rs[..d][k := e];
    Echange(multiset(Indices(rs[..d][k := e])), multiset(rs[k].1), multiset(Indices(rs[..d])), multiset(e.1), multiset(rs[d].1));
  }

  lemma {:induction false} IndicesRemplace(rs: seq<Election>, k: nat, e: Election)
    requires k < |rs|
    ensures multiset(Indices(rs[k := e])) + multiset(rs[k].1) == multiset(Indices(rs)) + multiset(e.1)
    decreases |rs|
  {
    var d := |rs| - 1;
    if k == d {
      IndicesRemplaceDernier(rs, k, e);
    } else {
      IndicesRemplace(rs[..d], k, e);
      IndicesRemplaceAvant(rs, k, e, d);
    }
  }

  lemma Echange(a: multiset<nat>, b: multiset<nat>, c: multiset<nat>, d: multiset<nat>, x: multiset<nat>)
    requires a + b == c + d
    ensures (a + x) + b == (c + x) + d
  {
    assert (a + x) + b == (a + b) + x;
  }

  lemma {:induction false} IndicesDe(es: seq<Election>, k: nat, i: nat)
    requires k < |es| && i in es[k].1
    ensures i in Indices(es)
  {
    var d := |es| - 1;
    if k < d { IndicesDe(es[..d], k, i); }
  }

  function Uids(es: seq<Election>): set<string> {
    set k | 0 <= k < |es| :: es[k].0
  }

  ghost predicate BienFormees(rs: seq<Election>) {
    && (forall k | 0 <= k < |rs| :: rs[k].1 != [])
    && (forall j, k | 0 <= j < k < |rs| :: rs[j].0 != rs[k].0)
  }

  lemma ReplierUnUids(rs: seq<Election>, e: Election)
    requires BienFormees(rs) && e.1 != []
    ensures BienFormees(ReplierUn(rs, e))
    ensures Uids(ReplierUn(rs, e)) == Uids(rs) + {e.0}
  {
    var (k, qs) := (Place(rs, e.0), ReplierUn(rs, e));
    assert qs[k].0 == e.0;
    assert forall j | 0 <= j < |rs| :: qs[j].0 == rs[j].0;
    if k < |rs| {
      TrierPermute(Croissant, rs[k].1 + e.1);
    }
  }

  lemma ReplierUnConserve(rs: seq<Election>, e: Election)
    ensures multiset(Indices(ReplierUn(rs, e))) == multiset(Indices(rs)) + multiset(e.1)
  {
    var k := Place(rs, e.0);
    if k < |rs| {
      var tout := rs[k].1 + e.1;
      var f := (e.0, Trier(Croissant, tout));
      TrierPermute(Croissant, tout);
      IndicesRemplace(rs, k, f);
      assert multiset(f.1) == multiset(rs[k].1) + multiset(e.1);
      Simplifier(multiset(Indices(rs[k := f])), multiset(rs[k].1), multiset(Indices(rs)), multiset(e.1));
    } else {
      IndicesAjoute(rs, e);
    }
  }

  lemma ReplierPas(avant: seq<Election>, e: Election)
    ensures Replier(avant + [e]) == ReplierUn(Replier(avant), e)
  {
    assert (avant + [e])[..|avant|] == avant;
  }

  lemma UidsAjoute(avant: seq<Election>, e: Election)
    ensures Uids(avant + [e]) == Uids(avant) + {e.0}
  {
    var es := avant + [e];
    assert es[|avant|] == e;
    forall u | u in Uids(avant) ensures u in Uids(es) {
      var k :| 0 <= k < |avant| && avant[k].0 == u;
      assert es[k].0 == u;
    }
  }

  lemma {:induction false} ReplierConserve(es: seq<Election>)
    requires forall k | 0 <= k < |es| :: es[k].1 != []
    ensures BienFormees(Replier(es))
    ensures Uids(Replier(es)) == Uids(es)
    ensures multiset(Indices(Replier(es))) == multiset(Indices(es))
  {
    if es != [] {
      var (avant, e) := (es[..|es|-1], es[|es|-1]);
      assert es == avant + [e];
      ReplierConserve(avant);
      ReplierPas(avant, e);
      ReplierUnUids(Replier(avant), e);
      ReplierUnConserve(Replier(avant), e);
      IndicesAjoute(avant, e);
      UidsAjoute(avant, e);
    }
  }

  /** The lines partition the channels: every channel in exactly one of them,
      once; none empty; no two of one uid, even if strikes collide. */
  ghost predicate Repartition(rs: seq<Election>, n: nat) {
    && multiset(Indices(rs)) == multiset(Discrete(n))
    && BienFormees(rs)
    && (forall k, j | 0 <= k < |rs| && 0 <= j < |rs[k].1| :: rs[k].1[j] < n)
  }

  lemma ParGroupeTout(rho: seq<nat>)
    requires Partition(rho)
    ensures multiset(ParGroupe(rho, |rho|)) == multiset(Discrete(|rho|))
  {
    forall i: nat ensures multiset(ParGroupe(rho, |rho|))[i] == multiset(Discrete(|rho|))[i] {
      ParGroupeCompte(rho, |rho|, i);
      DiscretCompte(|rho|, i);
    }
  }

  lemma ReplieesRepartissent(rho: seq<nat>, elus: seq<string>)
    requires Partition(rho) && |elus| == |rho|
    ensures Repartition(Replier(Elections(rho, elus, |rho|)), |rho|)
  {
    var (n, es) := (|rho|, Elections(rho, elus, |rho|));
    ElectionsNonVides(rho, elus, n);
    ReplierConserve(es);
    ElectionsParGroupe(rho, elus, n);
    ParGroupeTout(rho);
    IndicesBornes(Replier(es), n);
  }

  lemma IndicesBornes(rs: seq<Election>, n: nat)
    requires multiset(Indices(rs)) == multiset(Discrete(n))
    ensures forall k, j | 0 <= k < |rs| && 0 <= j < |rs[k].1| :: rs[k].1[j] < n
  {
    forall k, j | 0 <= k < |rs| && 0 <= j < |rs[k].1| ensures rs[k].1[j] < n {
      IndicesDe(rs, k, rs[k].1[j]);
      assert rs[k].1[j] in multiset(Indices(rs));
      assert rs[k].1[j] in multiset(Discrete(n));
    }
  }

  lemma {:induction false} DiscretCompte(n: nat, i: nat)
    ensures multiset(Discrete(n))[i] == if i < n then 1 else 0
  {
    if n > 0 {
      DiscretCompte(n - 1, i);
      assert Discrete(n) == Discrete(n - 1) + [n - 1];
    }
  }
}
