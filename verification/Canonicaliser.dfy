/** The reconciliation run itself, step by step over its maps and vectors,
    proved to compute the function `Canonique`. */
module Execution {
  import opened Ordre
  import opened Annonces
  import opened UnionFind
  import opened Regroupement
  import opened Identites
  import opened Reconciliation

  /** The exact keys of one channel. */
  method UnirExactes(g: Groupes, index: map<string, nat>, i: nat, cles: seq<string>) returns (parCle: map<string, nat>)
    requires g.Valid() && i < |g.noms| && Bon(Etat(g.Classes(), index), |g.noms|)
    modifies g.parent, g.moteurs
    ensures g.Valid()
    ensures Etat(g.Classes(), parCle) == ClesExactes(old(Etat(g.Classes(), index)), |g.noms|, i, cles)
  {
    parCle := index;
    ghost var e := Etat(g.Classes(), index);
    for k := 0 to |cles|
      invariant g.Valid() && Etat(g.Classes(), parCle) == ClesExactes(e, |g.noms|, i, cles[..k])
    {
      assert cles[..k + 1][..k] == cles[..k];
      var s := CleSrc(cles[k]);
      if s in parCle {
        g.Unir(i, parCle[s]);
      } else {
        parCle := parCle[s := i];
      }
    }
    assert cles[..|cles|] == cles;
  }

  /** The soft keys of one channel. */
  method UnirMolles(g: Groupes, index: map<string, nat>, i: nat, cles: seq<string>) returns (parCle: map<string, nat>)
    requires g.Valid() && i < |g.noms| && Bon(Etat(g.Classes(), index), |g.noms|)
    modifies g.parent, g.moteurs
    ensures g.Valid()
    ensures Etat(g.Classes(), parCle) == ClesMollesDe(g.noms, old(Etat(g.Classes(), index)), i, cles)
  {
    parCle := index;
    ghost var e := Etat(g.Classes(), index);
    for k := 0 to |cles|
      invariant g.Valid() && Etat(g.Classes(), parCle) == ClesMollesDe(g.noms, e, i, cles[..k])
    {
      assert cles[..k + 1][..k] == cles[..k];
      if cles[k] !in parCle {
        parCle := parCle[cles[k] := i];
      } else {
        var uni := g.UnirSiMoteursDisjoints(i, parCle[cles[k]]);
        if !uni { parCle := parCle[cles[k] := i]; }
      }
    }
    assert cles[..|cles|] == cles;
  }

  /** The structure and the key index stand for state `e`. */
  ghost predicate Suit(g: Groupes, parCle: map<string, nat>, e: Etat)
    reads g.parent, g.moteurs
  {
    g.Valid() && Etat(g.Classes(), parCle) == e
  }

  method GrouperExacte(g: Groupes, index: map<string, nat>, rows: seq<AnnonceBrute>, i: nat) returns (parCle: map<string, nat>)
    requires g.noms == Noms(rows) && i < |rows| && Suit(g, index, PhaseExacte(rows, i))
    modifies g.parent, g.moteurs
    ensures Suit(g, parCle, PhaseExacte(rows, i + 1))
  {
    parCle := UnirExactes(g, index, i, Cles(rows[i]));
  }

  method GrouperExactes(g: Groupes, rows: seq<AnnonceBrute>) returns (parCle: map<string, nat>)
    requires g.noms == Noms(rows) && Suit(g, map[], PhaseExacte(rows, 0))
    modifies g.parent, g.moteurs
    ensures Suit(g, parCle, PhaseExacte(rows, |rows|))
  {
    parCle := map[];
    for i := 0 to |rows|
      invariant Suit(g, parCle, PhaseExacte(rows, i))
    {
      parCle := GrouperExacte(g, parCle, rows, i);
    }
  }

  method GrouperMolle(ctx: Contexte, g: Groupes, index: map<string, nat>, rows: seq<AnnonceBrute>, i: nat) returns (parCle: map<string, nat>)
    requires g.noms == Noms(rows) && i < |rows| && Suit(g, index, PhaseMolle(ctx, rows, i))
    modifies g.parent, g.moteurs
    ensures Suit(g, parCle, PhaseMolle(ctx, rows, i + 1))
  {
    parCle := UnirMolles(g, index, i, ClesMolles(ctx, rows[i]));
  }

  method GrouperMolles(ctx: Contexte, g: Groupes, index: map<string, nat>, rows: seq<AnnonceBrute>) returns (parCle: map<string, nat>)
    requires g.noms == Noms(rows) && Suit(g, index, PhaseMolle(ctx, rows, 0))
    modifies g.parent, g.moteurs
    ensures Suit(g, parCle, PhaseMolle(ctx, rows, |rows|))
  {
    parCle := index;
    for i := 0 to |rows|
      invariant Suit(g, parCle, PhaseMolle(ctx, rows, i))
    {
      parCle := GrouperMolle(ctx, g, parCle, rows, i);
    }
  }

  /** Both grouping phases over one key index. */
  method Grouper(ctx: Contexte, rows: seq<AnnonceBrute>) returns (g: Groupes)
    ensures fresh(g.parent) && fresh(g.moteurs) && g.Valid()
    ensures g.noms == Noms(rows) && g.Classes() == Classes(ctx, rows)
  {
    g := new Groupes(Noms(rows));
    var parCle := GrouperExactes(g, rows);
    parCle := GrouperMolles(ctx, g, parCle, rows);
  }

  /** Members by root. Roots are later walked in ascending order, as the
      ordered map of the source is. */
  ghost predicate BonsMembres(membres: map<nat, seq<nat>>, rho: seq<nat>, n: nat)
    requires n <= |rho|
  {
    forall r: nat :: (r in membres <==> Membres(rho, r, n) != []) && (r in membres ==> membres[r] == Membres(rho, r, n))
  }

  method Rassembler(g: Groupes) returns (membres: map<nat, seq<nat>>)
    requires g.Valid()
    modifies g.parent
    ensures g.Valid() && g.Classes() == old(g.Classes())
    ensures BonsMembres(membres, g.Classes(), |g.noms|)
  {
    membres := map[];
    for i := 0 to g.parent.Length
      invariant g.Valid() && g.Classes() == old(g.Classes())
      invariant BonsMembres(membres, g.Classes(), i)
    {
      var r := g.Racine(i);
      membres := membres[r := (if r in membres then membres[r] else []) + [i]];
    }
  }

  lemma MembresDesRacines(membres: map<nat, seq<nat>>, rho: seq<nat>)
    requires Partition(rho) && BonsMembres(membres, rho, |rho|)
    ensures forall r: nat :: r in membres <==> r < |rho| && rho[r] == r
  {
    forall r: nat ensures r in membres <==> r < |rho| && rho[r] == r {
      if r < |rho| && rho[r] == r { MembresCompte(rho, r, |rho|, r); }
      if r in membres { MembresCompte(rho, r, |rho|, membres[r][0]); assert membres[r][0] in Membres(rho, r, |rho|); }
    }
  }

  // ---- Claims ---------------------------------------------------------------

  ghost function PorteursParmi(stock: Stock, ks: set<string>, u: string): set<string> {
    set c | c in ks && c in stock && stock[c] == u
  }

  /** `claims` holds the uids claimed through the keys `ks`, each with its keys. */
  ghost predicate Claims(claims: map<string, set<string>>, stock: Stock, ks: set<string>) {
    forall u :: if PorteursParmi(stock, ks, u) == {} then u !in claims else u in claims && claims[u] == PorteursParmi(stock, ks, u)
  }

  lemma PorteurAjoute(stock: Stock, ks: set<string>, c: string, u: string)
    ensures PorteursParmi(stock, ks + {c}, u) ==
            if c in stock && stock[c] == u then PorteursParmi(stock, ks, u) + {c} else PorteursParmi(stock, ks, u)
  {
  }

  method Noter(claims: map<string, set<string>>, stock: Stock, ghost ks: set<string>, c: string) returns (r: map<string, set<string>>)
    requires Claims(claims, stock, ks)
    ensures Claims(r, stock, ks + {c})
  {
    r := claims;
    if c in stock {
      var uid := stock[c];
      r := claims[uid := (if uid in claims then claims[uid] else {}) + {c}];
    }
    forall u: string ensures if PorteursParmi(stock, ks + {c}, u) == {} then u !in r else u in r && r[u] == PorteursParmi(stock, ks + {c}, u) {
      PorteurAjoute(stock, ks, c, u);
    }
  }

  method NoterTout(claims: map<string, set<string>>, stock: Stock, ghost ks: set<string>, cles: seq<string>) returns (r: map<string, set<string>>)
    requires Claims(claims, stock, ks)
    ensures Claims(r, stock, ks + Ensemble(cles))
  {
    r := claims;
    for b := 0 to |cles|
      invariant Claims(r, stock, ks + Ensemble(cles[..b]))
    {
      r := Noter(r, stock, ks + Ensemble(cles[..b]), cles[b]);
      assert (ks + Ensemble(cles[..b])) + {cles[b]} == ks + Ensemble(cles[..b + 1]);
    }
    assert cles[..|cles|] == cles;
  }

  ghost function Ensemble(cles: seq<string>): set<string> {
    set c | c in cles
  }

  ghost function ClesVues(rows: seq<AnnonceBrute>, idx: seq<nat>): set<string>
    requires forall k | 0 <= k < |idx| :: idx[k] < |rows|
  {
    set k, c | 0 <= k < |idx| && c in Cles(rows[idx[k]]) :: c
  }

  lemma ClesVuesDuGroupe(l: Lot, r: nat, idx: seq<nat>)
    requires l.Valide() && idx == Membres(l.rho, r, |l.rows|)
    ensures forall k | 0 <= k < |idx| :: idx[k] < |l.rows|
    ensures ClesVues(l.rows, idx) == l.ClesDe(r)
  {
    forall k | 0 <= k < |idx| ensures idx[k] < |l.rows| && l.rho[idx[k]] == r {
      MembresCompte(l.rho, r, |l.rows|, idx[k]);
      assert idx[k] in multiset(idx);
    }
    forall c | c in l.ClesDe(r) ensures c in ClesVues(l.rows, idx) {
      var i :| 0 <= i < |l.rows| && l.rho[i] == r && c in Cles(l.rows[i]);
      MembresCompte(l.rho, r, |l.rows|, i);
      assert i in multiset(idx);
      var k :| 0 <= k < |idx| && idx[k] == i;
    }
  }

  lemma ClesVuesAjoute(rows: seq<AnnonceBrute>, idx: seq<nat>, a: nat)
    requires a < |idx| && forall k | 0 <= k < |idx| :: idx[k] < |rows|
    ensures ClesVues(rows, idx[..a + 1]) == ClesVues(rows, idx[..a]) + Ensemble(Cles(rows[idx[a]]))
  {
    var (x, y) := (idx[..a], idx[..a + 1]);
    forall c | c in ClesVues(rows, x) ensures c in ClesVues(rows, y) {
      var k :| 0 <= k < |x| && c in Cles(rows[x[k]]);
      assert y[k] == x[k];
    }
    forall c | c in Cles(rows[idx[a]]) ensures c in ClesVues(rows, y) { assert y[a] == idx[a]; }
    forall c | c in ClesVues(rows, y) && c !in Cles(rows[idx[a]]) ensures c in ClesVues(rows, x) {
      var k :| 0 <= k < |y| && c in Cles(rows[y[k]]);
      assert x[k] == y[k];
    }
  }

  method Revendiquer(ghost l: Lot, rows: seq<AnnonceBrute>, idx: seq<nat>, stock: Stock, ghost r: nat)
    returns (claims: map<string, set<string>>)
    requires l.Valide() && l.rows == rows && l.stock == stock && idx == Membres(l.rho, r, |rows|)
    ensures Claims(claims, stock, l.ClesDe(r))
  {
    claims := map[];
    ClesVuesDuGroupe(l, r, idx);
    for a := 0 to |idx|
      invariant Claims(claims, stock, ClesVues(rows, idx[..a]))
    {
      claims := NoterTout(claims, stock, ClesVues(rows, idx[..a]), Cles(rows[idx[a]]));
      ClesVuesAjoute(rows, idx, a);
    }
    assert idx[..|idx|] == idx;
  }

  lemma ClaimsDuGroupe(l: Lot, claims: map<string, set<string>>, r: nat, u: string)
    requires l.Valide() && Claims(claims, l.stock, l.ClesDe(r))
    ensures u in claims <==> l.Poids(r, u) > 0
    ensures u in claims ==> claims[u] == l.Porteurs(r, u)
  {
    assert PorteursParmi(l.stock, l.ClesDe(r), u) == l.Porteurs(r, u);
  }

  ghost predicate BonnesRevendications(l: Lot, rv: map<nat, map<string, set<string>>>, n: nat)
    requires |l.rho| == |l.rows|
  {
    forall r: nat :: (r in rv <==> r < n && l.Racine(r)) && (r in rv ==> Claims(rv[r], l.stock, l.ClesDe(r)))
  }

  lemma RevendicationDeRacine(l: Lot, rv: map<nat, map<string, set<string>>>, r: nat, claims: map<string, set<string>>)
    requires |l.rho| == |l.rows| && BonnesRevendications(l, rv, r) && l.Racine(r) && Claims(claims, l.stock, l.ClesDe(r))
    ensures BonnesRevendications(l, rv[r := claims], r + 1)
  {
    forall i: nat ensures (i in rv[r := claims] <==> i < r + 1 && l.Racine(i))
                          && (i in rv[r := claims] ==> Claims(rv[r := claims][i], l.stock, l.ClesDe(i))) {
      if i != r { assert i in rv <==> i < r && l.Racine(i); }
    }
  }

  lemma RevendicationHorsRacine(l: Lot, rv: map<nat, map<string, set<string>>>, r: nat)
    requires |l.rho| == |l.rows| && BonnesRevendications(l, rv, r) && !l.Racine(r)
    ensures BonnesRevendications(l, rv, r + 1)
  {
  }

  method RevendiquerTout(ghost l: Lot, rows: seq<AnnonceBrute>, membres: map<nat, seq<nat>>, stock: Stock)
    returns (rv: map<nat, map<string, set<string>>>)
    requires l.Valide() && l.rows == rows && l.stock == stock && BonsMembres(membres, l.rho, |rows|)
    ensures BonnesRevendications(l, rv, |rows|)
  {
    rv := map[];
    MembresDesRacines(membres, l.rho);
    for r := 0 to |rows|
      invariant BonnesRevendications(l, rv, r)
    {
      if r in membres {
        var claims := Revendiquer(l, rows, membres[r], stock, r);
        RevendicationDeRacine(l, rv, r, claims);
        rv := rv[r := claims];
      } else {
        RevendicationHorsRacine(l, rv, r);
      }
    }
  }

  // ---- Splits ------------------------------------------------------------------

  /** `gagnant` holds the best claimant of `u` among the roots below `n`. */
  ghost predicate EnTete(l: Lot, gagnant: map<string, (nat, nat)>, u: string, n: nat)
    requires |l.rho| == |l.rows|
  {
    if u in gagnant then
      var (p, k) := gagnant[u];
      k < n && l.Racine(k) && p == l.Poids(k, u) > 0 && forall g: nat | g < n && l.Racine(g) && g != k :: l.Devance(k, g, u)
    else forall g: nat | g < n && l.Racine(g) :: l.Poids(g, u) == 0
  }

  ghost predicate TousEnTete(l: Lot, gagnant: map<string, (nat, nat)>, n: nat)
    requires |l.rho| == |l.rows|
  {
    forall u: string :: EnTete(l, gagnant, u, n)
  }

  lemma EnTeteAvance(l: Lot, gagnant: map<string, (nat, nat)>, apres: map<string, (nat, nat)>, u: string, n: nat)
    requires l.Valide() && EnTete(l, gagnant, u, n)
    requires l.Racine(n) && l.Poids(n, u) > 0 && (u !in gagnant || l.Poids(n, u) > gagnant[u].0) ==>
               u in apres && apres[u] == (l.Poids(n, u), n)
    requires !(l.Racine(n) && l.Poids(n, u) > 0 && (u !in gagnant || l.Poids(n, u) > gagnant[u].0)) ==>
               (u in gagnant <==> u in apres) && (u in gagnant ==> apres[u] == gagnant[u])
    ensures EnTete(l, apres, u, n + 1)
  {
  }

  /** `gagnant` differs from `avant` only by what group `r` wins of `faits`. */
  ghost predicate Avance(l: Lot, avant: map<string, (nat, nat)>, gagnant: map<string, (nat, nat)>, faits: set<string>, r: nat)
    requires |l.rho| == |l.rows|
  {
    forall u: string :: if u in faits then EnTete(l, gagnant, u, r + 1)
                        else (u in gagnant <==> u in avant) && (u in avant ==> gagnant[u] == avant[u])
  }

  /** One claim of a group. */
  method ArbitrerUn(ghost l: Lot, ghost avant: map<string, (nat, nat)>, courant: map<string, (nat, nat)>, claims: map<string, set<string>>,
                    ghost faits: set<string>, r: nat, u: string)
    returns (gagnant: map<string, (nat, nat)>)
    requires l.Valide() && l.Racine(r) && Claims(claims, l.stock, l.ClesDe(r)) && u in claims
    requires EnTete(l, avant, u, r) && u !in faits && Avance(l, avant, courant, faits, r)
    ensures Avance(l, avant, gagnant, faits + {u}, r)
  {
    gagnant := courant;
    ClaimsDuGroupe(l, claims, r, u);
    if u !in gagnant || |claims[u]| > gagnant[u].0 {
      gagnant := gagnant[u := (|claims[u]|, r)];
    }
    EnTeteAvance(l, avant, gagnant, u, r);
    AvanceEncore(l, avant, courant, gagnant, faits, r, u);
  }

  lemma AvanceFinie(l: Lot, avant: map<string, (nat, nat)>, gagnant: map<string, (nat, nat)>, claims: map<string, set<string>>, r: nat)
    requires l.Valide() && l.Racine(r) && Claims(claims, l.stock, l.ClesDe(r))
    requires TousEnTete(l, avant, r) && Avance(l, avant, gagnant, claims.Keys, r)
    ensures TousEnTete(l, gagnant, r + 1)
  {
    ghost var n := r + 1;
    forall u: string ensures EnTete(l, gagnant, u, n) {
      ClaimsDuGroupe(l, claims, r, u);
      if u !in claims { EnTeteAvance(l, avant, gagnant, u, r); }
    }
  }

  method ArbitrerTous(ghost l: Lot, avant: map<string, (nat, nat)>, claims: map<string, set<string>>, r: nat)
    returns (gagnant: map<string, (nat, nat)>)
    requires l.Valide() && l.Racine(r) && Claims(claims, l.stock, l.ClesDe(r))
    requires forall u | u in claims :: EnTete(l, avant, u, r)
    ensures Avance(l, avant, gagnant, claims.Keys, r)
  {
    gagnant := avant;
    var reste := claims.Keys;
    RienNAvance(l, avant, claims.Keys, r);
    while reste != {}
      invariant reste <= claims.Keys
      invariant Avance(l, avant, gagnant, claims.Keys - reste, r)
    {
      var u :| u in reste;
      gagnant := ArbitrerUn(l, avant, gagnant, claims, claims.Keys - reste, r, u);
      UnDeMoins(claims.Keys, reste, u);
      reste := reste - {u};
    }
    UnDeMoins(claims.Keys, {}, "");
  }

  lemma UnDeMoins(tous: set<string>, reste: set<string>, u: string)
    ensures reste <= tous && u in reste ==> (tous - reste) + {u} == tous - (reste - {u})
    ensures tous - {} == tous
  {
  }

  lemma RienNAvance(l: Lot, avant: map<string, (nat, nat)>, tous: set<string>, r: nat)
    requires l.Valide()
    ensures Avance(l, avant, avant, tous - tous, r)
  {
  }

  /** One group's claims, in the iteration order of a hash map: any. */
  method ArbitrerGroupe(ghost l: Lot, avant: map<string, (nat, nat)>, claims: map<string, set<string>>, r: nat)
    returns (gagnant: map<string, (nat, nat)>)
    requires l.Valide() && l.Racine(r) && Claims(claims, l.stock, l.ClesDe(r))
    requires TousEnTete(l, avant, r)
    ensures TousEnTete(l, gagnant, r + 1)
  {
    gagnant := ArbitrerTous(l, avant, claims, r);
    AvanceFinie(l, avant, gagnant, claims, r);
  }

  lemma EnTeteEgal(l: Lot, a: map<string, (nat, nat)>, b: map<string, (nat, nat)>, v: string, n: nat)
    requires |l.rho| == |l.rows| && EnTete(l, a, v, n) && (v in b <==> v in a) && (v in a ==> b[v] == a[v])
    ensures EnTete(l, b, v, n)
  {
  }

  lemma AvancePour(l: Lot, avant: map<string, (nat, nat)>, courant: map<string, (nat, nat)>, gagnant: map<string, (nat, nat)>,
                   faits: set<string>, r: nat, u: string, v: string)
    requires |l.rho| == |l.rows| && Avance(l, avant, courant, faits, r)
    requires if v == u then EnTete(l, gagnant, u, r + 1) else (v in gagnant <==> v in courant) && (v in courant ==> gagnant[v] == courant[v])
    ensures if v in faits + {u} then EnTete(l, gagnant, v, r + 1)
            else (v in gagnant <==> v in avant) && (v in avant ==> gagnant[v] == avant[v])
  {
    if v in faits && v != u { EnTeteEgal(l, courant, gagnant, v, r + 1); }
  }

  lemma AvanceEncore(l: Lot, avant: map<string, (nat, nat)>, courant: map<string, (nat, nat)>, gagnant: map<string, (nat, nat)>,
                     faits: set<string>, r: nat, u: string)
    requires l.Valide() && Avance(l, avant, courant, faits, r) && EnTete(l, gagnant, u, r + 1)
    requires forall v: string | v != u :: (v in gagnant <==> v in courant) && (v in courant ==> gagnant[v] == courant[v])
    ensures Avance(l, avant, gagnant, faits + {u}, r)
  {
    forall v: string ensures if v in faits + {u} then EnTete(l, gagnant, v, r + 1)
                             else (v in gagnant <==> v in avant) && (v in avant ==> gagnant[v] == avant[v]) {
      AvancePour(l, avant, courant, gagnant, faits, r, u, v);
    }
  }

  method Arbitrer(ghost l: Lot, n: nat, rv: map<nat, map<string, set<string>>>) returns (gagnant: map<string, (nat, nat)>)
    requires l.Valide() && n == |l.rows| && BonnesRevendications(l, rv, n)
    ensures TousEnTete(l, gagnant, n)
  {
    gagnant := map[];
    for r := 0 to n
      invariant TousEnTete(l, gagnant, r)
    {
      if r in rv {
        gagnant := ArbitrerGroupe(l, gagnant, rv[r], r);
      } else {
        ghost var s := r + 1;
        forall u: string ensures EnTete(l, gagnant, u, s) { EnTeteAvance(l, gagnant, gagnant, u, r); }
      }
    }
  }

  lemma GagnantArbitre(l: Lot, gagnant: map<string, (nat, nat)>, u: string, r: nat)
    requires l.Valide() && EnTete(l, gagnant, u, |l.rows|) && l.Racine(r) && l.Poids(r, u) > 0
    ensures u in gagnant && (gagnant[u].1 == r <==> l.Gagne(r, u))
  {
    var k := gagnant[u].1;
    assert l.Gagne(k, u);
    if l.Gagne(r, u) { GagnantUnique(l, r, k, u); }
  }

  // ---- Elections -----------------------------------------------------------------

  /** Most carried first, then the smallest uid. */
  predicate PlusPorte(x: (string, nat), y: (string, nat)) {
    x.1 > y.1 || (x.1 == y.1 && LexLe(x.0, y.0))
  }

  function Premier(x: (string, nat)): string { x.0 }

  /** Sorting the pairs of a group's kept uids and weights ranks the uids. */
  lemma PairesClassees(l: Lot, r: nat, paires: seq<(string, nat)>)
    requires l.Valide()
    requires multiset(Image(Premier, paires)) == multiset(l.Possedes(r))
    requires forall x | x in paires :: x.1 == l.Poids(r, x.0)
    ensures Image(Premier, Trier(PlusPorte, paires)) == l.Classement(r)
  {
    LexEstUnOrdre();
    assert Total(PlusPorte) && Transitif(PlusPorte);
    var t := Trier(PlusPorte, paires);
    TrierTrie(PlusPorte, paires);
    TrierPermute(PlusPorte, paires);
    ImagePermute(Premier, t, paires);
    var q := Image(Premier, t);
    forall i, j | 0 <= i < j < |q| ensures l.Preference(r)(q[i], q[j]) {
      assert t[i] in multiset(paires) && t[j] in multiset(paires);
      assert PlusPorte(t[i], t[j]);
    }
    ClassementUnique(l, r, q);
  }

  /** Group `r` keeps claimed uid `u` if the arbitration gave it to it. */
  method RetenirUn(ghost l: Lot, r: nat, claims: map<string, set<string>>, gagnant: map<string, (nat, nat)>, u: string) returns (garde: bool)
    requires l.Valide() && l.Racine(r) && Claims(claims, l.stock, l.ClesDe(r)) && u in claims
    requires TousEnTete(l, gagnant, |l.rows|)
    ensures garde == l.Gagne(r, u) && |claims[u]| == l.Poids(r, u)
  {
    ClaimsDuGroupe(l, claims, r, u);
    assert EnTete(l, gagnant, u, |l.rows|);
    GagnantArbitre(l, gagnant, u, r);
    garde := gagnant[u].1 == r;
  }

  /** The uids kept once those of `reste` are still to be looked at. */
  ghost function Vus(l: Lot, r: nat, claims: map<string, set<string>>, reste: set<string>): set<string>
    requires |l.rho| == |l.rows|
  {
    set u | u in claims && u !in reste && l.Gagne(r, u)
  }

  lemma VusAjoute(l: Lot, r: nat, claims: map<string, set<string>>, reste: set<string>, u: string)
    requires |l.rho| == |l.rows| && u in reste && u in claims
    ensures Vus(l, r, claims, reste - {u}) == Vus(l, r, claims, reste) + if l.Gagne(r, u) then {u} else {}
    ensures u !in Vus(l, r, claims, reste)
  {
  }

  ghost predicate Retenues(l: Lot, r: nat, claims: map<string, set<string>>, reste: set<string>, paires: seq<(string, nat)>)
    requires |l.rho| == |l.rows|
  {
    && multiset(Image(Premier, paires)) == multiset(Vus(l, r, claims, reste))
    && (forall x | x in paires :: x.1 == l.Poids(r, x.0))
  }

  lemma RienVu(l: Lot, r: nat, claims: map<string, set<string>>)
    requires |l.rho| == |l.rows|
    ensures Retenues(l, r, claims, claims.Keys, [])
  {
    assert Vus(l, r, claims, claims.Keys) == {};
  }

  lemma RetenueSuit(l: Lot, r: nat, claims: map<string, set<string>>, reste: set<string>, u: string, paires: seq<(string, nat)>)
    requires |l.rho| == |l.rows| && u in reste && u in claims && Retenues(l, r, claims, reste, paires)
    ensures !l.Gagne(r, u) ==> Retenues(l, r, claims, reste - {u}, paires)
    ensures l.Gagne(r, u) ==> Retenues(l, r, claims, reste - {u}, paires + [(u, l.Poids(r, u))])
  {
    VusAjoute(l, r, claims, reste, u);
    if l.Gagne(r, u) {
      ImageAjoute(paires, (u, l.Poids(r, u)), Vus(l, r, claims, reste));
    }
  }

  lemma ToutVu(l: Lot, r: nat, claims: map<string, set<string>>, paires: seq<(string, nat)>)
    requires |l.rho| == |l.rows| && Retenues(l, r, claims, {}, paires)
    ensures multiset(Image(Premier, paires)) == multiset(set u | u in claims && l.Gagne(r, u))
    ensures forall x | x in paires :: x.1 == l.Poids(r, x.0)
  {
    assert Vus(l, r, claims, {}) == set u | u in claims && l.Gagne(r, u);
  }

  /** The uids group `r` keeps, with their weights, in any order. */
  method Retenir(ghost l: Lot, r: nat, claims: map<string, set<string>>, gagnant: map<string, (nat, nat)>)
    returns (paires: seq<(string, nat)>)
    requires l.Valide() && l.Racine(r) && Claims(claims, l.stock, l.ClesDe(r))
    requires TousEnTete(l, gagnant, |l.rows|)
    ensures multiset(Image(Premier, paires)) == multiset(set u | u in claims && l.Gagne(r, u))
    ensures forall x | x in paires :: x.1 == l.Poids(r, x.0)
  {
    paires := [];
    var reste := claims.Keys;
    RienVu(l, r, claims);
    while reste != {}
      invariant reste <= claims.Keys
      invariant Retenues(l, r, claims, reste, paires)
    {
      var u :| u in reste;
      var garde := RetenirUn(l, r, claims, gagnant, u);
      RetenueSuit(l, r, claims, reste, u, paires);
      if garde {
        paires := paires + [(u, |claims[u]|)];
      }
      reste := reste - {u};
    }
    ToutVu(l, r, claims, paires);
  }

  lemma ImageAjoute(paires: seq<(string, nat)>, x: (string, nat), vus: set<string>)
    requires multiset(Image(Premier, paires)) == multiset(vus) && x.0 !in vus
    ensures multiset(Image(Premier, paires + [x])) == multiset(vus + {x.0})
  {
    ImageConcat(Premier, paires, [x]);
    assert Image(Premier, [x]) == [x.0];
  }

  method Classer(ghost l: Lot, r: nat, claims: map<string, set<string>>, gagnant: map<string, (nat, nat)>)
    returns (possedes: seq<string>)
    requires l.Valide() && l.Racine(r) && Claims(claims, l.stock, l.ClesDe(r))
    requires TousEnTete(l, gagnant, |l.rows|)
    ensures possedes == l.Classement(r)
  {
    var paires := Retenir(l, r, claims, gagnant);
    RetenusPossedes(l, r, claims);
    PairesClassees(l, r, paires);
    possedes := Image(Premier, Trier(PlusPorte, paires));
  }

  lemma RetenusPossedes(l: Lot, r: nat, claims: map<string, set<string>>)
    requires l.Valide() && Claims(claims, l.stock, l.ClesDe(r))
    ensures (set u | u in claims && l.Gagne(r, u)) == l.Possedes(r)
  {
    forall u | l.Gagne(r, u) ensures u in claims && u in l.stock.Values {
      ClaimsDuGroupe(l, claims, r, u);
      var c :| c in l.Porteurs(r, u);
      assert l.stock[c] in l.stock.Values;
    }
  }

  /** One group's elected uid and the merges it decides. */
  method ElireUn(ctx: Contexte, ghost l: Lot, r: nat, fondateur: AnnonceBrute, claims: map<string, set<string>>, gagnant: map<string, (nat, nat)>)
    returns (uid: string, fusions: seq<Fusion>)
    requires l.Valide() && l.Racine(r) && l.rows[r] == fondateur && Claims(claims, l.stock, l.ClesDe(r))
    requires TousEnTete(l, gagnant, |l.rows|)
    ensures uid == l.Elu(ctx, r) && fusions == FusionsDe(l.Classement(r), uid)
  {
    var possedes := Classer(l, r, claims, gagnant);
    uid := if possedes == [] then Frapper(ctx, fondateur) else possedes[0];
    fusions := if possedes == [] then [] else VersElu(possedes[1..], uid);
  }

  lemma ElectionSuivante(rho: seq<nat>, cs: seq<seq<string>>, elus: seq<string>, r: nat, idx: seq<nat>, uid: string, fs: seq<Fusion>)
    requires |cs| == |elus| == |rho| && r < |rho| && rho[r] == r
    requires uid == elus[r] && fs == FusionsDe(cs[r], uid) && idx == Membres(rho, r, |rho|)
    ensures Elections(rho, elus, r + 1) == Elections(rho, elus, r) + [(uid, idx)]
    ensures Fusions(rho, cs, elus, r + 1) == Fusions(rho, cs, elus, r) + fs
  {
  }

  lemma PasDElection(rho: seq<nat>, cs: seq<seq<string>>, elus: seq<string>, r: nat)
    requires |cs| == |elus| == |rho| && r < |rho| && rho[r] != r
    ensures Elections(rho, elus, r + 1) == Elections(rho, elus, r)
    ensures Fusions(rho, cs, elus, r + 1) == Fusions(rho, cs, elus, r)
  {
  }

  /** A root's group elects. */
  method ElireGroupe(ctx: Contexte, ghost l: Lot, rows: seq<AnnonceBrute>, r: nat, rv: map<nat, map<string, set<string>>>,
                     gagnant: map<string, (nat, nat)>)
    returns (uid: string, fs: seq<Fusion>)
    requires l.Valide() && l.rows == rows && r < |rows| && l.Racine(r) && BonnesRevendications(l, rv, |rows|)
    requires TousEnTete(l, gagnant, |rows|)
    ensures uid == Elus(l, ctx)[r] && fs == FusionsDe(Classements(l)[r], uid)
  {
    uid, fs := ElireUn(ctx, l, r, rows[r], rv[r], gagnant);
  }

  method Elire(ctx: Contexte, ghost l: Lot, rows: seq<AnnonceBrute>, membres: map<nat, seq<nat>>,
               rv: map<nat, map<string, set<string>>>, gagnant: map<string, (nat, nat)>)
    returns (elections: seq<Election>, fusions: seq<Fusion>)
    requires l.Valide() && l.rows == rows && BonsMembres(membres, l.rho, |rows|) && BonnesRevendications(l, rv, |rows|)
    requires TousEnTete(l, gagnant, |rows|)
    ensures elections == Elections(l.rho, Elus(l, ctx), |l.rho|) && fusions == FusionsDuLot(ctx, l)
  {
    elections, fusions := [], [];
    ghost var (rho, elus, cs) := (l.rho, Elus(l, ctx), Classements(l));
    MembresDesRacines(membres, rho);
    for r := 0 to |rows|
      invariant elections == Elections(rho, elus, r) && fusions == Fusions(rho, cs, elus, r)
    {
      if r in membres {
        var uid, fs := ElireGroupe(ctx, l, rows, r, rv, gagnant);
        ElectionSuivante(rho, cs, elus, r, membres[r], uid, fs);
        elections, fusions := elections + [(uid, membres[r])], fusions + fs;
      } else {
        PasDElection(rho, cs, elus, r);
      }
    }
  }

  /** The place of each uid already given a line. */
  ghost predicate Places(parUid: map<string, nat>, rs: seq<Election>) {
    forall u: string :: if u in parUid then parUid[u] == Place(rs, u) < |rs| else Place(rs, u) == |rs|
  }

  lemma {:induction false} PlaceEn(rs: seq<Election>, u: string, k: nat)
    requires k <= |rs| && (k < |rs| ==> rs[k].0 == u) && forall j | 0 <= j < k :: rs[j].0 != u
    ensures Place(rs, u) == k
  {
    if k > 0 { PlaceEn(rs[1..], u, k - 1); }
  }

  lemma PlacesApres(parUid: map<string, nat>, rs: seq<Election>, e: Election)
    requires Places(parUid, rs)
    ensures Places(if e.0 in parUid then parUid else parUid[e.0 := |rs|], ReplierUn(rs, e))
  {
    var qs := ReplierUn(rs, e);
    assert e.0 in parUid <==> Place(rs, e.0) < |rs|;
    forall u: string ensures Place(qs, u) == if Place(rs, u) < |rs| || u == e.0 then Place(rs, u) else |qs| {
      assert forall j | 0 <= j < |rs| :: qs[j].0 == rs[j].0;
      PlaceEn(qs, u, if Place(rs, u) < |rs| || u == e.0 then Place(rs, u) else |qs|);
    }
  }

  method ReplierElections(elections: seq<Election>) returns (repliees: seq<Election>)
    ensures repliees == Replier(elections)
  {
    var parUid: map<string, nat> := map[];
    repliees := [];
    for k := 0 to |elections|
      invariant repliees == Replier(elections[..k])
      invariant Places(parUid, repliees)
    {
      assert elections[..k + 1][..k] == elections[..k];
      var (uid, idx) := elections[k];
      PlacesApres(parUid, repliees, elections[k]);
      if uid in parUid {
        var p := parUid[uid];
        repliees := repliees[p := (uid, Trier(Croissant, repliees[p].1 + idx))];
      } else {
        assert Place(repliees, uid) == |repliees|;
        parUid := parUid[uid := |repliees|];
        repliees := repliees + [(uid, idx)];
      }
    }
    assert elections[..|elections|] == elections;
  }

  // ---- Lines ----------------------------------------------------------------------

  lemma {:induction false} IndicesPrefixe(rs: seq<Election>, k: nat)
    requires k <= |rs|
    ensures Indices(rs[..k]) <= Indices(rs)
  {
    if k == |rs| {
      assert rs[..k] == rs;
    } else {
      var d := rs[..|rs|-1];
      assert rs[..k] == d[..k];
      IndicesPrefixe(d, k);
    }
  }

  /** A channel about to be moved into its line has not been moved yet. */
  lemma PasEncorePris(rs: seq<Election>, n: nat, k: nat, j: nat)
    requires Repartition(rs, n) && k < |rs| && j < |rs[k].1|
    ensures rs[k].1[j] !in Indices(rs[..k]) + rs[k].1[..j]
  {
    var i := rs[k].1[j];
    var (a, b, c) := (Indices(rs[..k]), rs[k].1[..j], rs[k].1[j + 1..]);
    IndicesPrefixe(rs, k + 1);
    assert rs[..k + 1][..k] == rs[..k];
    assert rs[k].1 == b + [i] + c;
    var suite := Indices(rs)[|Indices(rs[..k + 1])|..];
    assert Indices(rs) == (a + b) + ([i] + (c + suite));
    DiscretCompte(n, i);
    assert multiset(Indices(rs)) == multiset(a + b) + multiset([i]) + multiset(c + suite);
  }

  /** What is left of the rows once those of `pris` are taken. */
  ghost predicate Restent(restants: array<Option<AnnonceBrute>>, rows: seq<AnnonceBrute>, pris: seq<nat>)
    reads restants
  {
    restants.Length == |rows| && forall i | 0 <= i < |rows| :: restants[i] == if i in pris then None else Some(rows[i])
  }

  /** The rows of one line, taken; none is taken already. */
  method Prendre(rows: seq<AnnonceBrute>, repliees: seq<Election>, k: nat, restants: array<Option<AnnonceBrute>>)
    returns (sources: seq<AnnonceBrute>)
    requires Repartition(repliees, |rows|) && k < |repliees| && Restent(restants, rows, Indices(repliees[..k]))
    modifies restants
    ensures (forall j | 0 <= j < |repliees[k].1| :: repliees[k].1[j] < |rows|) && sources == Choisir(rows, repliees[k].1)
    ensures Restent(restants, rows, Indices(repliees[..k]) + repliees[k].1)
  {
    var idx := repliees[k].1;
    ghost var deja := Indices(repliees[..k]);
    sources := [];
    assert deja + idx[..0] == deja;
    for j := 0 to |idx|
      invariant |sources| == j && (forall i | 0 <= i < j :: idx[i] < |rows|) && sources == Choisir(rows, idx[..j])
      invariant Restent(restants, rows, deja + idx[..j])
    {
      PasEncorePris(repliees, |rows|, k, j);
      var pris := restants[idx[j]];
      restants[idx[j]] := None;
      assert pris.Some?;
      sources := sources + [pris.value];
      assert idx[..j + 1] == idx[..j] + [idx[j]];
    }
    assert idx[..|idx|] == idx;
  }

  method Emettre(ctx: Contexte, rows: seq<AnnonceBrute>, repliees: seq<Election>, jour: int)
    returns (annonces: seq<AnnonceCanonique>)
    requires Repartition(repliees, |rows|) && forall r | r in rows :: Affichable(ctx, r)
    ensures Lignes(ctx, rows, repliees, jour) == Some(annonces)
  {
    var restants: array<Option<AnnonceBrute>> := new Option<AnnonceBrute>[|rows|](i requires 0 <= i < |rows| => Some(rows[i]));
    annonces := [];
    for k := 0 to |repliees|
      invariant Lignes(ctx, rows, repliees[..k], jour) == Some(annonces)
      invariant Restent(restants, rows, Indices(repliees[..k]))
    {
      var sources := Prendre(rows, repliees, k, restants);
      assert repliees[..k + 1][..k] == repliees[..k];
      FusionnerAboutit(ctx, repliees[k].0, sources, jour);
      annonces := annonces + [Fusionner(ctx, repliees[k].0, sources, jour).value];
    }
    assert repliees[..|repliees|] == repliees;
  }

  /** Reconciles a batch against the stock. */
  method Canonicaliser(ctx: Contexte, batch: seq<AnnonceBrute>, stock: Stock, jour: int) returns (c: Canonicalisation)
    ensures Canonique(ctx, batch, stock, jour) == Some(c)
  {
    var rows := Preparer(ctx, batch);
    ghost var l := LotDe(ctx, batch, stock);
    var groupes := Grouper(ctx, rows);
    assert groupes.Classes() == l.rho;
    var membres := Rassembler(groupes);
    var rv := RevendiquerTout(l, rows, membres, stock);
    var gagnant := Arbitrer(l, |rows|, rv);
    var elections, fusions := Elire(ctx, l, rows, membres, rv, gagnant);
    var repliees := ReplierElections(elections);
    assert repliees == Repliees(ctx, l);
    var annonces := Emettre(ctx, rows, repliees, jour);
    c := Canonicalisation(annonces, fusions);
  }
}
