/** What the soft phase joins: the key index with its reassignments does what comparing
    each channel with the last earlier one of the same key does; groups are made of
    chains of shared keys, and of whole chains where no engine stands in the way. */
module Composantes {
  import opened Ordre
  import opened Annonces
  import opened UnionFind
  import opened Regroupement

  // ---- Soft keys, written out ----------------------------------------------------

  /** `cle` is the primary or the fallback key of `b`. */
  ghost predicate Porte(ctx: Contexte, b: AnnonceBrute, cle: string) {
    ClePrimaire(ctx, b) == Some(cle) || CleRepli(ctx, b) == Some(cle)
  }

  /** Two channels have one primary key, or one fallback key. */
  ghost predicate MemeCleMolle(ctx: Contexte, a: AnnonceBrute, b: AnnonceBrute) {
    || (ClePrimaire(ctx, a).Some? && ClePrimaire(ctx, a) == ClePrimaire(ctx, b))
    || (CleRepli(ctx, a).Some? && CleRepli(ctx, a) == CleRepli(ctx, b))
  }

  /** The last channel before `k` with that key. */
  ghost function Precedent(ctx: Contexte, rows: seq<AnnonceBrute>, k: nat, cle: string): (r: Option<nat>)
    requires k <= |rows|
    ensures r.Some? ==> r.value < k && Porte(ctx, rows[r.value], cle) && forall j | r.value < j < k :: !Porte(ctx, rows[j], cle)
    ensures r.None? ==> forall j | 0 <= j < k :: !Porte(ctx, rows[j], cle)
  {
    if k == 0 then None
    else if Porte(ctx, rows[k - 1], cle) then Some(k - 1)
    else Precedent(ctx, rows, k - 1, cle)
  }

  lemma PortentSsi(ctx: Contexte, a: AnnonceBrute, b: AnnonceBrute, cle: string)
    requires Porte(ctx, a, cle) && Porte(ctx, b, cle)
    ensures MemeCleMolle(ctx, a, b)
  {
    ClesDisjointes(ctx, cle, a, b);
    ClesDisjointes(ctx, cle, b, a);
  }

  ghost predicate Exacte(cle: string) {
    exists d :: cle == CleSrc(d)
  }

  lemma MolleNonExacte(ctx: Contexte, b: AnnonceBrute, cle: string)
    requires Porte(ctx, b, cle)
    ensures !Exacte(cle)
  {
    if d :| cle == CleSrc(d) { ClesDisjointes(ctx, d, b, b); }
  }

  // ---- The soft phase without its index ---------------------------------------------

  /** Channel `i` against the last earlier channel of the key: the two groups made one,
      unless they share an engine. */
  ghost function Rapprocher(ctx: Contexte, rows: seq<AnnonceBrute>, rho: seq<nat>, i: nat, cle: Option<string>): (r: seq<nat>)
    requires |rho| == |rows| && Partition(rho) && i < |rows|
    ensures |r| == |rows| && Partition(r)
  {
    if cle.None? then rho else
    match Precedent(ctx, rows, i, cle.value)
    case None => rho
    case Some(j) =>
      if Compatibles(Noms(rows), rho, i, j) then
        JoindreFondDeuxClasses(rho, i, j);
        Joindre(rho, i, j)
      else rho
  }

  ghost function RapprocherLigne(ctx: Contexte, rows: seq<AnnonceBrute>, rho: seq<nat>, i: nat): (r: seq<nat>)
    requires |rho| == |rows| && Partition(rho) && i < |rows|
    ensures |r| == |rows| && Partition(r)
  {
    Rapprocher(ctx, rows, Rapprocher(ctx, rows, rho, i, ClePrimaire(ctx, rows[i])), i, CleRepli(ctx, rows[i]))
  }

  /** From the exact classes, channel after channel, primary key then fallback. */
  ghost function Rapproches(ctx: Contexte, rows: seq<AnnonceBrute>, k: nat): (r: seq<nat>)
    requires k <= |rows|
    ensures |r| == |rows| && Partition(r)
  {
    if k == 0 then ClassesExactes(rows) else RapprocherLigne(ctx, rows, Rapproches(ctx, rows, k - 1), k - 1)
  }

  // ---- The index points into the group of the last carrier ----------------------------

  /** Where the index must lead for `cle` once the channels before `k` are done. */
  ghost predicate MeneA(ctx: Contexte, rows: seq<AnnonceBrute>, e: Etat, k: nat, cle: string)
    requires Bon(e, |rows|) && k <= |rows|
  {
    match Precedent(ctx, rows, k, cle)
    case None => cle !in e.parCle
    case Some(j) => cle in e.parCle && e.rho[e.parCle[cle]] == e.rho[j]
  }

  /** So for every soft key, but that those of `faits` already lead to channel `k`. */
  ghost predicate Index(ctx: Contexte, rows: seq<AnnonceBrute>, e: Etat, k: nat, faits: set<string>)
    requires Bon(e, |rows|) && k <= |rows|
  {
    forall cle | !Exacte(cle) ::
      if cle in faits && k < |rows| then cle in e.parCle && e.rho[e.parCle[cle]] == e.rho[k] else MeneA(ctx, rows, e, k, cle)
  }

  lemma JoindreSelonClasses(rho: seq<nat>, i: nat, a: nat, b: nat)
    requires Partition(rho) && i < |rho| && a < |rho| && b < |rho| && rho[a] == rho[b]
    ensures Joindre(rho, i, a) == Joindre(rho, i, b)
  {
  }

  lemma PasMouRapproche(ctx: Contexte, rows: seq<AnnonceBrute>, e: Etat, i: nat, cle: string, faits: set<string>)
    requires Bon(e, |rows|) && i < |rows| && !Exacte(cle) && cle !in faits && Index(ctx, rows, e, i, faits)
    ensures PasMou(Noms(rows), e, i, cle).rho == Rapprocher(ctx, rows, e.rho, i, Some(cle))
  {
    assert MeneA(ctx, rows, e, i, cle);
    if Precedent(ctx, rows, i, cle).Some? {
      JoindreSelonClasses(e.rho, i, e.parCle[cle], Precedent(ctx, rows, i, cle).value);
    }
  }

  lemma PasMouCleFaite(noms: seq<string>, e: Etat, i: nat, cle: string)
    requires Bon(e, |noms|) && i < |noms|
    ensures var r := PasMou(noms, e, i, cle); cle in r.parCle && r.rho[r.parCle[cle]] == r.rho[i]
  {
    if cle in e.parCle { JoindreFondDeuxClasses(e.rho, i, e.parCle[cle]); }
  }

  lemma PasMouAutre(noms: seq<string>, e: Etat, i: nat, cle: string, c: string)
    requires Bon(e, |noms|) && i < |noms| && c != cle
    ensures var r := PasMou(noms, e, i, cle); (c in r.parCle <==> c in e.parCle) && (c in e.parCle ==> r.parCle[c] == e.parCle[c])
  {
  }

  lemma PasMouGarde(noms: seq<string>, e: Etat, i: nat, cle: string, a: nat, b: nat)
    requires Bon(e, |noms|) && i < |noms| && a < |noms| && b < |noms| && e.rho[a] == e.rho[b]
    ensures PasMou(noms, e, i, cle).rho[a] == PasMou(noms, e, i, cle).rho[b]
  {
    if cle in e.parCle { JoindreFondDeuxClasses(e.rho, i, e.parCle[cle]); }
  }

  lemma PasMouIndex(ctx: Contexte, rows: seq<AnnonceBrute>, e: Etat, i: nat, cle: string, faits: set<string>)
    requires Bon(e, |rows|) && i < |rows| && Index(ctx, rows, e, i, faits)
    ensures Index(ctx, rows, PasMou(Noms(rows), e, i, cle), i, faits + {cle})
  {
    var r := PasMou(Noms(rows), e, i, cle);
    PasMouCleFaite(Noms(rows), e, i, cle);
    forall c | !Exacte(c)
      ensures if c in faits + {cle} then c in r.parCle && r.rho[r.parCle[c]] == r.rho[i] else MeneA(ctx, rows, r, i, c)
    {
      if c != cle {
        PasMouAutre(Noms(rows), e, i, cle, c);
        if c in faits {
          PasMouGarde(Noms(rows), e, i, cle, e.parCle[c], i);
        } else {
          assert MeneA(ctx, rows, e, i, c);
          if Precedent(ctx, rows, i, c).Some? {
            PasMouGarde(Noms(rows), e, i, cle, e.parCle[c], Precedent(ctx, rows, i, c).value);
          }
        }
      }
    }
  }

  /** One soft key, present or not. */
  ghost function PasOption(noms: seq<string>, e: Etat, i: nat, cle: Option<string>): (r: Etat)
    requires Bon(e, |noms|) && i < |noms|
    ensures Bon(r, |noms|)
  {
    if cle.None? then e else PasMou(noms, e, i, cle.value)
  }

  function CleFaite(cle: Option<string>): set<string> {
    if cle.None? then {} else {cle.value}
  }

  lemma PasOptionSuit(ctx: Contexte, rows: seq<AnnonceBrute>, e: Etat, i: nat, cle: Option<string>, faits: set<string>)
    requires Bon(e, |rows|) && i < |rows| && Index(ctx, rows, e, i, faits)
    requires cle.Some? ==> !Exacte(cle.value) && cle.value !in faits
    ensures PasOption(Noms(rows), e, i, cle).rho == Rapprocher(ctx, rows, e.rho, i, cle)
    ensures Index(ctx, rows, PasOption(Noms(rows), e, i, cle), i, faits + CleFaite(cle))
  {
    if cle.Some? {
      PasMouRapproche(ctx, rows, e, i, cle.value, faits);
      PasMouIndex(ctx, rows, e, i, cle.value, faits);
    } else {
      assert faits + {} == faits;
    }
  }

  lemma ClesMollesDeux(noms: seq<string>, e: Etat, i: nat, p: Option<string>, f: Option<string>)
    requires Bon(e, |noms|) && i < |noms|
    ensures ClesMollesDe(noms, e, i, Presents([p, f])) == PasOption(noms, PasOption(noms, e, i, p), i, f)
  {
    PresentsDeux(p, f);
    if p.Some? { ClesMollesUne(noms, e, i, p.value); }
    if f.Some? { ClesMollesUne(noms, e, i, f.value); }
    if p.Some? && f.Some? { assert [p.value, f.value][..1] == [p.value]; }
  }

  lemma PresentsDeux(p: Option<string>, f: Option<string>)
    ensures Presents([p, f]) == (if p.Some? then [p.value] else []) + (if f.Some? then [f.value] else [])
  {
    assert [p, f][1..] == [f] && [f][1..] == [];
    assert Presents([f]) == (if f.Some? then [f.value] else []) + Presents([]);
  }

  lemma ClesMollesUne(noms: seq<string>, e: Etat, i: nat, cle: string)
    requires Bon(e, |noms|) && i < |noms|
    ensures ClesMollesDe(noms, e, i, [cle]) == PasMou(noms, e, i, cle)
  {
    assert [cle][..0] == [];
  }

  lemma LigneSuivie(ctx: Contexte, rows: seq<AnnonceBrute>, e: Etat, i: nat)
    requires Bon(e, |rows|) && i < |rows| && Index(ctx, rows, e, i, {})
    ensures var r := ClesMollesDe(Noms(rows), e, i, ClesMolles(ctx, rows[i]));
            && r.rho == RapprocherLigne(ctx, rows, e.rho, i)
            && Index(ctx, rows, r, i, CleFaite(ClePrimaire(ctx, rows[i])) + CleFaite(CleRepli(ctx, rows[i])))
  {
    var (p, f) := (ClePrimaire(ctx, rows[i]), CleRepli(ctx, rows[i]));
    ClesMollesDeux(Noms(rows), e, i, p, f);
    if p.Some? { MolleNonExacte(ctx, rows[i], p.value); }
    if f.Some? { MolleNonExacte(ctx, rows[i], f.value); ClesDisjointes(ctx, "", rows[i], rows[i]); }
    PasOptionSuit(ctx, rows, e, i, p, {});
    assert {} + CleFaite(p) == CleFaite(p);
    PasOptionSuit(ctx, rows, PasOption(Noms(rows), e, i, p), i, f, CleFaite(p));
  }

  /** Once its keys are done, channel `i` is the last carrier of each. */
  lemma IndexAvance(ctx: Contexte, rows: seq<AnnonceBrute>, e: Etat, i: nat)
    requires Bon(e, |rows|) && i < |rows|
    requires Index(ctx, rows, e, i, CleFaite(ClePrimaire(ctx, rows[i])) + CleFaite(CleRepli(ctx, rows[i])))
    ensures Index(ctx, rows, e, i + 1, {})
  {
    forall cle | !Exacte(cle) ensures MeneA(ctx, rows, e, i + 1, cle) {
      if Porte(ctx, rows[i], cle) {
        assert cle in CleFaite(ClePrimaire(ctx, rows[i])) + CleFaite(CleRepli(ctx, rows[i]));
      } else {
        assert cle !in CleFaite(ClePrimaire(ctx, rows[i])) + CleFaite(CleRepli(ctx, rows[i]));
        assert MeneA(ctx, rows, e, i, cle);
      }
    }
  }

  // ---- After the exact phase the index holds exact keys alone -------------------------

  ghost predicate ToutesExactes(e: Etat) {
    forall c | c in e.parCle :: Exacte(c)
  }

  lemma {:induction false} ClesExactesExactes(e: Etat, n: nat, i: nat, cles: seq<string>)
    requires Bon(e, n) && i < n && ToutesExactes(e)
    ensures ToutesExactes(ClesExactes(e, n, i, cles))
    decreases |cles|
  {
    if cles != [] {
      ClesExactesExactes(e, n, i, cles[..|cles|-1]);
      PasExactExact(ClesExactes(e, n, i, cles[..|cles|-1]), n, i, cles[|cles|-1]);
    }
  }

  lemma PasExactExact(e: Etat, n: nat, i: nat, cle: string)
    requires Bon(e, n) && i < n && ToutesExactes(e)
    ensures ToutesExactes(PasExact(e, n, i, cle))
  {
    assert Exacte(CleSrc(cle));
  }

  lemma {:induction false} EtatsExactsExacts(rows: seq<AnnonceBrute>, es: seq<Etat>, k: nat)
    requires Exacts(rows, es) && k <= |rows|
    ensures ToutesExactes(es[k])
    decreases k
  {
    if k > 0 {
      EtatsExactsExacts(rows, es, k - 1);
      ClesExactesExactes(es[k - 1], |rows|, k - 1, Cles(rows[k - 1]));
    }
  }

  lemma PhaseExacteExacte(rows: seq<AnnonceBrute>, k: nat)
    requires k <= |rows|
    ensures ToutesExactes(PhaseExacte(rows, k))
  {
    var es := EtatsExacts(rows, k);
    EtatsExactsExacts(rows, es, k);
  }

  lemma IndexDebute(ctx: Contexte, rows: seq<AnnonceBrute>)
    ensures Index(ctx, rows, PhaseExacte(rows, |rows|), 0, {})
  {
    PhaseExacteExacte(rows, |rows|);
  }

  /** The partitions of `Rapproches`, channel after channel. */
  ghost predicate Suite(ctx: Contexte, rows: seq<AnnonceBrute>, rs: seq<seq<nat>>) {
    && |rs| == |rows| + 1 && (forall k: nat | k <= |rows| :: |rs[k]| == |rows| && Partition(rs[k]))
    && forall k: nat | k < |rows| :: rs[k + 1] == RapprocherLigne(ctx, rows, rs[k], k)
  }

  lemma RapprochesPas(ctx: Contexte, rows: seq<AnnonceBrute>, k: nat)
    requires k < |rows|
    ensures Rapproches(ctx, rows, k + 1) == RapprocherLigne(ctx, rows, Rapproches(ctx, rows, k), k)
  {
  }

  lemma SuiteDe(ctx: Contexte, rows: seq<AnnonceBrute>) returns (rs: seq<seq<nat>>)
    ensures Suite(ctx, rows, rs) && rs[0] == ClassesExactes(rows) && rs[|rows|] == Rapproches(ctx, rows, |rows|)
  {
    rs := seq(|rows| + 1, k requires 0 <= k <= |rows| => Rapproches(ctx, rows, k));
    forall k: nat | k < |rows| ensures rs[k + 1] == RapprocherLigne(ctx, rows, rs[k], k) { RapprochesPas(ctx, rows, k); }
  }

  ghost predicate Suivi(ctx: Contexte, rows: seq<AnnonceBrute>, e: Etat, rho: seq<nat>, k: nat) {
    Bon(e, |rows|) && k <= |rows| && e.rho == rho && Index(ctx, rows, e, k, {})
  }

  lemma SuiviPas(ctx: Contexte, rows: seq<AnnonceBrute>, e: Etat, rho: seq<nat>, k: nat)
    requires k < |rows| && Suivi(ctx, rows, e, rho, k)
    ensures Suivi(ctx, rows, ClesMollesDe(Noms(rows), e, k, ClesMolles(ctx, rows[k])), RapprocherLigne(ctx, rows, rho, k), k + 1)
  {
    LigneSuivie(ctx, rows, e, k);
    IndexAvance(ctx, rows, ClesMollesDe(Noms(rows), e, k, ClesMolles(ctx, rows[k])), k);
  }

  lemma UnPasSuivi(ctx: Contexte, rows: seq<AnnonceBrute>, es: seq<Etat>, rs: seq<seq<nat>>, k: nat)
    requires Mous(ctx, rows, Noms(rows), es) && Suite(ctx, rows, rs) && k < |rows| && Suivi(ctx, rows, es[k], rs[k], k)
    ensures Suivi(ctx, rows, es[k + 1], rs[k + 1], k + 1)
  {
    SuiviPas(ctx, rows, es[k], rs[k], k);
  }

  lemma {:induction false} MousSuivis(ctx: Contexte, rows: seq<AnnonceBrute>, es: seq<Etat>, rs: seq<seq<nat>>, k: nat)
    requires Mous(ctx, rows, Noms(rows), es) && Suite(ctx, rows, rs) && Suivi(ctx, rows, es[0], rs[0], 0) && k <= |rows|
    ensures Suivi(ctx, rows, es[k], rs[k], k)
    decreases k
  {
    if k > 0 {
      MousSuivis(ctx, rows, es, rs, k - 1);
      UnPasSuivi(ctx, rows, es, rs, k - 1);
    }
  }

  /** The groups are those of the comparison with the last earlier carrier. */
  lemma ClassesRapprochees(ctx: Contexte, rows: seq<AnnonceBrute>)
    ensures Classes(ctx, rows) == Rapproches(ctx, rows, |rows|)
  {
    var es := EtatsMous(ctx, rows, |rows|);
    var rs := SuiteDe(ctx, rows);
    MolleDebute(ctx, rows);
    IndexDebute(ctx, rows);
    MousSuivis(ctx, rows, es, rs, |rows|);
  }

  // ---- Groups are made of chains ------------------------------------------------------

  /** An own uid or a join key of the one is an own uid or a join key of the other. */
  ghost predicate MemeCleExacte(a: AnnonceBrute, b: AnnonceBrute) {
    exists c :: PorteExacte(a, c) && PorteExacte(b, c)
  }

  predicate PorteExacte(b: AnnonceBrute, cle: string) {
    cle == b.sourceUid || cle in b.clesJointure
  }

  ghost function LienExact(rows: seq<AnnonceBrute>): (nat, nat) -> bool {
    (i: nat, j: nat) => i < |rows| && j < |rows| && MemeCleExacte(rows[i], rows[j])
  }

  /** Two channels of the batch that share a key, exact or soft. */
  ghost function Lien(ctx: Contexte, rows: seq<AnnonceBrute>): (nat, nat) -> bool {
    (i: nat, j: nat) => i < |rows| && j < |rows| && (MemeCleExacte(rows[i], rows[j]) || MemeCleMolle(ctx, rows[i], rows[j]))
  }

  /** A chain of shared keys leads from `i` to `j`. */
  ghost predicate Enchaines(ctx: Contexte, rows: seq<AnnonceBrute>, i: nat, j: nat) {
    EnChaine(Lien(ctx, rows), i, j)
  }

  lemma PartageSsi(rows: seq<AnnonceBrute>, i: nat, j: nat)
    requires i < |rows| && j < |rows|
    ensures PartagentUneCle(rows, i, j) <==> MemeCleExacte(rows[i], rows[j])
  {
    if PartagentUneCle(rows, i, j) {
      var c :| c in Cles(rows[i]) && c in Cles(rows[j]);
      assert PorteExacte(rows[i], c) && PorteExacte(rows[j], c);
    }
    if MemeCleExacte(rows[i], rows[j]) {
      var c :| PorteExacte(rows[i], c) && PorteExacte(rows[j], c);
      assert c in Cles(rows[i]) && c in Cles(rows[j]);
    }
  }

  lemma ChaineElargie(lien: (nat, nat) -> bool, large: (nat, nat) -> bool, i: nat, j: nat)
    requires EnChaine(lien, i, j) && forall a, b :: lien(a, b) ==> large(a, b)
    ensures EnChaine(large, i, j)
  {
    var p :| ChaineDe(lien, p, i, j);
    forall k | 0 <= k < |p| - 1 ensures large(p[k], p[k + 1]) { assert lien(p[k], p[k + 1]); }
    assert ChaineDe(large, p, i, j);
  }

  lemma ReliesSsi(rows: seq<AnnonceBrute>, i: nat, j: nat)
    ensures Relies(rows, i, j) <==> EnChaine(LienExact(rows), i, j)
  {
    forall a: nat, b: nat ensures Partage(rows)(a, b) <==> LienExact(rows)(a, b) {
      if a < |rows| && b < |rows| { PartageSsi(rows, a, b); }
    }
    if Relies(rows, i, j) { ChaineElargie(Partage(rows), LienExact(rows), i, j); }
    if EnChaine(LienExact(rows), i, j) { ChaineElargie(LienExact(rows), Partage(rows), i, j); }
  }

  lemma EnchainesTransitive(ctx: Contexte, rows: seq<AnnonceBrute>, i: nat, j: nat, k: nat)
    requires Enchaines(ctx, rows, i, j) && Enchaines(ctx, rows, j, k)
    ensures Enchaines(ctx, rows, i, k)
  {
    ChaineTransitive(Lien(ctx, rows), i, j, k);
  }

  lemma EnchainesSymetrique(ctx: Contexte, rows: seq<AnnonceBrute>, i: nat, j: nat)
    requires Enchaines(ctx, rows, i, j)
    ensures Enchaines(ctx, rows, j, i)
  {
    forall a: nat, b: nat | Lien(ctx, rows)(a, b) ensures Lien(ctx, rows)(b, a) {
      if c :| PorteExacte(rows[a], c) && PorteExacte(rows[b], c) {}
    }
    ChaineSymetrique(Lien(ctx, rows), i, j);
  }

  lemma UnLien(ctx: Contexte, rows: seq<AnnonceBrute>, i: nat, j: nat)
    requires Lien(ctx, rows)(i, j)
    ensures Enchaines(ctx, rows, i, j) && Enchaines(ctx, rows, j, i)
  {
    assert ChaineDe(Lien(ctx, rows), [i, j], i, j);
    EnchainesSymetrique(ctx, rows, i, j);
  }

  ghost predicate Fondee(ctx: Contexte, rows: seq<AnnonceBrute>, rho: seq<nat>) {
    |rho| == |rows| && Partition(rho) && forall a, b | 0 <= a < |rho| && 0 <= b < |rho| && rho[a] == rho[b] :: Enchaines(ctx, rows, a, b)
  }

  lemma ExactesFondees(ctx: Contexte, rows: seq<AnnonceBrute>)
    ensures Fondee(ctx, rows, ClassesExactes(rows))
  {
    var rho := ClassesExactes(rows);
    forall a, b | 0 <= a < |rho| && 0 <= b < |rho| && rho[a] == rho[b] ensures Enchaines(ctx, rows, a, b) {
      ExactesSsiChaine(rows, a, b);
      ReliesSsi(rows, a, b);
      ChaineElargie(LienExact(rows), Lien(ctx, rows), a, b);
    }
  }

  lemma JoindreFondee(ctx: Contexte, rows: seq<AnnonceBrute>, rho: seq<nat>, i: nat, j: nat)
    requires Fondee(ctx, rows, rho) && Lien(ctx, rows)(i, j)
    ensures Fondee(ctx, rows, Joindre(rho, i, j))
  {
    JoindreFondDeuxClasses(rho, i, j);
    UnLien(ctx, rows, i, j);
    var r := Joindre(rho, i, j);
    forall a, b | 0 <= a < |r| && 0 <= b < |r| && r[a] == r[b] ensures Enchaines(ctx, rows, a, b) {
      if rho[a] != rho[b] {
        var (x, y) := if rho[a] == rho[i] then (i, j) else (j, i);
        EnchainesTransitive(ctx, rows, a, x, y);
        EnchainesTransitive(ctx, rows, a, y, b);
      }
    }
  }

  lemma RapprocherFondee(ctx: Contexte, rows: seq<AnnonceBrute>, rho: seq<nat>, i: nat, cle: Option<string>)
    requires Fondee(ctx, rows, rho) && i < |rows| && (cle.Some? ==> Porte(ctx, rows[i], cle.value))
    ensures Fondee(ctx, rows, Rapprocher(ctx, rows, rho, i, cle))
  {
    if cle.Some? && Precedent(ctx, rows, i, cle.value).Some? {
      var j := Precedent(ctx, rows, i, cle.value).value;
      PortentSsi(ctx, rows[i], rows[j], cle.value);
      JoindreFondee(ctx, rows, rho, i, j);
    }
  }

  lemma LigneFondee(ctx: Contexte, rows: seq<AnnonceBrute>, rho: seq<nat>, i: nat)
    requires Fondee(ctx, rows, rho) && i < |rows|
    ensures Fondee(ctx, rows, RapprocherLigne(ctx, rows, rho, i))
  {
    RapprocherFondee(ctx, rows, rho, i, ClePrimaire(ctx, rows[i]));
    RapprocherFondee(ctx, rows, Rapprocher(ctx, rows, rho, i, ClePrimaire(ctx, rows[i])), i, CleRepli(ctx, rows[i]));
  }

  lemma {:induction false} SuiteFondee(ctx: Contexte, rows: seq<AnnonceBrute>, rs: seq<seq<nat>>, k: nat)
    requires Suite(ctx, rows, rs) && Fondee(ctx, rows, rs[0]) && k <= |rows|
    ensures Fondee(ctx, rows, rs[k])
    decreases k
  {
    if k > 0 {
      SuiteFondee(ctx, rows, rs, k - 1);
      LigneFondee(ctx, rows, rs[k - 1], k - 1);
    }
  }

  lemma ClassesFondees(ctx: Contexte, rows: seq<AnnonceBrute>)
    ensures Fondee(ctx, rows, Classes(ctx, rows))
  {
    var rs := SuiteDe(ctx, rows);
    ExactesFondees(ctx, rows);
    SuiteFondee(ctx, rows, rs, |rows|);
    ClassesRapprochees(ctx, rows);
  }

  /** Two channels of one group are linked by a chain of shared keys. */
  lemma GroupeEnChaine(ctx: Contexte, rows: seq<AnnonceBrute>, i: nat, j: nat)
    requires i < |rows| && j < |rows| && Classes(ctx, rows)[i] == Classes(ctx, rows)[j]
    ensures EnChaine(Lien(ctx, rows), i, j)
  {
    ClassesFondees(ctx, rows);
  }

  // ---- And of whole chains ---------------------------------------------------------------

  /** Of the channels a chain leads to from `x`, two of one engine are linked by exact
      keys: no two exact groups among them share an engine. */
  ghost predicate SansMoteurCommun(ctx: Contexte, rows: seq<AnnonceBrute>, x: nat) {
    forall a, b | 0 <= a < |rows| && 0 <= b < |rows| && EnChaine(Lien(ctx, rows), x, a) && EnChaine(Lien(ctx, rows), x, b)
                  && rows[a].moteur == rows[b].moteur :: EnChaine(LienExact(rows), a, b)
  }

  /** `rho` has each engine of the chain of `x` in one class. */
  ghost predicate Libre(ctx: Contexte, rows: seq<AnnonceBrute>, rho: seq<nat>, x: nat) {
    |rho| == |rows| &&
    forall a, b | 0 <= a < |rows| && 0 <= b < |rows| && Enchaines(ctx, rows, x, a) && Enchaines(ctx, rows, x, b)
                  && rows[a].moteur == rows[b].moteur :: rho[a] == rho[b]
  }

  /** Of the channels before `k`, those of the chain of `x` that share a soft key are in one class. */
  ghost predicate Reunis(ctx: Contexte, rows: seq<AnnonceBrute>, rho: seq<nat>, x: nat, k: nat) {
    k <= |rows| == |rho| &&
    forall a, b | 0 <= a < k && 0 <= b < k && Enchaines(ctx, rows, x, a) && MemeCleMolle(ctx, rows[a], rows[b]) :: rho[a] == rho[b]
  }

  lemma RapprocherGarde(ctx: Contexte, rows: seq<AnnonceBrute>, rho: seq<nat>, i: nat, cle: Option<string>, a: nat, b: nat)
    requires |rho| == |rows| && Partition(rho) && i < |rows| && a < |rows| && b < |rows| && rho[a] == rho[b]
    ensures Rapprocher(ctx, rows, rho, i, cle)[a] == Rapprocher(ctx, rows, rho, i, cle)[b]
  {
    if cle.Some? && Precedent(ctx, rows, i, cle.value).Some? {
      JoindreFondDeuxClasses(rho, i, Precedent(ctx, rows, i, cle.value).value);
    }
  }

  lemma RapprocherLibre(ctx: Contexte, rows: seq<AnnonceBrute>, rho: seq<nat>, i: nat, cle: Option<string>, x: nat)
    requires |rho| == |rows| && Partition(rho) && i < |rows| && Libre(ctx, rows, rho, x)
    ensures Libre(ctx, rows, Rapprocher(ctx, rows, rho, i, cle), x)
  {
    forall a, b | 0 <= a < |rows| && 0 <= b < |rows| && Enchaines(ctx, rows, x, a) && Enchaines(ctx, rows, x, b)
                  && rows[a].moteur == rows[b].moteur
      ensures Rapprocher(ctx, rows, rho, i, cle)[a] == Rapprocher(ctx, rows, rho, i, cle)[b]
    {
      RapprocherGarde(ctx, rows, rho, i, cle, a, b);
    }
  }

  lemma RapprocherReunis(ctx: Contexte, rows: seq<AnnonceBrute>, rho: seq<nat>, i: nat, cle: Option<string>, x: nat, k: nat)
    requires |rho| == |rows| && Partition(rho) && i < |rows| && Reunis(ctx, rows, rho, x, k)
    ensures Reunis(ctx, rows, Rapprocher(ctx, rows, rho, i, cle), x, k)
  {
    forall a, b | 0 <= a < k && 0 <= b < k && Enchaines(ctx, rows, x, a) && MemeCleMolle(ctx, rows[a], rows[b])
      ensures Rapprocher(ctx, rows, rho, i, cle)[a] == Rapprocher(ctx, rows, rho, i, cle)[b]
    {
      RapprocherGarde(ctx, rows, rho, i, cle, a, b);
    }
  }

  /** Where each engine of the chain is in one class, no union within it is refused. */
  lemma JamaisRefuse(ctx: Contexte, rows: seq<AnnonceBrute>, rho: seq<nat>, x: nat, i: nat, j: nat)
    requires Fondee(ctx, rows, rho) && Libre(ctx, rows, rho, x) && i < |rows| && j < |rows|
    requires Enchaines(ctx, rows, x, i) && Enchaines(ctx, rows, x, j)
    ensures Compatibles(Noms(rows), rho, i, j)
  {
    var noms := Noms(rows);
    if m :| m in MoteursDe(noms, rho, rho[i]) && m in MoteursDe(noms, rho, rho[j]) {
      var a :| 0 <= a < |rho| && rho[a] == rho[i] && noms[a] == m;
      var b :| 0 <= b < |rho| && rho[b] == rho[j] && noms[b] == m;
      EnchainesTransitive(ctx, rows, x, i, a);
      EnchainesTransitive(ctx, rows, x, j, b);
    }
  }

  lemma RapprocherRejoint(ctx: Contexte, rows: seq<AnnonceBrute>, rho: seq<nat>, x: nat, i: nat, cle: string, a: nat)
    requires Fondee(ctx, rows, rho) && Libre(ctx, rows, rho, x) && Reunis(ctx, rows, rho, x, i) && i < |rows|
    requires Enchaines(ctx, rows, x, i) && Porte(ctx, rows[i], cle) && a < i && Porte(ctx, rows[a], cle)
    ensures Rapprocher(ctx, rows, rho, i, Some(cle))[a] == Rapprocher(ctx, rows, rho, i, Some(cle))[i]
  {
    var p := Precedent(ctx, rows, i, cle).value;
    PortentSsi(ctx, rows[i], rows[p], cle);
    PortentSsi(ctx, rows[p], rows[a], cle);
    UnLien(ctx, rows, i, p);
    EnchainesTransitive(ctx, rows, x, i, p);
    JamaisRefuse(ctx, rows, rho, x, i, p);
    JoindreFondDeuxClasses(rho, i, p);
    assert rho[p] == rho[a];
  }

  /** Two channels of one class, one of them `i`, once the keys of `i` are done. */
  lemma LigneRejoint(ctx: Contexte, rows: seq<AnnonceBrute>, rho: seq<nat>, x: nat, i: nat, a: nat)
    requires Fondee(ctx, rows, rho) && Libre(ctx, rows, rho, x) && Reunis(ctx, rows, rho, x, i) && i < |rows|
    requires Enchaines(ctx, rows, x, i) && a < i && MemeCleMolle(ctx, rows[a], rows[i])
    ensures RapprocherLigne(ctx, rows, rho, i)[a] == RapprocherLigne(ctx, rows, rho, i)[i]
  {
    var (p, f) := (ClePrimaire(ctx, rows[i]), CleRepli(ctx, rows[i]));
    var mid := Rapprocher(ctx, rows, rho, i, p);
    if p.Some? && ClePrimaire(ctx, rows[a]) == p {
      RapprocherRejoint(ctx, rows, rho, x, i, p.value, a);
      RapprocherGarde(ctx, rows, mid, i, f, a, i);
    } else {
      RapprocherFondee(ctx, rows, rho, i, p);
      RapprocherLibre(ctx, rows, rho, i, p, x);
      RapprocherReunis(ctx, rows, rho, i, p, x, i);
      RapprocherRejoint(ctx, rows, mid, x, i, f.value, a);
    }
  }

  lemma LigneLibre(ctx: Contexte, rows: seq<AnnonceBrute>, rho: seq<nat>, x: nat, i: nat)
    requires |rho| == |rows| && Partition(rho) && Libre(ctx, rows, rho, x) && i < |rows|
    ensures Libre(ctx, rows, RapprocherLigne(ctx, rows, rho, i), x)
  {
    RapprocherLibre(ctx, rows, rho, i, ClePrimaire(ctx, rows[i]), x);
    RapprocherLibre(ctx, rows, Rapprocher(ctx, rows, rho, i, ClePrimaire(ctx, rows[i])), i, CleRepli(ctx, rows[i]), x);
  }

  lemma LigneAncienne(ctx: Contexte, rows: seq<AnnonceBrute>, rho: seq<nat>, x: nat, i: nat)
    requires |rho| == |rows| && Partition(rho) && Reunis(ctx, rows, rho, x, i) && i < |rows|
    ensures Reunis(ctx, rows, RapprocherLigne(ctx, rows, rho, i), x, i)
  {
    RapprocherReunis(ctx, rows, rho, i, ClePrimaire(ctx, rows[i]), x, i);
    RapprocherReunis(ctx, rows, Rapprocher(ctx, rows, rho, i, ClePrimaire(ctx, rows[i])), i, CleRepli(ctx, rows[i]), x, i);
  }

  lemma MolleSymetrique(ctx: Contexte, rows: seq<AnnonceBrute>, x: nat, a: nat, b: nat)
    requires a < |rows| && b < |rows| && Enchaines(ctx, rows, x, a) && MemeCleMolle(ctx, rows[a], rows[b])
    ensures Enchaines(ctx, rows, x, b) && MemeCleMolle(ctx, rows[b], rows[a])
  {
    UnLien(ctx, rows, a, b);
    EnchainesTransitive(ctx, rows, x, a, b);
  }

  lemma LigneReunis(ctx: Contexte, rows: seq<AnnonceBrute>, rho: seq<nat>, x: nat, i: nat)
    requires Fondee(ctx, rows, rho) && Libre(ctx, rows, rho, x) && Reunis(ctx, rows, rho, x, i) && i < |rows|
    ensures Reunis(ctx, rows, RapprocherLigne(ctx, rows, rho, i), x, i + 1)
  {
    var r := RapprocherLigne(ctx, rows, rho, i);
    LigneAncienne(ctx, rows, rho, x, i);
    forall a, b | 0 <= a < i + 1 && 0 <= b < i + 1 && Enchaines(ctx, rows, x, a) && MemeCleMolle(ctx, rows[a], rows[b])
      ensures r[a] == r[b]
    {
      MolleSymetrique(ctx, rows, x, a, b);
      if b == i && a < i { LigneRejoint(ctx, rows, rho, x, i, a); }
      if a == i && b < i { LigneRejoint(ctx, rows, rho, x, i, b); }
    }
  }

  lemma {:induction false} SuiteReunie(ctx: Contexte, rows: seq<AnnonceBrute>, rs: seq<seq<nat>>, x: nat, k: nat)
    requires Suite(ctx, rows, rs) && Fondee(ctx, rows, rs[0]) && Libre(ctx, rows, rs[0], x) && k <= |rows|
    ensures Libre(ctx, rows, rs[k], x) && Reunis(ctx, rows, rs[k], x, k)
    decreases k
  {
    if k > 0 {
      SuiteReunie(ctx, rows, rs, x, k - 1);
      SuiteFondee(ctx, rows, rs, k - 1);
      LigneLibre(ctx, rows, rs[k - 1], x, k - 1);
      LigneReunis(ctx, rows, rs[k - 1], x, k - 1);
    }
  }

  lemma ExactesLibres(ctx: Contexte, rows: seq<AnnonceBrute>, x: nat)
    requires SansMoteurCommun(ctx, rows, x)
    ensures Libre(ctx, rows, ClassesExactes(rows), x)
  {
    var rho := ClassesExactes(rows);
    forall a, b | 0 <= a < |rows| && 0 <= b < |rows| && Enchaines(ctx, rows, x, a) && Enchaines(ctx, rows, x, b)
                  && rows[a].moteur == rows[b].moteur ensures rho[a] == rho[b]
    {
      ReliesSsi(rows, a, b);
      ExactesSsiChaine(rows, a, b);
    }
  }

  /** What soft keys of the chain of `x` link is in one group. */
  lemma GroupesReunis(ctx: Contexte, rows: seq<AnnonceBrute>, x: nat)
    requires SansMoteurCommun(ctx, rows, x)
    ensures Reunis(ctx, rows, Classes(ctx, rows), x, |rows|)
  {
    var rs := SuiteDe(ctx, rows);
    ExactesFondees(ctx, rows);
    ExactesLibres(ctx, rows, x);
    SuiteReunie(ctx, rows, rs, x, |rows|);
    ClassesRapprochees(ctx, rows);
  }

  lemma LienGarde(ctx: Contexte, rows: seq<AnnonceBrute>, x: nat, a: nat, b: nat)
    requires SansMoteurCommun(ctx, rows, x) && Lien(ctx, rows)(a, b) && Enchaines(ctx, rows, x, a)
    ensures Enchaines(ctx, rows, x, b) && Classes(ctx, rows)[a] == Classes(ctx, rows)[b]
  {
    UnLien(ctx, rows, a, b);
    EnchainesTransitive(ctx, rows, x, a, b);
    if MemeCleExacte(rows[a], rows[b]) {
      PartageSsi(rows, a, b);
      CleDansUnGroupe(ctx, rows, a, b);
    } else {
      GroupesReunis(ctx, rows, x);
    }
  }

  lemma ChaineDansGroupe(ctx: Contexte, rows: seq<AnnonceBrute>, x: nat, j: nat)
    requires SansMoteurCommun(ctx, rows, x) && x < |rows| && Enchaines(ctx, rows, x, j)
    ensures j < |rows| && Classes(ctx, rows)[x] == Classes(ctx, rows)[j]
  {
    var p :| ChaineDe(Lien(ctx, rows), p, x, j);
    var garde := (a: nat) => a < |rows| && Enchaines(ctx, rows, x, a) && Classes(ctx, rows)[a] == Classes(ctx, rows)[x];
    ChaineReflexive(Lien(ctx, rows), x);
    forall a: nat, b: nat | Lien(ctx, rows)(a, b) && garde(a) ensures garde(b) { LienGarde(ctx, rows, x, a, b); }
    ChaineGarde(Lien(ctx, rows), garde, p);
  }

  /** The group of a channel is all that chains of shared keys lead to from it, if and only
      if no two exact groups among that share an engine. */
  lemma GroupeEntierSsi(ctx: Contexte, rows: seq<AnnonceBrute>, x: nat)
    requires x < |rows|
    ensures (forall j: nat | j < |rows| :: Classes(ctx, rows)[x] == Classes(ctx, rows)[j] <==> EnChaine(Lien(ctx, rows), x, j))
            <==> SansMoteurCommun(ctx, rows, x)
  {
    if SansMoteurCommun(ctx, rows, x) {
      forall j: nat | j < |rows| ensures Classes(ctx, rows)[x] == Classes(ctx, rows)[j] <==> EnChaine(Lien(ctx, rows), x, j) {
        if Classes(ctx, rows)[x] == Classes(ctx, rows)[j] { GroupeEnChaine(ctx, rows, x, j); }
        if Enchaines(ctx, rows, x, j) { ChaineDansGroupe(ctx, rows, x, j); }
      }
    }
    if forall j: nat | j < |rows| :: Classes(ctx, rows)[x] == Classes(ctx, rows)[j] <==> EnChaine(Lien(ctx, rows), x, j) {
      EntierSansMoteur(ctx, rows, x);
    }
  }

  lemma EntierSansMoteur(ctx: Contexte, rows: seq<AnnonceBrute>, x: nat)
    requires x < |rows|
    requires forall j: nat | j < |rows| :: Classes(ctx, rows)[x] == Classes(ctx, rows)[j] <==> EnChaine(Lien(ctx, rows), x, j)
    ensures SansMoteurCommun(ctx, rows, x)
  {
    forall a, b | 0 <= a < |rows| && 0 <= b < |rows| && EnChaine(Lien(ctx, rows), x, a) && EnChaine(Lien(ctx, rows), x, b)
                  && rows[a].moteur == rows[b].moteur ensures EnChaine(LienExact(rows), a, b) {
      MemeMoteurSsiChaine(ctx, rows, a, b);
      ReliesSsi(rows, a, b);
    }
  }

  // ---- Two engines, one soft key ------------------------------------------------------------

  lemma ChaineDeDeux(ctx: Contexte, rows: seq<AnnonceBrute>, i: nat, j: nat, k: nat)
    requires i < |rows| && j < |rows| && Enchaines(ctx, rows, i, k)
    requires forall m: nat | m < |rows| && m != i && m != j :: !Lien(ctx, rows)(i, m) && !Lien(ctx, rows)(j, m)
    ensures k == i || k == j
  {
    var p :| ChaineDe(Lien(ctx, rows), p, i, k);
    ChaineGarde(Lien(ctx, rows), (a: nat) => a == i || a == j, p);
  }

  /** Two channels of different engines with one soft key are in one group, if neither
      shares a key with any other; and no other is. */
  lemma DeuxMoteurs(ctx: Contexte, rows: seq<AnnonceBrute>, i: nat, j: nat, k: nat)
    requires i < |rows| && j < |rows| && k < |rows| && rows[i].moteur != rows[j].moteur && MemeCleMolle(ctx, rows[i], rows[j])
    requires forall m: nat | m < |rows| && m != i && m != j :: !Lien(ctx, rows)(i, m) && !Lien(ctx, rows)(j, m)
    ensures Classes(ctx, rows)[i] == Classes(ctx, rows)[k] <==> k == i || k == j
  {
    forall a, b | 0 <= a < |rows| && 0 <= b < |rows| && EnChaine(Lien(ctx, rows), i, a) && EnChaine(Lien(ctx, rows), i, b)
                  && rows[a].moteur == rows[b].moteur ensures EnChaine(LienExact(rows), a, b) {
      ChaineDeDeux(ctx, rows, i, j, a);
      ChaineDeDeux(ctx, rows, i, j, b);
      ChaineReflexive(LienExact(rows), a);
    }
    GroupeEntierSsi(ctx, rows, i);
    UnLien(ctx, rows, i, j);
    ChaineReflexive(Lien(ctx, rows), i);
    if Enchaines(ctx, rows, i, k) { ChaineDeDeux(ctx, rows, i, j, k); }
  }
}
