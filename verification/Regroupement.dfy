/** The two grouping phases of reconciliation, exact keys then soft keys. */
module Regroupement {
  import opened Ordre
  import opened Annonces
  import opened UnionFind

  /** The classes so far, and the channel each key points at. */
  datatype Etat = Etat(rho: seq<nat>, parCle: map<string, nat>)

  ghost predicate Bon(e: Etat, n: nat) {
    |e.rho| == n && Partition(e.rho) && forall c | c in e.parCle :: e.parCle[c] < n
  }

  function Noms(rows: seq<AnnonceBrute>): (noms: seq<string>)
    ensures |noms| == |rows| && forall i | 0 <= i < |rows| :: noms[i] == rows[i].moteur
  {
    seq(|rows|, i requires 0 <= i < |rows| => rows[i].moteur)
  }

  // ---- The phases, one key at a time -----------------------------------------

  /** An exact key joins its channel to the one that brought the key first. */
  ghost function PasExact(e: Etat, n: nat, i: nat, cle: string): (r: Etat)
    requires Bon(e, n) && i < n
    ensures Bon(r, n)
  {
    var s := CleSrc(cle);
    if s in e.parCle then
      JoindreFondDeuxClasses(e.rho, i, e.parCle[s]);
      e.(rho := Joindre(e.rho, i, e.parCle[s]))
    else
      e.(parCle := e.parCle[s := i])
  }

  ghost function ClesExactes(e: Etat, n: nat, i: nat, cles: seq<string>): (r: Etat)
    requires Bon(e, n) && i < n
    ensures Bon(r, n)
  {
    if cles == [] then e else PasExact(ClesExactes(e, n, i, cles[..|cles|-1]), n, i, cles[|cles|-1])
  }

  ghost function PhaseExacte(rows: seq<AnnonceBrute>, k: nat): (r: Etat)
    requires k <= |rows|
    ensures Bon(r, |rows|)
  {
    if k == 0 then Etat(Discrete(|rows|), map[])
    else ClesExactes(PhaseExacte(rows, k - 1), |rows|, k - 1, Cles(rows[k - 1]))
  }

  /** A soft key joins two groups that share no engine; a refusal hands the key
      to the newcomer. */
  ghost function PasMou(noms: seq<string>, e: Etat, i: nat, cle: string): (r: Etat)
    requires Bon(e, |noms|) && i < |noms|
    ensures Bon(r, |noms|)
  {
    if cle !in e.parCle then e.(parCle := e.parCle[cle := i])
    else if Compatibles(noms, e.rho, i, e.parCle[cle]) then
      JoindreFondDeuxClasses(e.rho, i, e.parCle[cle]);
      e.(rho := Joindre(e.rho, i, e.parCle[cle]))
    else e.(parCle := e.parCle[cle := i])
  }

  ghost function ClesMollesDe(noms: seq<string>, e: Etat, i: nat, cles: seq<string>): (r: Etat)
    requires Bon(e, |noms|) && i < |noms|
    ensures Bon(r, |noms|)
  {
    if cles == [] then e else PasMou(noms, ClesMollesDe(noms, e, i, cles[..|cles|-1]), i, cles[|cles|-1])
  }

  ghost function PhaseMolle(ctx: Contexte, rows: seq<AnnonceBrute>, k: nat): (r: Etat)
    requires k <= |rows|
    ensures Bon(r, |rows|)
  {
    if k == 0 then PhaseExacte(rows, |rows|)
    else ClesMollesDe(Noms(rows), PhaseMolle(ctx, rows, k - 1), k - 1, ClesMolles(ctx, rows[k - 1]))
  }

  ghost function ClassesExactes(rows: seq<AnnonceBrute>): (rho: seq<nat>)
    ensures |rho| == |rows| && Partition(rho)
  {
    PhaseExacte(rows, |rows|).rho
  }

  /** The groups of a batch: each channel's root once both phases are done. */
  ghost function Classes(ctx: Contexte, rows: seq<AnnonceBrute>): (rho: seq<nat>)
    ensures |rho| == |rows| && Partition(rho)
  {
    PhaseMolle(ctx, rows, |rows|).rho
  }

  // ---- What exact keys join ---------------------------------------------------

  ghost predicate PartagentUneCle(rows: seq<AnnonceBrute>, i: nat, j: nat)
    requires i < |rows| && j < |rows|
  {
    exists c :: c in Cles(rows[i]) && c in Cles(rows[j])
  }

  /** Two channels of the batch that share an exact key. */
  ghost function Partage(rows: seq<AnnonceBrute>): (nat, nat) -> bool {
    (i: nat, j: nat) => i < |rows| && j < |rows| && PartagentUneCle(rows, i, j)
  }

  /** A chain of channels, each sharing an exact key with the next. */
  ghost predicate Relies(rows: seq<AnnonceBrute>, i: nat, j: nat) {
    EnChaine(Partage(rows), i, j)
  }

  /** Channels grouped so far are linked by a chain of shared keys. */
  ghost predicate Fonde(rows: seq<AnnonceBrute>, e: Etat)
    requires Bon(e, |rows|)
  {
    && (forall a, b | 0 <= a < |rows| && 0 <= b < |rows| && e.rho[a] == e.rho[b] :: Relies(rows, a, b))
    && (forall c | CleSrc(c) in e.parCle :: c in Cles(rows[e.parCle[CleSrc(c)]]))
  }

  /** Each key of channel `a` in `cles` points into the group of `a`. */
  ghost predicate Couvre(e: Etat, n: nat, a: nat, cles: seq<string>)
    requires Bon(e, n) && a < n
  {
    forall c | c in cles :: CleSrc(c) in e.parCle && e.rho[e.parCle[CleSrc(c)]] == e.rho[a]
  }

  ghost predicate CouvreTous(rows: seq<AnnonceBrute>, e: Etat, k: nat)
    requires Bon(e, |rows|) && k <= |rows|
  {
    forall a | 0 <= a < k :: Couvre(e, |rows|, a, Cles(rows[a]))
  }

  lemma CleSrcInjective(c: string, d: string)
    requires CleSrc(c) == CleSrc(d)
    ensures c == d
  {
    assert c == CleSrc(c)[4..];
    assert d == CleSrc(d)[4..];
  }

  lemma PasExactFonde(rows: seq<AnnonceBrute>, e: Etat, i: nat, cle: string)
    requires Bon(e, |rows|) && i < |rows| && cle in Cles(rows[i])
    requires Fonde(rows, e)
    ensures Fonde(rows, PasExact(e, |rows|, i, cle))
  {
    var n := |rows|;
    var r := PasExact(e, n, i, cle);
    forall c | CleSrc(c) in r.parCle ensures c in Cles(rows[r.parCle[CleSrc(c)]]) {
      if CleSrc(c) == CleSrc(cle) { CleSrcInjective(c, cle); }
    }
    if CleSrc(cle) in e.parCle {
      var j := e.parCle[CleSrc(cle)];
      JoindreFondDeuxClasses(e.rho, i, j);
      assert PartagentUneCle(rows, i, j);
      assert ChaineDe(Partage(rows), [i, j], i, j);
      ChaineSymetrique(Partage(rows), i, j);
      forall a, b | 0 <= a < n && 0 <= b < n && r.rho[a] == r.rho[b] ensures Relies(rows, a, b) {
        if e.rho[a] != e.rho[b] {
          var (x, y) := if e.rho[a] == e.rho[i] then (i, j) else (j, i);
          ChaineTransitive(Partage(rows), a, x, y);
          ChaineTransitive(Partage(rows), a, y, b);
        }
      }
    }
  }

  lemma PasExactCouvre(e: Etat, n: nat, i: nat, cle: string, a: nat, cles: seq<string>)
    requires Bon(e, n) && i < n && a < n
    requires Couvre(e, n, a, cles)
    ensures Couvre(PasExact(e, n, i, cle), n, a, cles)
    ensures Couvre(PasExact(e, n, i, cle), n, i, [cle])
  {
    var r := PasExact(e, n, i, cle);
    if CleSrc(cle) in e.parCle { JoindreFondDeuxClasses(e.rho, i, e.parCle[CleSrc(cle)]); }
    forall c | c in cles ensures CleSrc(c) in r.parCle && r.rho[r.parCle[CleSrc(c)]] == r.rho[a] {
      assert e.rho[e.parCle[CleSrc(c)]] == e.rho[a];
    }
    assert r.rho[r.parCle[CleSrc(cle)]] == r.rho[i];
  }

  lemma {:induction false} ClesExactesInv(rows: seq<AnnonceBrute>, e: Etat, i: nat, cles: seq<string>)
    requires Bon(e, |rows|) && i < |rows| && (forall c | c in cles :: c in Cles(rows[i]))
    requires Fonde(rows, e)
    requires CouvreTous(rows, e, i)
    ensures Fonde(rows, ClesExactes(e, |rows|, i, cles))
    ensures CouvreTous(rows, ClesExactes(e, |rows|, i, cles), i)
    ensures Couvre(ClesExactes(e, |rows|, i, cles), |rows|, i, cles)
  {
    var n := |rows|;
    if cles != [] {
      var (avant, cle) := (cles[..|cles|-1], cles[|cles|-1]);
      assert cles == avant + [cle];
      ClesExactesInv(rows, e, i, avant);
      var m := ClesExactes(e, n, i, avant);
      PasExactFonde(rows, m, i, cle);
      PasExactCouvre(m, n, i, cle, i, avant);
      forall a | 0 <= a < i ensures Couvre(PasExact(m, n, i, cle), n, a, Cles(rows[a])) {
        PasExactCouvre(m, n, i, cle, a, Cles(rows[a]));
      }
    }
  }

  lemma DiscretFonde(rows: seq<AnnonceBrute>)
    ensures Fonde(rows, Etat(Discrete(|rows|), map[]))
  {
    var e := Etat(Discrete(|rows|), map[]);
    forall a, b | 0 <= a < |rows| && 0 <= b < |rows| && e.rho[a] == e.rho[b] ensures Relies(rows, a, b) {
      ChaineReflexive(Partage(rows), a);
    }
  }

  /** The states of the exact phase, row after row. */
  ghost predicate Exacts(rows: seq<AnnonceBrute>, es: seq<Etat>) {
    && |es| == |rows| + 1 && es[0] == Etat(Discrete(|rows|), map[])
    && forall k: nat | k < |rows| :: Bon(es[k], |rows|) && es[k + 1] == ClesExactes(es[k], |rows|, k, Cles(rows[k]))
  }

  ghost predicate Tient(rows: seq<AnnonceBrute>, e: Etat, k: nat) {
    Bon(e, |rows|) && k <= |rows| && Fonde(rows, e) && CouvreTous(rows, e, k)
  }

  lemma {:induction false} ExactsTiennent(rows: seq<AnnonceBrute>, es: seq<Etat>, k: nat)
    requires Exacts(rows, es) && k <= |rows|
    ensures Tient(rows, es[k], k)
  {
    if k == 0 {
      DiscretFonde(rows);
    } else {
      ExactsTiennent(rows, es, k - 1);
      PhaseExactePas(rows, es[k - 1], es[k], k);
    }
  }

  lemma PhaseExacteInv(rows: seq<AnnonceBrute>, k: nat)
    requires k <= |rows|
    ensures Fonde(rows, PhaseExacte(rows, k)) && CouvreTous(rows, PhaseExacte(rows, k), k)
  {
    var es := EtatsExacts(rows, k);
    ExactsTiennent(rows, es, k);
  }

  lemma EtatsExacts(rows: seq<AnnonceBrute>, k: nat) returns (es: seq<Etat>)
    requires k <= |rows|
    ensures Exacts(rows, es) && es[k] == PhaseExacte(rows, k)
  {
    es := seq(|rows| + 1, i requires 0 <= i <= |rows| => PhaseExacte(rows, i));
    forall i: nat | i < |rows| ensures Bon(es[i], |rows|) && es[i + 1] == ClesExactes(es[i], |rows|, i, Cles(rows[i])) {
      PhaseExacteDit(rows, i + 1);
    }
  }

  lemma PhaseExactePas(rows: seq<AnnonceBrute>, avant: Etat, apres: Etat, k: nat)
    requires 0 < k <= |rows| && Bon(avant, |rows|) && apres == ClesExactes(avant, |rows|, k - 1, Cles(rows[k - 1]))
    requires Fonde(rows, avant) && CouvreTous(rows, avant, k - 1)
    ensures Fonde(rows, apres) && CouvreTous(rows, apres, k)
  {
    ClesExactesInv(rows, avant, k - 1, Cles(rows[k - 1]));
    CouvreUnDePlus(rows, apres, k);
  }

  lemma CouvreUnDePlus(rows: seq<AnnonceBrute>, e: Etat, k: nat)
    requires 0 < k <= |rows| && Bon(e, |rows|) && CouvreTous(rows, e, k - 1) && Couvre(e, |rows|, k - 1, Cles(rows[k - 1]))
    ensures CouvreTous(rows, e, k)
  {
  }

  lemma PhaseExacteDit(rows: seq<AnnonceBrute>, k: nat)
    requires 0 < k <= |rows|
    ensures PhaseExacte(rows, k) == ClesExactes(PhaseExacte(rows, k - 1), |rows|, k - 1, Cles(rows[k - 1]))
  {
  }

  lemma CleGroupee(rows: seq<AnnonceBrute>, i: nat, j: nat)
    requires i < |rows| && j < |rows| && PartagentUneCle(rows, i, j)
    ensures ClassesExactes(rows)[i] == ClassesExactes(rows)[j]
  {
    PhaseExacteInv(rows, |rows|);
  }

  /** After the exact phase two channels are in one group if and only if a
      chain of shared keys links them. */
  lemma ExactesSsiChaine(rows: seq<AnnonceBrute>, i: nat, j: nat)
    requires i < |rows| && j < |rows|
    ensures ClassesExactes(rows)[i] == ClassesExactes(rows)[j] <==> Relies(rows, i, j)
  {
    PhaseExacteInv(rows, |rows|);
    if Relies(rows, i, j) {
      var p :| ChaineDe(Partage(rows), p, i, j);
      var rho := ClassesExactes(rows);
      forall a: nat, b: nat | Partage(rows)(a, b) ensures rho[a] == rho[b] { CleGroupee(rows, a, b); }
      ChaineGarde(Partage(rows), (a: nat) => a < |rho| && rho[a] == rho[i], p);
    }
  }

  // ---- What soft keys never join ------------------------------------------------

  /** `rho` only coarsens `rho0`, and never across two channels of one engine. */
  ghost predicate Grossit(noms: seq<string>, rho0: seq<nat>, rho: seq<nat>)
    requires |noms| == |rho0| == |rho|
  {
    && (forall i, j | 0 <= i < |rho| && 0 <= j < |rho| && rho0[i] == rho0[j] :: rho[i] == rho[j])
    && (forall i, j | 0 <= i < |rho| && 0 <= j < |rho| && rho[i] == rho[j] && rho0[i] != rho0[j] :: noms[i] != noms[j])
  }

  lemma PasMouGrossit(noms: seq<string>, rho0: seq<nat>, e: Etat, i: nat, cle: string)
    requires Bon(e, |noms|) && i < |noms| == |rho0|
    requires Grossit(noms, rho0, e.rho)
    ensures Grossit(noms, rho0, PasMou(noms, e, i, cle).rho)
  {
    var n := |noms|;
    var r := PasMou(noms, e, i, cle);
    if cle in e.parCle && Compatibles(noms, e.rho, i, e.parCle[cle]) {
      var j := e.parCle[cle];
      JoindreFondDeuxClasses(e.rho, i, j);
      forall a, b | 0 <= a < n && 0 <= b < n && r.rho[a] == r.rho[b] && rho0[a] != rho0[b]
        ensures noms[a] != noms[b]
      {
        if e.rho[a] != e.rho[b] {
          assert noms[a] in MoteursDe(noms, e.rho, e.rho[a]);
          assert noms[b] in MoteursDe(noms, e.rho, e.rho[b]);
        }
      }
    }
  }

  lemma {:induction false} ClesMollesGrossit(noms: seq<string>, rho0: seq<nat>, e: Etat, i: nat, cles: seq<string>)
    requires Bon(e, |noms|) && i < |noms| == |rho0|
    requires Grossit(noms, rho0, e.rho)
    ensures Grossit(noms, rho0, ClesMollesDe(noms, e, i, cles).rho)
  {
    if cles != [] {
      ClesMollesGrossit(noms, rho0, e, i, cles[..|cles|-1]);
      PasMouGrossit(noms, rho0, ClesMollesDe(noms, e, i, cles[..|cles|-1]), i, cles[|cles|-1]);
    }
  }

  lemma PhaseMollePas(ctx: Contexte, rows: seq<AnnonceBrute>, k: nat)
    requires 0 < k <= |rows|
    ensures PhaseMolle(ctx, rows, k) == ClesMollesDe(Noms(rows), PhaseMolle(ctx, rows, k - 1), k - 1, ClesMolles(ctx, rows[k - 1]))
  {
  }

  /** The states of the soft phase, row after row. */
  ghost predicate Mous(ctx: Contexte, rows: seq<AnnonceBrute>, noms: seq<string>, es: seq<Etat>) {
    && |es| == |rows| + 1 && |noms| == |rows|
    && forall k: nat | k < |rows| :: Bon(es[k], |noms|) && es[k + 1] == ClesMollesDe(noms, es[k], k, ClesMolles(ctx, rows[k]))
  }

  lemma {:induction false} MousGrossissent(ctx: Contexte, rows: seq<AnnonceBrute>, noms: seq<string>, rho0: seq<nat>, es: seq<Etat>, k: nat)
    requires Mous(ctx, rows, noms, es) && k <= |rows| == |rho0| && |es[0].rho| == |rows| && Grossit(noms, rho0, es[0].rho)
    ensures |es[k].rho| == |rows| && Grossit(noms, rho0, es[k].rho)
  {
    if k > 0 {
      MousGrossissent(ctx, rows, noms, rho0, es, k - 1);
      ClesMollesGrossit(noms, rho0, es[k - 1], k - 1, ClesMolles(ctx, rows[k - 1]));
    }
  }

  lemma MolleDebute(ctx: Contexte, rows: seq<AnnonceBrute>)
    ensures PhaseMolle(ctx, rows, 0).rho == ClassesExactes(rows) && Bon(PhaseMolle(ctx, rows, 0), |rows|)
  {
  }

  ghost function TousMous(ctx: Contexte, rows: seq<AnnonceBrute>): (es: seq<Etat>)
    ensures |es| == |rows| + 1 && forall i | 0 <= i <= |rows| :: es[i] == PhaseMolle(ctx, rows, i)
  {
    seq(|rows| + 1, i requires 0 <= i <= |rows| => PhaseMolle(ctx, rows, i))
  }

  lemma UnMou(ctx: Contexte, rows: seq<AnnonceBrute>, es: seq<Etat>, i: nat)
    requires i < |rows| && es == TousMous(ctx, rows)
    ensures Bon(es[i], |Noms(rows)|) && es[i + 1] == ClesMollesDe(Noms(rows), es[i], i, ClesMolles(ctx, rows[i]))
  {
    PhaseMollePas(ctx, rows, i + 1);
  }

  lemma EtatsMous(ctx: Contexte, rows: seq<AnnonceBrute>, k: nat) returns (es: seq<Etat>)
    requires k <= |rows|
    ensures Mous(ctx, rows, Noms(rows), es) && es[k] == PhaseMolle(ctx, rows, k)
    ensures es[0] == PhaseMolle(ctx, rows, 0) && es[0].rho == ClassesExactes(rows)
  {
    es := TousMous(ctx, rows);
    MolleDebute(ctx, rows);
    forall i: nat | i < |rows| ensures Bon(es[i], |Noms(rows)|) && es[i + 1] == ClesMollesDe(Noms(rows), es[i], i, ClesMolles(ctx, rows[i])) {
      UnMou(ctx, rows, es, i);
    }
  }

  lemma GrossitSoi(noms: seq<string>, rho: seq<nat>)
    requires |noms| == |rho|
    ensures Grossit(noms, rho, rho)
  {
  }

  /** Soft keys only coarsen the exact classes, and never across two channels of
      one engine. */
  lemma PhaseMolleGrossit(ctx: Contexte, rows: seq<AnnonceBrute>, k: nat)
    requires k <= |rows|
    ensures Grossit(Noms(rows), ClassesExactes(rows), PhaseMolle(ctx, rows, k).rho)
  {
    var es := EtatsMous(ctx, rows, k);
    GrossitSoi(Noms(rows), es[0].rho);
    MousGrossissent(ctx, rows, Noms(rows), es[0].rho, es, k);
  }

  /** Two channels of one engine end in one group if and only if a chain of
      exact keys links them, whatever soft keys were refused or reassigned. */
  lemma MemeMoteurSsiChaine(ctx: Contexte, rows: seq<AnnonceBrute>, i: nat, j: nat)
    requires i < |rows| && j < |rows| && rows[i].moteur == rows[j].moteur
    ensures Classes(ctx, rows)[i] == Classes(ctx, rows)[j] <==> Relies(rows, i, j)
  {
    PhaseMolleGrossit(ctx, rows, |rows|);
    ExactesSsiChaine(rows, i, j);
  }

  /** Two channels sharing an exact key are in one group: no key is in two. */
  lemma CleDansUnGroupe(ctx: Contexte, rows: seq<AnnonceBrute>, i: nat, j: nat)
    requires i < |rows| && j < |rows| && PartagentUneCle(rows, i, j)
    ensures Classes(ctx, rows)[i] == Classes(ctx, rows)[j]
  {
    PhaseMolleGrossit(ctx, rows, |rows|);
    CleGroupee(rows, i, j);
  }
}
