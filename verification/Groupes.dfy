/** The union-find over channel indices that reconciliation groups with. */
module UnionFind {

  // ---- Partitions, named by the least index of each class -----------------

  /** `rho[i]` is the root of `i`: a member of its class no greater than `i`,
      its own root, so the least index of the class. */
  ghost predicate Partition(rho: seq<nat>) {
    forall i | 0 <= i < |rho| :: rho[i] <= i && rho[rho[i]] == rho[i]
  }

  /** Every channel alone. */
  function Discrete(n: nat): (rho: seq<nat>)
    ensures |rho| == n && forall i | 0 <= i < n :: rho[i] == i
  {
    seq(n, i => i)
  }

  /** The classes of `a` and `b` made one; the lower root keeps it. */
  function Joindre(rho: seq<nat>, a: nat, b: nat): (r: seq<nat>)
    requires a < |rho| && b < |rho|
    ensures |r| == |rho|
  {
    var bas := if rho[a] <= rho[b] then rho[a] else rho[b];
    var haut := if rho[a] <= rho[b] then rho[b] else rho[a];
    seq(|rho|, i requires 0 <= i < |rho| => if rho[i] == haut then bas else rho[i])
  }

  /** Joining merges the two classes and touches no other. */
  lemma JoindreFondDeuxClasses(rho: seq<nat>, a: nat, b: nat)
    requires Partition(rho) && a < |rho| && b < |rho|
    ensures Partition(Joindre(rho, a, b))
    ensures forall i, j {:trigger Joindre(rho, a, b)[i], Joindre(rho, a, b)[j]} | 0 <= i < |rho| && 0 <= j < |rho| ::
              Joindre(rho, a, b)[i] == Joindre(rho, a, b)[j] <==>
              rho[i] == rho[j] || (rho[i] == rho[a] && rho[j] == rho[b]) || (rho[i] == rho[b] && rho[j] == rho[a])
  {
    var r := Joindre(rho, a, b);
    forall i | 0 <= i < |rho| ensures r[i] <= i && r[r[i]] == r[i] {
      assert rho[rho[i]] == rho[i] && rho[rho[a]] == rho[a] && rho[rho[b]] == rho[b];
    }
  }

  /** The engines of the class rooted at `r`. */
  ghost function MoteursDe(noms: seq<string>, rho: seq<nat>, r: nat): set<string>
    requires |noms| == |rho|
  {
    set k | 0 <= k < |rho| && rho[k] == r :: noms[k]
  }

  // ---- Parent vectors ----------------------------------------------------

  ghost predicate Descend(p: seq<nat>) {
    forall i | 0 <= i < |p| :: p[i] <= i
  }

  ghost function RacineDe(p: seq<nat>, i: nat): (r: nat)
    requires Descend(p) && i < |p|
    ensures r <= i && p[r] == r
    decreases i
  {
    if p[i] == i then i else RacineDe(p, p[i])
  }

  /** The partition a parent vector stands for. */
  ghost function Rho(p: seq<nat>): (rho: seq<nat>)
    requires Descend(p)
    ensures |rho| == |p| && forall i | 0 <= i < |p| :: rho[i] == RacineDe(p, i)
    ensures Partition(rho)
  {
    seq(|p|, i requires 0 <= i < |p| => RacineDe(p, i))
  }

  lemma {:induction false} CompressionEn(p: seq<nat>, i: nat, j: nat)
    requires Descend(p) && i < |p| && j < |p|
    ensures Descend(p[i := RacineDe(p, i)])
    ensures RacineDe(p[i := RacineDe(p, i)], j) == RacineDe(p, j)
    decreases j
  {
    var q := p[i := RacineDe(p, i)];
    if q[j] != j { CompressionEn(p, i, q[j]); }
  }

  /** Pointing a channel straight at its root changes no class. */
  lemma CompressionNeutre(p: seq<nat>, i: nat)
    requires Descend(p) && i < |p|
    ensures Descend(p[i := RacineDe(p, i)])
    ensures Rho(p[i := RacineDe(p, i)]) == Rho(p)
  {
    CompressionEn(p, i, i);
    forall j | 0 <= j < |p| ensures RacineDe(p[i := RacineDe(p, i)], j) == RacineDe(p, j) {
      CompressionEn(p, i, j);
    }
  }

  lemma {:induction false} LienEn(p: seq<nat>, bas: nat, haut: nat, j: nat)
    requires Descend(p) && bas < haut < |p| && p[bas] == bas && p[haut] == haut && j < |p|
    ensures RacineDe(p[haut := bas], j) == if RacineDe(p, j) == haut then bas else RacineDe(p, j)
    decreases j
  {
    if p[j] != j { LienEn(p, bas, haut, p[j]); }
  }

  /** Hanging the higher root under the lower one joins their classes. */
  lemma LienJoint(p: seq<nat>, bas: nat, haut: nat)
    requires Descend(p) && bas < haut < |p| && p[bas] == bas && p[haut] == haut
    ensures Descend(p[haut := bas])
    ensures Rho(p[haut := bas]) == Joindre(Rho(p), bas, haut)
  {
    forall j | 0 <= j < |p| ensures Rho(p[haut := bas])[j] == Joindre(Rho(p), bas, haut)[j] {
      LienEn(p, bas, haut, j);
    }
  }

  // ---- The structure -----------------------------------------------------

  class Groupes {
    const parent: array<nat>
    /** Engines of each group, carried at the root. */
    const moteurs: array<set<string>>
    ghost const noms: seq<string>

    ghost predicate Valid()
      reads parent, moteurs
    {
      parent.Length == |noms| && moteurs.Length == |noms| && Descend(parent[..]) &&
      forall r | 0 <= r < |noms| && parent[r] == r :: moteurs[r] == MoteursDe(noms, Rho(parent[..]), r)
    }

    ghost function Classes(): (rho: seq<nat>)
      requires Valid()
      reads parent, moteurs
      ensures |rho| == |noms| && Partition(rho)
    {
      Rho(parent[..])
    }

    constructor (noms: seq<string>)
      ensures Valid() && fresh(parent) && fresh(moteurs)
      ensures this.noms == noms && Classes() == Discrete(|noms|)
    {
      this.noms := noms;
      parent := new nat[|noms|](i => i);
      moteurs := new set<string>[|noms|](i requires 0 <= i < |noms| => {noms[i]});
      new;
      assert forall i | 0 <= i < |noms| :: parent[..][i] == i;
      assert Rho(parent[..]) == Discrete(|noms|);
      forall r | 0 <= r < |noms| ensures moteurs[r] == MoteursDe(noms, Rho(parent[..]), r) {
        assert forall k | 0 <= k < |noms| :: Rho(parent[..])[k] == k;
      }
    }

    /** The root of `i`, every channel on the way pointed straight at it. */
    method Racine(i: nat) returns (r: nat)
      requires Valid() && i < |noms|
      modifies parent
      ensures Valid() && Classes() == old(Classes())
      ensures r == Classes()[i] && parent[r] == r
      ensures forall k | 0 <= k < |noms| :: parent[k] == k <==> old(parent[k]) == k
      decreases i
    {
      if parent[i] != i {
        var q := Racine(parent[i]);
        ghost var p := parent[..];
        assert q == RacineDe(p, i);
        CompressionNeutre(p, i);
        parent[i] := q;
        assert parent[..] == p[i := q];
      }
      r := parent[i];
    }

    /** Unconditional union, for an exact key. The lower root wins. */
    method Unir(a: nat, b: nat)
      requires Valid() && a < |noms| && b < |noms|
      modifies parent, moteurs
      ensures Valid() && Classes() == Joindre(old(Classes()), a, b)
    {
      var ra := Racine(a);
      var rb := Racine(b);
      ghost var avant := Classes();
      if ra == rb {
        assert Joindre(avant, a, b) == avant;
        return;
      }
      var bas := if ra <= rb then ra else rb;
      var haut := if ra <= rb then rb else ra;
      ghost var p := parent[..];
      LienJoint(p, bas, haut);
      parent[haut] := bas;
      assert parent[..] == p[haut := bas];
      assert Joindre(avant, bas, haut) == Joindre(avant, a, b);
      var m := moteurs[haut];
      moteurs[haut] := {};
      moteurs[bas] := moteurs[bas] + m;
      forall r | 0 <= r < |noms| && parent[r] == r
        ensures moteurs[r] == MoteursDe(noms, Rho(parent[..]), r)
      {
        MoteursApresLien(noms, avant, bas, haut, r);
      }
    }

    /** Union by a soft key, refused when the two groups share an engine. */
    method UnirSiMoteursDisjoints(a: nat, b: nat) returns (uni: bool)
      requires Valid() && a < |noms| && b < |noms|
      modifies parent, moteurs
      ensures Valid()
      ensures uni <==> Compatibles(noms, old(Classes()), a, b)
      ensures Classes() == if uni then Joindre(old(Classes()), a, b) else old(Classes())
    {
      var ra := Racine(a);
      var rb := Racine(b);
      if ra == rb {
        assert Joindre(Classes(), a, b) == Classes();
        return true;
      }
      if moteurs[ra] !! moteurs[rb] {
        ghost var rho := Classes();
        assert rho[ra] == ra && rho[rb] == rb;
        Unir(ra, rb);
        assert Joindre(rho, ra, rb) == Joindre(rho, a, b);
        return true;
      }
      return false;
    }
  }

  /** What a soft key may join: one group already, or two sharing no engine. */
  ghost predicate Compatibles(noms: seq<string>, rho: seq<nat>, a: nat, b: nat)
    requires |noms| == |rho| && a < |rho| && b < |rho|
  {
    rho[a] == rho[b] || MoteursDe(noms, rho, rho[a]) !! MoteursDe(noms, rho, rho[b])
  }

  lemma MoteursApresLien(noms: seq<string>, rho: seq<nat>, bas: nat, haut: nat, r: nat)
    requires Partition(rho) && |noms| == |rho| && bas < haut < |rho| && rho[bas] == bas && rho[haut] == haut
    ensures r != bas && r != haut ==> MoteursDe(noms, Joindre(rho, bas, haut), r) == MoteursDe(noms, rho, r)
    ensures MoteursDe(noms, Joindre(rho, bas, haut), bas) == MoteursDe(noms, rho, bas) + MoteursDe(noms, rho, haut)
  {
    var q := Joindre(rho, bas, haut);
    forall m | m in MoteursDe(noms, rho, bas) + MoteursDe(noms, rho, haut)
      ensures m in MoteursDe(noms, q, bas)
    {
      var k :| 0 <= k < |rho| && (rho[k] == bas || rho[k] == haut) && noms[k] == m;
      assert q[k] == bas;
    }
    forall m | r != bas && r != haut && m in MoteursDe(noms, rho, r) ensures m in MoteursDe(noms, q, r) {
      var k :| 0 <= k < |rho| && rho[k] == r && noms[k] == m;
      assert q[k] == r;
    }
  }
}
