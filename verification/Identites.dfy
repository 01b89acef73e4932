/** Which uid each group of channels takes, against the stock. */
module Identites {
  import opened Ordre
  import opened Annonces
  import opened UnionFind

  /** Known assignments: channel uid to line uid. */
  type Stock = map<string, string>

  /** A batch, its groups, and the stock it is reconciled against. */
  datatype Lot = Lot(rows: seq<AnnonceBrute>, rho: seq<nat>, stock: Stock) {

    ghost predicate Valide() {
      |rho| == |rows| && Partition(rho) &&
      // No exact key is in two groups.
      forall i, j, c | 0 <= i < |rows| && 0 <= j < |rows| && c in Cles(rows[i]) && c in Cles(rows[j]) :: rho[i] == rho[j]
    }

    ghost predicate Racine(r: nat) {
      r < |rho| && rho[r] == r
    }

    /** Own uids and join keys of the channels of group `r`. */
    ghost function ClesDe(r: nat): (cles: set<string>)
      requires |rho| == |rows|
    {
      set i, c | 0 <= i < |rows| && rho[i] == r && c in Cles(rows[i]) :: c
    }

    /** The keys by which group `r` claims uid `u`. */
    ghost function Porteurs(r: nat, u: string): set<string>
      requires |rho| == |rows|
    {
      set c | c in ClesDe(r) && c in stock && stock[c] == u
    }

    ghost function Poids(r: nat, u: string): nat
      requires |rho| == |rows|
    {
      |Porteurs(r, u)|
    }

    /** `r` holds more channels of `u` than `g`, or as many and sorts first. */
    ghost predicate Devance(r: nat, g: nat, u: string)
      requires |rho| == |rows|
    {
      Poids(r, u) > Poids(g, u) || (Poids(r, u) == Poids(g, u) && r < g)
    }

    ghost predicate Gagne(r: nat, u: string)
      requires |rho| == |rows|
    {
      Racine(r) && Poids(r, u) > 0 && forall g | Racine(g) && g != r :: Devance(r, g, u)
    }

    /** The stock uids group `r` keeps once splits are settled. */
    ghost function Possedes(r: nat): set<string>
      requires |rho| == |rows|
    {
      set u | u in stock.Values && Gagne(r, u)
    }

    /** Most carried first, then the smallest. */
    ghost function Preference(r: nat): (string, string) -> bool
      requires |rho| == |rows|
    {
      (u, v) => Poids(r, u) > Poids(r, v) || (Poids(r, u) == Poids(r, v) && LexLe(u, v))
    }

    ghost function Classement(r: nat): seq<string>
      requires |rho| == |rows|
    {
      Trier(Preference(r), EnSequence(Possedes(r)))
    }

    /** The uid elected by group `r`: its most carried one, else a fresh strike
        from the founding channel. */
    ghost function Elu(ctx: Contexte, r: nat): string
      requires |rho| == |rows| && r < |rows|
    {
      if Classement(r) == [] then Frapper(ctx, rows[r]) else Classement(r)[0]
    }

    /** `a` is merged into the uid of group `r`. */
    ghost predicate Absorbe(r: nat, a: string)
      requires |rho| == |rows|
    {
      Racine(r) && Classement(r) != [] && a in Classement(r)[1..]
    }

    /** No uid this run strikes is one the batch claims. */
    ghost predicate FrappesNeuves(ctx: Contexte)
      requires |rho| == |rows|
    {
      forall r: nat, g: nat | Racine(r) && Classement(r) == [] && Racine(g) :: Poids(g, Frapper(ctx, rows[r])) == 0
    }

    /** No two groups would strike one uid. */
    ghost predicate FrappesDistinctes(ctx: Contexte)
      requires |rho| == |rows|
    {
      forall r: nat, g: nat | Racine(r) && Racine(g) && r != g :: Frapper(ctx, rows[r]) != Frapper(ctx, rows[g])
    }

    /** `g` keeps no uid, and strikes one that `h` keeps. */
    ghost predicate Rival(ctx: Contexte, g: nat, h: nat)
      requires |rho| == |rows|
    {
      Racine(g) && g != h && Classement(g) == [] && Frapper(ctx, rows[g]) in Possedes(h)
    }

    /** The keys of `g` that the uids of `h` would have once a run is written, were
        the channels of `g` among them: its own, and those assigned to a uid of `h`. */
    ghost function Apres(g: nat, h: nat): set<string>
      requires |rho| == |rows|
    {
      set c | c in ClesDe(g) && (Propre(c) || (c in stock && stock[c] in Possedes(h)))
    }

    /** `h` has more of those keys than `g`, or as many and sorts first. */
    ghost predicate Surpasse(h: nat, g: nat)
      requires |rho| == |rows|
    {
      |Apres(h, h)| > |Apres(g, h)| || (|Apres(h, h)| == |Apres(g, h)| && h < g)
    }

    /** `h` outweighs each of its rivals. */
    ghost predicate Tient(ctx: Contexte, h: nat)
      requires |rho| == |rows|
    {
      forall g: nat | Rival(ctx, g, h) :: Surpasse(h, g)
    }

    /** So does every group that keeps a uid. */
    ghost predicate Tenu(ctx: Contexte)
      requires |rho| == |rows|
    {
      forall h: nat | Racine(h) && Classement(h) != [] :: Tient(ctx, h)
    }

    ghost predicate Propre(c: string) {
      exists i :: 0 <= i < |rows| && rows[i].sourceUid == c
    }
  }

  /** The elements of a set, in some order. */
  ghost function EnSequence<T>(s: set<T>): (q: seq<T>)
    ensures multiset(q) == multiset(s)
  {
    if s == {} then [] else
    var x :| x in s;
    assert multiset(s) == multiset{x} + multiset(s - {x});
    [x] + EnSequence(s - {x})
  }

  lemma PreferenceEstUnOrdre(l: Lot, r: nat)
    requires |l.rho| == |l.rows|
    ensures Total(l.Preference(r)) && Transitif(l.Preference(r))
    ensures forall s :: Distingue(l.Preference(r), s)
  {
    LexEstUnOrdre();
  }

  /** The ranking lists the uids a group keeps, once each. */
  lemma ClassementComplet(l: Lot, r: nat)
    requires |l.rho| == |l.rows|
    ensures multiset(l.Classement(r)) == multiset(l.Possedes(r))
    ensures forall u :: u in l.Classement(r) <==> u in l.Possedes(r)
    ensures l.Classement(r) != [] ==> l.Classement(r)[0] !in l.Classement(r)[1..]
    ensures forall i, j | 0 <= i < j < |l.Classement(r)| :: l.Classement(r)[i] != l.Classement(r)[j]
  {
    TrierPermute(l.Preference(r), EnSequence(l.Possedes(r)));
    SansDoublon(l.Classement(r), l.Possedes(r));
  }

  /** Any listing of the kept uids, sorted by preference, is the ranking. */
  lemma ClassementUnique(l: Lot, r: nat, q: seq<string>)
    requires |l.rho| == |l.rows|
    requires multiset(q) == multiset(l.Possedes(r)) && Trie(l.Preference(r), q)
    ensures q == l.Classement(r)
  {
    PreferenceEstUnOrdre(l, r);
    ClassementComplet(l, r);
    TrierTrie(l.Preference(r), EnSequence(l.Possedes(r)));
    TrieUnique(l.Preference(r), q, l.Classement(r));
  }

  // ---- Every claimed uid has one winner --------------------------------------

  lemma GagnantUnique(l: Lot, r: nat, g: nat, u: string)
    requires |l.rho| == |l.rows| && l.Gagne(r, u) && l.Gagne(g, u)
    ensures r == g
  {
  }

  /** The best claimant of `u` among the roots below `n`. */
  lemma {:induction false} MeilleurSous(l: Lot, u: string, n: nat) returns (r: nat)
    requires |l.rho| == |l.rows| && n <= |l.rows|
    requires exists g: nat :: g < n && l.Racine(g) && l.Poids(g, u) > 0
    ensures r < n && l.Racine(r) && l.Poids(r, u) > 0
    ensures forall g: nat | g < n && l.Racine(g) && g != r :: l.Devance(r, g, u)
  {
    var g: nat :| g < n && l.Racine(g) && l.Poids(g, u) > 0;
    if exists h: nat :: h < n - 1 && l.Racine(h) && l.Poids(h, u) > 0 {
      r := MeilleurSous(l, u, n - 1);
      if l.Racine(n - 1) && l.Poids(n - 1, u) > l.Poids(r, u) { r := n - 1; }
    } else {
      r := g;
    }
  }

  lemma GagnantExiste(l: Lot, g: nat, u: string) returns (r: nat)
    requires l.Valide() && l.Racine(g) && l.Poids(g, u) > 0
    ensures l.Gagne(r, u) && u in l.Possedes(r)
  {
    r := MeilleurSous(l, u, |l.rows|);
    var c :| c in l.Porteurs(r, u);
    assert l.stock[c] in l.stock.Values;
  }

  /** A claiming key leads to the one winner of its uid. */
  lemma GagnantDeCle(l: Lot, g: nat, c: string) returns (k: nat)
    requires l.Valide() && l.Racine(g) && c in l.ClesDe(g) && c in l.stock
    ensures l.Gagne(k, l.stock[c]) && l.stock[c] in l.Possedes(k)
  {
    assert c in l.Porteurs(g, l.stock[c]);
    assert l.Poids(g, l.stock[c]) > 0;
    k := GagnantExiste(l, g, l.stock[c]);
  }

  // ---- No identity is lost -----------------------------------------------------

  /** The elected uid of a group that keeps something is one it keeps, and no
      group absorbs it. */
  lemma EluNonAbsorbe(l: Lot, ctx: Contexte, r: nat, g: nat)
    requires l.Valide() && l.Racine(r) && l.Classement(r) != []
    ensures l.Elu(ctx, r) in l.Possedes(r) && !l.Absorbe(g, l.Elu(ctx, r))
  {
    ClassementComplet(l, r);
    var u := l.Elu(ctx, r);
    assert u in l.Classement(r);
    if l.Absorbe(g, u) {
      ClassementComplet(l, g);
      assert u in l.Classement(g);
      GagnantUnique(l, r, g, u);
    }
  }

  /** Every claimed uid is elected by a group or absorbed by exactly one; the
      uids absorbed and the uids absorbed into are disjoint. */
  lemma IdentiteGardee(l: Lot, ctx: Contexte, g: nat, u: string)
    requires l.Valide() && l.Racine(g) && l.Poids(g, u) > 0
    ensures exists r :: l.Racine(r) && l.Classement(r) != [] && (l.Elu(ctx, r) == u || l.Absorbe(r, u))
    ensures forall r, s | l.Absorbe(r, u) && l.Absorbe(s, u) :: r == s
    ensures forall r, s | l.Absorbe(r, u) && l.Racine(s) && l.Classement(s) != [] :: l.Elu(ctx, s) != u
  {
    var r := GagnantExiste(l, g, u);
    ClassementComplet(l, r);
    assert u in l.Classement(r);
    assert l.Classement(r) == [l.Classement(r)[0]] + l.Classement(r)[1..];
    assert l.Elu(ctx, r) == u || l.Absorbe(r, u);
    forall r, s | l.Absorbe(r, u) && l.Absorbe(s, u) ensures r == s {
      AbsorbePossede(l, r, u);
      AbsorbePossede(l, s, u);
      GagnantUnique(l, r, s, u);
    }
    forall r, s | l.Absorbe(r, u) && l.Racine(s) && l.Classement(s) != [] ensures l.Elu(ctx, s) != u {
      EluNonAbsorbe(l, ctx, s, r);
    }
  }

  lemma AbsorbePossede(l: Lot, r: nat, u: string)
    requires |l.rho| == |l.rows| && l.Absorbe(r, u)
    ensures u in l.Possedes(r) && l.Gagne(r, u)
  {
    ClassementComplet(l, r);
    assert u in l.Classement(r);
  }

  // ---- What the store holds once a run is written -------------------------------

  /** The assignment of a channel once the lines are written: channels of the
      batch follow their line. */
  ghost predicate Ecrit(l: Lot, ctx: Contexte, c: string, u: string)
    requires |l.rho| == |l.rows| && Partition(l.rho)
  {
    if l.Propre(c) then exists i :: 0 <= i < |l.rows| && l.rows[i].sourceUid == c && l.Elu(ctx, l.rho[i]) == u
    else c in l.stock && l.stock[c] == u
  }

  /** Then every assignment to an absorbed uid moves to the uid that absorbed it. */
  ghost predicate Redirige(l: Lot, ctx: Contexte, u: string, v: string)
    requires |l.rho| == |l.rows|
  {
    (exists r :: l.Absorbe(r, u) && v == l.Elu(ctx, r)) || (v == u && forall r :: !l.Absorbe(r, u))
  }

  ghost predicate StockApres(l: Lot, ctx: Contexte, s: Stock)
    requires |l.rho| == |l.rows| && Partition(l.rho)
  {
    && (forall c :: c in s <==> c in l.stock || l.Propre(c))
    && forall c | c in s :: exists u :: Ecrit(l, ctx, c, u) && Redirige(l, ctx, u, s[c])
  }

  /** Where an assignment to `u` leads: to the uid elected by the group that keeps
      `u`, if there is one. */
  ghost predicate Mene(l: Lot, ctx: Contexte, u: string, v: string)
    requires |l.rho| == |l.rows|
  {
    || (v == u && forall k: nat :: u !in l.Possedes(k))
    || exists k: nat :: u in l.Possedes(k) && l.Classement(k) != [] && v == l.Elu(ctx, k)
  }

  lemma RedirigeMene(l: Lot, ctx: Contexte, u: string, v: string)
    requires l.Valide() && Redirige(l, ctx, u, v)
    ensures Mene(l, ctx, u, v)
  {
    if r: nat :| l.Absorbe(r, u) && v == l.Elu(ctx, r) {
      AbsorbePossede(l, r, u);
    } else if k: nat :| u in l.Possedes(k) {
      ClassementComplet(l, k);
      assert u in l.Classement(k);
      assert !l.Absorbe(k, u);
      assert l.Classement(k) == [l.Classement(k)[0]] + l.Classement(k)[1..];
    }
  }

  /** It leads to the uid `h` elects if and only if `h` keeps `u`. */
  lemma MeneVers(l: Lot, ctx: Contexte, u: string, v: string, h: nat)
    requires l.Valide() && Mene(l, ctx, u, v) && l.Racine(h) && l.Classement(h) != []
    ensures v == l.Elu(ctx, h) <==> u in l.Possedes(h)
  {
    EluNonAbsorbe(l, ctx, h, h);
    if k: nat :| u in l.Possedes(k) && l.Classement(k) != [] && v == l.Elu(ctx, k) {
      EluNonAbsorbe(l, ctx, k, k);
      if v == l.Elu(ctx, h) { GagnantUnique(l, k, h, v); }
      if u in l.Possedes(h) { GagnantUnique(l, k, h, u); }
    }
  }

  /** The uid written for a key of group `g`, before any merge. */
  ghost function Source(l: Lot, ctx: Contexte, g: nat, c: string): string
    requires |l.rho| == |l.rows| && l.Racine(g) && (l.Propre(c) || c in l.stock)
  {
    if l.Propre(c) then l.Elu(ctx, g) else l.stock[c]
  }

  /** The group of a channel is the one that carries its own uid. */
  lemma GroupeDuPropre(l: Lot, g: nat, i: nat)
    requires l.Valide() && i < |l.rows| && l.Racine(g) && l.rows[i].sourceUid in l.ClesDe(g)
    ensures l.rho[i] == g
  {
    var j :| 0 <= j < |l.rows| && l.rho[j] == g && l.rows[i].sourceUid in Cles(l.rows[j]);
    assert l.rows[i].sourceUid in Cles(l.rows[i]);
  }

  lemma ProprePorte(l: Lot, ctx: Contexte, g: nat, c: string, u: string)
    requires l.Valide() && l.Racine(g) && c in l.ClesDe(g) && l.Propre(c) && Ecrit(l, ctx, c, u)
    ensures u == Source(l, ctx, g, c)
  {
    var i :| 0 <= i < |l.rows| && l.rows[i].sourceUid == c && l.Elu(ctx, l.rho[i]) == u;
    GroupeDuPropre(l, g, i);
  }

  /** Where each key of a group points after the run. */
  lemma CleApres(l: Lot, ctx: Contexte, s: Stock, g: nat, c: string)
    requires l.Valide() && StockApres(l, ctx, s) && l.Racine(g) && c in l.ClesDe(g) && c in s
    ensures l.Propre(c) || c in l.stock
    ensures Mene(l, ctx, Source(l, ctx, g, c), s[c])
    ensures !l.Propre(c) ==> exists k: nat :: l.Racine(k) && l.Classement(k) != [] && s[c] == l.Elu(ctx, k)
  {
    var u :| Ecrit(l, ctx, c, u) && Redirige(l, ctx, u, s[c]);
    RedirigeMene(l, ctx, u, s[c]);
    if l.Propre(c) {
      ProprePorte(l, ctx, g, c, u);
    } else {
      var k := GagnantDeCle(l, g, c);
      assert u in l.Possedes(k);
    }
  }

  /** The keys by which group `r` claims any uid of `us`. */
  ghost function PorteursDe(l: Lot, r: nat, us: set<string>): set<string>
    requires |l.rho| == |l.rows|
  {
    set c | c in l.ClesDe(r) && c in l.stock && l.stock[c] in us
  }

  /** A group that wins each uid of a set carries at least as many keys of the
      set as any other, and sorts first where it carries as many. */
  lemma BilanAjoute(l: Lot, h: nat, g: nat, us: set<string>, u: string)
    requires |l.rho| == |l.rows| && u in us && l.Devance(h, g, u) && l.Poids(h, u) > 0
    requires us - {u} != {} ==> |PorteursDe(l, g, us - {u})| <= |PorteursDe(l, h, us - {u})|
    requires us - {u} != {} && |PorteursDe(l, g, us - {u})| == |PorteursDe(l, h, us - {u})| ==> h < g
    ensures |PorteursDe(l, g, us)| <= |PorteursDe(l, h, us)| && |PorteursDe(l, h, us)| > 0
    ensures |PorteursDe(l, g, us)| == |PorteursDe(l, h, us)| ==> h < g
  {
    PoidsAjoute(l, g, us, u);
    PoidsAjoute(l, h, us, u);
    if us - {u} == {} {
      PorteursVides(l, g);
      PorteursVides(l, h);
    }
  }

  lemma PorteursVides(l: Lot, r: nat)
    requires |l.rho| == |l.rows|
    ensures PorteursDe(l, r, {}) == {}
  {
  }

  lemma {:induction false} BilanDesPoids(l: Lot, h: nat, g: nat, us: set<string>)
    requires l.Valide() && us != {} && h != g && l.Racine(g)
    requires forall u | u in us :: l.Gagne(h, u)
    ensures |PorteursDe(l, g, us)| <= |PorteursDe(l, h, us)| && |PorteursDe(l, h, us)| > 0
    ensures |PorteursDe(l, g, us)| == |PorteursDe(l, h, us)| ==> h < g
    decreases |us|
  {
    var u :| u in us;
    assert l.Gagne(h, u) && l.Devance(h, g, u);
    if us - {u} != {} { BilanDesPoids(l, h, g, us - {u}); }
    BilanAjoute(l, h, g, us, u);
  }

  lemma PoidsAjoute(l: Lot, r: nat, us: set<string>, u: string)
    requires |l.rho| == |l.rows| && u in us
    ensures |PorteursDe(l, r, us)| == l.Poids(r, u) + |PorteursDe(l, r, us - {u})|
  {
    assert PorteursDe(l, r, us) == l.Porteurs(r, u) + PorteursDe(l, r, us - {u});
    assert l.Porteurs(r, u) !! PorteursDe(l, r, us - {u});
  }

  lemma CardinalInclus<T>(a: set<T>, b: set<T>)
    requires a <= b
    ensures |a| <= |b|
  {
    assert b == a + (b - a);
  }

  // ---- A second run ---------------------------------------------------------------

  /** A key claims, in the next run, the uid `h` elects if and only if what was
      written for it is a uid `h` keeps. */
  lemma PorteurApres(l: Lot, ctx: Contexte, s: Stock, g: nat, h: nat, c: string)
    requires l.Valide() && StockApres(l, ctx, s) && l.Racine(g) && l.Racine(h) && l.Classement(h) != [] && c in l.ClesDe(g)
    ensures (c in s && s[c] == l.Elu(ctx, h)) <==> (l.Propre(c) || c in l.stock) && Source(l, ctx, g, c) in l.Possedes(h)
  {
    if c in s {
      CleApres(l, ctx, s, g, c);
      MeneVers(l, ctx, Source(l, ctx, g, c), s[c], h);
    }
  }

  lemma MemesGroupes(l: Lot, s: Stock)
    requires l.Valide()
    ensures l.(stock := s).Valide() && forall r: nat :: l.(stock := s).Racine(r) <==> l.Racine(r)
  {
  }

  lemma ClesInchangees(l: Lot, s: Stock, g: nat, u: string)
    requires |l.rho| == |l.rows|
    ensures l.(stock := s).Porteurs(g, u) == set c | c in l.ClesDe(g) && c in s && s[c] == u
  {
    assert l.(stock := s).ClesDe(g) == l.ClesDe(g);
  }

  /** The uid `g` elects is kept by `h` only if `g` is `h` or its rival. */
  lemma EluChez(l: Lot, ctx: Contexte, g: nat, h: nat)
    requires l.Valide() && l.Racine(g) && l.Racine(h) && l.Classement(h) != []
    ensures l.Elu(ctx, g) in l.Possedes(h) <==> g == h || l.Rival(ctx, g, h)
  {
    EluNonAbsorbe(l, ctx, h, h);
    if l.Classement(g) != [] {
      EluNonAbsorbe(l, ctx, g, g);
      if l.Elu(ctx, g) in l.Possedes(h) { GagnantUnique(l, g, h, l.Elu(ctx, g)); }
    }
  }

  /** The keys of `g` for which a uid of `h` was written. */
  ghost function Vers(l: Lot, ctx: Contexte, g: nat, h: nat): set<string>
    requires |l.rho| == |l.rows| && l.Racine(g)
  {
    set c | c in l.ClesDe(g) && (l.Propre(c) || c in l.stock) && Source(l, ctx, g, c) in l.Possedes(h)
  }

  lemma PorteursVers(l: Lot, ctx: Contexte, s: Stock, g: nat, h: nat)
    requires l.Valide() && StockApres(l, ctx, s) && l.Racine(g) && l.Racine(h) && l.Classement(h) != []
    ensures l.(stock := s).Porteurs(g, l.Elu(ctx, h)) == Vers(l, ctx, g, h)
  {
    ClesInchangees(l, s, g, l.Elu(ctx, h));
    forall c | c in l.ClesDe(g) ensures (c in s && s[c] == l.Elu(ctx, h)) <==> c in Vers(l, ctx, g, h) {
      PorteurApres(l, ctx, s, g, h, c);
    }
  }

  lemma VersRival(l: Lot, ctx: Contexte, g: nat, h: nat)
    requires l.Valide() && l.Racine(g) && l.Elu(ctx, g) in l.Possedes(h)
    ensures Vers(l, ctx, g, h) == l.Apres(g, h)
  {
  }

  lemma VersAutre(l: Lot, ctx: Contexte, g: nat, h: nat)
    requires l.Valide() && l.Racine(g) && l.Elu(ctx, g) !in l.Possedes(h)
    ensures Vers(l, ctx, g, h) <= PorteursDe(l, g, l.Possedes(h))
  {
  }

  lemma UneCle(l: Lot, s: Stock, r: nat, u: string) returns (c: string)
    requires |l.rho| == |l.rows| && l.(stock := s).Poids(r, u) > 0
    ensures c in l.ClesDe(r) && c in s && s[c] == u && u in s.Values
  {
    ClesInchangees(l, s, r, u);
    c :| c in l.(stock := s).Porteurs(r, u);
    assert s[c] in s.Values;
  }

  /** The keys of `g` that claim it, then. */
  lemma PorteursApres(l: Lot, ctx: Contexte, s: Stock, g: nat, h: nat)
    requires l.Valide() && StockApres(l, ctx, s) && l.Racine(g) && l.Racine(h) && l.Classement(h) != []
    ensures g == h || l.Rival(ctx, g, h) ==> l.(stock := s).Porteurs(g, l.Elu(ctx, h)) == l.Apres(g, h)
    ensures g != h && !l.Rival(ctx, g, h) ==> l.(stock := s).Porteurs(g, l.Elu(ctx, h)) <= PorteursDe(l, g, l.Possedes(h))
  {
    EluChez(l, ctx, g, h);
    PorteursVers(l, ctx, s, g, h);
    if l.Elu(ctx, g) in l.Possedes(h) { VersRival(l, ctx, g, h); } else { VersAutre(l, ctx, g, h); }
  }

  /** What `h` wins it carries in the next run too, and at least as heavily. */
  lemma ApresGrandit(l: Lot, h: nat)
    requires l.Valide()
    ensures |PorteursDe(l, h, l.Possedes(h))| <= |l.Apres(h, h)|
  {
    CardinalInclus(PorteursDe(l, h, l.Possedes(h)), l.Apres(h, h));
  }

  /** No group but a rival can take from `h` the uid it elected. */
  lemma DevanceLesAutres(l: Lot, ctx: Contexte, s: Stock, h: nat, g: nat)
    requires l.Valide() && StockApres(l, ctx, s) && l.Racine(h) && l.Classement(h) != []
    requires l.Racine(g) && g != h && !l.Rival(ctx, g, h)
    ensures l.(stock := s).Devance(h, g, l.Elu(ctx, h))
  {
    var us := l.Possedes(h);
    EluNonAbsorbe(l, ctx, h, h);
    PorteursApres(l, ctx, s, h, h);
    PorteursApres(l, ctx, s, g, h);
    ApresGrandit(l, h);
    CardinalInclus(l.(stock := s).Porteurs(g, l.Elu(ctx, h)), PorteursDe(l, g, us));
    BilanDesPoids(l, h, g, us);
  }

  /** In the next run it carries that uid. */
  lemma PorteEncore(l: Lot, ctx: Contexte, s: Stock, h: nat)
    requires l.Valide() && StockApres(l, ctx, s) && l.Racine(h) && l.Classement(h) != []
    ensures l.(stock := s).Poids(h, l.Elu(ctx, h)) > 0
  {
    EluNonAbsorbe(l, ctx, h, h);
    PorteursApres(l, ctx, s, h, h);
    var c := UneCle(l, l.stock, h, l.Elu(ctx, h));
    assert c in l.Apres(h, h);
  }

  lemma DevanceSsi(l: Lot, ctx: Contexte, s: Stock, h: nat, g: nat)
    requires l.Valide() && StockApres(l, ctx, s) && l.Racine(h) && l.Classement(h) != [] && l.Racine(g) && g != h
    ensures l.(stock := s).Devance(h, g, l.Elu(ctx, h)) <==> (l.Rival(ctx, g, h) ==> l.Surpasse(h, g))
  {
    if l.Rival(ctx, g, h) {
      PorteursApres(l, ctx, s, h, h);
      PorteursApres(l, ctx, s, g, h);
    } else {
      DevanceLesAutres(l, ctx, s, h, g);
    }
  }

  /** Against the stock its own run wrote, a group wins its elected uid again if and
      only if it outweighs its rivals. */
  lemma GagneEncoreSsi(l: Lot, ctx: Contexte, s: Stock, h: nat)
    requires l.Valide() && StockApres(l, ctx, s) && l.Racine(h) && l.Classement(h) != []
    ensures l.(stock := s).Gagne(h, l.Elu(ctx, h)) <==> l.Tient(ctx, h)
  {
    var m := l.(stock := s);
    PorteEncore(l, ctx, s, h);
    MemesGroupes(l, s);
    forall g: nat | l.Racine(g) && g != h
      ensures m.Devance(h, g, l.Elu(ctx, h)) <==> (l.Rival(ctx, g, h) ==> l.Surpasse(h, g))
    {
      DevanceSsi(l, ctx, s, h, g);
    }
  }

  /** The next run keeps, of each group, its elected uid at most. */
  lemma PossedeSeul(l: Lot, ctx: Contexte, s: Stock, r: nat, u: string)
    requires l.Valide() && l.Tenu(ctx) && StockApres(l, ctx, s) && l.Racine(r) && u in l.(stock := s).Possedes(r)
    ensures u == l.Elu(ctx, r)
  {
    var m := l.(stock := s);
    var c := UneCle(l, s, r, u);
    CleApres(l, ctx, s, r, c);
    if k: nat :| l.Racine(k) && l.Classement(k) != [] && u == l.Elu(ctx, k) {
      GagneEncoreSsi(l, ctx, s, k);
      GagnantUnique(m, r, k, u);
    }
  }

  /** Reconciled again against what it wrote, a batch whose keeping groups outweigh
      their rivals elects the same uids and absorbs nothing. */
  lemma Stabilite(l: Lot, ctx: Contexte, s: Stock, r: nat)
    requires l.Valide() && l.Tenu(ctx) && StockApres(l, ctx, s) && l.Racine(r)
    ensures l.(stock := s).Elu(ctx, r) == l.Elu(ctx, r)
    ensures |l.(stock := s).Classement(r)| <= 1
    ensures l.Classement(r) != [] ==> l.(stock := s).Classement(r) != []
  {
    var m := l.(stock := s);
    forall u | u in m.Possedes(r) ensures u == l.Elu(ctx, r) { PossedeSeul(l, ctx, s, r, u); }
    ClassementComplet(m, r);
    if l.Classement(r) != [] {
      GagneEncoreSsi(l, ctx, s, r);
      var c := UneCle(l, s, r, l.Elu(ctx, r));
      assert l.Elu(ctx, r) in m.Possedes(r);
    }
    AuPlusUn(m.Classement(r), l.Elu(ctx, r));
  }

  /** A uid of the stock written is kept by no group, or is the one its keeper elected. */
  lemma UidEcritPropre(l: Lot, ctx: Contexte, s: Stock, g: nat, c: string, k: nat)
    requires l.Valide() && StockApres(l, ctx, s) && l.Racine(g) && c in l.ClesDe(g) && c in s
    requires s[c] in l.Possedes(k)
    ensures l.Racine(k) && l.Classement(k) != [] && s[c] == l.Elu(ctx, k)
  {
    CleApres(l, ctx, s, g, c);
    ClassementComplet(l, k);
    assert s[c] in l.Classement(k);
    var j: nat :| Source(l, ctx, g, c) in l.Possedes(j) && l.Classement(j) != [] && s[c] == l.Elu(ctx, j);
    EluNonAbsorbe(l, ctx, j, j);
    GagnantUnique(l, j, k, s[c]);
  }

  /** A uid a group carries and does not win is another's. */
  lemma Depossede(m: Lot, h: nat, u: string) returns (g: nat)
    requires m.Valide() && m.Racine(h) && m.Poids(h, u) > 0 && !m.Gagne(h, u)
    ensures m.Gagne(g, u) && g != h && m.Classement(g) != [] && !m.Devance(h, g, u)
  {
    g := GagnantExiste(m, h, u);
    assert m.Devance(g, h, u);
    ClassementComplet(m, g);
    assert u in m.Classement(g);
  }

  /** Where a keeping group does not outweigh its rivals, one of them takes its uid. */
  lemma RivalGagne(l: Lot, ctx: Contexte, s: Stock, h: nat) returns (g: nat)
    requires l.Valide() && StockApres(l, ctx, s) && l.Racine(h) && l.Classement(h) != [] && !l.Tient(ctx, h)
    ensures l.Rival(ctx, g, h) && l.(stock := s).Gagne(g, l.Elu(ctx, h)) && l.(stock := s).Classement(g) != []
  {
    GagneEncoreSsi(l, ctx, s, h);
    PorteEncore(l, ctx, s, h);
    MemesGroupes(l, s);
    g := Depossede(l.(stock := s), h, l.Elu(ctx, h));
    DevanceSsi(l, ctx, s, h, g);
  }

  /** That rival then elects another uid than it struck, unless it struck that one. */
  lemma RivalElit(l: Lot, ctx: Contexte, s: Stock, g: nat, h: nat)
    requires l.Valide() && StockApres(l, ctx, s) && l.Racine(h) && l.Classement(h) != []
    requires l.Rival(ctx, g, h) && l.(stock := s).Classement(g) != [] && l.(stock := s).Elu(ctx, g) == l.Elu(ctx, g)
    ensures l.Elu(ctx, h) == Frapper(ctx, l.rows[g])
  {
    var m := l.(stock := s);
    EluNonAbsorbe(m, ctx, g, g);
    var c := UneCle(l, s, g, m.Elu(ctx, g));
    UidEcritPropre(l, ctx, s, g, c, h);
  }

  lemma PerdSonUid(m: Lot, ctx: Contexte, g: nat, h: nat, u: string)
    requires m.Valide() && m.Racine(h) && g != h && m.Gagne(g, u) && u != Frapper(ctx, m.rows[h])
    ensures m.Elu(ctx, h) != u
  {
    if m.Classement(h) != [] {
      EluNonAbsorbe(m, ctx, h, h);
      if m.Elu(ctx, h) == u { GagnantUnique(m, g, h, u); }
    }
  }

  lemma DeuxFrappes(l: Lot, ctx: Contexte, g: nat, h: nat)
    requires |l.rho| == |l.rows| && l.FrappesDistinctes(ctx) && l.Racine(g) && l.Racine(h) && g != h
    ensures Frapper(ctx, l.rows[g]) != Frapper(ctx, l.rows[h])
  {
  }

  /** Some group then elects another uid, if no two groups would strike one uid. */
  lemma Instabilite(l: Lot, ctx: Contexte, s: Stock, h: nat) returns (r: nat)
    requires l.Valide() && l.FrappesDistinctes(ctx) && StockApres(l, ctx, s)
    requires l.Racine(h) && l.Classement(h) != [] && !l.Tient(ctx, h)
    ensures l.Racine(r) && l.(stock := s).Elu(ctx, r) != l.Elu(ctx, r)
  {
    var m := l.(stock := s);
    var g := RivalGagne(l, ctx, s, h);
    if m.Elu(ctx, g) != l.Elu(ctx, g) { return g; }
    RivalElit(l, ctx, s, g, h);
    DeuxFrappes(l, ctx, g, h);
    MemesGroupes(l, s);
    PerdSonUid(m, ctx, g, h, l.Elu(ctx, h));
    return h;
  }

  /** What holds once holds of the next run: a batch that is stable stays so. */
  lemma TenuSuit(l: Lot, ctx: Contexte, s: Stock)
    requires l.Valide() && l.Tenu(ctx) && StockApres(l, ctx, s)
    ensures l.(stock := s).Tenu(ctx)
  {
    var m := l.(stock := s);
    forall h: nat, g: nat | m.Racine(h) && m.Classement(h) != [] && m.Rival(ctx, g, h) ensures m.Surpasse(h, g) {
      RivalSuivant(l, ctx, s, g, h);
    }
  }

  /** A rival of the next run strikes the one uid `h` keeps there. */
  lemma RivalSuivant(l: Lot, ctx: Contexte, s: Stock, g: nat, h: nat)
    requires l.Valide() && l.Tenu(ctx) && StockApres(l, ctx, s)
    requires l.Racine(h) && l.(stock := s).Classement(h) != [] && l.(stock := s).Rival(ctx, g, h)
    ensures l.(stock := s).Surpasse(h, g)
  {
    var (m, v) := (l.(stock := s), l.Elu(ctx, h));
    assert l.Racine(g) && m.Valide();
    Stabilite(l, ctx, s, h);
    Stabilite(l, ctx, s, g);
    EluNonAbsorbe(m, ctx, h, h);
    PossedeSeul(l, ctx, s, h, Frapper(ctx, l.rows[g]));
    ApresSontPorteurs(l, ctx, s, h, h);
    ApresSontPorteurs(l, ctx, s, g, h);
    assert m.Devance(h, g, v);
  }

  /** A channel of a group that elected `v` is written there, if the next run holds `v`. */
  lemma PropreVers(l: Lot, ctx: Contexte, s: Stock, x: nat, c: string, g: nat, d: string)
    requires l.Valide() && StockApres(l, ctx, s) && l.Racine(x) && c in l.ClesDe(x) && l.Propre(c) && c in s
    requires l.Racine(g) && d in l.ClesDe(g) && d in s && s[d] == l.Elu(ctx, x)
    ensures s[c] == l.Elu(ctx, x)
  {
    CleApres(l, ctx, s, x, c);
    if k: nat :| l.Elu(ctx, x) in l.Possedes(k) && l.Classement(k) != [] && s[c] == l.Elu(ctx, k) {
      UidEcritPropre(l, ctx, s, g, d, k);
    }
  }

  lemma CleDuSeul(l: Lot, ctx: Contexte, s: Stock, h: nat) returns (d: string)
    requires l.Valide() && l.Tenu(ctx) && StockApres(l, ctx, s) && l.Racine(h) && l.(stock := s).Classement(h) != []
    ensures d in l.ClesDe(h) && d in s && s[d] == l.Elu(ctx, h) && l.Elu(ctx, h) in l.(stock := s).Possedes(h)
  {
    var m := l.(stock := s);
    Stabilite(l, ctx, s, h);
    EluNonAbsorbe(m, ctx, h, h);
    d := UneCle(l, s, h, l.Elu(ctx, h));
  }

  lemma CleSuivante(l: Lot, ctx: Contexte, s: Stock, x: nat, h: nat, c: string)
    requires l.Valide() && l.Tenu(ctx) && StockApres(l, ctx, s) && l.Racine(h) && l.Racine(x) && c in l.ClesDe(x)
    requires l.(stock := s).Classement(h) != [] && l.Elu(ctx, x) == l.Elu(ctx, h)
    ensures l.Propre(c) || (c in s && s[c] in l.(stock := s).Possedes(h)) <==> c in s && s[c] == l.Elu(ctx, h)
  {
    var d := CleDuSeul(l, ctx, s, h);
    if l.Propre(c) {
      PropreVers(l, ctx, s, x, c, h, d);
    } else if c in s && s[c] in l.(stock := s).Possedes(h) {
      PossedeSeul(l, ctx, s, h, s[c]);
    }
  }

  lemma ApresInchangees(l: Lot, s: Stock, x: nat, h: nat)
    requires |l.rho| == |l.rows|
    ensures var m := l.(stock := s);
            m.Apres(x, h) == set c | c in l.ClesDe(x) && (l.Propre(c) || (c in s && s[c] in m.Possedes(h)))
  {
    assert l.(stock := s).ClesDe(x) == l.ClesDe(x);
    assert forall c :: l.(stock := s).Propre(c) <==> l.Propre(c);
  }

  lemma ApresSontPorteurs(l: Lot, ctx: Contexte, s: Stock, x: nat, h: nat)
    requires l.Valide() && l.Tenu(ctx) && StockApres(l, ctx, s) && l.Racine(h) && l.Racine(x)
    requires l.(stock := s).Classement(h) != [] && l.Elu(ctx, x) == l.Elu(ctx, h)
    ensures l.(stock := s).Apres(x, h) == l.(stock := s).Porteurs(x, l.Elu(ctx, h))
  {
    var v := l.Elu(ctx, h);
    ClesInchangees(l, s, x, v);
    ApresInchangees(l, s, x, h);
    var us := l.(stock := s).Possedes(h);
    forall c | c in l.ClesDe(x) ensures l.Propre(c) || (c in s && s[c] in us) <==> c in s && s[c] == v {
      CleSuivante(l, ctx, s, x, h, c);
    }
  }
}
