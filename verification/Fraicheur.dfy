/** Two families of batches that strike a uid they claim: one whose second run gives
    other lines, one whose line carries a uid merged away. */
module Fraicheur {
  import opened Ordre
  import opened Annonces
  import opened UnionFind
  import opened Regroupement
  import opened Identites
  import opened Reconciliation
  import opened Garanties

  /** Channels of one engine that share no key stay apart. */
  lemma SansLien(ctx: Contexte, rows: seq<AnnonceBrute>)
    requires forall i, j | 0 <= i < |rows| && 0 <= j < |rows| :: rows[i].moteur == rows[j].moteur
    requires forall i, j | 0 <= i < |rows| && 0 <= j < |rows| && i != j :: !PartagentUneCle(rows, i, j)
    ensures Classes(ctx, rows) == Discrete(|rows|)
  {
    var rho := Classes(ctx, rows);
    forall i | 0 <= i < |rows| ensures rho[i] == i {
      MemeMoteurSsiChaine(ctx, rows, i, rho[i]);
      var p :| ChaineDe(Partage(rows), p, i, rho[i]);
      ChaineGarde(Partage(rows), (a: nat) => a == i, p);
    }
  }

  lemma DeuxPrepares(ctx: Contexte, a: AnnonceBrute, b: AnnonceBrute)
    requires AvantOuEgal(a, b) && Affichable(ctx, a) && Affichable(ctx, b)
    ensures Preparer(ctx, [a, b]) == [a, b]
  {
    assert [a, b][1..] == [b];
    assert Trier(AvantOuEgal, [b]) == [b];
    assert Filtrer(ctx, [b]) == [b];
  }

  /** Two channels of one engine with no key in common, `a` first. */
  ghost predicate Separes(ctx: Contexte, a: AnnonceBrute, b: AnnonceBrute) {
    && AvantOuEgal(a, b) && Affichable(ctx, a) && Affichable(ctx, b) && a.moteur == b.moteur
    && forall c | c in Cles(a) :: c !in Cles(b)
  }

  lemma DeuxCanaux(ctx: Contexte, a: AnnonceBrute, b: AnnonceBrute, stock: Stock)
    requires Separes(ctx, a, b)
    ensures LotDe(ctx, [a, b], stock) == Lot([a, b], [0, 1], stock) && Lot([a, b], [0, 1], stock).Valide()
  {
    DeuxPrepares(ctx, a, b);
    SansLien(ctx, [a, b]);
    assert Discrete(2) == [0, 1];
  }

  /** Of two channels apart, the keys by which each claims `u`. */
  lemma PorteursDeux(a: AnnonceBrute, b: AnnonceBrute, stock: Stock, u: string, pa: set<string>, pb: set<string>)
    requires forall c :: c in pa <==> c in Cles(a) && c in stock && stock[c] == u
    requires forall c :: c in pb <==> c in Cles(b) && c in stock && stock[c] == u
    ensures Lot([a, b], [0, 1], stock).Poids(0, u) == |pa| && Lot([a, b], [0, 1], stock).Poids(1, u) == |pb|
  {
    var l := Lot([a, b], [0, 1], stock);
    assert l.rho[0] == 0 && l.rho[1] == 1 && l.rows[0] == a && l.rows[1] == b;
    assert l.Porteurs(0, u) == pa;
    assert l.Porteurs(1, u) == pb;
  }

  /** Of two groups, the heavier keeps `u`, the first on a tie. */
  lemma GagnantDeDeux(l: Lot, u: string)
    requires |l.rows| == 2 && l.rho == [0, 1]
    ensures l.Gagne(0, u) <==> l.Poids(0, u) > 0 && l.Poids(0, u) >= l.Poids(1, u)
    ensures l.Gagne(1, u) <==> l.Poids(1, u) > l.Poids(0, u)
  {
    assert l.Racine(0) && l.Racine(1);
    assert l.Devance(0, 1, u) <==> l.Poids(0, u) >= l.Poids(1, u);
    assert l.Devance(1, 0, u) <==> l.Poids(1, u) > l.Poids(0, u);
  }

  /** The only key of `a` and the join key of `b` hold the uid `b` strikes. */
  ghost predicate Dispute(ctx: Contexte, a: AnnonceBrute, b: AnnonceBrute, x: string) {
    && Separes(ctx, a, b) && a.clesJointure == [] && b.clesJointure == [x] && x != b.sourceUid
    && Frapper(ctx, a) != Frapper(ctx, b)
  }

  function StockDispute(ctx: Contexte, a: AnnonceBrute, b: AnnonceBrute, x: string): Stock {
    map[a.sourceUid := Frapper(ctx, b), x := Frapper(ctx, b)]
  }

  lemma PremierRun(ctx: Contexte, a: AnnonceBrute, b: AnnonceBrute, x: string, l: Lot)
    requires Dispute(ctx, a, b, x) && l == Lot([a, b], [0, 1], StockDispute(ctx, a, b, x)) && l.Valide()
    ensures forall r: nat | l.Racine(r) :: l.Elu(ctx, r) == Frapper(ctx, b) && |l.Classement(r)| <= 1
  {
    var u := Frapper(ctx, b);
    assert b.sourceUid != a.sourceUid;
    PorteursDeux(a, b, l.stock, u, {a.sourceUid}, {x});
    GagnantDeDeux(l, u);
    assert l.stock[a.sourceUid] in l.stock.Values;
    assert l.Possedes(0) == {u} && l.Possedes(1) == {};
    EluDuSingleton(l, ctx, 0, u);
    ClassementComplet(l, 1);
  }

  lemma EluDuSingleton(l: Lot, ctx: Contexte, r: nat, u: string)
    requires l.Valide() && l.Racine(r) && l.Possedes(r) == {u}
    ensures l.Elu(ctx, r) == u && |l.Classement(r)| == 1
  {
    ClassementComplet(l, r);
    assert u in l.Classement(r);
    AuPlusUn(l.Classement(r), u);
  }

  lemma AucuneAbsorption(l: Lot, ctx: Contexte, v: string, w: string)
    requires |l.rho| == |l.rows| && Redirige(l, ctx, v, w) && forall r: nat | l.Racine(r) :: |l.Classement(r)| <= 1
    ensures w == v
  {
    forall r: nat ensures !l.Absorbe(r, v) { }
  }

  lemma EcritSeul(l: Lot, ctx: Contexte, u: string, c: string, v: string)
    requires l.Valide() && Ecrit(l, ctx, c, v)
    requires forall r: nat | l.Racine(r) :: l.Elu(ctx, r) == u
    requires forall c | c in l.stock :: l.stock[c] == u
    ensures v == u
  {
    if l.Propre(c) {
      var i :| 0 <= i < |l.rows| && l.rows[i].sourceUid == c && l.Elu(ctx, l.rho[i]) == v;
      assert l.Racine(l.rho[i]);
    }
  }

  lemma TousEcrits(l: Lot, ctx: Contexte, s: Stock, u: string, c: string)
    requires l.Valide() && StockApres(l, ctx, s) && c in s
    requires forall r: nat | l.Racine(r) :: l.Elu(ctx, r) == u && |l.Classement(r)| <= 1
    requires forall c | c in l.stock :: l.stock[c] == u
    ensures s[c] == u
  {
    var v :| Ecrit(l, ctx, c, v) && Redirige(l, ctx, v, s[c]);
    EcritSeul(l, ctx, u, c, v);
    AucuneAbsorption(l, ctx, v, s[c]);
  }

  lemma PropresDesDeux(l: Lot, a: AnnonceBrute, b: AnnonceBrute, c: string)
    requires l.rows == [a, b]
    ensures l.Propre(c) <==> c == a.sourceUid || c == b.sourceUid
  {
    assert l.rows[0] == a && l.rows[1] == b;
  }

  /** Both channels and the join key, all assigned to `u`. */
  ghost predicate TousA(s: Stock, a: AnnonceBrute, b: AnnonceBrute, x: string, u: string) {
    forall c :: (c in s <==> c == a.sourceUid || c == b.sourceUid || c == x) && (c in s ==> s[c] == u)
  }

  lemma ClesEcrites(ctx: Contexte, a: AnnonceBrute, b: AnnonceBrute, x: string, l: Lot, s: Stock, c: string)
    requires l.Valide() && l.rows == [a, b] && StockApres(l, ctx, s)
    requires forall c :: c in l.stock <==> c == a.sourceUid || c == x
    ensures c in s <==> c == a.sourceUid || c == b.sourceUid || c == x
  {
    PropresDesDeux(l, a, b, c);
  }

  lemma ApresDispute(ctx: Contexte, a: AnnonceBrute, b: AnnonceBrute, x: string, l: Lot, s: Stock, u: string)
    requires l.Valide() && l.rows == [a, b] && StockApres(l, ctx, s)
    requires forall c :: (c in l.stock <==> c == a.sourceUid || c == x) && (c in l.stock ==> l.stock[c] == u)
    requires forall r: nat | l.Racine(r) :: l.Elu(ctx, r) == u && |l.Classement(r)| <= 1
    ensures TousA(s, a, b, x, u)
  {
    forall c ensures (c in s <==> c == a.sourceUid || c == b.sourceUid || c == x) && (c in s ==> s[c] == u) {
      ApresDisputeEn(ctx, a, b, x, l, s, u, c);
    }
  }

  lemma ApresDisputeEn(ctx: Contexte, a: AnnonceBrute, b: AnnonceBrute, x: string, l: Lot, s: Stock, u: string, c: string)
    requires l.Valide() && l.rows == [a, b] && StockApres(l, ctx, s)
    requires forall c :: (c in l.stock <==> c == a.sourceUid || c == x) && (c in l.stock ==> l.stock[c] == u)
    requires forall r: nat | l.Racine(r) :: l.Elu(ctx, r) == u && |l.Classement(r)| <= 1
    ensures (c in s <==> c == a.sourceUid || c == b.sourceUid || c == x) && (c in s ==> s[c] == u)
  {
    ClesEcrites(ctx, a, b, x, l, s, c);
    if c in s { TousEcrits(l, ctx, s, u, c); }
  }

  lemma SecondRun(ctx: Contexte, a: AnnonceBrute, b: AnnonceBrute, x: string, s: Stock)
    requires Dispute(ctx, a, b, x) && TousA(s, a, b, x, Frapper(ctx, b))
    ensures Lot([a, b], [0, 1], s).Elu(ctx, 0) == Frapper(ctx, a)
  {
    var (u, m) := (Frapper(ctx, b), Lot([a, b], [0, 1], s));
    assert Cles(a) == [a.sourceUid] && Cles(b) == [b.sourceUid, x];
    PorteursDeux(a, b, s, u, {a.sourceUid}, {b.sourceUid, x});
    GagnantDeDeux(m, u);
    assert m.Possedes(0) == {};
    ClassementComplet(m, 0);
  }

  /** A folded group can win back on the next run the uid it struck again; the
      other group then strikes one of its own, and the line splits. */
  lemma InstableSansFraicheur(ctx: Contexte, a: AnnonceBrute, b: AnnonceBrute, x: string, jour: int)
    requires Dispute(ctx, a, b, x)
    ensures var stock := StockDispute(ctx, a, b, x);
            Canonique(ctx, [a, b], stock, jour).Some? &&
            var c := Canonique(ctx, [a, b], stock, jour).value;
            Canonique(ctx, [a, b], EcrireEnBase(stock, c), jour).Some? &&
            !Emis(c, Frapper(ctx, a)) &&
            Emis(Canonique(ctx, [a, b], EcrireEnBase(stock, c), jour).value, Frapper(ctx, a))
  {
    var (stock, n) := (StockDispute(ctx, a, b, x), Frapper(ctx, a));
    PremierResultat(ctx, a, b, x, jour);
    var s := EcrireEnBase(stock, Canonique(ctx, [a, b], stock, jour).value);
    DeuxCanaux(ctx, a, b, s);
    SecondRun(ctx, a, b, x, s);
    assert Lot([a, b], [0, 1], s).Racine(0);
    EmisSsiElu(ctx, [a, b], s, jour, n);
  }

  lemma PremierLot(ctx: Contexte, a: AnnonceBrute, b: AnnonceBrute, x: string, stock: Stock)
    requires Dispute(ctx, a, b, x) && stock == StockDispute(ctx, a, b, x)
    ensures LotDe(ctx, [a, b], stock) == Lot([a, b], [0, 1], stock) && Lot([a, b], [0, 1], stock).Valide()
    ensures forall r: nat | Lot([a, b], [0, 1], stock).Racine(r) ::
      Lot([a, b], [0, 1], stock).Elu(ctx, r) == Frapper(ctx, b) && |Lot([a, b], [0, 1], stock).Classement(r)| <= 1
  {
    DeuxCanaux(ctx, a, b, stock);
    PremierRun(ctx, a, b, x, Lot([a, b], [0, 1], stock));
  }

  lemma PremierEmis(ctx: Contexte, a: AnnonceBrute, b: AnnonceBrute, x: string, stock: Stock, jour: int)
    requires Dispute(ctx, a, b, x) && stock == StockDispute(ctx, a, b, x)
    ensures Canonique(ctx, [a, b], stock, jour).Some? && !Emis(Canonique(ctx, [a, b], stock, jour).value, Frapper(ctx, a))
  {
    PremierLot(ctx, a, b, x, stock);
    PremierNonEmis(ctx, [a, b], stock, jour, Lot([a, b], [0, 1], stock), Frapper(ctx, a), Frapper(ctx, b));
  }

  lemma EcritDispute(ctx: Contexte, a: AnnonceBrute, b: AnnonceBrute, x: string, l: Lot, c: Canonicalisation)
    requires l.Valide() && l.rows == [a, b] && l.stock == StockDispute(ctx, a, b, x)
    requires Traduit(c.annonces, Repliees(ctx, l), l.rows) && c.fusions == FusionsDuLot(ctx, l)
    requires forall r: nat | l.Racine(r) :: l.Elu(ctx, r) == Frapper(ctx, b) && |l.Classement(r)| <= 1
    ensures TousA(EcrireEnBase(l.stock, c), a, b, x, Frapper(ctx, b))
  {
    PremiereEcriture(ctx, a, b, x, l, c, Frapper(ctx, b));
  }

  lemma PremierTraduit(ctx: Contexte, a: AnnonceBrute, b: AnnonceBrute, stock: Stock, jour: int, l: Lot)
    requires l.Valide() && l == LotDe(ctx, [a, b], stock)
    ensures Canonique(ctx, [a, b], stock, jour).Some?
    ensures Traduit(Canonique(ctx, [a, b], stock, jour).value.annonces, Repliees(ctx, l), l.rows)
    ensures Canonique(ctx, [a, b], stock, jour).value.fusions == FusionsDuLot(ctx, l)
  {
    ResultatExiste(ctx, [a, b], stock, jour);
  }

  lemma PremierEcrit(ctx: Contexte, a: AnnonceBrute, b: AnnonceBrute, x: string, stock: Stock, jour: int)
    requires Dispute(ctx, a, b, x) && stock == StockDispute(ctx, a, b, x) && Canonique(ctx, [a, b], stock, jour).Some?
    ensures TousA(EcrireEnBase(stock, Canonique(ctx, [a, b], stock, jour).value), a, b, x, Frapper(ctx, b))
  {
    PremierLot(ctx, a, b, x, stock);
    PremierTraduit(ctx, a, b, stock, jour, Lot([a, b], [0, 1], stock));
    EcritDispute(ctx, a, b, x, Lot([a, b], [0, 1], stock), Canonique(ctx, [a, b], stock, jour).value);
  }

  lemma PremierResultat(ctx: Contexte, a: AnnonceBrute, b: AnnonceBrute, x: string, jour: int)
    requires Dispute(ctx, a, b, x)
    ensures var stock := StockDispute(ctx, a, b, x);
            Canonique(ctx, [a, b], stock, jour).Some? &&
            var c := Canonique(ctx, [a, b], stock, jour).value;
            !Emis(c, Frapper(ctx, a)) && TousA(EcrireEnBase(stock, c), a, b, x, Frapper(ctx, b))
  {
    var stock := StockDispute(ctx, a, b, x);
    PremierEmis(ctx, a, b, x, stock, jour);
    PremierEcrit(ctx, a, b, x, stock, jour);
  }

  lemma PremierNonEmis(ctx: Contexte, batch: seq<AnnonceBrute>, stock: Stock, jour: int, l: Lot, n: string, u: string)
    requires l == LotDe(ctx, batch, stock) && n != u && forall r: nat | l.Racine(r) :: l.Elu(ctx, r) == u
    ensures Canonique(ctx, batch, stock, jour).Some? && !Emis(Canonique(ctx, batch, stock, jour).value, n)
  {
    EmisSsiElu(ctx, batch, stock, jour, n);
  }

  lemma PremiereEcriture(ctx: Contexte, a: AnnonceBrute, b: AnnonceBrute, x: string, l: Lot, c: Canonicalisation, u: string)
    requires l.Valide() && l.rows == [a, b]
    requires forall c :: (c in l.stock <==> c == a.sourceUid || c == x) && (c in l.stock ==> l.stock[c] == u)
    requires Traduit(c.annonces, Repliees(ctx, l), l.rows) && c.fusions == FusionsDuLot(ctx, l)
    requires forall r: nat | l.Racine(r) :: l.Elu(ctx, r) == u && |l.Classement(r)| <= 1
    ensures TousA(EcrireEnBase(l.stock, c), a, b, x, u)
  {
    EcritureDit(ctx, l, c);
    ApresDispute(ctx, a, b, x, l, EcrireEnBase(l.stock, c), u);
  }

  /** `a` carries `v` twice and the uid `b` strikes once; so does `b`, once. */
  ghost predicate Absorption(ctx: Contexte, a: AnnonceBrute, b: AnnonceBrute, x: string, y: string, z: string, v: string) {
    && Separes(ctx, a, b) && a.clesJointure == [x, y] && b.clesJointure == [z]
    && x != a.sourceUid && y != a.sourceUid && x != y && z != b.sourceUid && v != Frapper(ctx, b)
  }

  function StockAbsorption(ctx: Contexte, a: AnnonceBrute, b: AnnonceBrute, x: string, y: string, z: string, v: string): Stock {
    map[a.sourceUid := v, x := v, y := Frapper(ctx, b), z := Frapper(ctx, b)]
  }

  lemma PreferenceTete(l: Lot, r: nat, u: string, v: string)
    requires l.Valide() && u in l.Possedes(r) && v in l.Possedes(r) && l.Poids(r, u) > l.Poids(r, v)
    ensures l.Classement(r) != [] && v in l.Classement(r)[1..]
  {
    PreferenceEstUnOrdre(l, r);
    ClassementComplet(l, r);
    TrierTrie(l.Preference(r), EnSequence(l.Possedes(r)));
    var q := l.Classement(r);
    var i :| 0 <= i < |q| && q[i] == u;
    var j :| 0 <= j < |q| && q[j] == v;
    TrieDit(l.Preference(r), q, j, i);
    ApresTete(q, j);
  }

  lemma TrieDit<T>(le: (T, T) -> bool, q: seq<T>, j: nat, i: nat)
    requires Trie(le, q) && j < |q| && i < |q|
    ensures j < i ==> le(q[j], q[i])
  {
  }

  lemma ApresTete<T>(q: seq<T>, j: nat)
    requires j < |q|
    ensures j > 0 ==> q[j] in q[1..]
  {
    if j > 0 { assert q[1..][j - 1] == q[j]; }
  }

  lemma PoidsAbsorption(ctx: Contexte, a: AnnonceBrute, b: AnnonceBrute, x: string, y: string, z: string, v: string, l: Lot)
    requires Absorption(ctx, a, b, x, y, z, v) && l == Lot([a, b], [0, 1], StockAbsorption(ctx, a, b, x, y, z, v)) && l.Valide()
    ensures l.Gagne(0, v) && l.Gagne(0, Frapper(ctx, b)) && l.Poids(0, v) > l.Poids(0, Frapper(ctx, b))
    ensures l.Possedes(1) == {} && v in l.Possedes(0) && Frapper(ctx, b) in l.Possedes(0)
  {
    PoidsDes(a, b, x, y, z, v, Frapper(ctx, b));
    GagnantDeDeux(l, Frapper(ctx, b));
    GagnantDeDeux(l, v);
    assert l.stock[a.sourceUid] in l.stock.Values && l.stock[y] in l.stock.Values;
  }

  lemma PoidsDes(a: AnnonceBrute, b: AnnonceBrute, x: string, y: string, z: string, v: string, u: string)
    requires a.clesJointure == [x, y] && b.clesJointure == [z] && x != a.sourceUid && y != a.sourceUid && x != y && z != b.sourceUid
    requires u != v && forall c | c in Cles(a) :: c !in Cles(b)
    ensures var l := Lot([a, b], [0, 1], map[a.sourceUid := v, x := v, y := u, z := u]);
            l.Poids(0, v) == 2 && l.Poids(1, v) == 0 && l.Poids(0, u) == 1 && l.Poids(1, u) == 1
  {
    var stock := map[a.sourceUid := v, x := v, y := u, z := u];
    assert Cles(a) == [a.sourceUid, x, y] && Cles(b) == [b.sourceUid, z];
    assert x in Cles(a) && y in Cles(a) && z in Cles(b);
    assert a.sourceUid != b.sourceUid && a.sourceUid != z && x != b.sourceUid && x != z && y != b.sourceUid && y != z;
    PorteursDeux(a, b, stock, v, {a.sourceUid, x}, {});
    PorteursDeux(a, b, stock, u, {y}, {z});
  }

  /** A group that absorbs the uid another group strikes again leaves a line
      whose uid is redirected away. */
  lemma LigneAbsorbeeSansFraicheur(ctx: Contexte, a: AnnonceBrute, b: AnnonceBrute, x: string, y: string, z: string, v: string, jour: int)
    requires Absorption(ctx, a, b, x, y, z, v)
    ensures var c := Canonique(ctx, [a, b], StockAbsorption(ctx, a, b, x, y, z, v), jour);
            c.Some? && Emis(c.value, Frapper(ctx, b)) && Ancien(c.value, Frapper(ctx, b))
  {
    var (stock, u) := (StockAbsorption(ctx, a, b, x, y, z, v), Frapper(ctx, b));
    var l := Lot([a, b], [0, 1], stock);
    DeuxCanaux(ctx, a, b, stock);
    PoidsAbsorption(ctx, a, b, x, y, z, v, l);
    PreferenceTete(l, 0, v, u);
    ClassementComplet(l, 1);
    assert l.Racine(1) && l.Elu(ctx, 1) == u;
    assert l.Absorbe(0, u);
    EmisSsiElu(ctx, [a, b], stock, jour, u);
    AncienSsiAbsorbe(ctx, [a, b], stock, jour, u);
  }

  // ---- Such batches exist --------------------------------------------------------

  /** A channel with an address and an object, and nothing to group it by. */
  function Canal(uid: string, cles: seq<string>): AnnonceBrute {
    AnnonceBrute("aws", uid, cles, None, None, "o", None, None, None, Some("u"), None, None)
  }

  /** A digest that tells channel b from any other. */
  function ContexteFrappe(): Contexte {
    Contexte(s => s, s => s, _ => [], (_, _) => false, s => if s == CleSrc("b") then "u" else "n", _ => true, s => s)
  }

  lemma FrappesDe(cles: seq<string>)
    ensures Frapper(ContexteFrappe(), Canal("a", cles))[7] == 'n' && Frapper(ContexteFrappe(), Canal("b", cles))[7] == 'u'
  {
    assert CleSrc("a")[4] == 'a' && CleSrc("b")[4] == 'b';
  }

  lemma CanauxSepares(c: seq<string>, d: seq<string>)
    requires "b" !in c && "a" !in d && forall k | k in c :: k !in d
    ensures Separes(ContexteFrappe(), Canal("a", c), Canal("b", d))
  {
    OrdreAB(c, d);
    LettresApart();
    ClesApart("a", c, "b", d);
    CanalAffichable("a", c);
    CanalAffichable("b", d);
    SeparesSi(ContexteFrappe(), Canal("a", c), Canal("b", d));
  }

  lemma CanalAffichable(uid: string, cles: seq<string>)
    ensures Affichable(ContexteFrappe(), Canal(uid, cles))
  {
  }

  lemma SeparesSi(ctx: Contexte, a: AnnonceBrute, b: AnnonceBrute)
    requires AvantOuEgal(a, b) && Affichable(ctx, a) && Affichable(ctx, b) && a.moteur == b.moteur
    requires forall c | c in Cles(a) :: c !in Cles(b)
    ensures Separes(ctx, a, b)
  {
  }

  lemma LettresApart()
    ensures "a" != "b"
  {
    var (a, b) := ("a", "b");
    assert a[0] == 'a' && b[0] == 'b';
  }

  lemma OrdreAB(c: seq<string>, d: seq<string>)
    ensures AvantOuEgal(Canal("a", c), Canal("b", d))
  {
    assert LexLe("a", "b");
  }

  lemma ClesApart(a: string, c: seq<string>, b: string, d: seq<string>)
    requires a != b && b !in c && a !in d && forall k | k in c :: k !in d
    ensures forall k | k in Cles(Canal(a, c)) :: k !in Cles(Canal(b, d))
  {
  }

  lemma DisputeExiste()
    ensures Dispute(ContexteFrappe(), Canal("a", []), Canal("b", ["x"]), "x")
  {
    CanauxSepares([], ["x"]);
    FrappesDe([]);
    FrappesDe(["x"]);
  }

  lemma AbsorptionExiste()
    ensures Absorption(ContexteFrappe(), Canal("a", ["x", "y"]), Canal("b", ["z"]), "x", "y", "z", "v")
  {
    CanauxSepares(["x", "y"], ["z"]);
    FrappesDe(["z"]);
    assert |Frapper(ContexteFrappe(), Canal("b", ["z"]))| > 7;
  }
}
