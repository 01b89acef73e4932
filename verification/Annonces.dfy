/** One market seen through one publication channel, the keys it is joined by,
    and the line several channels become. */
module Annonces {
  import opened Ordre

  datatype AnnonceBrute = AnnonceBrute(
    moteur: string,
    sourceUid: string,
    clesJointure: seq<string>,
    reference: Option<string>,
    acheteur: Option<string>,
    objet: string,
    description: Option<string>,
    datePublication: Option<int>,
    echeance: Option<int>,
    urlAvis: Option<string>,
    urlRc: Option<string>,
    urlDce: Option<string>)

  datatype AnnonceCanonique = AnnonceCanonique(
    uid: string,
    titre: string,
    urlAction: string,
    datePublication: int,
    reference: Option<string>,
    sources: seq<AnnonceBrute>)

  datatype Fusion = Fusion(ancien: string, nouveau: string)

  datatype Canonicalisation = Canonicalisation(annonces: seq<AnnonceCanonique>, fusions: seq<Fusion>)

  /** What the model leaves uninterpreted: the fold of a text, its trimming, the
      Paris day of a deadline, the recognition of a demonstration consultation,
      the digest an uid is minted from and the recasing of a title. */
  datatype Contexte = Contexte(
    plier: string -> string,
    rogner: string -> string,
    jourParis: int -> string,
    deTest: (string, seq<string>) -> bool,
    empreinte: string -> string,
    nommeUnObjet: string -> bool,
    embellir: string -> string)

  // ---- Trust order ---------------------------------------------------------

  const PRIORITE: seq<string> := [
    "boamp", "ted", "atexo", "safetender", "aws", "achatpublic", "atline", "dematis", "synapse", "aji",
    "xmarches", "modula", "klekoon", "provincenord", "centraledesmarches", "nicematin", "presse"
  ]

  function Position(s: seq<string>, m: string): (k: nat)
    ensures k <= |s|
    ensures k < |s| ==> s[k] == m
    ensures m !in s[..k]
  {
    if s == [] || s[0] == m then 0 else 1 + Position(s[1..], m)
  }

  function Priorite(moteur: string): nat {
    Position(PRIORITE, moteur)
  }

  /** Channels with a reference first, then the engine's trust, then the uid. */
  predicate AvantOuEgal(x: AnnonceBrute, y: AnnonceBrute) {
    var (xn, yn) := (x.reference.None?, y.reference.None?);
    var (xp, yp) := (Priorite(x.moteur), Priorite(y.moteur));
    if xn != yn then yn
    else if xp != yp then xp < yp
    else LexLe(x.sourceUid, y.sourceUid)
  }

  lemma AvantEstUnOrdre()
    ensures Total(AvantOuEgal) && Transitif(AvantOuEgal)
    ensures forall x, y :: AvantOuEgal(x, y) && AvantOuEgal(y, x) ==> x.sourceUid == y.sourceUid
  {
    LexEstUnOrdre();
  }

  /** Object, at least one URL, and not a platform's own demonstration. */
  predicate Affichable(ctx: Contexte, r: AnnonceBrute) {
    && ctx.rogner(r.objet) != []
    && (r.urlAvis.Some? || r.urlDce.Some? || r.urlRc.Some?)
    && !ctx.deTest(OuVide(r.acheteur), [r.objet, OuVide(r.description)])
  }

  function OuVide(o: Option<string>): string {
    match o case Some(s) => s case None => []
  }

  function Filtrer(ctx: Contexte, rows: seq<AnnonceBrute>): (r: seq<AnnonceBrute>)
    ensures forall x :: x in r <==> x in rows && Affichable(ctx, x)
  {
    if rows == [] then [] else
    (if Affichable(ctx, rows[0]) then [rows[0]] else []) + Filtrer(ctx, rows[1..])
  }

  lemma {:induction false} FiltrerMultiset(ctx: Contexte, rows: seq<AnnonceBrute>)
    ensures forall x :: multiset(Filtrer(ctx, rows))[x] == if Affichable(ctx, x) then multiset(rows)[x] else 0
  {
    if rows != [] {
      FiltrerMultiset(ctx, rows[1..]);
      assert rows == [rows[0]] + rows[1..];
    }
  }

  /** The batch in the order reconciliation walks it. */
  function Preparer(ctx: Contexte, rows: seq<AnnonceBrute>): seq<AnnonceBrute> {
    Filtrer(ctx, Trier(AvantOuEgal, rows))
  }

  // ---- Keys ----------------------------------------------------------------

  /** The channel's own uid, always a key, then its declared join keys. */
  function Cles(r: AnnonceBrute): (cles: seq<string>)
    ensures r.sourceUid in cles
  {
    [r.sourceUid] + r.clesJointure
  }

  function CleSrc(cle: string): string { "src|" + cle }

  /** Buyer and reference. A reference equal to its buyer is a misread field. */
  function ClePrimaire(ctx: Contexte, b: AnnonceBrute): Option<string> {
    match (b.acheteur, b.reference)
    case (Some(acheteur), Some(reference)) =>
      var (a, r) := (ctx.plier(acheteur), ctx.plier(reference));
      if a != [] && r != [] && r != a then Some("ref|" + a + "|" + r) else None
    case _ => None
  }

  /** Buyer, day of the deadline and first 80 characters of the object. */
  function CleRepli(ctx: Contexte, b: AnnonceBrute): Option<string> {
    if b.acheteur.None? then None else
    var a := ctx.plier(b.acheteur.value);
    if a == [] then None else
    Some("obj|" + a + "|" + JourDe(ctx, b) + "|" + ObjetDe(ctx, b))
  }

  function JourDe(ctx: Contexte, b: AnnonceBrute): string {
    if b.echeance.Some? then ctx.jourParis(b.echeance.value) else []
  }

  function ObjetDe(ctx: Contexte, b: AnnonceBrute): string {
    var objet := ctx.plier(b.objet);
    if |objet| > 80 then objet[..80] else objet
  }

  /** A key of one kind is never a key of another: one index serves the three. */
  lemma ClesDisjointes(ctx: Contexte, cle: string, b: AnnonceBrute, d: AnnonceBrute)
    ensures ClePrimaire(ctx, b).Some? ==> ClePrimaire(ctx, b).value != CleSrc(cle)
    ensures CleRepli(ctx, b).Some? ==> CleRepli(ctx, b).value != CleSrc(cle)
    ensures ClePrimaire(ctx, b).Some? && CleRepli(ctx, d).Some? ==> ClePrimaire(ctx, b) != CleRepli(ctx, d)
  {
    assert CleSrc(cle)[0] == 's';
    if ClePrimaire(ctx, b).Some? { assert ClePrimaire(ctx, b).value[0] == 'r'; }
    if CleRepli(ctx, b).Some? { assert CleRepli(ctx, b).value[0] == 'o'; }
    if CleRepli(ctx, d).Some? { assert CleRepli(ctx, d).value[0] == 'o'; }
  }

  /** Who has a primary key: a channel whose folded buyer and reference are there, and differ.
      Who has a fallback key: one whose folded buyer is there. */
  lemma ClesPresentes(ctx: Contexte, b: AnnonceBrute)
    ensures ClePrimaire(ctx, b).Some? <==>
            b.acheteur.Some? && b.reference.Some? && ctx.plier(b.acheteur.value) != [] && ctx.plier(b.reference.value) != []
            && ctx.plier(b.acheteur.value) != ctx.plier(b.reference.value)
    ensures CleRepli(ctx, b).Some? <==> b.acheteur.Some? && ctx.plier(b.acheteur.value) != []
  {
  }

  function ParBarre(a: string, r: string): string { a + "|" + r }

  /** `a` goes past `b` by a bar and the text that begins `s`, which `r` ends. */
  predicate Deborde(a: string, r: string, b: string, s: string) {
    |b| < |a| && a[..|b|] == b && a[|b|] == '|' && s == ParBarre(a[|b| + 1..], r)
  }

  /** The same texts, or a bar of the one taken for the bar that joins the other. */
  predicate Confondus(a: string, r: string, b: string, s: string) {
    (a == b && r == s) || Deborde(a, r, b, s) || Deborde(b, s, a, r)
  }

  lemma JointsDebordent(a: string, r: string, b: string, s: string)
    requires ParBarre(a, r) == ParBarre(b, s) && |b| < |a|
    ensures Deborde(a, r, b, s)
  {
    var (k, m) := (ParBarre(a, r), ParBarre(b, s));
    assert a == k[..|a|] && b == m[..|b|] && s == m[|b| + 1..] && a[|b|] == k[|b|] == m[|b|];
    assert a[..|b|] == k[..|b|];
    assert k[|b| + 1..] == ParBarre(a[|b| + 1..], r);
  }

  lemma DebordentJoints(a: string, r: string, b: string, s: string)
    requires Deborde(a, r, b, s)
    ensures ParBarre(a, r) == ParBarre(b, s)
  {
    var q := a[|b| + 1..];
    assert a == ParBarre(b, q);
    assert ParBarre(ParBarre(b, q), r) == ParBarre(b, ParBarre(q, r));
  }

  /** Two texts joined by a bar are so two others if and only if they are confused. */
  lemma JointsSsi(a: string, r: string, b: string, s: string)
    ensures ParBarre(a, r) == ParBarre(b, s) <==> Confondus(a, r, b, s)
  {
    if ParBarre(a, r) == ParBarre(b, s) {
      if |b| < |a| {
        JointsDebordent(a, r, b, s);
      } else if |a| < |b| {
        JointsDebordent(b, s, a, r);
      } else {
        MemesTextes(a, r, b, s);
      }
    }
    if Deborde(a, r, b, s) { DebordentJoints(a, r, b, s); }
    if Deborde(b, s, a, r) { DebordentJoints(b, s, a, r); }
  }

  lemma MemesTextes(a: string, r: string, b: string, s: string)
    requires ParBarre(a, r) == ParBarre(b, s) && |a| == |b|
    ensures a == b && r == s
  {
    var (k, m) := (ParBarre(a, r), ParBarre(b, s));
    assert a == k[..|a|] && b == m[..|b|] && r == k[|a| + 1..] && s == m[|b| + 1..];
  }

  lemma SousPrefixe(p: string, x: string, y: string)
    ensures p + x == p + y <==> x == y
  {
    assert (p + x)[|p|..] == x && (p + y)[|p|..] == y;
  }

  lemma ClePrimaireJoint(ctx: Contexte, b: AnnonceBrute)
    requires ClePrimaire(ctx, b).Some?
    ensures ClePrimaire(ctx, b).value == "ref|" + ParBarre(ctx.plier(b.acheteur.value), ctx.plier(b.reference.value))
  {
    var (a, r) := (ctx.plier(b.acheteur.value), ctx.plier(b.reference.value));
    assert "ref|" + a + "|" + r == "ref|" + ParBarre(a, r);
  }

  /** Channels share a primary key if and only if their folded buyers and references are
      the same, or a bar in the one buyer makes the other's key of it. */
  lemma ClePrimaireSsi(ctx: Contexte, b: AnnonceBrute, d: AnnonceBrute)
    requires ClePrimaire(ctx, b).Some? && ClePrimaire(ctx, d).Some?
    ensures ClePrimaire(ctx, b) == ClePrimaire(ctx, d) <==>
            Confondus(ctx.plier(b.acheteur.value), ctx.plier(b.reference.value), ctx.plier(d.acheteur.value), ctx.plier(d.reference.value))
  {
    ClePrimaireJoint(ctx, b);
    ClePrimaireJoint(ctx, d);
    var (x, y) := (ParBarre(ctx.plier(b.acheteur.value), ctx.plier(b.reference.value)),
                   ParBarre(ctx.plier(d.acheteur.value), ctx.plier(d.reference.value)));
    SousPrefixe("ref|", x, y);
    JointsSsi(ctx.plier(b.acheteur.value), ctx.plier(b.reference.value), ctx.plier(d.acheteur.value), ctx.plier(d.reference.value));
  }

  /** Where no folded buyer holds a bar, channels share a primary key if and only if
      they have one folded buyer and one folded reference. */
  lemma ClePrimaireDit(ctx: Contexte, b: AnnonceBrute, d: AnnonceBrute)
    requires ClePrimaire(ctx, b).Some? && ClePrimaire(ctx, d).Some?
    requires '|' !in ctx.plier(b.acheteur.value) && '|' !in ctx.plier(d.acheteur.value)
    ensures ClePrimaire(ctx, b) == ClePrimaire(ctx, d) <==>
            ctx.plier(b.acheteur.value) == ctx.plier(d.acheteur.value) && ctx.plier(b.reference.value) == ctx.plier(d.reference.value)
  {
    ClePrimaireSsi(ctx, b, d);
  }

  /** Where one does, channels of two buyers can share one. */
  lemma ClePrimaireAmbigue(ctx: Contexte, b: AnnonceBrute, d: AnnonceBrute, p: string, q: string, r: string)
    requires ClePrimaire(ctx, b).Some? && ClePrimaire(ctx, d).Some?
    requires ctx.plier(b.acheteur.value) == p + "|" + q && ctx.plier(b.reference.value) == r
    requires ctx.plier(d.acheteur.value) == p && ctx.plier(d.reference.value) == q + "|" + r
    ensures ClePrimaire(ctx, b) == ClePrimaire(ctx, d)
    ensures ctx.plier(b.acheteur.value) != ctx.plier(d.acheteur.value)
  {
    ClePrimaireSsi(ctx, b, d);
    assert (p + "|" + q)[|p| + 1..] == q;
  }

  lemma CleRepliJoint(ctx: Contexte, b: AnnonceBrute)
    requires CleRepli(ctx, b).Some?
    ensures CleRepli(ctx, b).value == "obj|" + ParBarre(ctx.plier(b.acheteur.value), ParBarre(JourDe(ctx, b), ObjetDe(ctx, b)))
  {
    var (a, j, o) := (ctx.plier(b.acheteur.value), JourDe(ctx, b), ObjetDe(ctx, b));
    assert "obj|" + a + "|" + j + "|" + o == "obj|" + ParBarre(a, ParBarre(j, o));
  }

  /** Likewise a fallback key: by the buyer, then by the day and the object. */
  lemma CleRepliSsi(ctx: Contexte, b: AnnonceBrute, d: AnnonceBrute)
    requires CleRepli(ctx, b).Some? && CleRepli(ctx, d).Some?
    ensures var (a, a') := (ctx.plier(b.acheteur.value), ctx.plier(d.acheteur.value));
            var j := if b.echeance.Some? then ctx.jourParis(b.echeance.value) else "";
            var j' := if d.echeance.Some? then ctx.jourParis(d.echeance.value) else "";
            var (o, o') := (Debut(ctx.plier(b.objet), 80), Debut(ctx.plier(d.objet), 80));
            CleRepli(ctx, b) == CleRepli(ctx, d) <==>
              || (a == a' && Confondus(j, o, j', o'))
              || Deborde(a, ParBarre(j, o), a', ParBarre(j', o'))
              || Deborde(a', ParBarre(j', o'), a, ParBarre(j, o))
  {
    CleRepliJoint(ctx, b);
    CleRepliJoint(ctx, d);
    var (a, x) := (ctx.plier(b.acheteur.value), ParBarre(JourDe(ctx, b), ObjetDe(ctx, b)));
    var (a', x') := (ctx.plier(d.acheteur.value), ParBarre(JourDe(ctx, d), ObjetDe(ctx, d)));
    SousPrefixe("obj|", ParBarre(a, x), ParBarre(a', x'));
    JointsSsi(a, x, a', x');
    JointsSsi(JourDe(ctx, b), ObjetDe(ctx, b), JourDe(ctx, d), ObjetDe(ctx, d));
  }

  /** The first `n` characters, or all where there are no more. */
  function Debut(s: string, n: nat): (r: string)
    ensures |r| <= n && r <= s && (|r| < n ==> r == s)
  {
    if |s| > n then s[..n] else s
  }

  /** Days hold no bar, so where no folded buyer does a fallback key tells buyer, day and
      object, as far as it reads it. */
  lemma CleRepliDit(ctx: Contexte, b: AnnonceBrute, d: AnnonceBrute)
    requires CleRepli(ctx, b).Some? && CleRepli(ctx, d).Some?
    requires '|' !in ctx.plier(b.acheteur.value) && '|' !in ctx.plier(d.acheteur.value)
    requires b.echeance.Some? ==> '|' !in ctx.jourParis(b.echeance.value)
    requires d.echeance.Some? ==> '|' !in ctx.jourParis(d.echeance.value)
    ensures CleRepli(ctx, b) == CleRepli(ctx, d) <==>
            && ctx.plier(b.acheteur.value) == ctx.plier(d.acheteur.value)
            && (if b.echeance.Some? then ctx.jourParis(b.echeance.value) else "") == (if d.echeance.Some? then ctx.jourParis(d.echeance.value) else "")
            && Debut(ctx.plier(b.objet), 80) == Debut(ctx.plier(d.objet), 80)
  {
    CleRepliSsi(ctx, b, d);
  }

  /** A fold that changes nothing, and one day for every deadline. */
  function ContexteClair(): Contexte {
    Contexte(s => s, s => s, _ => "d", (_, _) => false, s => s, _ => true, s => s)
  }

  function CanalDe(acheteur: string, reference: Option<string>, objet: string, echeance: Option<int>): AnnonceBrute {
    AnnonceBrute("aws", "uid", [], reference, Some(acheteur), objet, None, None, echeance, Some("u"), None, None)
  }

  /** Buyer `p|q` with reference `r` has the primary key of buyer `p` with reference
      `q|r`; buyer `p|d` with no deadline, the fallback key of buyer `p` on the day `d`. */
  lemma BarreConfond()
    ensures ClePrimaire(ContexteClair(), CanalDe("p|q", Some("r"), "o", None)).Some?
    ensures ClePrimaire(ContexteClair(), CanalDe("p|q", Some("r"), "o", None)) == ClePrimaire(ContexteClair(), CanalDe("p", Some("q|r"), "o", None))
    ensures CleRepli(ContexteClair(), CanalDe("p|d", None, "o", None)).Some?
    ensures CleRepli(ContexteClair(), CanalDe("p|d", None, "o", None)) == CleRepli(ContexteClair(), CanalDe("p", None, "|o", Some(0)))
  {
    assert "ref|" + "p|q" + "|" + "r" == "ref|" + "p" + "|" + "q|r";
    assert "obj|" + "p|d" + "|" + "" + "|" + "o" == "obj|" + "p" + "|" + "d" + "|" + "|o";
  }

  function Presents(s: seq<Option<string>>): seq<string> {
    if s == [] then [] else (if s[0].Some? then [s[0].value] else []) + Presents(s[1..])
  }

  function ClesMolles(ctx: Contexte, b: AnnonceBrute): seq<string> {
    Presents([ClePrimaire(ctx, b), CleRepli(ctx, b)])
  }

  /** The uid struck from a founding channel. */
  function Frapper(ctx: Contexte, fondateur: AnnonceBrute): string {
    "marche:" + ctx.empreinte(CleSrc(fondateur.sourceUid))
  }

  // ---- The line of a group -------------------------------------------------

  function PremierUrl(sources: seq<AnnonceBrute>, boamp: bool): Option<string> {
    if sources == [] then None
    else if (sources[0].moteur == "boamp") == boamp && Url(sources[0]).Some? then Url(sources[0])
    else PremierUrl(sources[1..], boamp)
  }

  function Url(s: AnnonceBrute): Option<string> {
    if s.urlAvis.Some? then s.urlAvis else if s.urlDce.Some? then s.urlDce else s.urlRc
  }

  function Objets(ctx: Contexte, sources: seq<AnnonceBrute>): seq<string> {
    if sources == [] then [] else
    (if ctx.rogner(sources[0].objet) != [] then [ctx.rogner(sources[0].objet)] else []) + Objets(ctx, sources[1..])
  }

  function PremierNommant(ctx: Contexte, objets: seq<string>): Option<string> {
    if objets == [] then None
    else if ctx.nommeUnObjet(objets[0]) then Some(objets[0])
    else PremierNommant(ctx, objets[1..])
  }

  function PremiereReference(sources: seq<AnnonceBrute>): Option<string> {
    if sources == [] then None
    else if sources[0].reference.Some? then sources[0].reference
    else PremiereReference(sources[1..])
  }

  function DateMin(sources: seq<AnnonceBrute>): Option<int> {
    if sources == [] then None else
    match (sources[0].datePublication, DateMin(sources[1..]))
    case (None, d) => d
    case (Some(d), None) => Some(d)
    case (Some(d), Some(e)) => Some(if d <= e then d else e)
  }

  /** Folds a group into its line; `None` stands for either panic of the source:
      no URL in the group, or no object. */
  function Fusionner(ctx: Contexte, uid: string, sources: seq<AnnonceBrute>, aujourdhui: int): (r: Option<AnnonceCanonique>)
    ensures r.Some? ==> r.value.uid == uid && r.value.sources == sources
  {
    var profil := PremierUrl(sources, false);
    var url := if profil.Some? then profil else PremierUrl(sources, true);
    var objets := Objets(ctx, sources);
    if url.None? || objets == [] then None else
    var nommant := PremierNommant(ctx, objets);
    var date := DateMin(sources);
    Some(AnnonceCanonique(
      uid,
      ctx.embellir(if nommant.Some? then nommant.value else objets[0]),
      url.value,
      if date.Some? then date.value else aujourdhui,
      PremiereReference(sources),
      sources))
  }

  lemma {:induction false} UrlTrouvee(sources: seq<AnnonceBrute>, k: nat)
    requires k < |sources| && Url(sources[k]).Some?
    ensures PremierUrl(sources, sources[k].moteur == "boamp").Some?
  {
    if k != 0 { UrlTrouvee(sources[1..], k - 1); }
  }

  /** Neither panic can occur on a group of channels that passed the filter. */
  lemma FusionnerAboutit(ctx: Contexte, uid: string, sources: seq<AnnonceBrute>, aujourdhui: int)
    requires sources != [] && forall s | s in sources :: Affichable(ctx, s)
    ensures Fusionner(ctx, uid, sources, aujourdhui).Some?
  {
    assert Affichable(ctx, sources[0]);
    UrlTrouvee(sources, 0);
  }

  /** Both panics occur exactly when the group has no URL, or no object. */
  lemma FusionnerEchoueSi(ctx: Contexte, uid: string, sources: seq<AnnonceBrute>, aujourdhui: int)
    ensures Fusionner(ctx, uid, sources, aujourdhui).None? <==>
            (forall s | s in sources :: Url(s).None?) || (forall s | s in sources :: ctx.rogner(s.objet) == [])
  {
    PremierUrlVide(sources, false);
    PremierUrlVide(sources, true);
    ObjetsVides(ctx, sources);
  }

  lemma {:induction false} PremierUrlVide(sources: seq<AnnonceBrute>, boamp: bool)
    ensures PremierUrl(sources, boamp).None? <==>
            forall s | s in sources && (s.moteur == "boamp") == boamp :: Url(s).None?
  {
    if sources != [] { PremierUrlVide(sources[1..], boamp); assert sources == [sources[0]] + sources[1..]; }
  }

  lemma {:induction false} ObjetsVides(ctx: Contexte, sources: seq<AnnonceBrute>)
    ensures Objets(ctx, sources) == [] <==> forall s | s in sources :: ctx.rogner(s.objet) == []
  {
    if sources != [] { ObjetsVides(ctx, sources[1..]); assert sources == [sources[0]] + sources[1..]; }
  }
}
