/** Orders and sorting shared by the models: the stable library sort the
    program calls, and the lexicographic order on strings. */
module Ordre {

  datatype Option<+T> = None | Some(value: T)

  ghost predicate Total<T(!new)>(le: (T, T) -> bool) {
    forall x, y :: le(x, y) || le(y, x)
  }

  ghost predicate Transitif<T(!new)>(le: (T, T) -> bool) {
    forall x, y, z :: le(x, y) && le(y, z) ==> le(x, z)
  }

  ghost predicate Trie<T>(le: (T, T) -> bool, s: seq<T>) {
    forall i, j | 0 <= i < j < |s| :: le(s[i], s[j])
  }

  /** Inserts `x` before the first element it does not exceed. */
  function Inserer<T>(le: (T, T) -> bool, x: T, s: seq<T>): (r: seq<T>) {
    if s == [] || le(x, s[0]) then [x] + s else [s[0]] + Inserer(le, x, s[1..])
  }

  /** A stable sort by `le`. */
  function Trier<T>(le: (T, T) -> bool, s: seq<T>): (r: seq<T>) {
    if s == [] then [] else Inserer(le, s[0], Trier(le, s[1..]))
  }

  lemma {:induction false} InsererPermute<T>(le: (T, T) -> bool, x: T, s: seq<T>)
    ensures multiset(Inserer(le, x, s)) == multiset{x} + multiset(s)
  {
    if s == [] || le(x, s[0]) {
    } else {
      InsererPermute(le, x, s[1..]);
      assert s == [s[0]] + s[1..];
    }
  }

  lemma {:induction false} TrierPermute<T>(le: (T, T) -> bool, s: seq<T>)
    ensures multiset(Trier(le, s)) == multiset(s) && |Trier(le, s)| == |s|
  {
    if s == [] {
    } else {
      TrierPermute(le, s[1..]);
      InsererPermute(le, s[0], Trier(le, s[1..]));
      assert s == [s[0]] + s[1..];
    }
    assert |multiset(Trier(le, s))| == |multiset(s)|;
  }

  lemma {:induction false} InsererTrie<T(!new)>(le: (T, T) -> bool, x: T, s: seq<T>)
    requires Total(le) && Transitif(le) && Trie(le, s)
    ensures Trie(le, Inserer(le, x, s))
  {
    if s == [] || le(x, s[0]) {
    } else {
      InsererTrie(le, x, s[1..]);
      InsererPermute(le, x, s[1..]);
      var r := Inserer(le, x, s[1..]);
      forall k | 0 <= k < |r| ensures le(s[0], r[k]) {
        assert r[k] in multiset(r);
        assert r[k] == x || r[k] in s[1..];
      }
    }
  }

  lemma {:induction false} TrierTrie<T(!new)>(le: (T, T) -> bool, s: seq<T>)
    requires Total(le) && Transitif(le)
    ensures Trie(le, Trier(le, s))
  {
    if s == [] {
    } else {
      TrierTrie(le, s[1..]);
      InsererTrie(le, s[0], Trier(le, s[1..]));
    }
  }

  /** `le` tells apart any two elements of `s`. */
  ghost predicate Distingue<T>(le: (T, T) -> bool, s: seq<T>) {
    forall x, y | x in s && y in s && le(x, y) && le(y, x) :: x == y
  }

  lemma TeteEgale<T>(le: (T, T) -> bool, a: seq<T>, b: seq<T>)
    requires Trie(le, a) && Trie(le, b) && multiset(a) == multiset(b) && a != [] && b != []
    requires Distingue(le, a)
    ensures a[0] == b[0]
  {
    assert a[0] in multiset(b) && b[0] in multiset(a);
    var i :| 0 <= i < |b| && b[i] == a[0];
    var j :| 0 <= j < |a| && a[j] == b[0];
    if i != 0 && j != 0 {
      assert le(b[0], b[i]) && le(a[0], a[j]);
    }
  }

  lemma ResteDe<T>(s: seq<T>)
    requires s != []
    ensures multiset(s[1..]) == multiset(s) - multiset{s[0]}
  {
    assert s == [s[0]] + s[1..];
  }

  /** A sorted arrangement is unique where the order tells elements apart. */
  lemma {:induction false} TrieUnique<T>(le: (T, T) -> bool, a: seq<T>, b: seq<T>)
    requires Trie(le, a) && Trie(le, b) && multiset(a) == multiset(b)
    requires Distingue(le, a)
    ensures a == b
  {
    MemeTaille(a, b);
    if a != [] {
      TeteEgale(le, a, b);
      ResteDe(a);
      ResteDe(b);
      TrieUnique(le, a[1..], b[1..]);
      TeteEtReste(a, b);
    }
  }

  lemma MemeTaille<T>(a: seq<T>, b: seq<T>)
    requires multiset(a) == multiset(b)
    ensures |a| == |b|
  {
    assert |multiset(a)| == |a| && |multiset(b)| == |b|;
  }

  lemma TeteEtReste<T>(a: seq<T>, b: seq<T>)
    requires a != [] && b != [] && a[0] == b[0] && a[1..] == b[1..]
    ensures a == b
  {
    assert a == [a[0]] + a[1..] && b == [b[0]] + b[1..];
  }

  /** Two arrangements of the same elements sort alike. */
  lemma TrierIgnoreOrdre<T(!new)>(le: (T, T) -> bool, a: seq<T>, b: seq<T>)
    requires Total(le) && Transitif(le) && Distingue(le, a)
    requires multiset(a) == multiset(b)
    ensures Trier(le, a) == Trier(le, b)
  {
    TrierPermute(le, a);
    TrierPermute(le, b);
    TrierTrie(le, a);
    TrierTrie(le, b);
    forall x | x in Trier(le, a) ensures x in a { assert x in multiset(Trier(le, a)); }
    TrieUnique(le, Trier(le, a), Trier(le, b));
  }

  lemma DeuxFois<T>(q: seq<T>, i: nat, j: nat)
    requires i < j < |q| && q[i] == q[j]
    ensures multiset(q)[q[i]] >= 2
  {
    assert q == q[..i] + [q[i]] + q[i + 1..];
    assert q[j] == q[i + 1..][j - i - 1];
  }

  /** A listing of a set repeats nothing. */
  lemma SansDoublon<T>(q: seq<T>, s: set<T>)
    requires multiset(q) == multiset(s)
    ensures |q| == |s|
    ensures forall u :: u in q <==> u in s
    ensures forall i, j | 0 <= i < j < |q| :: q[i] != q[j]
    ensures q != [] ==> q[0] !in q[1..]
  {
    assert |multiset(q)| == |multiset(s)|;
    forall u ensures u in q <==> u in s { assert u in q <==> u in multiset(q); }
    forall i, j | 0 <= i < j < |q| ensures q[i] != q[j] {
      if q[i] == q[j] { DeuxFois(q, i, j); }
    }
  }

  lemma Associe<T>(a: seq<T>, b: seq<T>, c: seq<T>)
    ensures (a + b) + c == a + (b + c)
  {
  }

  lemma PrefixeGrandit<T>(s: seq<T>, k: nat)
    requires k < |s|
    ensures s[..k + 1] == s[..k] + [s[k]] && s[..k + 1][..k] == s[..k]
  {
  }

  function Image<T, U>(f: T -> U, s: seq<T>): (r: seq<U>)
    ensures |r| == |s| && forall k | 0 <= k < |s| :: r[k] == f(s[k])
  {
    seq(|s|, k requires 0 <= k < |s| => f(s[k]))
  }

  lemma ImageConcat<T, U>(f: T -> U, a: seq<T>, b: seq<T>)
    ensures Image(f, a + b) == Image(f, a) + Image(f, b)
  {
  }

  lemma ImageSans<T, U>(f: T -> U, s: seq<T>, i: nat)
    requires i < |s|
    ensures multiset(s) == multiset(s[..i] + s[i + 1..]) + multiset([s[i]])
    ensures multiset(Image(f, s)) == multiset(Image(f, s[..i] + s[i + 1..])) + multiset([f(s[i])])
  {
    var (avant, apres) := (s[..i], s[i + 1..]);
    assert s == (avant + [s[i]]) + apres;
    ImageConcat(f, avant + [s[i]], apres);
    ImageConcat(f, avant, [s[i]]);
    ImageConcat(f, avant, apres);
    assert Image(f, [s[i]]) == [f(s[i])];
  }

  lemma Retrait<T>(a: multiset<T>, b: multiset<T>, x: T)
    requires a + multiset([x]) == b + multiset([x])
    ensures a == b
  {
    assert a == (a + multiset([x])) - multiset([x]);
    assert b == (b + multiset([x])) - multiset([x]);
  }

  /** A rearrangement maps to a rearrangement. */
  lemma {:induction false} ImagePermute<T, U>(f: T -> U, a: seq<T>, b: seq<T>)
    requires multiset(a) == multiset(b)
    ensures multiset(Image(f, a)) == multiset(Image(f, b))
    decreases |a|
  {
    MemeTaille(a, b);
    if a != [] {
      assert a[0] in multiset(b);
      var i :| 0 <= i < |b| && b[i] == a[0];
      ImageSans(f, a, 0);
      ImageSans(f, b, i);
      var (c, d) := (a[..0] + a[0 + 1..], b[..i] + b[i + 1..]);
      Retrait(multiset(c), multiset(d), a[0]);
      ImagePermute(f, c, d);
    }
  }

  lemma AuPlusUn<T>(q: seq<T>, x: T)
    requires forall u | u in q :: u == x
    requires |q| > 1 ==> q[0] != q[1]
    ensures q == [] || q == [x]
  {
    forall i | 0 <= i < |q| ensures q[i] == x {
      assert q[i] in q;
    }
  }

  // ---- Chains ---------------------------------------------------------

  /** Each index of `p` is linked to the next. */
  ghost predicate Chaine(lien: (nat, nat) -> bool, p: seq<nat>) {
    p != [] && forall k | 0 <= k < |p| - 1 :: lien(p[k], p[k + 1])
  }

  ghost predicate ChaineDe(lien: (nat, nat) -> bool, p: seq<nat>, i: nat, j: nat) {
    Chaine(lien, p) && p[0] == i && p[|p| - 1] == j
  }

  /** A chain leads from `i` to `j`. */
  ghost predicate EnChaine(lien: (nat, nat) -> bool, i: nat, j: nat) {
    exists p :: ChaineDe(lien, p, i, j)
  }

  ghost function Envers(p: seq<nat>): (r: seq<nat>)
    ensures |r| == |p| && forall k | 0 <= k < |p| :: r[k] == p[|p| - 1 - k]
  {
    seq(|p|, k requires 0 <= k < |p| => p[|p| - 1 - k])
  }

  lemma ChaineReflexive(lien: (nat, nat) -> bool, i: nat)
    ensures EnChaine(lien, i, i)
  {
    assert ChaineDe(lien, [i], i, i);
  }

  lemma ChaineSymetrique(lien: (nat, nat) -> bool, i: nat, j: nat)
    requires EnChaine(lien, i, j) && forall a, b :: lien(a, b) ==> lien(b, a)
    ensures EnChaine(lien, j, i)
  {
    var p :| ChaineDe(lien, p, i, j);
    var r := Envers(p);
    forall k | 0 <= k < |r| - 1 ensures lien(r[k], r[k + 1]) {
      assert lien(p[|p| - 2 - k], p[|p| - 2 - k + 1]);
    }
    assert ChaineDe(lien, r, j, i);
  }

  lemma ChaineTransitive(lien: (nat, nat) -> bool, i: nat, j: nat, k: nat)
    requires EnChaine(lien, i, j) && EnChaine(lien, j, k)
    ensures EnChaine(lien, i, k)
  {
    var p :| ChaineDe(lien, p, i, j);
    var q :| ChaineDe(lien, q, j, k);
    var r := p + q[1..];
    forall m | 0 <= m < |r| - 1 ensures lien(r[m], r[m + 1]) {
      if m < |p| - 1 {
        assert r[m] == p[m] && r[m + 1] == p[m + 1];
      } else {
        var o := m - (|p| - 1);
        assert r[m] == q[o] && r[m + 1] == q[o + 1];
      }
    }
    assert ChaineDe(lien, r, i, k);
  }

  lemma ResteDeChaine(lien: (nat, nat) -> bool, p: seq<nat>)
    requires Chaine(lien, p) && |p| > 1
    ensures Chaine(lien, p[1..]) && lien(p[0], p[1])
  {
    forall k | 0 <= k < |p[1..]| - 1 ensures lien(p[1..][k], p[1..][k + 1]) {
      assert lien(p[k + 1], p[k + 1 + 1]);
    }
    assert lien(p[0], p[0 + 1]);
  }

  /** What every link keeps, a chain keeps. */
  lemma {:induction false} ChaineGarde(lien: (nat, nat) -> bool, garde: nat -> bool, p: seq<nat>)
    requires Chaine(lien, p) && garde(p[0]) && forall a, b :: lien(a, b) && garde(a) ==> garde(b)
    ensures garde(p[|p| - 1])
  {
    if |p| > 1 {
      ResteDeChaine(lien, p);
      ChaineGarde(lien, garde, p[1..]);
    }
  }

  // ---- Strings --------------------------------------------------------

  /** Lexicographic order, by code point. */
  predicate LexLe(a: string, b: string) {
    a == [] || (b != [] && (a[0] < b[0] || (a[0] == b[0] && LexLe(a[1..], b[1..]))))
  }

  lemma {:induction false} LexTotal(a: string, b: string)
    ensures LexLe(a, b) || LexLe(b, a)
  {
    if a != [] && b != [] && a[0] == b[0] { LexTotal(a[1..], b[1..]); }
  }

  lemma {:induction false} LexAntisymetrique(a: string, b: string)
    requires LexLe(a, b) && LexLe(b, a)
    ensures a == b
  {
    if a != [] && b != [] {
      LexAntisymetrique(a[1..], b[1..]);
      assert a == [a[0]] + a[1..] && b == [b[0]] + b[1..];
    }
  }

  lemma {:induction false} LexTransitif(a: string, b: string, c: string)
    requires LexLe(a, b) && LexLe(b, c)
    ensures LexLe(a, c)
  {
    if a != [] && a[0] == b[0] && b[0] == c[0] { LexTransitif(a[1..], b[1..], c[1..]); }
  }

  /** `k` is the first place where `a` and `b` differ, and `a` is the smaller there or ends there. */
  predicate AvantEn(a: string, b: string, k: nat) {
    k <= |a| && k < |b| && a[..k] == b[..k] && (k == |a| || a[k] < b[k])
  }

  /** Lexicographic: the same, or smaller at the first difference. */
  lemma {:induction false} LexSsi(a: string, b: string)
    ensures LexLe(a, b) <==> a == b || exists k: nat :: AvantEn(a, b, k)
    decreases |a|
  {
    if a == [] {
      if b != [] { assert AvantEn(a, b, 0); }
    } else if b != [] && a[0] == b[0] {
      LexSsi(a[1..], b[1..]);
      assert a == [a[0]] + a[1..] && b == [b[0]] + b[1..];
      if k: nat :| AvantEn(a[1..], b[1..], k) { LexPlusLoin(a, b, k); }
      if k: nat :| AvantEn(a, b, k) { LexMoinsLoin(a, b, k); }
    } else if b != [] && a[0] < b[0] {
      assert AvantEn(a, b, 0);
    } else {
      forall k: nat ensures !AvantEn(a, b, k) { LexPremier(a, b, k); }
    }
  }

  lemma LexPremier(a: string, b: string, k: nat)
    requires a != [] && (b == [] || b[0] < a[0])
    ensures !AvantEn(a, b, k)
  {
    if 0 < k <= |a| && k < |b| { assert a[..k][0] == a[0] && b[..k][0] == b[0]; }
  }

  lemma LexPlusLoin(a: string, b: string, k: nat)
    requires a != [] && b != [] && a[0] == b[0] && AvantEn(a[1..], b[1..], k)
    ensures AvantEn(a, b, k + 1)
  {
    assert a[..k + 1] == [a[0]] + a[1..][..k] && b[..k + 1] == [b[0]] + b[1..][..k];
  }

  lemma LexMoinsLoin(a: string, b: string, k: nat)
    requires a != [] && b != [] && a[0] == b[0] && AvantEn(a, b, k)
    ensures k > 0 && AvantEn(a[1..], b[1..], k - 1)
  {
    if k > 0 { assert a[1..][..k - 1] == a[..k][1..] && b[1..][..k - 1] == b[..k][1..]; }
  }

  lemma LexEstUnOrdre()
    ensures Total(LexLe) && Transitif(LexLe)
    ensures forall a, b :: LexLe(a, b) && LexLe(b, a) ==> a == b
  {
    forall a, b ensures LexLe(a, b) || LexLe(b, a) { LexTotal(a, b); }
    forall a, b, c | LexLe(a, b) && LexLe(b, c) ensures LexLe(a, c) { LexTransitif(a, b, c); }
    forall a, b | LexLe(a, b) && LexLe(b, a) ensures a == b { LexAntisymetrique(a, b); }
  }
}
