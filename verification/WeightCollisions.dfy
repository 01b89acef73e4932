/** When a graph written with int8 weights reads back: exactly where no tensor bears a
    name the writer gives, but a big one stored before. */
module WeightCollisions {
  import opened Networks
  import opened WeightRoundTrip

  /** The reader reads what the writer wrote, and has the nodes and tensors it has of the
      graph as it is, the big weights restored and last. */
  ghost predicate ReadsBack(g: Graph)
    requires AllFull(g.initializers) && AllReadable(g)
  {
    && AllReadable(Written(g)) && AllBig(Bigs(g.initializers))
    && Others(Written(g), |Written(g).nodes|) == Others(g, |g.nodes|)
    && Folded(Written(g).initializers, DoneOf(Written(g), |Written(g).nodes|)) ==
       WithOwn(g, Smalls(g.initializers)) + RestoredAll(Bigs(g.initializers))
  }

  lemma FreeReads(g: Graph)
    requires Sound(g)
    ensures ReadsBack(g)
  {
    NodesBack(g);
    TensorsBack(g);
  }

  // ---- What a reading leaves ---------------------------------------------------------------------

  /** A tensor left by the reader was there, or was computed. */
  lemma {:induction false} LeftFrom(ts: seq<Tensor>, done: seq<Done>, u: Tensor)
    requires u in Folded(ts, done)
    ensures u in ts || exists k :: 0 <= k < |done| && u == done[k].wide
    decreases |done|
  {
    if done != [] {
      var (last, rest) := (done[|done| - 1], done[..|done| - 1]);
      LeftFrom(Retain(ts, Set(last.inputs)) + [last.wide], rest, u);
      if k :| 0 <= k < |rest| && u == rest[k].wide {
        assert u == done[k].wide;
      } else if u in Retain(ts, Set(last.inputs)) {
        Retained(ts, Set(last.inputs), u);
      } else {
        assert u == done[|done| - 1].wide;
      }
    }
  }

  lemma {:induction false} Retained(ts: seq<Tensor>, names: set<string>, u: Tensor)
    requires u in Retain(ts, names)
    ensures u in ts && u.name !in names
  {
    if ts != [] && u in Retain(ts[1..], names) { Retained(ts[1..], names, u); }
  }

  /** One with the name of a node's input was computed by that node or one before. */
  lemma {:induction false} LeftNamed(ts: seq<Tensor>, done: seq<Done>, p: nat, u: Tensor)
    requires p < |done| && u in Folded(ts, done) && u.name in Set(done[p].inputs)
    ensures exists k :: 0 <= k <= p && u == done[k].wide
    decreases |done|
  {
    var n := |done| - 1;
    var (last, rest) := (done[n], done[..n]);
    var ts1 := Retain(ts, Set(last.inputs)) + [last.wide];
    if p < n {
      LeftNamed(ts1, rest, p, u);
      var k :| 0 <= k <= p && u == rest[k].wide;
      assert u == done[k].wide;
    } else {
      LeftFrom(ts1, rest, u);
      if k :| 0 <= k < |rest| && u == rest[k].wide {
        assert u == done[k].wide;
      } else {
        if u in Retain(ts, Set(last.inputs)) { Retained(ts, Set(last.inputs), u); }
        assert u == done[n].wide;
      }
    }
  }

  // ---- Every weight folded -------------------------------------------------------------------------

  lemma {:induction false} DoneOrOther(w: Graph, n: nat)
    requires AllReadable(w) && n <= |w.nodes|
    ensures |DoneOf(w, n)| + |Others(w, n)| == n
    ensures |Others(w, n)| == 0 ==> forall k | 0 <= k < n ::
              |DoneOf(w, n)| == n && WideOf(w.initializers, w.nodes[k]).Some?
              && DoneOf(w, n)[k] == Done(k, WideOf(w.initializers, w.nodes[k]).value, w.nodes[k].inputs)
  {
    if n > 0 { DoneOrOther(w, n - 1); }
  }

  lemma WrittenNodes(g: Graph, k: nat)
    requires AllFull(g.initializers) && k < |Written(g).nodes|
    ensures var (w, bigs) := (Written(g), Bigs(g.initializers));
            |w.nodes| == |bigs| + |g.nodes| && w.nodes[k] == if k < |bigs| then NodeOf(bigs[k]) else g.nodes[k - |bigs|]
  {
  }

  /** If the graph has its nodes again, each node the writer added was folded, first and
      in order. */
  lemma AllFolded(g: Graph, w: Graph, m: nat)
    requires AllFull(g.initializers) && AllReadable(g) && OwnApart(g) && w == Written(g) && m == |Bigs(g.initializers)|
    requires AllReadable(w) && Others(w, |w.nodes|) == Others(g, |g.nodes|)
    ensures m <= |DoneOf(w, |w.nodes|)|
    ensures forall k | 0 <= k < m ::
      DoneOf(w, |w.nodes|)[k].inputs == Names(Bigs(g.initializers)[k]) && DoneOf(w, |w.nodes|)[k].wide.name == Bigs(g.initializers)[k].name
  {
    NoneKept(g, w, m);
    DoneOrOther(w, m);
    DoneGrows(w, m, |w.nodes|);
    forall k | 0 <= k < m
      ensures DoneOf(w, |w.nodes|)[k].inputs == Names(Bigs(g.initializers)[k]) && DoneOf(w, |w.nodes|)[k].wide.name == Bigs(g.initializers)[k].name
    {
      WrittenNodes(g, k);
      assert DoneOf(w, |w.nodes|)[k] == DoneOf(w, |w.nodes|)[..|DoneOf(w, m)|][k];
    }
  }

  lemma Shorter(all: seq<Node>, first: seq<Node>, rest: seq<Node>)
    requires all == first + rest && all == rest
    ensures |first| == 0
  {
    assert |all| == |first| + |rest|;
  }

  lemma NoneKept(g: Graph, w: Graph, m: nat)
    requires AllFull(g.initializers) && AllReadable(g) && OwnApart(g) && w == Written(g) && m == |Bigs(g.initializers)|
    requires AllReadable(w) && Others(w, |w.nodes|) == Others(g, |g.nodes|)
    ensures m <= |w.nodes| && |Others(w, m)| == 0
  {
    WidesSame(g, w, m);
    OthersSplit(g, w, m, |w.nodes|);
    Shorter(Others(w, |w.nodes|), Others(w, m), Others(g, |g.nodes|));
  }

  lemma OthersSplit(g: Graph, w: Graph, m: nat, all: nat)
    requires AllReadable(g) && AllReadable(w) && all == |w.nodes| == m + |g.nodes|
    requires forall k: nat | k < |g.nodes| :: StandsPast(g, w, m, k)
    ensures Others(w, all) == Others(w, m) + Others(g, |g.nodes|)
  {
    DoneOwn(g, w, m, |g.nodes|);
  }

  // ---- No name may meet ------------------------------------------------------------------------------

  lemma {:induction false} RestoredIn(bigs: seq<Tensor>, k: nat)
    requires AllBig(bigs) && k < |bigs|
    ensures Restored(bigs[k]) in RestoredAll(bigs)
  {
    if k < |bigs| - 1 { RestoredIn(bigs[..|bigs| - 1], k); }
  }

  /** What the reader must leave for tensor `j` of the graph. */
  function Expected(t: Tensor): Tensor
    requires Full(t)
  {
    if Big(t) then Restored(t) else t
  }

  lemma {:induction false} RetainHolds(ss: seq<Tensor>, names: set<string>, u: Tensor)
    requires u in ss && u.name !in names
    ensures u in Retain(ss, names)
  {
    if u != ss[0] { RetainHolds(ss[1..], names, u); }
  }

  /** A name the writer gives is read by no node folded in the graph itself. */
  lemma NotRead(g: Graph, i: nat, name: string)
    requires AllReadable(g) && Clear(g) && i < |g.initializers| && Big(g.initializers[i]) && name in Set(Names(g.initializers[i]))
    ensures name !in AllInputs(DoneOf(g, |g.nodes|))
  {
    InputsAre(DoneOf(g, |g.nodes|), name);
    forall k | 0 <= k < |DoneOf(g, |g.nodes|)| ensures name !in Set(DoneOf(g, |g.nodes|)[k].inputs) { OwnAt(g, |g.nodes|, k); }
  }

  lemma ExpectedLeft(g: Graph, j: nat)
    requires AllFull(g.initializers) && AllReadable(g) && AllBig(Bigs(g.initializers)) && j < |g.initializers|
    requires g.initializers[j].name !in AllInputs(DoneOf(g, |g.nodes|))
    ensures Expected(g.initializers[j]) in WithOwn(g, Smalls(g.initializers)) + RestoredAll(Bigs(g.initializers))
    ensures Expected(g.initializers[j]).name == g.initializers[j].name
  {
    var t := g.initializers[j];
    if Big(t) {
      var p := PlaceOf(g.initializers, j);
      RestoredIn(Bigs(g.initializers), p);
    } else {
      SmallsAre(g.initializers, t);
      RetainHolds(Smalls(g.initializers), AllInputs(DoneOf(g, |g.nodes|)), t);
    }
  }

  lemma SameNameSame(ts: seq<Tensor>, i: nat, j: nat)
    requires Unique(ts) && i < |ts| && j < |ts| && ts[i].name == ts[j].name
    ensures i == j
  {
  }

  /** A tensor with a name the writer gives is one computed by its node or one before. */
  lemma ComputedBefore(g: Graph, p: nat, j: nat) returns (k: nat)
    requires AllFull(g.initializers) && AllReadable(g) && OwnApart(g) && ReadsBack(g)
    requires p < |Bigs(g.initializers)| && j < |g.initializers| && g.initializers[j].name in Set(Names(Bigs(g.initializers)[p]))
    ensures k <= p && Bigs(g.initializers)[k].name == g.initializers[j].name
  {
    var w := Written(g);
    var done := DoneOf(w, |w.nodes|);
    AllFolded(g, w, |Bigs(g.initializers)|);
    BigAt(g.initializers, p);
    NotRead(g, Places(g.initializers, |g.initializers|)[p], g.initializers[j].name);
    ExpectedLeft(g, j);
    LeftNamed(w.initializers, done, p, Expected(g.initializers[j]));
    k :| 0 <= k <= p && Expected(g.initializers[j]) == done[k].wide;
  }

  lemma PlacedBefore(ts: seq<Tensor>, k: nat, p: nat, i: nat, j: nat)
    requires Unique(ts) && k <= p < |Bigs(ts)| && i < |ts| && j < |ts| && |Places(ts, |ts|)| == |Bigs(ts)|
    requires Bigs(ts)[k].name == ts[j].name && Places(ts, |ts|)[p] == i
    ensures Big(ts[j]) && j <= i
  {
    BigAt(ts, k);
    SameNameSame(ts, Places(ts, |ts|)[k], j);
    PlacesAscend(ts, |ts|);
  }

  lemma NotItsOwn(ts: seq<Tensor>, i: nat, j: nat)
    requires i < |ts| && j < |ts| && ts[j].name in Set(Names(ts[i]))
    ensures i != j
  {
    NamesDiffer(ts[i].name);
    NamesAre(ts[i]);
  }

  lemma MeetsBefore(g: Graph, i: nat, j: nat)
    requires AllFull(g.initializers) && Unique(g.initializers) && AllReadable(g) && OwnApart(g) && ReadsBack(g)
    requires i < |g.initializers| && j < |g.initializers| && Big(g.initializers[i])
    requires g.initializers[j].name in Set(Names(g.initializers[i]))
    ensures Big(g.initializers[j]) && j < i
  {
    var p := PlaceOf(g.initializers, i);
    var k := ComputedBefore(g, p, j);
    NotItsOwn(g.initializers, i, j);
    PlacedBefore(g.initializers, k, p, i, j);
  }

  /** A graph of tensors of different names reads back if and only if each name the
      writer gives is no tensor's, or that of a big tensor that comes before. */
  lemma ReadsBackIff(g: Graph)
    requires AllFull(g.initializers) && Unique(g.initializers) && AllReadable(g) && OwnApart(g)
    ensures ReadsBack(g) <==> Free(g.initializers)
  {
    if ReadsBack(g) {
      forall i, j | 0 <= i < |g.initializers| && 0 <= j < |g.initializers| && Big(g.initializers[i])
                    && g.initializers[j].name in Set(Names(g.initializers[i]))
        ensures Big(g.initializers[j]) && j < i
      {
        MeetsBefore(g, i, j);
      }
    }
    if Free(g.initializers) { FreeReads(g); }
  }

  /** So a weight and a small tensor that bears its stored name are not had again. */
  lemma CollisionLoses(g: Graph, t: Tensor, u: Tensor)
    requires g.initializers == [t, u] && AllReadable(g) && OwnApart(g)
    requires Big(t) && Full(t) && Full(u) && !Big(u) && u.name == t.name + "_q"
    ensures AllFull(g.initializers) && !ReadsBack(g)
  {
    NamesDiffer(t.name);
    NamesAre(t);
    ReadsBackIff(g);
    assert g.initializers[1].name in Set(Names(g.initializers[0]));
  }
}
