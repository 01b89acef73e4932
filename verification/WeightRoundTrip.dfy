/** A network written with int8 weights and read back is the network it was, its
    big weights within half their channel's scale. */
module WeightRoundTrip {
  import opened Ordre
  import opened Weights
  import opened Networks

  // ---- One weight ---------------------------------------------------------------------

  /** What the reader makes of the weights. */
  function RestoredValues(t: Tensor): (r: seq<real>)
    requires Big(t) && Full(t)
    ensures |r| == |t.data.values|
  {
    Widened(QuantisedValues(t), t.dims, AxisOf(t), Scales(t), Zeros(t.dims[AxisOf(t)]))
  }

  /** What the reader makes of the three tensors of a weight. */
  function Restored(t: Tensor): Tensor
    requires Big(t) && Full(t)
  {
    Tensor(t.name, t.dims, Floats(RestoredValues(t)))
  }

  lemma NoZero(o: int, z: int, s: real)
    requires z == 0
    ensures Dequantised(o, z, s) == Back(o, s)
  {
  }

  lemma ChannelsAgree(t: Tensor, i: nat)
    requires Big(t) && Full(t) && i < |t.data.values|
    ensures ChannelOf(t.dims, AxisOf(t), i) == ChannelAt(t, i)
    ensures Scales(t)[ChannelAt(t, i)] == ChannelScale(t, ChannelAt(t, i))
  {
  }

  lemma RestoredAt(t: Tensor, i: nat)
    requires Big(t) && Full(t) && i < |t.data.values|
    ensures RestoredValues(t)[i] == Back(QuantisedValues(t)[i], ChannelScale(t, ChannelAt(t, i)))
  {
    var c := ChannelAt(t, i);
    ChannelsAgree(t, i);
    NoZero(QuantisedValues(t)[i], Zeros(t.dims[AxisOf(t)])[c], Scales(t)[c]);
  }

  function ChannelMax(t: Tensor, c: nat): (m: real)
    requires Big(t) && Full(t)
    ensures m >= 0.0 && ChannelScale(t, c) == ScaleOf(m)
  {
    MaxAbs(ChannelValues(t.data.values, t.dims, AxisOf(t), c, |t.data.values|))
  }

  lemma WithinMax(t: Tensor, i: nat)
    requires Big(t) && Full(t) && i < |t.data.values|
    ensures Abs(t.data.values[i]) <= ChannelMax(t, ChannelAt(t, i))
  {
    OffsetOfCoordinates(t.dims, i);
    var c := ChannelAt(t, i);
    InChannel(t.data.values, t.dims, AxisOf(t), c, |t.data.values|, i);
    var channel := ChannelValues(t.data.values, t.dims, AxisOf(t), c, |t.data.values|);
    var k :| 0 <= k < |channel| && channel[k] == t.data.values[i];
  }

  /** Every weight read back is within half the scale of its channel, and zero if its
      channel is. */
  lemma WeightNear(t: Tensor, i: nat)
    requires Big(t) && Full(t) && i < |t.data.values|
    ensures var c := ChannelAt(t, i); Near(t.data.values[i], ChannelMax(t, c), ChannelScale(t, c), RestoredValues(t)[i])
  {
    RestoredAt(t, i);
    WithinMax(t, i);
    QuantisedNear(t, i, RestoredValues(t)[i]);
  }

  lemma QuantisedNear(t: Tensor, i: nat, w: real)
    requires Big(t) && Full(t) && i < |t.data.values| && w == Back(QuantisedValues(t)[i], ChannelScale(t, ChannelAt(t, i)))
    requires Abs(t.data.values[i]) <= ChannelMax(t, ChannelAt(t, i))
    ensures var c := ChannelAt(t, i); Near(t.data.values[i], ChannelMax(t, c), ChannelScale(t, c), w)
  {
    var c := ChannelAt(t, i);
    BackNear(t.data.values[i], ChannelMax(t, c), ChannelScale(t, c), w);
  }

  /** `w` is within half the scale of `v`, and is `v` when the channel is all zero. */
  predicate Near(v: real, max: real, scale: real, w: real) {
    Abs(w - v) <= 0.5 * scale && (max == 0.0 ==> w == 0.0 == v)
  }

  lemma BackNear(v: real, max: real, scale: real, w: real)
    requires max >= 0.0 && scale == ScaleOf(max) && Abs(v) <= max && w == Back(Quantised(v, scale), scale)
    ensures Near(v, max, scale, w)
  {
    HalfScale(v, max);
  }

  /** Weights `i` and `j` are of one output channel: of one first coordinate in a convolution's
      four dimensions, of one second coordinate in an LSTM's three or a MatMul's two. */
  ghost predicate SameChannel(dims: seq<nat>, i: nat, j: nat)
    requires i < Product(dims) && j < Product(dims) && |dims| >= 2
  {
    if |dims| == 4 then Coordinates(dims, i)[0] == Coordinates(dims, j)[0] else Coordinates(dims, i)[1] == Coordinates(dims, j)[1]
  }

  lemma {:induction false} FromChannel(values: seq<real>, dims: seq<nat>, axis: nat, c: nat, n: nat, v: real) returns (i: nat)
    requires n <= |values| <= Product(dims) && axis < |dims| && v in ChannelValues(values, dims, axis, c, n)
    ensures i < n && values[i] == v && Coordinates(dims, i)[axis] == c
    decreases n
  {
    OffsetOfCoordinates(dims, n - 1);
    if v in ChannelValues(values, dims, axis, c, n - 1) {
      i := FromChannel(values, dims, axis, c, n - 1, v);
    } else {
      i := n - 1;
    }
  }

  /** The weight of a channel that its scale is told by. */
  lemma ChannelTop(t: Tensor, i: nat) returns (j: nat)
    requires Big(t) && Full(t) && i < |t.data.values|
    ensures j < |t.data.values| && ChannelAt(t, j) == ChannelAt(t, i) && Abs(t.data.values[j]) == ChannelMax(t, ChannelAt(t, i))
  {
    var c := ChannelAt(t, i);
    WithinMax(t, i);
    if ChannelMax(t, c) == 0.0 {
      j := i;
    } else {
      var channel := ChannelValues(t.data.values, t.dims, AxisOf(t), c, |t.data.values|);
      var k :| 0 <= k < |channel| && Abs(channel[k]) == ChannelMax(t, c);
      j := FromChannel(t.data.values, t.dims, AxisOf(t), c, |t.data.values|, channel[k]);
    }
  }

  lemma ChannelSame(t: Tensor, i: nat, j: nat)
    requires Big(t) && Full(t) && i < |t.data.values| && j < |t.data.values|
    ensures SameChannel(t.dims, i, j) <==> ChannelAt(t, i) == ChannelAt(t, j)
  {
  }

  /** A weight read back is off by at most a 254th of the greatest of its channel. */
  lemma WeightOff(t: Tensor, i: nat) returns (j: nat)
    requires Big(t) && Full(t) && i < |t.data.values|
    ensures j < |t.data.values| && SameChannel(t.dims, i, j) && Abs(RestoredValues(t)[i] - t.data.values[i]) * 254.0 <= Abs(t.data.values[j])
    ensures forall k | 0 <= k < |t.data.values| && SameChannel(t.dims, i, k) :: Abs(t.data.values[k]) <= Abs(t.data.values[j])
  {
    j := ChannelTop(t, i);
    ChannelSame(t, i, j);
    WeightNear(t, i);
    OffBy(t.data.values[i], Abs(t.data.values[j]), RestoredValues(t)[i]);
    forall k | 0 <= k < |t.data.values| && SameChannel(t.dims, i, k) ensures Abs(t.data.values[k]) <= Abs(t.data.values[j]) {
      ChannelSame(t, i, k);
      WithinMax(t, k);
    }
  }

  lemma OffBy(v: real, max: real, w: real)
    requires max >= 0.0 && Near(v, max, ScaleOf(max), w)
    ensures Abs(w - v) * 254.0 <= max
  {
  }

  // ---- Names -----------------------------------------------------------------------------

  /** The names a tensor takes once stored. */
  function NamesOf(t: Tensor): set<string> {
    if Big(t) then Set(Names(t)) else {t.name}
  }

  /** As a graph asks: no two of its tensors have one name. */
  ghost predicate Unique(ts: seq<Tensor>) {
    forall i, j | 0 <= i < j < |ts| :: ts[i].name != ts[j].name
  }

  /** A name the writer gives is that of no tensor, or of a big one before. */
  ghost predicate Free(ts: seq<Tensor>) {
    forall i, j | 0 <= i < |ts| && 0 <= j < |ts| && Big(ts[i]) && ts[j].name in Set(Names(ts[i])) :: Big(ts[j]) && j < i
  }

  ghost predicate Named(ts: seq<Tensor>) {
    Unique(ts) && Free(ts)
  }

  lemma NamedBefore(ts: seq<Tensor>, n: nat)
    requires Named(ts) && n <= |ts|
    ensures Named(ts[..n])
  {
  }

  lemma NamesDiffer(name: string)
    ensures name + "_q" != name + "_s" && name + "_q" != name + "_z" && name + "_s" != name + "_z"
    ensures name != name + "_q" && name != name + "_s" && name != name + "_z"
  {
    assert (name + "_q")[|name| + 1] == 'q' && (name + "_s")[|name| + 1] == 's' && (name + "_z")[|name| + 1] == 'z';
  }

  lemma SameSuffix(a: string, b: string)
    ensures a + "_q" != b + "_s" && a + "_q" != b + "_z" && a + "_s" != b + "_z"
    ensures a + "_q" == b + "_q" || a + "_s" == b + "_s" || a + "_z" == b + "_z" ==> a == b
  {
    assert (a + "_q")[|a + "_q"| - 1] == 'q' && (b + "_s")[|b + "_s"| - 1] == 's' && (b + "_z")[|b + "_z"| - 1] == 'z';
    assert (a + "_s")[|a + "_s"| - 1] == 's';
    assert (a + "_q")[..|a|] == a && (a + "_s")[..|a|] == a && (a + "_z")[..|a|] == a;
    assert (b + "_q")[..|b|] == b && (b + "_s")[..|b|] == b && (b + "_z")[..|b|] == b;
  }

  lemma NamesAre(t: Tensor)
    ensures forall n :: n in Set(Names(t)) <==> n == t.name + "_q" || n == t.name + "_s" || n == t.name + "_z"
  {
    var names := Names(t);
    assert names[0] in Set(names) && names[1] in Set(names) && names[2] in Set(names);
  }

  lemma {:induction false} FindConcat(a: seq<Tensor>, b: seq<Tensor>, name: string)
    ensures Find(a + b, name) == if Find(a, name).Some? then Find(a, name) else Find(b, name)
  {
    if a == [] {
      assert a + b == b;
    } else {
      FindConcat(a[1..], b, name);
      assert (a + b)[1..] == a[1..] + b;
    }
  }

  lemma FindOne(t: Tensor, name: string)
    ensures Find([t], name) == if t.name == name then Some(t) else None
  {
    assert [t][1..] == [];
  }

  lemma FindThree(a: Tensor, b: Tensor, c: Tensor, name: string)
    ensures Find([a, b, c], name) == if a.name == name then Some(a) else if b.name == name then Some(b) else if c.name == name then Some(c) else None
  {
    assert [a, b, c][1..] == [b, c] && [b, c][1..] == [c];
    FindOne(c, name);
  }

  lemma FindPiece(t: Tensor, name: string)
    requires Full(t) && name !in NamesOf(t)
    ensures Find(Piece(t), name) == None
  {
    if Big(t) {
      NamesAre(t);
      FindThree(Stored(t)[0], Stored(t)[1], Stored(t)[2], name);
    } else {
      FindOne(t, name);
    }
  }

  lemma {:induction false} FindNone(ts: seq<Tensor>, name: string)
    requires AllFull(ts) && forall k | 0 <= k < |ts| :: name !in NamesOf(ts[k])
    ensures Find(Kept(ts), name) == None
  {
    if ts != [] {
      var n := |ts| - 1;
      FindNone(ts[..n], name);
      FindPiece(ts[n], name);
      FindConcat(Kept(ts[..n]), Piece(ts[n]), name);
    }
  }

  /** Once stored, tensors do not meet on a name. */
  lemma StoredApart(ts: seq<Tensor>, i: nat, j: nat, name: string)
    requires Named(ts) && i < |ts| && j < |ts| && i != j && Big(ts[j]) && name in Set(Names(ts[j]))
    ensures name !in NamesOf(ts[i])
  {
    NamesAre(ts[i]);
    NamesAre(ts[j]);
    SameSuffix(ts[i].name, ts[j].name);
    SameSuffix(ts[j].name, ts[i].name);
    assert ts[i].name != ts[j].name by {
      if i < j { assert ts[i].name != ts[j].name; } else { assert ts[j].name != ts[i].name; }
    }
  }

  lemma FoundEarlier(ts: seq<Tensor>, n: nat, j: nat, name: string)
    requires AllFull(ts) && j < n == |ts| - 1 && Big(ts[j]) && name in Set(Names(ts[j]))
    requires Find(Kept(ts[..n]), name) == Find(Stored(ts[j]), name)
    ensures Find(Kept(ts), name) == Find(Stored(ts[j]), name)
  {
    FindConcat(Kept(ts[..n]), Piece(ts[n]), name);
    NamesAre(ts[j]);
    FindThree(Stored(ts[j])[0], Stored(ts[j])[1], Stored(ts[j])[2], name);
  }

  lemma FoundLast(ts: seq<Tensor>, n: nat, name: string)
    requires AllFull(ts) && Named(ts) && n == |ts| - 1 && Big(ts[n]) && name in Set(Names(ts[n]))
    ensures Find(Kept(ts), name) == Find(Stored(ts[n]), name)
  {
    FindConcat(Kept(ts[..n]), Piece(ts[n]), name);
    forall k | 0 <= k < n ensures name !in NamesOf(ts[..n][k]) { StoredApart(ts, k, n, name); }
    FindNone(ts[..n], name);
  }

  lemma {:induction false} FindKept(ts: seq<Tensor>, j: nat, name: string)
    requires AllFull(ts) && Named(ts) && j < |ts| && Big(ts[j]) && name in Set(Names(ts[j]))
    ensures Find(Kept(ts), name) == Find(Stored(ts[j]), name)
    decreases |ts|
  {
    var n := |ts| - 1;
    if j < n {
      NamedBefore(ts, n);
      FindKept(ts[..n], j, name);
      FoundEarlier(ts, n, j, name);
    } else {
      FoundLast(ts, n, name);
    }
  }

  lemma FindStored(t: Tensor)
    requires Big(t) && Full(t)
    ensures forall k | 0 <= k < 3 :: Find(Stored(t), Names(t)[k]) == Some(Stored(t)[k])
  {
    NamesDiffer(t.name);
    forall k | 0 <= k < 3 ensures Find(Stored(t), Names(t)[k]) == Some(Stored(t)[k]) {
      FindThree(Stored(t)[0], Stored(t)[1], Stored(t)[2], Names(t)[k]);
    }
  }

  /** The node of a stored weight computes that weight restored. */
  lemma NodeRestores(ts: seq<Tensor>, j: nat)
    requires AllFull(ts) && Named(ts) && j < |ts| && Big(ts[j])
    ensures Readable(Kept(ts), NodeOf(ts[j])) && WideOf(Kept(ts), NodeOf(ts[j])) == Some(Restored(ts[j]))
  {
    var t := ts[j];
    StoredFound(ts, j);
    NodeReadable(Kept(ts), t);
    NodeWide(Kept(ts), t);
  }

  ghost predicate Found(ts: seq<Tensor>, t: Tensor)
    requires Big(t) && Full(t)
  {
    && Find(ts, Names(t)[0]) == Some(Stored(t)[0])
    && Find(ts, Names(t)[1]) == Some(Stored(t)[1])
    && Find(ts, Names(t)[2]) == Some(Stored(t)[2])
  }

  lemma StoredFound(ts: seq<Tensor>, j: nat)
    requires AllFull(ts) && Named(ts) && j < |ts| && Big(ts[j])
    ensures Found(Kept(ts), ts[j])
  {
    var t := ts[j];
    NamesAre(t);
    FindStored(t);
    FindKept(ts, j, Names(t)[0]);
    FindKept(ts, j, Names(t)[1]);
    FindKept(ts, j, Names(t)[2]);
  }

  lemma NodeReadable(ts: seq<Tensor>, t: Tensor)
    requires Big(t) && Full(t) && Found(ts, t)
    ensures Readable(ts, NodeOf(t))
  {
  }

  lemma NodeWide(ts: seq<Tensor>, t: Tensor)
    requires Big(t) && Full(t) && Found(ts, t) && Readable(ts, NodeOf(t))
    ensures WideOf(ts, NodeOf(t)) == Some(Restored(t))
  {
  }

  // ---- The whole graph ---------------------------------------------------------------------

  function Written(g: Graph): Graph
    requires AllFull(g.initializers)
  {
    Graph(Kept(g.initializers), NodesOf(Bigs(g.initializers)) + g.nodes)
  }


  // ---- A graph's own dequantising nodes ---------------------------------------------------------

  /** As a graph asks: no dequantising node computes what one before it reads. */
  ghost predicate Sorted(g: Graph)
    requires AllReadable(g)
  {
    forall j, k | 0 <= j < k < |g.nodes| && g.nodes[j].op == g.nodes[k].op == DEQUANTIZE ::
      g.nodes[k].outputs[0] !in Set(g.nodes[j].inputs)
  }

  /** A dequantising node of the graph itself reads no big tensor, nor reads or computes
      anything under a name the writer gives. */
  ghost predicate Clear(g: Graph)
    requires AllReadable(g)
  {
    forall k, i | 0 <= k < |g.nodes| && g.nodes[k].op == DEQUANTIZE && 0 <= i < |g.initializers| && Big(g.initializers[i]) ::
      Set(g.nodes[k].inputs) !! ({g.initializers[i].name} + Set(Names(g.initializers[i])))
      && g.nodes[k].outputs[0] !in Set(Names(g.initializers[i]))
  }

  ghost predicate OwnApart(g: Graph)
    requires AllReadable(g)
  {
    Sorted(g) && Clear(g)
  }

  /** A name that is no big tensor's and none the writer gives names what it named. */
  ghost predicate Plain(ts: seq<Tensor>, name: string) {
    forall i | 0 <= i < |ts| && Big(ts[i]) :: name != ts[i].name && name !in Set(Names(ts[i]))
  }

  lemma {:induction false} FindSame(ts: seq<Tensor>, name: string)
    requires AllFull(ts) && Plain(ts, name)
    ensures Find(Kept(ts), name) == Find(ts, name)
  {
    if ts != [] {
      var n := |ts| - 1;
      assert ts == ts[..n] + [ts[n]];
      assert Plain(ts[..n], name);
      FindSame(ts[..n], name);
      FindConcat(Kept(ts[..n]), Piece(ts[n]), name);
      FindConcat(ts[..n], [ts[n]], name);
      FindOne(ts[n], name);
      if Big(ts[n]) { FindPiece(ts[n], name); }
    }
  }

  /** Such a node computes what it did. */
  lemma OwnSame(g: Graph, k: nat)
    requires AllFull(g.initializers) && AllReadable(g) && OwnApart(g) && k < |g.nodes|
    ensures Readable(Kept(g.initializers), g.nodes[k])
    ensures WideOf(Kept(g.initializers), g.nodes[k]) == WideOf(g.initializers, g.nodes[k])
  {
    var (node, ts) := (g.nodes[k], g.initializers);
    assert Readable(ts, node);
    if node.op == DEQUANTIZE {
      forall x | x in node.inputs ensures Find(Kept(ts), x) == Find(ts, x) {
        assert x in Set(node.inputs);
        FindSame(ts, x);
      }
      assert node.inputs[0] in node.inputs && node.inputs[1] in node.inputs && node.inputs[2] in node.inputs;
    }
  }

  lemma BigNode(g: Graph, k: nat)
    requires AllFull(g.initializers) && Named(g.initializers) && k < |Bigs(g.initializers)|
    ensures Full(Bigs(g.initializers)[k])
    ensures Readable(Kept(g.initializers), NodeOf(Bigs(g.initializers)[k]))
    ensures WideOf(Kept(g.initializers), NodeOf(Bigs(g.initializers)[k])) == Some(Restored(Bigs(g.initializers)[k]))
  {
    var j :| 0 <= j < |g.initializers| && g.initializers[j] == Bigs(g.initializers)[k];
    NodeRestores(g.initializers, j);
  }

  lemma WrittenReadable(g: Graph)
    requires AllFull(g.initializers) && Named(g.initializers) && AllReadable(g) && OwnApart(g)
    ensures AllReadable(Written(g))
  {
    var (w, m) := (Written(g), |Bigs(g.initializers)|);
    forall k | 0 <= k < |w.nodes| ensures Readable(w.initializers, w.nodes[k]) {
      if k < m { BigNode(g, k); assert w.nodes[k] == NodeOf(Bigs(g.initializers)[k]); }
      else { OwnSame(g, k - m); assert w.nodes[k] == g.nodes[k - m]; }
    }
  }

  function RestoredDone(bigs: seq<Tensor>, n: nat): seq<Done>
    requires n <= |bigs| && AllBig(bigs)
  {
    if n == 0 then [] else RestoredDone(bigs, n - 1) + [Done(n - 1, Restored(bigs[n - 1]), Names(bigs[n - 1]))]
  }

  predicate AllBig(bigs: seq<Tensor>) {
    forall k | 0 <= k < |bigs| :: Big(bigs[k]) && Full(bigs[k])
  }

  lemma BigsFull(ts: seq<Tensor>)
    requires AllFull(ts)
    ensures AllBig(Bigs(ts))
  {
    forall k | 0 <= k < |Bigs(ts)| ensures Full(Bigs(ts)[k]) {
      var j :| 0 <= j < |ts| && ts[j] == Bigs(ts)[k];
    }
  }

  /** Node `k` of `w` is that of big tensor `k`, and restores it. */
  ghost predicate RestoresOne(w: Graph, bigs: seq<Tensor>, k: nat)
    requires AllReadable(w)
  {
    && k < |bigs| && k < |w.nodes| && Big(bigs[k]) && Full(bigs[k])
    && w.nodes[k].inputs == Names(bigs[k]) && WideOf(w.initializers, w.nodes[k]) == Some(Restored(bigs[k]))
  }

  lemma WrittenRestores(g: Graph, k: nat)
    requires AllFull(g.initializers) && Named(g.initializers) && AllReadable(Written(g)) && k < |Bigs(g.initializers)|
    ensures RestoresOne(Written(g), Bigs(g.initializers), k)
  {
    BigNode(g, k);
    assert Written(g).nodes[k] == NodeOf(Bigs(g.initializers)[k]);
  }

  lemma DoneNext(w: Graph, n: nat, wide: Tensor)
    requires AllReadable(w) && 0 < n <= |w.nodes| && WideOf(w.initializers, w.nodes[n - 1]) == Some(wide)
    ensures DoneOf(w, n) == DoneOf(w, n - 1) + [Done(n - 1, wide, w.nodes[n - 1].inputs)]
    ensures Others(w, n) == Others(w, n - 1)
  {
    assert Others(w, n - 1) + [] == Others(w, n - 1);
  }



  lemma DoneOneMore(w: Graph, bigs: seq<Tensor>, n: nat)
    requires AllReadable(w) && AllBig(bigs) && n > 0 && RestoresOne(w, bigs, n - 1)
    requires DoneOf(w, n - 1) == RestoredDone(bigs, n - 1) && Others(w, n - 1) == []
    ensures DoneOf(w, n) == RestoredDone(bigs, n) && Others(w, n) == []
  {
    DoneNext(w, n, Restored(bigs[n - 1]));
  }

  function Shifted(done: seq<Done>, m: nat): (r: seq<Done>)
    ensures |r| == |done| && forall k | 0 <= k < |r| :: r[k] == done[k].(at := done[k].at + m)
  {
    seq(|done|, k requires 0 <= k < |done| => done[k].(at := done[k].at + m))
  }

  /** Node `k` of the graph stands past the writer's in `w`, and computes what it did. */
  ghost predicate StandsPast(g: Graph, w: Graph, m: nat, k: nat)
    requires AllReadable(g) && AllReadable(w)
  {
    k < |g.nodes| && m + k < |w.nodes| && w.nodes[m + k] == g.nodes[k]
    && WideOf(w.initializers, w.nodes[m + k]) == WideOf(g.initializers, g.nodes[k])
  }

  /** Then come those it folds in the graph itself. */
  lemma {:induction false} DoneOwn(g: Graph, w: Graph, m: nat, n: nat)
    requires AllReadable(g) && AllReadable(w) && n <= |g.nodes| && m + |g.nodes| == |w.nodes|
    requires forall k: nat | k < n :: StandsPast(g, w, m, k)
    ensures DoneOf(w, m + n) == DoneOf(w, m) + Shifted(DoneOf(g, n), m)
    ensures Others(w, m + n) == Others(w, m) + Others(g, n)
  {
    if n == 0 {
      assert Shifted(DoneOf(g, 0), m) == [];
    } else {
      DoneOwn(g, w, m, n - 1);
      assert StandsPast(g, w, m, n - 1);
      OwnNext(g, w, m, n, WideOf(g.initializers, g.nodes[n - 1]));
    }
  }

  lemma OwnFolded(g: Graph, w: Graph, m: nat, n: nat, v: Tensor)
    requires AllReadable(g) && AllReadable(w) && 0 < n <= |g.nodes| && m + |g.nodes| == |w.nodes|
    requires w.nodes[m + n - 1] == g.nodes[n - 1] && WideOf(w.initializers, w.nodes[m + n - 1]) == Some(v) == WideOf(g.initializers, g.nodes[n - 1])
    requires DoneOf(w, m + n - 1) == DoneOf(w, m) + Shifted(DoneOf(g, n - 1), m)
    ensures DoneOf(w, m + n) == DoneOf(w, m) + Shifted(DoneOf(g, n), m)
    ensures Others(w, m + n) == Others(w, m + n - 1) && Others(g, n) == Others(g, n - 1)
  {
    var d := Done(n - 1, v, g.nodes[n - 1].inputs);
    DoneNext(w, m + n, v);
    DoneNext(g, n, v);
    ShiftedMore(DoneOf(g, n - 1), d, m);
    Associe(DoneOf(w, m), Shifted(DoneOf(g, n - 1), m), [d.(at := d.at + m)]);
  }

  lemma OwnKept(g: Graph, w: Graph, m: nat, n: nat)
    requires AllReadable(g) && AllReadable(w) && 0 < n <= |g.nodes| && m + |g.nodes| == |w.nodes|
    requires w.nodes[m + n - 1] == g.nodes[n - 1]
    requires WideOf(w.initializers, w.nodes[m + n - 1]).None? && WideOf(g.initializers, g.nodes[n - 1]).None?
    requires Others(w, m + n - 1) == Others(w, m) + Others(g, n - 1)
    ensures Others(w, m + n) == Others(w, m) + Others(g, n)
    ensures DoneOf(w, m + n) == DoneOf(w, m + n - 1) && DoneOf(g, n) == DoneOf(g, n - 1)
  {
    DoneSkips(w, m + n);
    DoneSkips(g, n);
    Associe(Others(w, m), Others(g, n - 1), [g.nodes[n - 1]]);
  }

  lemma OwnNext(g: Graph, w: Graph, m: nat, n: nat, v: Option<Tensor>)
    requires AllReadable(g) && AllReadable(w) && 0 < n <= |g.nodes| && m + |g.nodes| == |w.nodes|
    requires w.nodes[m + n - 1] == g.nodes[n - 1] && WideOf(w.initializers, w.nodes[m + n - 1]) == v == WideOf(g.initializers, g.nodes[n - 1])
    requires DoneOf(w, m + n - 1) == DoneOf(w, m) + Shifted(DoneOf(g, n - 1), m)
    requires Others(w, m + n - 1) == Others(w, m) + Others(g, n - 1)
    ensures DoneOf(w, m + n) == DoneOf(w, m) + Shifted(DoneOf(g, n), m)
    ensures Others(w, m + n) == Others(w, m) + Others(g, n)
  {
    if v.Some? { OwnFolded(g, w, m, n, v.value); } else { OwnKept(g, w, m, n); }
  }

  lemma DoneSkips(w: Graph, n: nat)
    requires AllReadable(w) && 0 < n <= |w.nodes| && WideOf(w.initializers, w.nodes[n - 1]).None?
    ensures DoneOf(w, n) == DoneOf(w, n - 1) && Others(w, n) == Others(w, n - 1) + [w.nodes[n - 1]]
  {
    assert DoneOf(w, n - 1) + [] == DoneOf(w, n - 1);
  }

  lemma ShiftedMore(done: seq<Done>, d: Done, m: nat)
    ensures Shifted(done + [d], m) == Shifted(done, m) + [d.(at := d.at + m)]
  {
  }

  /** What the reader folds of a graph written. */
  function DoneBack(g: Graph): seq<Done>
    requires AllFull(g.initializers) && AllReadable(g) && AllBig(Bigs(g.initializers))
  {
    var bigs := Bigs(g.initializers);
    RestoredDone(bigs, |bigs|) + Shifted(DoneOf(g, |g.nodes|), |bigs|)
  }

  lemma NodesAfter(g: Graph, m: nat, k: nat)
    requires AllFull(g.initializers) && m == |Bigs(g.initializers)| && k < |g.nodes|
    ensures |Written(g).nodes| == m + |g.nodes| && Written(g).nodes[m + k] == g.nodes[k]
  {
  }

  lemma WideSame(g: Graph, w: Graph, m: nat, k: nat)
    requires AllFull(g.initializers) && AllReadable(g) && OwnApart(g)
    requires w == Written(g) && AllReadable(w) && m == |Bigs(g.initializers)| && k < |g.nodes|
    ensures |w.nodes| == m + |g.nodes| && StandsPast(g, w, m, k)
  {
    NodesAfter(g, m, k);
    OwnSame(g, k);
  }

  lemma WidesSame(g: Graph, w: Graph, m: nat)
    requires AllFull(g.initializers) && AllReadable(g) && OwnApart(g)
    requires w == Written(g) && AllReadable(w) && m == |Bigs(g.initializers)|
    ensures |w.nodes| == m + |g.nodes| && forall k: nat | k < |g.nodes| :: StandsPast(g, w, m, k)
  {
    forall k: nat | k < |g.nodes| ensures StandsPast(g, w, m, k) { WideSame(g, w, m, k); }
  }


  /** The first nodes the reader folds are the ones the writer added. */

  lemma DoneNone(w: Graph, bigs: seq<Tensor>)
    requires AllReadable(w) && AllBig(bigs)
    ensures DoneOf(w, 0) == RestoredDone(bigs, 0) && Others(w, 0) == []
  {
  }

  /** The nodes folded and the nodes left, of the first `n`. */
  function Parted(w: Graph, n: nat): (seq<Done>, seq<Node>)
    requires AllReadable(w) && n <= |w.nodes|
  {
    (DoneOf(w, n), Others(w, n))
  }

  lemma PartedNext(w: Graph, bigs: seq<Tensor>, n: nat)
    requires AllReadable(w) && AllBig(bigs) && n > 0 && RestoresOne(w, bigs, n - 1) && Parted(w, n - 1) == (RestoredDone(bigs, n - 1), [])
    ensures Parted(w, n) == (RestoredDone(bigs, n), [])
  {
    DoneOneMore(w, bigs, n);
  }

  lemma {:induction false} SameThrough<T>(a: seq<T>, b: seq<T>, n: nat)
    requires |a| == |b| > n && a[0] == b[0] && forall k: nat | k < n && a[k] == b[k] :: a[k + 1] == b[k + 1]
    ensures a[n] == b[n]
    decreases n
  {
    if n > 0 {
      SameThrough(a, b, n - 1);
      assert a[n - 1 + 1] == b[n - 1 + 1];
    }
  }

  function PartedAll(w: Graph, n: nat): (r: seq<(seq<Done>, seq<Node>)>)
    requires AllReadable(w) && n <= |w.nodes|
    ensures |r| == n + 1 && forall k | 0 <= k <= n :: r[k] == Parted(w, k)
  {
    seq(n + 1, k requires 0 <= k <= n => Parted(w, k))
  }

  function RestoredAlone(bigs: seq<Tensor>, n: nat): (r: seq<(seq<Done>, seq<Node>)>)
    requires AllBig(bigs) && n <= |bigs|
    ensures |r| == n + 1 && forall k | 0 <= k <= n :: r[k] == (RestoredDone(bigs, k), [])
  {
    seq(n + 1, k requires 0 <= k <= n => (RestoredDone(bigs, k), []))
  }

  lemma PartedNone(w: Graph, bigs: seq<Tensor>)
    requires AllReadable(w) && AllBig(bigs)
    ensures Parted(w, 0) == (RestoredDone(bigs, 0), [])
  {
    DoneNone(w, bigs);
  }

  lemma DoneBigs(w: Graph, bigs: seq<Tensor>, n: nat)
    requires AllReadable(w) && AllBig(bigs) && n <= |bigs| <= |w.nodes| && forall k: nat | k < n :: RestoresOne(w, bigs, k)
    ensures Parted(w, n) == (RestoredDone(bigs, n), [])
  {
    var (a, b) := (PartedAll(w, n), RestoredAlone(bigs, n));
    PartedNone(w, bigs);
    forall k: nat | k < n && a[k] == b[k] ensures a[k + 1] == b[k + 1] { PartedAt(w, bigs, n, a, b, k); }
    SameThrough(a, b, n);
  }

  lemma PartedAt(w: Graph, bigs: seq<Tensor>, n: nat, a: seq<(seq<Done>, seq<Node>)>, b: seq<(seq<Done>, seq<Node>)>, k: nat)
    requires AllReadable(w) && AllBig(bigs) && n <= |bigs| <= |w.nodes| && k < n && RestoresOne(w, bigs, k)
    requires a == PartedAll(w, n) && b == RestoredAlone(bigs, n) && a[k] == b[k]
    ensures a[k + 1] == b[k + 1]
  {
    PartedNext(w, bigs, k + 1);
  }


  lemma NodesEnough(g: Graph)
    requires AllFull(g.initializers)
    ensures |Bigs(g.initializers)| <= |Written(g).nodes|
  {
  }

  lemma BigsFolded(g: Graph, w: Graph, bigs: seq<Tensor>)
    requires AllFull(g.initializers) && Named(g.initializers) && w == Written(g) && AllReadable(w) && bigs == Bigs(g.initializers)
    ensures |bigs| <= |w.nodes| && AllBig(bigs)
    ensures DoneOf(w, |bigs|) == RestoredDone(bigs, |bigs|) && Others(w, |bigs|) == []
  {
    BigsFull(g.initializers);
    NodesEnough(g);
    forall k: nat | k < |bigs| ensures RestoresOne(w, bigs, k) { WrittenRestores(g, k); }
    DoneBigs(w, bigs, |bigs|);
  }

  lemma NothingBefore(o: seq<Node>, p: seq<Node>, q: seq<Node>)
    requires o == p + q && p == []
    ensures o == q
  {
  }

  lemma DoneBoth(g: Graph, w: Graph, bigs: seq<Tensor>, all: nat)
    requires AllReadable(g) && AllReadable(w) && AllBig(bigs) && |w.nodes| == all == |bigs| + |g.nodes|
    requires DoneOf(w, |bigs|) == RestoredDone(bigs, |bigs|) && Others(w, |bigs|) == []
    requires forall k: nat | k < |g.nodes| :: StandsPast(g, w, |bigs|, k)
    ensures DoneOf(w, all) == RestoredDone(bigs, |bigs|) + Shifted(DoneOf(g, |g.nodes|), |bigs|)
    ensures Others(w, all) == Others(g, |g.nodes|)
  {
    DoneOwn(g, w, |bigs|, |g.nodes|);
    NothingBefore(Others(w, all), Others(w, |bigs|), Others(g, |g.nodes|));
  }

  lemma DoneAll(g: Graph)
    requires AllFull(g.initializers) && Named(g.initializers) && AllReadable(g) && OwnApart(g)
    ensures AllBig(Bigs(g.initializers)) && AllReadable(Written(g))
    ensures DoneOf(Written(g), |Written(g).nodes|) == DoneBack(g)
    ensures Others(Written(g), |Written(g).nodes|) == Others(g, |g.nodes|)
  {
    WrittenReadable(g);
    BigsFolded(g, Written(g), Bigs(g.initializers));
    WidesSame(g, Written(g), |Bigs(g.initializers)|);
    DoneBoth(g, Written(g), Bigs(g.initializers), |Written(g).nodes|);
  }

  // ---- The initializers ----------------------------------------------------------------------

  function AllInputs(done: seq<Done>): set<string> {
    if done == [] then {} else AllInputs(done[..|done| - 1]) + Set(done[|done| - 1].inputs)
  }

  function Wides(done: seq<Done>): seq<Tensor> {
    if done == [] then [] else [done[|done| - 1].wide] + Wides(done[..|done| - 1])
  }

  /** No tensor computed takes the name of an input of a node before. */
  ghost predicate Ordered(done: seq<Done>) {
    forall j, k | 0 <= j < k < |done| :: done[k].wide.name !in Set(done[j].inputs)
  }

  lemma {:induction false} InputsAre(done: seq<Done>, x: string)
    ensures x in AllInputs(done) <==> exists k :: 0 <= k < |done| && x in Set(done[k].inputs)
  {
    if done != [] {
      var n := |done| - 1;
      InputsAre(done[..n], x);
      if x in AllInputs(done[..n]) {
        var k :| 0 <= k < n && x in Set(done[..n][k].inputs);
        assert x in Set(done[k].inputs);
      }
      if k :| 0 <= k < |done| && x in Set(done[k].inputs) {
        if k < n { assert x in Set(done[..n][k].inputs); }
      }
    }
  }

  lemma {:induction false} RetainConcat(a: seq<Tensor>, b: seq<Tensor>, names: set<string>)
    ensures Retain(a + b, names) == Retain(a, names) + Retain(b, names)
  {
    if a == [] {
      assert a + b == b;
    } else {
      RetainConcat(a[1..], b, names);
      RetainCons(a[0], a[1..], names);
      RetainCons(a[0], a[1..] + b, names);
      assert a == [a[0]] + a[1..] && a + b == [a[0]] + (a[1..] + b);
      Associe(Retain([a[0]], names), Retain(a[1..], names), Retain(b, names));
    }
  }

  lemma RetainCons(t: Tensor, rest: seq<Tensor>, names: set<string>)
    ensures Retain([t] + rest, names) == Retain([t], names) + Retain(rest, names)
  {
    assert ([t] + rest)[1..] == rest;
    RetainOne(t, names);
  }

  lemma {:induction false} RetainTwice(ts: seq<Tensor>, a: set<string>, b: set<string>)
    ensures Retain(Retain(ts, a), b) == Retain(ts, b + a)
  {
    if ts != [] {
      RetainTwice(ts[1..], a, b);
      RetainConcat(if ts[0].name in a then [] else [ts[0]], Retain(ts[1..], a), b);
      RetainOne(ts[0], b);
    }
  }

  lemma RetainOne(t: Tensor, names: set<string>)
    ensures Retain([t], names) == if t.name in names then [] else [t]
  {
    assert [t][1..] == [];
  }

  /** Folding takes out every input and puts in every computed tensor, the last node's
      first, if none takes the name of an input still to be taken out. */
  lemma {:induction false} FoldedIs(ts: seq<Tensor>, done: seq<Done>)
    requires Ordered(done)
    ensures Folded(ts, done) == Retain(ts, AllInputs(done)) + Wides(done)
    decreases |done|
  {
    if done == [] {
      RetainNone(ts);
    } else {
      var (last, rest) := (done[|done| - 1], done[..|done| - 1]);
      var kept := Retain(ts, Set(last.inputs));
      FoldedIs(kept + [last.wide], rest);
      InputsAre(rest, last.wide.name);
      RetainRest(ts, Set(last.inputs), AllInputs(rest), last.wide);
      Associe(Retain(ts, AllInputs(done)), [last.wide], Wides(rest));
    }
  }

  lemma RetainRest(ts: seq<Tensor>, last: set<string>, rest: set<string>, wide: Tensor)
    requires wide.name !in rest
    ensures Retain(Retain(ts, last) + [wide], rest) == Retain(ts, rest + last) + [wide]
  {
    RetainConcat(Retain(ts, last), [wide], rest);
    RetainOne(wide, rest);
    RetainTwice(ts, last, rest);
  }

  lemma {:induction false} RetainNone(ts: seq<Tensor>)
    ensures Retain(ts, {}) + [] == ts
  {
    if ts != [] { RetainNone(ts[1..]); }
  }

  lemma {:induction false} RetainKept(ts: seq<Tensor>, names: set<string>)
    requires AllFull(ts) && forall k | 0 <= k < |ts| && Big(ts[k]) :: Set(Names(ts[k])) <= names
    ensures Retain(Kept(ts), names) == Retain(Smalls(ts), names)
  {
    if ts != [] {
      var n := |ts| - 1;
      RetainKept(ts[..n], names);
      RetainConcat(Kept(ts[..n]), Piece(ts[n]), names);
      RetainConcat(Smalls(ts[..n]), if Big(ts[n]) then [] else [ts[n]], names);
      if Big(ts[n]) { RetainPiece(ts[n], names); }
    }
  }

  lemma RetainPiece(t: Tensor, names: set<string>)
    requires Full(t) && Big(t) && Set(Names(t)) <= names
    ensures Retain(Piece(t), names) == []
  {
    NamesAre(t);
    var s := Stored(t);
    assert s[1..] == [s[1], s[2]] && [s[1], s[2]][1..] == [s[2]];
    RetainOne(s[2], names);
  }

  lemma {:induction false} RetainSame(ss: seq<Tensor>, a: set<string>, b: set<string>)
    requires forall k | 0 <= k < |ss| :: ss[k].name !in a
    ensures Retain(ss, a + b) == Retain(ss, b)
  {
    if ss != [] { RetainSame(ss[1..], a, b); }
  }

  lemma {:induction false} SmallsAre(ts: seq<Tensor>, u: Tensor)
    ensures u in Smalls(ts) <==> u in ts && !Big(u)
  {
    if ts != [] { SmallsAre(ts[..|ts| - 1], u); assert ts == ts[..|ts| - 1] + [ts[|ts| - 1]]; }
  }

  // ---- Big tensors in order ----------------------------------------------------------------------

  /** Where the big tensors stand among the first `n`. */
  function Places(ts: seq<Tensor>, n: nat): (ps: seq<nat>)
    requires n <= |ts|
    ensures forall k | 0 <= k < |ps| :: ps[k] < n && Big(ts[ps[k]])
  {
    if n == 0 then [] else Places(ts, n - 1) + if Big(ts[n - 1]) then [n - 1] else []
  }

  lemma {:induction false} PlacesAscend(ts: seq<Tensor>, n: nat)
    requires n <= |ts|
    ensures forall j, k | 0 <= j < k < |Places(ts, n)| :: Places(ts, n)[j] < Places(ts, n)[k]
  {
    if n > 0 { PlacesAscend(ts, n - 1); }
  }

  lemma {:induction false} PlacesHold(ts: seq<Tensor>, n: nat, i: nat)
    requires i < n <= |ts| && Big(ts[i])
    ensures i in Places(ts, n)
  {
    if i < n - 1 { PlacesHold(ts, n - 1, i); }
  }

  lemma {:induction false} PlacesAre(ts: seq<Tensor>, n: nat)
    requires n <= |ts|
    ensures |Places(ts, n)| == |Bigs(ts[..n])|
    ensures forall k | 0 <= k < |Places(ts, n)| :: Bigs(ts[..n])[k] == ts[Places(ts, n)[k]]
  {
    if n > 0 {
      PlacesAre(ts, n - 1);
      assert ts[..n][..n - 1] == ts[..n - 1];
    }
  }

  /** Big tensor `k` stands in the graph at its place. */
  lemma BigAt(ts: seq<Tensor>, k: nat)
    requires k < |Bigs(ts)|
    ensures |Places(ts, |ts|)| == |Bigs(ts)| && Bigs(ts)[k] == ts[Places(ts, |ts|)[k]]
  {
    PlacesAre(ts, |ts|);
    assert ts[..|ts|] == ts;
  }

  /** A big tensor's place among them. */
  lemma PlaceOf(ts: seq<Tensor>, i: nat) returns (p: nat)
    requires i < |ts| && Big(ts[i])
    ensures p < |Bigs(ts)| && Bigs(ts)[p] == ts[i] && |Places(ts, |ts|)| == |Bigs(ts)| && Places(ts, |ts|)[p] == i
  {
    PlacesHold(ts, |ts|, i);
    p :| 0 <= p < |Places(ts, |ts|)| && Places(ts, |ts|)[p] == i;
    PlacesAre(ts, |ts|);
    assert ts[..|ts|] == ts;
  }

  lemma {:induction false} DoneAt(bigs: seq<Tensor>, n: nat)
    requires n <= |bigs| && AllBig(bigs)
    ensures |RestoredDone(bigs, n)| == n
    ensures forall k | 0 <= k < n :: RestoredDone(bigs, n)[k] == Done(k, Restored(bigs[k]), Names(bigs[k]))
  {
    if n > 0 { DoneAt(bigs, n - 1); }
  }

  /** What is folded in the graph itself, node by node. */
  lemma {:induction false} OwnAt(g: Graph, n: nat, k: nat)
    requires AllReadable(g) && n <= |g.nodes| && k < |DoneOf(g, n)|
    ensures var d := DoneOf(g, n)[k];
            && d.at < n && g.nodes[d.at].op == DEQUANTIZE && d.inputs == g.nodes[d.at].inputs
            && Readable(g.initializers, g.nodes[d.at]) && d.wide.name == g.nodes[d.at].outputs[0]
  {
    assert Readable(g.initializers, g.nodes[n - 1]);
    if k < |DoneOf(g, n - 1)| { OwnAt(g, n - 1, k); }
  }

  lemma OwnOrdered(g: Graph, j: nat, k: nat)
    requires AllReadable(g) && Sorted(g) && j < k < |DoneOf(g, |g.nodes|)|
    ensures DoneOf(g, |g.nodes|)[k].wide.name !in Set(DoneOf(g, |g.nodes|)[j].inputs)
  {
    DonePlaces(g, |g.nodes|);
    OwnAt(g, |g.nodes|, j);
    OwnAt(g, |g.nodes|, k);
  }

  lemma BigOrdered(ts: seq<Tensor>, j: nat, k: nat)
    requires Named(ts) && j < k < |Bigs(ts)|
    ensures Bigs(ts)[k].name !in Set(Names(Bigs(ts)[j]))
  {
    BigAt(ts, j);
    BigAt(ts, k);
    PlacesAscend(ts, |ts|);
    assert Places(ts, |ts|)[j] < Places(ts, |ts|)[k];
  }

  lemma OwnAfterBig(g: Graph, j: nat, k: nat)
    requires AllReadable(g) && Clear(g) && j < |Bigs(g.initializers)| && k < |DoneOf(g, |g.nodes|)|
    ensures DoneOf(g, |g.nodes|)[k].wide.name !in Set(Names(Bigs(g.initializers)[j]))
  {
    OwnAt(g, |g.nodes|, k);
    BigAt(g.initializers, j);
  }

  lemma OwnBackAt(done: seq<Done>, m: nat, k: nat)
    requires k < |done|
    ensures |Shifted(done, m)| == |done| && Shifted(done, m)[k].inputs == done[k].inputs && Shifted(done, m)[k].wide == done[k].wide
  {
  }

  lemma BackAt(g: Graph, k: nat)
    requires AllFull(g.initializers) && AllReadable(g) && AllBig(Bigs(g.initializers)) && k < |DoneBack(g)|
    ensures var (bigs, d) := (Bigs(g.initializers), DoneBack(g)[k]);
            if k < |bigs| then d.inputs == Names(bigs[k]) && d.wide.name == bigs[k].name
            else k - |bigs| < |DoneOf(g, |g.nodes|)| && d.inputs == DoneOf(g, |g.nodes|)[k - |bigs|].inputs
                 && d.wide == DoneOf(g, |g.nodes|)[k - |bigs|].wide
  {
    var (bigs, done) := (Bigs(g.initializers), DoneOf(g, |g.nodes|));
    DoneAt(bigs, |bigs|);
    if k >= |bigs| {
      assert |Shifted(done, |bigs|)| == |done|;
      OwnBackAt(done, |bigs|, k - |bigs|);
    }
  }

  lemma BackBigPair(g: Graph, j: nat, k: nat)
    requires AllFull(g.initializers) && Named(g.initializers) && AllReadable(g) && AllBig(Bigs(g.initializers))
    requires j < k < |Bigs(g.initializers)| && k < |DoneBack(g)|
    ensures DoneBack(g)[k].wide.name !in Set(DoneBack(g)[j].inputs)
  {
    BackAt(g, j);
    BackAt(g, k);
    BigOrdered(g.initializers, j, k);
  }

  lemma BackMixedPair(g: Graph, j: nat, k: nat)
    requires AllFull(g.initializers) && Named(g.initializers) && AllReadable(g) && OwnApart(g) && AllBig(Bigs(g.initializers))
    requires j < |Bigs(g.initializers)| <= k < |DoneBack(g)|
    ensures DoneBack(g)[k].wide.name !in Set(DoneBack(g)[j].inputs)
  {
    BackAt(g, j);
    BackAt(g, k);
    OwnAfterBig(g, j, k - |Bigs(g.initializers)|);
  }

  lemma BackOwnPair(g: Graph, j: nat, k: nat)
    requires AllFull(g.initializers) && Named(g.initializers) && AllReadable(g) && OwnApart(g) && AllBig(Bigs(g.initializers))
    requires |Bigs(g.initializers)| <= j < k < |DoneBack(g)|
    ensures DoneBack(g)[k].wide.name !in Set(DoneBack(g)[j].inputs)
  {
    BackAt(g, j);
    BackAt(g, k);
    OwnOrdered(g, j - |Bigs(g.initializers)|, k - |Bigs(g.initializers)|);
  }

  lemma BackPair(g: Graph, j: nat, k: nat)
    requires AllFull(g.initializers) && Named(g.initializers) && AllReadable(g) && OwnApart(g) && AllBig(Bigs(g.initializers))
    requires j < k < |DoneBack(g)|
    ensures DoneBack(g)[k].wide.name !in Set(DoneBack(g)[j].inputs)
  {
    if k < |Bigs(g.initializers)| {
      BackBigPair(g, j, k);
    } else if j < |Bigs(g.initializers)| {
      BackMixedPair(g, j, k);
    } else {
      BackOwnPair(g, j, k);
    }
  }

  lemma AloneOrdered(g: Graph)
    requires AllReadable(g) && Sorted(g)
    ensures Ordered(DoneOf(g, |g.nodes|))
  {
    var own := DoneOf(g, |g.nodes|);
    forall j, k | 0 <= j < k < |own| ensures own[k].wide.name !in Set(own[j].inputs) { OwnOrdered(g, j, k); }
  }

  lemma BackOrdered(g: Graph)
    requires AllFull(g.initializers) && Named(g.initializers) && AllReadable(g) && OwnApart(g) && AllBig(Bigs(g.initializers))
    ensures Ordered(DoneBack(g))
  {
    var done := DoneBack(g);
    forall j, k | 0 <= j < k < |done| ensures done[k].wide.name !in Set(done[j].inputs) { BackPair(g, j, k); }
  }

  lemma {:induction false} InputsConcat(a: seq<Done>, b: seq<Done>)
    ensures AllInputs(a + b) == AllInputs(a) + AllInputs(b)
  {
    if b == [] {
      assert a + b == a;
    } else {
      InputsConcat(a, b[..|b| - 1]);
      assert (a + b)[..|a + b| - 1] == a + b[..|b| - 1];
    }
  }

  lemma WidesNext(done: seq<Done>, d: Done)
    ensures Wides(done + [d]) == [d.wide] + Wides(done)
  {
    assert (done + [d])[..|done|] == done;
  }

  lemma WidesConcatNext(a: seq<Done>, b: seq<Done>, d: Done)
    requires Wides(a + b) == Wides(b) + Wides(a)
    ensures Wides(a + (b + [d])) == Wides(b + [d]) + Wides(a)
  {
    assert a + (b + [d]) == (a + b) + [d];
    WidesNext(a + b, d);
    WidesNext(b, d);
    Associe([d.wide], Wides(b), Wides(a));
  }

  lemma {:induction false} WidesConcat(a: seq<Done>, b: seq<Done>)
    ensures Wides(a + b) == Wides(b) + Wides(a)
  {
    if b == [] {
      assert a + b == a;
    } else {
      var (c, d) := (b[..|b| - 1], b[|b| - 1]);
      WidesConcat(a, c);
      WidesConcatNext(a, c, d);
      assert c + [d] == b;
    }
  }

  lemma {:induction false} ShiftedSame(done: seq<Done>, m: nat)
    ensures AllInputs(Shifted(done, m)) == AllInputs(done) && Wides(Shifted(done, m)) == Wides(done)
  {
    if done != [] {
      ShiftedSame(done[..|done| - 1], m);
      assert Shifted(done, m)[..|done| - 1] == Shifted(done[..|done| - 1], m);
    }
  }

  lemma BigInputs(ts: seq<Tensor>)
    requires Named(ts) && AllBig(Bigs(ts))
    ensures var names := AllInputs(RestoredDone(Bigs(ts), |Bigs(ts)|));
            && (forall i | 0 <= i < |ts| && Big(ts[i]) :: Set(Names(ts[i])) <= names)
            && (forall k | 0 <= k < |Smalls(ts)| :: Smalls(ts)[k].name !in names)
  {
    var bigs := Bigs(ts);
    var done := RestoredDone(bigs, |bigs|);
    DoneAt(bigs, |bigs|);
    forall i, x | 0 <= i < |ts| && Big(ts[i]) && x in Set(Names(ts[i])) ensures x in AllInputs(done) {
      var p := PlaceOf(ts, i);
      assert x in Set(done[p].inputs);
      InputsAre(done, x);
    }
    forall k | 0 <= k < |Smalls(ts)| ensures Smalls(ts)[k].name !in AllInputs(done) {
      var u := Smalls(ts)[k];
      SmallsAre(ts, u);
      InputsAre(done, u.name);
      var j :| 0 <= j < |ts| && ts[j] == u;
      forall p | 0 <= p < |done| ensures u.name !in Set(done[p].inputs) { BigAt(ts, p); }
    }
  }

  // ---- Main result -------------------------------------------------------------------------------

  /** The big weights restored, the last one first. */
  function RestoredAll(bigs: seq<Tensor>): seq<Tensor>
    requires AllBig(bigs)
  {
    if bigs == [] then [] else [Restored(bigs[|bigs| - 1])] + RestoredAll(bigs[..|bigs| - 1])
  }

  lemma {:induction false} WidesAre(bigs: seq<Tensor>, n: nat)
    requires n <= |bigs| && AllBig(bigs)
    ensures Wides(RestoredDone(bigs, n)) == RestoredAll(bigs[..n])
  {
    if n > 0 {
      WidesAre(bigs, n - 1);
      WidesNext(RestoredDone(bigs, n - 1), Done(n - 1, Restored(bigs[n - 1]), Names(bigs[n - 1])));
      assert bigs[..n][..n - 1] == bigs[..n - 1];
    }
  }

  /** A graph the reader can read, whose names leave the writer free. */
  ghost predicate Sound(g: Graph) {
    AllFull(g.initializers) && Named(g.initializers) && AllReadable(g) && OwnApart(g)
  }

  /** The tensors a graph gives the reader by nodes of its own: those they read taken
      out, those they compute put in. */
  function WithOwn(g: Graph, ts: seq<Tensor>): seq<Tensor>
    requires AllReadable(g)
  {
    Retain(ts, AllInputs(DoneOf(g, |g.nodes|))) + Wides(DoneOf(g, |g.nodes|))
  }

  /** What the reader makes of a graph as it is. */
  lemma ReadAlone(g: Graph)
    requires AllReadable(g) && Sorted(g)
    ensures Folded(g.initializers, DoneOf(g, |g.nodes|)) == WithOwn(g, g.initializers)
  {
    AloneOrdered(g);
    FoldedIs(g.initializers, DoneOf(g, |g.nodes|));
  }

  /** Written and read back, a graph has the nodes it has when read as it is. */
  lemma NodesBack(g: Graph)
    requires Sound(g)
    ensures AllReadable(Written(g)) && Others(Written(g), |Written(g).nodes|) == Others(g, |g.nodes|)
  {
    DoneAll(g);
  }

  /** And the tensors, but that its big ones are taken out and put back restored, last
      and under their own names. */
  lemma TensorsBack(g: Graph)
    requires Sound(g)
    ensures AllReadable(Written(g)) && AllBig(Bigs(g.initializers))
    ensures Folded(Written(g).initializers, DoneOf(Written(g), |Written(g).nodes|)) ==
            WithOwn(g, Smalls(g.initializers)) + RestoredAll(Bigs(g.initializers))
  {
    var (ts, bigs, own) := (g.initializers, Bigs(g.initializers), DoneOf(g, |g.nodes|));
    DoneAll(g);
    BackOrdered(g);
    var big := RestoredDone(bigs, |bigs|);
    FoldedIs(Kept(ts), DoneBack(g));
    InputsConcat(big, Shifted(own, |bigs|));
    WidesConcat(big, Shifted(own, |bigs|));
    ShiftedSame(own, |bigs|);
    BigInputs(ts);
    RetainKept(ts, AllInputs(big) + AllInputs(own));
    RetainSame(Smalls(ts), AllInputs(big), AllInputs(own));
    WidesAre(bigs, |bigs|);
    assert bigs[..|bigs|] == bigs;
    Associe(Retain(Smalls(ts), AllInputs(own)), Wides(own), RestoredAll(bigs));
  }

  /** The writer, then the reader. */
  method WriteAndRead(g: Graph) returns (r: Option<Graph>)
    requires Sound(g)
    ensures r.None? <==> !KnownAxes(g.initializers)
    ensures AllBig(Bigs(g.initializers))
    ensures r.Some? ==> r.value == Graph(WithOwn(g, Smalls(g.initializers)) + RestoredAll(Bigs(g.initializers)), Others(g, |g.nodes|))
  {
    BigsFull(g.initializers);
    var written := Quarter(g);
    if written.None? { return None; }
    NodesBack(g);
    TensorsBack(g);
    var back := Dequantise(written.value);
    r := Some(back);
  }

  // ---- What is stored, and what is read --------------------------------------------------------

  /** Floats, 4096 at least, in two dimensions at least. */
  predicate ToStore(t: Tensor) {
    t.data.Floats? && |t.data.values| >= 4096 && |t.dims| >= 2
  }

  lemma {:induction false} PieceKept(ts: seq<Tensor>, i: nat, u: Tensor)
    requires AllFull(ts) && i < |ts| && u in Piece(ts[i])
    ensures u in Kept(ts)
    decreases |ts|
  {
    if i < |ts| - 1 { PieceKept(ts[..|ts| - 1], i, u); }
  }

  lemma {:induction false} BigListed(ts: seq<Tensor>, i: nat)
    requires i < |ts| && Big(ts[i])
    ensures ts[i] in Bigs(ts)
    decreases |ts|
  {
    if i < |ts| - 1 { BigListed(ts[..|ts| - 1], i); }
  }

  /** The int8 weights of a tensor are stored under its name with `_q`, a scale an output channel
      under `_s` and a zero under `_z`, and a node computes it again from them; a tensor too
      small, or not of floats, is kept. */
  lemma StoredSays(g: Graph, i: nat)
    requires AllFull(g.initializers) && i < |g.initializers|
    ensures !ToStore(g.initializers[i]) ==> g.initializers[i] in Written(g).initializers
    ensures ToStore(g.initializers[i]) ==>
      var (t, w) := (g.initializers[i], Written(g));
      var axis := if |t.dims| == 4 then 0 else 1;
      && (exists q :: q in w.initializers && q.name == t.name + "_q" && q.dims == t.dims && q.data.Octets?
                      && |q.data.octets| == |t.data.values| && forall k | 0 <= k < |q.data.octets| :: -127 <= q.data.octets[k] <= 127)
      && (exists s :: s in w.initializers && s.name == t.name + "_s" && s.data.Floats? && |s.data.values| == t.dims[axis])
      && (exists z :: z in w.initializers && z.name == t.name + "_z" && z.data == Octets(seq(t.dims[axis], _ => 0)))
      && Node("DequantizeLinear", [t.name + "_q", t.name + "_s", t.name + "_z"], [t.name], Some(axis)) in w.nodes
  {
    var t := g.initializers[i];
    forall u | u in Piece(t) ensures u in Kept(g.initializers) { PieceKept(g.initializers, i, u); }
    if ToStore(t) {
      StoredHere(t, Written(g).initializers);
      BigListed(g.initializers, i);
      var k :| 0 <= k < |Bigs(g.initializers)| && Bigs(g.initializers)[k] == t;
      assert NodesOf(Bigs(g.initializers))[k] == NodeOf(t);
      assert NodeOf(t) in Written(g).nodes;
    } else {
      assert t in Piece(t);
    }
  }

  lemma StoredHere(t: Tensor, ts: seq<Tensor>)
    requires Big(t) && Full(t) && forall u | u in Stored(t) :: u in ts
    ensures exists q :: q in ts && q.name == t.name + "_q" && q.dims == t.dims && q.data.Octets?
                        && |q.data.octets| == |t.data.values| && forall k | 0 <= k < |q.data.octets| :: -127 <= q.data.octets[k] <= 127
    ensures exists s :: s in ts && s.name == t.name + "_s" && s.data.Floats? && |s.data.values| == t.dims[if |t.dims| == 4 then 0 else 1]
    ensures exists z :: z in ts && z.name == t.name + "_z" && z.data == Octets(seq(t.dims[if |t.dims| == 4 then 0 else 1], _ => 0))
  {
    var st := Stored(t);
    assert st[0] in ts && st[1] in ts && st[2] in ts;
    OctetsFit(t);
    assert Zeros(t.dims[AxisOf(t)]) == seq(t.dims[AxisOf(t)], _ => 0);
  }

  lemma OctetsFit(t: Tensor)
    requires Big(t) && Full(t)
    ensures forall k | 0 <= k < |QuantisedValues(t)| :: -127 <= QuantisedValues(t)[k] <= 127
  {
    forall k | 0 <= k < |QuantisedValues(t)| ensures -127 <= QuantisedValues(t)[k] <= 127 {
      WithinMax(t, k);
      HalfScale(t.data.values[k], ChannelMax(t, ChannelAt(t, k)));
    }
  }

  /** What a dequantising node computes: each octet less the zero of its channel, times the scale
      of its channel, along the axis the node gives, the second where it gives none. */
  lemma ChannelSays(dims: seq<nat>, axis: nat, i: nat)
    requires axis < |dims| && i < Product(dims)
    ensures ChannelOf(dims, axis, i) < dims[axis] && ChannelOf(dims, axis, i) == Coordinates(dims, i)[axis]
  {
    var c := ChannelOf(dims, axis, i);
  }

  lemma WidenedHere(octets: seq<int>, dims: seq<nat>, axis: nat, scale: seq<real>, zero: seq<int>, i: nat, c: nat)
    requires axis < |dims| && |octets| == Product(dims) && dims[axis] <= |scale| && dims[axis] <= |zero| && i < |octets|
    requires c == ChannelOf(dims, axis, i)
    ensures WidenedAt(octets, dims, axis, scale, zero, i) == Dequantised(octets[i], zero[c], scale[c])
  {
  }

  lemma WidenedSays(octets: seq<int>, dims: seq<nat>, axis: nat, scale: seq<real>, zero: seq<int>, i: nat, c: nat)
    requires axis < |dims| && |octets| == Product(dims) && dims[axis] <= |scale| && dims[axis] <= |zero| && i < |octets|
    requires c == Coordinates(dims, i)[axis]
    ensures c < dims[axis] && Widened(octets, dims, axis, scale, zero)[i] == Dequantised(octets[i], zero[c], scale[c])
  {
    ChannelSays(dims, axis, i);
    WidenedHere(octets, dims, axis, scale, zero, i, c);
    assert Widened(octets, dims, axis, scale, zero)[i] == WidenedAt(octets, dims, axis, scale, zero, i);
  }

  lemma DequantisedSays(octet: int, zero: int, scale: real)
    ensures Dequantised(octet, zero, scale) == (octet - zero) as real * scale
  {
  }

  lemma WideAtSays(q: Tensor, s: Tensor, z: Tensor, axis: nat, i: nat, c: nat)
    requires q.data.Octets? && s.data.Floats? && z.data.Octets? && i < |q.data.octets| == Product(q.dims) && axis < |q.dims|
    requires q.dims[axis] <= |s.data.values| && q.dims[axis] <= |z.data.octets| && c == Coordinates(q.dims, i)[axis]
    ensures DequantisedAt(q, s, z, axis, i, Widened(q.data.octets, q.dims, axis, s.data.values, z.data.octets)[i])
  {
    WidenedSays(q.data.octets, q.dims, axis, s.data.values, z.data.octets, i, c);
    DequantisedSays(q.data.octets[i], z.data.octets[c], s.data.values[c]);
  }

  lemma WideSays(ts: seq<Tensor>, node: Node)
    requires Readable(ts, node) && WideOf(ts, node).Some?
    ensures node.op == "DequantizeLinear"
    ensures var (q, s, z, w) := (Find(ts, node.inputs[0]), Find(ts, node.inputs[1]), Find(ts, node.inputs[2]), WideOf(ts, node).value);
            var axis := if node.axis.Some? then node.axis.value else 1;
            && q.Some? && s.Some? && z.Some? && w.name == node.outputs[0] && w.dims == q.value.dims && w.data.Floats?
            && |w.data.values| == |q.value.data.octets| == Product(q.value.dims) && axis < |q.value.dims|
            && forall i: nat | i < |w.data.values| :: DequantisedAt(q.value, s.value, z.value, axis, i, w.data.values[i])
  {
    var (q, s, z, w) := (Find(ts, node.inputs[0]), Find(ts, node.inputs[1]), Find(ts, node.inputs[2]), WideOf(ts, node).value);
    forall i: nat | i < |w.data.values| ensures DequantisedAt(q.value, s.value, z.value, AxisGiven(node), i, w.data.values[i]) {
      WideAtSays(q.value, s.value, z.value, AxisGiven(node), i, Coordinates(q.value.dims, i)[AxisGiven(node)]);
    }
  }

  /** `v` is octet `i` less the zero of its channel, times the scale of its channel. */
  ghost predicate DequantisedAt(q: Tensor, s: Tensor, z: Tensor, axis: nat, i: nat, v: real) {
    && q.data.Octets? && s.data.Floats? && z.data.Octets? && i < |q.data.octets| == Product(q.dims) && axis < |q.dims|
    && var c := Coordinates(q.dims, i)[axis];
       c < |s.data.values| && c < |z.data.octets| && v == (q.data.octets[i] - z.data.octets[c]) as real * s.data.values[c]
  }
}
