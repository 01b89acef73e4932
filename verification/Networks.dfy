/** A network's graph stored with its large weights in int8, and read back: the
    writer adds a dequantising node a weight, the reader folds each one away. */
module Networks {
  import opened Ordre
  import opened Weights

  /** What a tensor holds: floats, signed octets, or anything else. */
  datatype Data = Floats(values: seq<real>) | Octets(octets: seq<int>) | Other

  datatype Tensor = Tensor(name: string, dims: seq<nat>, data: Data)

  datatype Node = Node(op: string, inputs: seq<string>, outputs: seq<string>, axis: Option<nat>)

  datatype Graph = Graph(initializers: seq<Tensor>, nodes: seq<Node>)

  const DEQUANTIZE: string := "DequantizeLinear"
  const LARGE: nat := 4096

  // ---- The writer -----------------------------------------------------------------------

  /** A weight worth storing in int8: floats, many of them, in a matrix at least. */
  predicate Big(t: Tensor) {
    t.data.Floats? && |t.data.values| >= LARGE && |t.dims| >= 2
  }

  /** The output channels' axis: a convolution's first, an LSTM's or a MatMul's second. */
  function AxisOf(t: Tensor): nat { if |t.dims| == 4 then 0 else 1 }

  /** A tensor whose values fill its shape. */
  predicate Full(t: Tensor) {
    t.data.Floats? ==> |t.data.values| == Product(t.dims)
  }

  /** The values of a channel: those whose coordinate along the axis it is. */
  function ChannelValues(values: seq<real>, dims: seq<nat>, axis: nat, c: nat, n: nat): seq<real>
    requires n <= |values| <= Product(dims) && axis < |dims|
  {
    if n == 0 then [] else
    OffsetOfCoordinates(dims, n - 1);
    ChannelValues(values, dims, axis, c, n - 1) + if Coordinates(dims, n - 1)[axis] == c then [values[n - 1]] else []
  }

  lemma {:induction false} InChannel(values: seq<real>, dims: seq<nat>, axis: nat, c: nat, n: nat, i: nat)
    requires i < n <= |values| <= Product(dims) && axis < |dims|
    requires Inside(dims, Coordinates(dims, i)) && Coordinates(dims, i)[axis] == c
    ensures values[i] in ChannelValues(values, dims, axis, c, n)
  {
    if i < n - 1 { InChannel(values, dims, axis, c, n - 1, i); }
  }

  /** A channel's scale. */
  function ChannelScale(t: Tensor, c: nat): (s: real)
    requires Big(t) && Full(t)
    ensures s > 0.0
  {
    ScaleOf(MaxAbs(ChannelValues(t.data.values, t.dims, AxisOf(t), c, |t.data.values|)))
  }

  function Scales(t: Tensor): (r: seq<real>)
    requires Big(t) && Full(t)
    ensures |r| == t.dims[AxisOf(t)] && forall c | 0 <= c < |r| :: r[c] == ChannelScale(t, c)
  {
    seq(t.dims[AxisOf(t)], c requires 0 <= c < t.dims[AxisOf(t)] => ChannelScale(t, c))
  }

  /** The channel of value `i`, by its coordinates. */
  function ChannelAt(t: Tensor, i: nat): (c: nat)
    requires Big(t) && Full(t) && i < |t.data.values|
    ensures c < t.dims[AxisOf(t)]
  {
    OffsetOfCoordinates(t.dims, i);
    Coordinates(t.dims, i)[AxisOf(t)]
  }

  /** The weights divided by their channel's scale and rounded. */
  function QuantisedValues(t: Tensor): (r: seq<int>)
    requires Big(t) && Full(t)
    ensures |r| == |t.data.values|
    ensures forall i | 0 <= i < |r| :: r[i] == Quantised(t.data.values[i], ChannelScale(t, ChannelAt(t, i)))
  {
    seq(|t.data.values|, i requires 0 <= i < |t.data.values| => Quantised(t.data.values[i], ChannelScale(t, ChannelAt(t, i))))
  }

  function Zeros(n: nat): (r: seq<int>)
    ensures |r| == n && forall i | 0 <= i < n :: r[i] == 0
  {
    seq(n, i => 0)
  }

  /** The three tensors that stand for a big one. */
  function Stored(t: Tensor): seq<Tensor>
    requires Big(t) && Full(t)
  {
    [Tensor(t.name + "_q", t.dims, Octets(QuantisedValues(t))),
     Tensor(t.name + "_s", [t.dims[AxisOf(t)]], Floats(Scales(t))),
     Tensor(t.name + "_z", [t.dims[AxisOf(t)]], Octets(Zeros(t.dims[AxisOf(t)])))]
  }

  function Names(t: Tensor): seq<string> { [t.name + "_q", t.name + "_s", t.name + "_z"] }

  function NodeOf(t: Tensor): Node {
    Node(DEQUANTIZE, Names(t), [t.name], Some(AxisOf(t)))
  }

  function Piece(t: Tensor): seq<Tensor>
    requires Full(t)
  {
    if Big(t) then Stored(t) else [t]
  }

  predicate AllFull(ts: seq<Tensor>) { forall k | 0 <= k < |ts| :: Full(ts[k]) }

  function Kept(ts: seq<Tensor>): seq<Tensor>
    requires AllFull(ts)
  {
    if ts == [] then [] else Kept(ts[..|ts| - 1]) + Piece(ts[|ts| - 1])
  }

  function Bigs(ts: seq<Tensor>): (r: seq<Tensor>)
    ensures forall k | 0 <= k < |r| :: Big(r[k]) && r[k] in ts
  {
    if ts == [] then [] else Bigs(ts[..|ts| - 1]) + if Big(ts[|ts| - 1]) then [ts[|ts| - 1]] else []
  }

  function Smalls(ts: seq<Tensor>): seq<Tensor> {
    if ts == [] then [] else Smalls(ts[..|ts| - 1]) + if Big(ts[|ts| - 1]) then [] else [ts[|ts| - 1]]
  }

  function NodesOf(bigs: seq<Tensor>): (r: seq<Node>)
    ensures |r| == |bigs| && forall k | 0 <= k < |r| :: r[k] == NodeOf(bigs[k])
  {
    seq(|bigs|, k requires 0 <= k < |bigs| => NodeOf(bigs[k]))
  }

  predicate KnownAxes(ts: seq<Tensor>) {
    forall k | 0 <= k < |ts| :: Big(ts[k]) ==> |ts[k].dims| <= 4
  }

  /** What has been written of the first `k` tensors. */
  ghost predicate WrittenUpTo(ts: seq<Tensor>, k: nat, kept: seq<Tensor>, nodes: seq<Node>) {
    k <= |ts| && AllFull(ts) && KnownAxes(ts[..k]) && kept == Kept(ts[..k]) && nodes == NodesOf(Bigs(ts[..k]))
  }

  lemma WrittenSmall(ts: seq<Tensor>, k: nat, kept: seq<Tensor>, nodes: seq<Node>)
    requires k < |ts| && WrittenUpTo(ts, k, kept, nodes) && !Big(ts[k])
    ensures WrittenUpTo(ts, k + 1, kept + [ts[k]], nodes)
  {
    PrefixeGrandit(ts, k);
    assert Bigs(ts[..k]) + [] == Bigs(ts[..k]);
  }

  lemma WrittenBig(ts: seq<Tensor>, k: nat, kept: seq<Tensor>, nodes: seq<Node>)
    requires k < |ts| && WrittenUpTo(ts, k, kept, nodes) && Big(ts[k]) && |ts[k].dims| <= 4 && Full(ts[k])
    ensures WrittenUpTo(ts, k + 1, kept + Stored(ts[k]), nodes + [NodeOf(ts[k])])
  {
    PrefixeGrandit(ts, k);
  }

  /** Stores the big weights in int8; a weight of more than four dimensions stops it. */
  method Quarter(g: Graph) returns (r: Option<Graph>)
    requires AllFull(g.initializers)
    ensures r.None? <==> !KnownAxes(g.initializers)
    ensures r.Some? ==> r.value == Graph(Kept(g.initializers), NodesOf(Bigs(g.initializers)) + g.nodes)
  {
    var ts := g.initializers;
    var kept: seq<Tensor> := [];
    var nodes: seq<Node> := [];
    for k := 0 to |ts|
      invariant WrittenUpTo(ts, k, kept, nodes)
    {
      if !Big(ts[k]) {
        WrittenSmall(ts, k, kept, nodes);
        kept := kept + [ts[k]];
      } else {
        if |ts[k].dims| > 4 { return None; }
        WrittenBig(ts, k, kept, nodes);
        kept := kept + Stored(ts[k]);
        nodes := nodes + [NodeOf(ts[k])];
      }
    }
    assert ts[..|ts|] == ts;
    r := Some(Graph(kept, nodes + g.nodes));
  }

  // ---- The reader -------------------------------------------------------------------------

  /** The first tensor of a name. */
  function Find(ts: seq<Tensor>, name: string): (r: Option<Tensor>)
    ensures r.Some? ==> r.value in ts && r.value.name == name
  {
    if ts == [] then None else if ts[0].name == name then Some(ts[0]) else Find(ts[1..], name)
  }

  /** The channel of value `i`, as the reader computes it: its coordinate. */
  function ChannelOf(dims: seq<nat>, axis: nat, i: nat): (c: nat)
    requires axis < |dims| && i < Product(dims)
    ensures c < dims[axis] && c == Coordinates(dims, i)[axis]
  {
    OffsetOfCoordinates(dims, i);
    AxisCoordinate(dims, Coordinates(dims, i), axis);
    (i / Product(dims[axis + 1..])) % dims[axis]
  }

  /** An octet less its zero, scaled. */
  function Dequantised(octet: int, zero: int, scale: real): real {
    (octet - zero) as real * scale
  }

  /** What value `i` stands for. */
  function WidenedAt(octets: seq<int>, dims: seq<nat>, axis: nat, scale: seq<real>, zero: seq<int>, i: nat): real
    requires axis < |dims| && |octets| == Product(dims) && dims[axis] <= |scale| && dims[axis] <= |zero| && i < |octets|
  {
    var c := ChannelOf(dims, axis, i);
    Dequantised(octets[i], zero[c], scale[c])
  }

  /** The floats that int8 weights stand for. */
  function Widened(octets: seq<int>, dims: seq<nat>, axis: nat, scale: seq<real>, zero: seq<int>): (r: seq<real>)
    requires axis < |dims| && |octets| == Product(dims) && dims[axis] <= |scale| && dims[axis] <= |zero|
    ensures |r| == |octets| && forall i | 0 <= i < |r| :: r[i] == WidenedAt(octets, dims, axis, scale, zero, i)
  {
    seq(|octets|, i requires 0 <= i < |octets| => WidenedAt(octets, dims, axis, scale, zero, i))
  }

  function AxisGiven(node: Node): nat {
    if node.axis.Some? then node.axis.value else 1
  }

  /** A dequantising node names its three inputs and its output, and the tensors it
      finds have the sizes it reads. */
  predicate Readable(ts: seq<Tensor>, node: Node) {
    node.op == DEQUANTIZE ==>
      && |node.inputs| >= 3 && |node.outputs| >= 1
      && var (q, s, z) := (Find(ts, node.inputs[0]), Find(ts, node.inputs[1]), Find(ts, node.inputs[2]));
         (q.Some? && s.Some? && z.Some? && q.value.data.Octets? ==>
           && AxisGiven(node) < |q.value.dims| && |q.value.data.octets| == Product(q.value.dims)
           && s.value.data.Floats? && q.value.dims[AxisGiven(node)] <= |s.value.data.values|
           && z.value.data.Octets? && q.value.dims[AxisGiven(node)] <= |z.value.data.octets|)
  }

  predicate AllReadable(g: Graph) {
    forall k | 0 <= k < |g.nodes| :: Readable(g.initializers, g.nodes[k])
  }

  /** The tensor a node computes, when it dequantises an int8 initializer. */
  function WideOf(ts: seq<Tensor>, node: Node): Option<Tensor>
    requires Readable(ts, node)
  {
    if node.op != DEQUANTIZE then None else
    var (q, s, z) := (Find(ts, node.inputs[0]), Find(ts, node.inputs[1]), Find(ts, node.inputs[2]));
    if q.None? || s.None? || z.None? || !q.value.data.Octets? then None
    else Some(Tensor(node.outputs[0], q.value.dims,
      Floats(Widened(q.value.data.octets, q.value.dims, AxisGiven(node), s.value.data.values, z.value.data.octets))))
  }

  datatype Done = Done(at: nat, wide: Tensor, inputs: seq<string>)

  /** The nodes to fold, with their places. */
  function DoneOf(g: Graph, n: nat): seq<Done>
    requires AllReadable(g) && n <= |g.nodes|
  {
    if n == 0 then [] else
    var w := WideOf(g.initializers, g.nodes[n - 1]);
    DoneOf(g, n - 1) + if w.Some? then [Done(n - 1, w.value, g.nodes[n - 1].inputs)] else []
  }

  function Retain(ts: seq<Tensor>, names: set<string>): seq<Tensor> {
    if ts == [] then [] else (if ts[0].name in names then [] else [ts[0]]) + Retain(ts[1..], names)
  }

  function Set(names: seq<string>): set<string> { set n | n in names }

  /** The initializers once the nodes are folded, the last node first. */
  function Folded(ts: seq<Tensor>, done: seq<Done>): seq<Tensor>
    decreases |done|
  {
    if done == [] then ts else
    var last := done[|done| - 1];
    Folded(Retain(ts, Set(last.inputs)) + [last.wide], done[..|done| - 1])
  }

  function Remove(nodes: seq<Node>, at: nat): seq<Node>
    requires at < |nodes|
  {
    nodes[..at] + nodes[at + 1..]
  }

  /** The nodes that are not folded. */
  function Others(g: Graph, n: nat): seq<Node>
    requires AllReadable(g) && n <= |g.nodes|
  {
    if n == 0 then [] else
    Others(g, n - 1) + if WideOf(g.initializers, g.nodes[n - 1]).Some? then [] else [g.nodes[n - 1]]
  }

  lemma {:induction false} DonePlaces(g: Graph, n: nat)
    requires AllReadable(g) && n <= |g.nodes|
    ensures forall k | 0 <= k < |DoneOf(g, n)| :: DoneOf(g, n)[k].at < n
    ensures forall j, k | 0 <= j < k < |DoneOf(g, n)| :: DoneOf(g, n)[j].at < DoneOf(g, n)[k].at
  {
    if n > 0 { DonePlaces(g, n - 1); }
  }

  lemma DoneBetween(g: Graph, n: nat, m: nat)
    requires AllReadable(g) && n < m <= |g.nodes| && DoneOf(g, m) == DoneOf(g, n)
    ensures DoneOf(g, m - 1) == DoneOf(g, n) && WideOf(g.initializers, g.nodes[m - 1]).None?
  {
    DoneGrows(g, n, m - 1);
    assert |DoneOf(g, m - 1)| <= |DoneOf(g, m)|;
    assert DoneOf(g, m)[..|DoneOf(g, m - 1)|] == DoneOf(g, m - 1);
  }

  /** Between two nodes to fold there is none. */
  lemma {:induction false} OthersFrom(g: Graph, n: nat, m: nat)
    requires AllReadable(g) && n <= m <= |g.nodes| && DoneOf(g, m) == DoneOf(g, n)
    ensures Others(g, m) == Others(g, n) + g.nodes[n..m]
    decreases m
  {
    if n < m {
      DoneBetween(g, n, m);
      OthersFrom(g, n, m - 1);
      assert g.nodes[n..m] == g.nodes[n..m - 1] + [g.nodes[m - 1]];
    } else {
      assert g.nodes[n..m] == [];
    }
  }

  lemma {:induction false} DoneGrows(g: Graph, n: nat, m: nat)
    requires AllReadable(g) && n <= m <= |g.nodes|
    ensures |DoneOf(g, n)| <= |DoneOf(g, m)| && DoneOf(g, m)[..|DoneOf(g, n)|] == DoneOf(g, n)
    decreases m
  {
    if n < m { DoneGrows(g, n, m - 1); }
  }

  /** The last node to fold, and what follows it. */
  lemma LastDone(g: Graph, n: nat) returns (m: nat)
    requires AllReadable(g) && n <= |g.nodes| && DoneOf(g, n) != []
    ensures m < n && WideOf(g.initializers, g.nodes[m]).Some?
    ensures DoneOf(g, n) == DoneOf(g, m) + [Done(m, WideOf(g.initializers, g.nodes[m]).value, g.nodes[m].inputs)]
    decreases n
  {
    if WideOf(g.initializers, g.nodes[n - 1]).Some? { m := n - 1; } else { m := LastDone(g, n - 1); }
  }

  lemma OthersLast(g: Graph, m: nat, n: nat)
    requires AllReadable(g) && m < n <= |g.nodes| && WideOf(g.initializers, g.nodes[m]).Some?
    requires DoneOf(g, n) == DoneOf(g, m) + [Done(m, WideOf(g.initializers, g.nodes[m]).value, g.nodes[m].inputs)]
    ensures Others(g, n) == Others(g, m) + g.nodes[m + 1..n]
  {
    assert DoneOf(g, m + 1) == DoneOf(g, n);
    OthersFrom(g, m + 1, n);
    assert Others(g, m + 1) == Others(g, m) + [];
  }

  /** The nodes to fold, gathered in order. */
  method Gather(g: Graph) returns (done: seq<Done>)
    requires AllReadable(g)
    ensures done == DoneOf(g, |g.nodes|)
  {
    done := [];
    for at := 0 to |g.nodes|
      invariant done == DoneOf(g, at)
    {
      var w := WideOf(g.initializers, g.nodes[at]);
      if w.Some? { done := done + [Done(at, w.value, g.nodes[at].inputs)]; }
    }
  }

  /** The fold under way: the first `k` nodes to fold are among the first `n` nodes,
      and what is past them is as it will stay. */
  ghost predicate Folding(g: Graph, done: seq<Done>, k: nat, n: nat, tail: seq<Node>, nodes: seq<Node>, initializers: seq<Tensor>)
    requires AllReadable(g)
  {
    && k <= |done| && n <= |g.nodes| && done[..k] == DoneOf(g, n)
    && nodes == g.nodes[..n] + tail
    && Others(g, |g.nodes|) == Others(g, n) + tail
    && Folded(g.initializers, done) == Folded(initializers, done[..k])
  }

  lemma FoldingStarts(g: Graph)
    requires AllReadable(g)
    ensures var done := DoneOf(g, |g.nodes|); Folding(g, done, |done|, |g.nodes|, [], g.nodes, g.initializers)
  {
    var done := DoneOf(g, |g.nodes|);
    assert done[..|done|] == done && g.nodes[..|g.nodes|] == g.nodes && g.nodes + [] == g.nodes;
    assert Others(g, |g.nodes|) + [] == Others(g, |g.nodes|);
  }

  lemma FoldingStep(g: Graph, done: seq<Done>, k: nat, n: nat, tail: seq<Node>, nodes: seq<Node>, initializers: seq<Tensor>)
    returns (m: nat, longer: seq<Node>)
    requires AllReadable(g) && k > 0 && Folding(g, done, k, n, tail, nodes, initializers)
    ensures done[k - 1].at < |nodes|
    ensures var d := done[k - 1];
            Folding(g, done, k - 1, m, longer, Remove(nodes, d.at), Retain(initializers, Set(d.inputs)) + [d.wide])
  {
    m := LastDone(g, n);
    longer := g.nodes[m + 1..n] + tail;
    LastOf(done, k, DoneOf(g, m), Done(m, WideOf(g.initializers, g.nodes[m]).value, g.nodes[m].inputs));
    OthersLast(g, m, n);
    FoldStep(initializers, done[..k]);
    RemoveAt(g.nodes, m, n, tail);
    Associe(Others(g, m), g.nodes[m + 1..n], tail);
  }

  lemma LastOf(done: seq<Done>, k: nat, first: seq<Done>, d: Done)
    requires 0 < k <= |done| && done[..k] == first + [d]
    ensures done[k - 1] == d && done[..k - 1] == first && done[..k][..k - 1] == first && done[..k][k - 1] == d
  {
    assert done[..k][..k - 1] == done[..k - 1] && (first + [d])[..k - 1] == first;
    assert done[..k][k - 1] == done[k - 1];
  }

  lemma FoldingEnds(g: Graph, done: seq<Done>, n: nat, tail: seq<Node>, nodes: seq<Node>, initializers: seq<Tensor>)
    requires AllReadable(g) && Folding(g, done, 0, n, tail, nodes, initializers)
    ensures nodes == Others(g, |g.nodes|) && initializers == Folded(g.initializers, done)
  {
    assert done[..0] == [];
    EmptyDone(g, n);
  }

  /** Each dequantising node of an int8 initializer replaced by the initializer it
      computes; the other nodes stay, in order. */
  method Dequantise(g: Graph) returns (r: Graph)
    requires AllReadable(g)
    ensures r.nodes == Others(g, |g.nodes|)
    ensures r.initializers == Folded(g.initializers, DoneOf(g, |g.nodes|))
  {
    var done := Gather(g);
    var nodes, initializers := g.nodes, g.initializers;
    var k: nat := |done|;
    ghost var n: nat := |g.nodes|;
    ghost var tail: seq<Node> := [];
    FoldingStarts(g);
    while k > 0
      invariant Folding(g, done, k, n, tail, nodes, initializers)
    {
      n, tail := FoldingStep(g, done, k, n, tail, nodes, initializers);
      k := k - 1;
      var d := done[k];
      nodes := nodes[..d.at] + nodes[d.at + 1..];
      initializers := Retain(initializers, Set(d.inputs)) + [d.wide];
    }
    FoldingEnds(g, done, n, tail, nodes, initializers);
    r := Graph(initializers, nodes);
  }

  lemma FoldStep(ts: seq<Tensor>, done: seq<Done>)
    requires done != []
    ensures Folded(ts, done) == Folded(Retain(ts, Set(done[|done| - 1].inputs)) + [done[|done| - 1].wide], done[..|done| - 1])
  {
  }

  lemma RemoveAt(nodes: seq<Node>, m: nat, n: nat, tail: seq<Node>)
    requires m < n <= |nodes|
    ensures Remove(nodes[..n] + tail, m) == nodes[..m] + (nodes[m + 1..n] + tail)
  {
  }

  lemma {:induction false} EmptyDone(g: Graph, n: nat)
    requires AllReadable(g) && n <= |g.nodes| && DoneOf(g, n) == []
    ensures Others(g, n) == g.nodes[..n]
  {
    if n > 0 {
      EmptyDone(g, n - 1);
      assert g.nodes[..n] == g.nodes[..n - 1] + [g.nodes[n - 1]];
    }
  }
}
