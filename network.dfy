/** The `Network` object (Network.cpp): the build phase that lays out the
    neuron layers and wires consecutive layers densely, and the run phase
    that drives learn and estimate through the neurons of the arena. */
module Network {
  import opened Results
  import opened Excitation
  import opened Graph
  import opened Link
  import opened Neural
  import opened Layers
  import opened Passes
  import Mse

  /** The output value of every bias neuron (Network::addLayer passes -1.0 to addBias). */
  const BIAS_VALUE: real := -1.0

  /** Neuron n as the private addLayer leaves it: of the layer's kind, with
      the layer's strategies, fed only by its bias link, and, unless it is
      an input neuron, owning a bias neuron whose output is BIAS_VALUE. */
  predicate FreshNeuron(g: Net, n: nat, t: NeuralType, aT: AggregationType, eT: ExcitationType)
  {
    && |g.activation| == |g.wiring|
    && NeuronOfKind(g.wiring, g.ends, n, t)
    && g.wiring[n].aggregation == aT && g.wiring[n].excitation == eT
    && g.wiring[n].outputLinks == [] && g.wiring[n].inputLinks == BiasPrefix(g.wiring[n])
    && (g.wiring[n].biasNeural.Some? ==> g.activation[g.wiring[n].biasNeural.value].outputValue == BIAS_VALUE)
  }

  /** h holds every neuron and link of g as it was, and possibly more after them. */
  predicate Extends(g: Net, h: Net)
  {
    && |h.wiring| >= |g.wiring| && h.wiring[..|g.wiring|] == g.wiring
    && |h.activation| >= |g.activation| && h.activation[..|g.activation|] == g.activation
    && |h.ends| >= |g.ends| && h.ends[..|g.ends|] == g.ends
    && |h.weights| >= |g.weights| && h.weights[..|g.weights|] == g.weights
  }

  lemma ExtendsTransitive(f: Net, g: Net, h: Net)
    requires Extends(f, g) && Extends(g, h)
    ensures Extends(f, h)
  {
    assert h.wiring[..|f.wiring|] == h.wiring[..|g.wiring|][..|f.wiring|];
    assert h.activation[..|f.activation|] == h.activation[..|g.activation|][..|f.activation|];
    assert h.ends[..|f.ends|] == h.ends[..|g.ends|][..|f.ends|];
    assert h.weights[..|f.weights|] == h.weights[..|g.weights|][..|f.weights|];
  }

  lemma FreshNeuronGrow(g: Net, h: Net, n: nat, t: NeuralType, aT: AggregationType, eT: ExcitationType)
    requires FreshNeuron(g, n, t, aT, eT) && Extends(g, h) && |h.activation| == |h.wiring|
    ensures FreshNeuron(h, n, t, aT, eT)
  {
    NeuronOfKindGrow(g.wiring, g.ends, h.wiring, h.ends, n, t);
    if g.wiring[n].biasNeural.Some? {
      assert h.activation[g.wiring[n].biasNeural.value] == g.activation[g.wiring[n].biasNeural.value];
    }
  }

  /** The arena after Neural(t, aT, eT) created neuron n = |g.wiring|,
      before addBias. */
  function WithNewNeural(g: Net, t: NeuralType, aT: AggregationType, eT: ExcitationType): Net
  {
    Net(g.wiring + [NewWiring(t, aT, eT)], g.activation + [NewActivation(t, 0.0)], g.ends, g.weights)
  }

  /** What addBias(BIAS_VALUE) on neuron n of g left in h, as Arena.AddBias states it. */
  predicate BiasAdded(g: Net, n: nat, h: Net)
    requires n < |g.wiring|
  {
    if g.wiring[n].kind.HiddenNeural? || g.wiring[n].kind.OutputNeural? then
      && h.wiring == g.wiring[n := g.wiring[n].(inputLinks := g.wiring[n].inputLinks + [|g.ends|],
                                                biasNeural := Some(|g.wiring|),
                                                biasLink := Some(|g.ends|))]
                     + [NewWiring(BiasNeural, NoAgg, NoExc).(outputLinks := [|g.ends|])]
      && h.activation == g.activation + [NewActivation(BiasNeural, BIAS_VALUE)]
      && h.ends == g.ends + [Endpoints(|g.wiring|, n)]
      && |h.weights| == |g.weights| + 1 && h.weights[..|g.weights|] == g.weights
    else
      && h.wiring == g.wiring[n := g.wiring[n].(biasNeural := None, biasLink := None)]
      && h.activation == g.activation && h.ends == g.ends && h.weights == g.weights
  }

  /** The neurons `layer` the private addLayer made so far, after arena g0,
      as they are in arena g: new, fresh and in increasing order. */
  predicate LaidSoFar(g0: Net, g: Net, layer: seq<nat>, t: NeuralType, aT: AggregationType, eT: ExcitationType)
  {
    && Closed(g) && Extends(g0, g)
    && (forall m :: 0 <= m < |layer| ==> |g0.wiring| <= layer[m] < |g.wiring|)
    && (forall m :: 0 <= m < |layer| ==> FreshNeuron(g, layer[m], t, aT, eT))
    && (forall m, m' :: 0 <= m < m' < |layer| ==> layer[m] < layer[m'])
  }

  /** One turn of the private addLayer: the new neuron n is fresh, and the
      neurons made before it stay fresh. */
  lemma NewNeuronStep(g0: Net, g1: Net, g2: Net, layer: seq<nat>, n: nat,
                      t: NeuralType, aT: AggregationType, eT: ExcitationType)
    requires LaidSoFar(g0, g1, layer, t, aT, eT) && Closed(g2) && n == |g1.wiring|
    requires t.InputNeural? ==> aT.NoAgg? && eT.NoExc?
    requires t.HiddenNeural? || t.OutputNeural? || t.InputNeural?
    requires BiasAdded(WithNewNeural(g1, t, aT, eT), n, g2)
    ensures LaidSoFar(g0, g2, layer + [n], t, aT, eT)
  {
    assert Extends(g1, g2) by {
      assert g2.wiring[..|g1.wiring|] == g1.wiring;
      assert g2.activation[..|g1.activation|] == g1.activation;
      assert g2.ends[..|g1.ends|] == g1.ends;
    }
    ExtendsTransitive(g0, g1, g2);
    forall m | 0 <= m < |layer| ensures FreshNeuron(g2, layer[m], t, aT, eT) {
      FreshNeuronGrow(g1, g2, layer[m], t, aT, eT);
    }
    assert FreshNeuron(g2, n, t, aT, eT);
  }

  /** The layer the private addLayer built, appended to layers that hold
      no link yet, keeps the layers laid out and wired. */
  lemma LayerFinished(g0: Net, g: Net, neurals: seq<seq<nat>>, layer: seq<nat>,
                      t: NeuralType, aT: AggregationType, eT: ExcitationType)
    requires Layered(g0.wiring, g0.ends, neurals, false) && Wired(g0.wiring, g0.ends, neurals, [])
    requires LaidSoFar(g0, g, layer, t, aT, eT)
    requires t == LayerKind(|neurals|, |neurals| + 1, t.OutputNeural?)
    ensures Layered(g.wiring, g.ends, neurals + [layer], t.OutputNeural?)
    ensures Wired(g.wiring, g.ends, neurals + [layer], [])
  {
    AppendLayer(g0.wiring, g0.ends, g.wiring, g.ends, neurals, layer, t.OutputNeural?);
  }

  /** One turn of the loop of the private addLayer: a new neuron with the
      layer's kind and strategies, given its bias. */
  method AddNeuron(arena: Arena, t: NeuralType, aT: AggregationType, eT: ExcitationType,
                   ghost g0: Net, ghost layer: seq<nat>)
    returns (n: nat)
    requires arena.Valid() && LaidSoFar(g0, arena.State(), layer, t, aT, eT)
    requires t.InputNeural? ==> aT.NoAgg? && eT.NoExc?
    requires t.HiddenNeural? || t.OutputNeural? || t.InputNeural?
    modifies arena`wiring, arena`activation, arena`ends, arena`weights, arena`draws
    ensures arena.Valid() && LaidSoFar(g0, arena.State(), layer + [n], t, aT, eT)
    ensures DrawnWeights(old(arena.State()), old(arena.draws), arena.State(), arena.draws, arena.rand)
  {
    ghost var g1 := arena.State();
    n := arena.AddNeural(t, aT, eT, 0.0);
    assert arena.State() == WithNewNeural(g1, t, aT, eT);
    DrawnNone(arena.State(), arena.draws, arena.rand);
    ghost var g2 := arena.State();
    arena.AddBias(n, BIAS_VALUE);
    if t.HiddenNeural? || t.OutputNeural? {
      DrawnStep(g2, old(arena.draws), g2, arena.draws - 1, arena.rand, arena.State());
    }
    NewNeuronStep(g0, g1, arena.State(), layer, n, t, aT, eT);
  }

  /** A layer appended to a list of layers comes last, after the old ones. */
  lemma LastAppended(neurals: seq<seq<nat>>, layer: seq<nat>)
    ensures |neurals + [layer]| == |neurals| + 1
    ensures (neurals + [layer])[..|neurals|] == neurals && (neurals + [layer])[|neurals|] == layer
  {
    assert (neurals + [layer])[..|neurals|] == neurals;
  }

  /** Full connection only fills link lists: the neurons of a new layer keep
      their aggregation, their excitation and their bias. */
  lemma FreshKept(g: Net, ws: seq<Wiring>, layer: seq<nat>, t: NeuralType, aT: AggregationType, eT: ExcitationType)
    requires t.HiddenNeural? || t.OutputNeural?
    requires forall m :: 0 <= m < |layer| ==> FreshNeuron(g, layer[m], t, aT, eT)
    requires SameButLists(g.wiring, ws)
    ensures OutputsBiased(ws, g.activation, layer, aT, eT)
  {
    forall m | 0 <= m < |layer|
      ensures && layer[m] < |ws| && ws[layer[m]].aggregation == aT && ws[layer[m]].excitation == eT
              && ws[layer[m]].biasNeural.Some? && ws[layer[m]].biasNeural.value < |g.activation|
              && g.activation[ws[layer[m]].biasNeural.value].outputValue == BIAS_VALUE
    {
      assert FreshNeuron(g, layer[m], t, aT, eT);
      assert SameNeuronButLists(g.wiring[layer[m]], ws[layer[m]]);
    }
  }

  /** Every neuron of layer has the given aggregation and excitation and a
      bias neuron whose output is BIAS_VALUE. */
  predicate OutputsBiased(ws: seq<Wiring>, acts: seq<Activation>, layer: seq<nat>, aT: AggregationType, eT: ExcitationType)
  {
    forall m :: 0 <= m < |layer| ==>
      && layer[m] < |ws| && ws[layer[m]].aggregation == aT && ws[layer[m]].excitation == eT
      && ws[layer[m]].biasNeural.Some? && ws[layer[m]].biasNeural.value < |acts|
      && acts[ws[layer[m]].biasNeural.value].outputValue == BIAS_VALUE
  }

  /** The links of h beyond those of g were created in order, the k-th of
      them weighing what the (d + k)-th `rand()` gives, and `draws` counts
      every one of those calls. */
  predicate DrawnWeights(g: Net, d: nat, h: Net, draws: nat, rand: nat -> RandomValue)
  {
    && |h.weights| >= |g.weights| && h.weights[..|g.weights|] == g.weights
    && draws == d + (|h.weights| - |g.weights|)
    && forall l :: |g.weights| <= l < |h.weights| ==> h.weights[l] == InitialWeight(rand(d + (l - |g.weights|)))
  }

  /** h keeps the activations, link ends and weights of g, and the links it
      adds weigh successive draws from d on. */
  predicate Grown(g: Net, d: nat, h: Net, draws: nat, rand: nat -> RandomValue)
  {
    && |h.activation| >= |g.activation| && h.activation[..|g.activation|] == g.activation
    && |h.ends| >= |g.ends| && h.ends[..|g.ends|] == g.ends
    && DrawnWeights(g, d, h, draws, rand)
  }

  /** A layer added to g gives h, and full connection of h gives k. */
  lemma GrownByConnection(g: Net, d: nat, h: Net, e: nat, k: Net, draws: nat, rand: nat -> RandomValue)
    requires Extends(g, h) && DrawnWeights(g, d, h, e, rand)
    requires k.activation == h.activation && |k.ends| >= |h.ends| && k.ends[..|h.ends|] == h.ends
    requires DrawnWeights(h, e, k, draws, rand)
    ensures Grown(g, d, k, draws, rand)
  {
    DrawnTransitive(g, d, h, e, k, draws, rand);
    assert k.ends[..|g.ends|] == k.ends[..|h.ends|][..|g.ends|];
  }

  /** Nothing drawn yet. */
  lemma DrawnNone(g: Net, d: nat, rand: nat -> RandomValue)
    ensures DrawnWeights(g, d, g, d, rand)
  {
    assert g.weights[..|g.weights|] == g.weights;
  }

  /** One more link, weighing what the next `rand()` gives. */
  lemma DrawnStep(g: Net, d: nat, h: Net, draws: nat, rand: nat -> RandomValue, h': Net)
    requires DrawnWeights(g, d, h, draws, rand)
    requires h'.weights == h.weights + [InitialWeight(rand(draws))]
    ensures DrawnWeights(g, d, h', draws + 1, rand)
  {
    assert h'.weights[..|g.weights|] == h.weights[..|g.weights|];
  }

  /** Two runs of draws, one after the other, are one run. */
  lemma DrawnTransitive(g: Net, d: nat, h: Net, e: nat, k: Net, draws: nat, rand: nat -> RandomValue)
    requires DrawnWeights(g, d, h, e, rand) && DrawnWeights(h, e, k, draws, rand)
    ensures DrawnWeights(g, d, k, draws, rand)
  {
    assert k.weights[..|g.weights|] == k.weights[..|h.weights|][..|g.weights|];
    forall l | |g.weights| <= l < |k.weights|
      ensures k.weights[l] == InitialWeight(rand(d + (l - |g.weights|)))
    {
      if l < |h.weights| {
        assert k.weights[l] == k.weights[..|h.weights|][l];
      }
    }
  }

  /** The link layers `links` fullConnection has built so far, starting
      from arena g0 after d0 draws; g is the arena now. */
  ghost predicate BuiltSoFar(g0: Net, d0: nat, g: Net, draws: nat, rand: nat -> RandomValue,
                             neurals: seq<seq<nat>>, links: seq<seq<nat>>)
  {
    && Closed(g)
    && Built(g0.wiring, g0.ends, g.wiring, g.ends, neurals, links)
    && DrawnWeights(g0, d0, g, draws, rand)
  }

  /** The j loop of fullConnection for the layer after `links` after j
      turns: `layer` holds the links from the first j neurons of that layer
      to every neuron of the next one, each weighing the next draw after
      (g0, d0). */
  ghost predicate Linking(arena: Arena, W0: seq<Wiring>, E0: seq<Endpoints>, neurals: seq<seq<nat>>,
                          links: seq<seq<nat>>, j: nat, layer: seq<nat>, g0: Net, d0: nat)
    reads arena
  {
    && arena.Valid() && |links| + 1 < |neurals| && j <= |neurals[|links|]|
    && Connecting(W0, E0, arena.wiring, arena.ends, neurals, links, layer)
    && EndsOf(arena.ends, layer) == Pairs(neurals[|links|][..j], neurals[|links| + 1])
    && DrawnWeights(g0, d0, arena.State(), arena.draws, arena.rand)
  }

  /** Arena g with a new link a -> b of weight w, registered with both its
      ends: `make_shared<Link>(previous, next)` then `connect(BOTH)`. */
  function Joined(g: Net, a: nat, b: nat, w: real): (h: Net)
    requires a < |g.wiring| && b < |g.wiring|
    ensures |h.ends| == |g.ends| + 1 && h.ends[|g.ends|] == Endpoints(a, b)
  {
    Net(WithOutputLink(WithInputLink(g.wiring, b, |g.ends|), a, |g.ends|), g.activation,
        g.ends + [Endpoints(a, b)], g.weights + [w])
  }

  /** The inner statements of fullConnection's k loop: a link from a, which
      takes output links, to b, which takes input links, weighing the next
      draw. */
  method NewLink(arena: Arena, a: nat, b: nat) returns (l: nat)
    requires arena.Valid() && a < |arena.wiring| && b < |arena.wiring|
    requires !arena.wiring[a].kind.OutputNeural? && !arena.wiring[a].kind.BiasNeural?
    requires arena.wiring[b].kind.HiddenNeural? || arena.wiring[b].kind.OutputNeural?
    modifies arena`wiring, arena`ends, arena`weights, arena`draws
    ensures arena.Valid() && l == |old(arena.ends)|
    ensures arena.State() == Joined(old(arena.State()), a, b, InitialWeight(arena.rand(old(arena.draws))))
    ensures arena.draws == old(arena.draws) + 1
  {
    l := arena.AddLink(a, b);
    var o := arena.Connect(l, Both);
  }

  /** The k loop of fullConnection for neuron j of the layer after `links`
      after k turns, in arena g with `draws` draws: `row` holds the links
      from that neuron to the first k neurons of the next layer, added after
      the links `cur` of arena g0. */
  ghost predicate JoinedSoFar(g: Net, draws: nat, rand: nat -> RandomValue, W0: seq<Wiring>, E0: seq<Endpoints>,
                              neurals: seq<seq<nat>>, links: seq<seq<nat>>, j: nat, k: nat,
                              cur: seq<nat>, row: seq<nat>, g0: Net, d0: nat)
  {
    && Closed(g) && |links| + 1 < |neurals| && j < |neurals[|links|]| && k <= |neurals[|links| + 1]|
    && Connecting(W0, E0, g.wiring, g.ends, neurals, links, cur + row)
    && Below(cur, |g0.ends|)
    && EndsOf(g.ends, cur + row) == EndsOf(g0.ends, cur) + Row(neurals[|links|][j], neurals[|links| + 1][..k])
    && DrawnWeights(g0, d0, g, draws, rand)
  }

  /** One more link from neuron j to neuron k of the next layer keeps
      JoinedSoFar, one turn further. */
  lemma JoinedStep(W0: seq<Wiring>, E0: seq<Endpoints>, neurals: seq<seq<nat>>, links: seq<seq<nat>>,
                   j: nat, k: nat, cur: seq<nat>, row: seq<nat>, g0: Net, d0: nat,
                   g: Net, draws: nat, rand: nat -> RandomValue, g': Net, l: nat)
    requires JoinedSoFar(g, draws, rand, W0, E0, neurals, links, j, k, cur, row, g0, d0)
    requires k < |neurals[|links| + 1]| && Closed(g') && l == |g.ends|
    requires neurals[|links|][j] < |g.wiring| && neurals[|links| + 1][k] < |g.wiring|
    requires g' == Joined(g, neurals[|links|][j], neurals[|links| + 1][k], InitialWeight(rand(draws)))
    ensures JoinedSoFar(g', draws + 1, rand, W0, E0, neurals, links, j, k + 1, cur, row + [l], g0, d0)
  {
    RowJoined(W0, E0, g.wiring, g.ends, neurals, links, j, k, cur, row, EndsOf(g0.ends, cur), l, g'.wiring, g'.ends);
    DrawnStep(g0, d0, g, draws, rand, g');
  }

  /** JoinedSoFar, on the arena as it is now. */
  ghost predicate Joining(arena: Arena, W0: seq<Wiring>, E0: seq<Endpoints>, neurals: seq<seq<nat>>,
                          links: seq<seq<nat>>, j: nat, k: nat, cur: seq<nat>, row: seq<nat>, g0: Net, d0: nat)
    reads arena
  {
    JoinedSoFar(arena.State(), arena.draws, arena.rand, W0, E0, neurals, links, j, k, cur, row, g0, d0)
  }

  /** The loop of fullConnection over the neuron layers `neurals` of arena
      g0, after d0 draws: link layer i joins layer i to layer i + 1, and
      `count` adds up the products of their sizes. */
  method LinkAll(arena: Arena, neurals: seq<seq<nat>>, last: nat, ghost g0: Net, ghost d0: nat)
    returns (links: seq<seq<nat>>, count: nat)
    requires arena.Valid() && |neurals| >= 2 && last == |neurals| - 1
    requires g0 == arena.State() && d0 == arena.draws
    requires Built(g0.wiring, g0.ends, arena.wiring, arena.ends, neurals, [])
    modifies arena`wiring, arena`ends, arena`weights, arena`draws
    ensures |links| == last
    ensures BuiltSoFar(g0, d0, arena.State(), arena.draws, arena.rand, neurals, links)
    ensures count == TotalSize(links)
  {
    DrawnNone(g0, d0, arena.rand);
    links := [];
    count := 0;
    var i := 0;
    while i < last
      invariant 0 <= i <= last && |links| == i
      invariant BuiltSoFar(g0, d0, arena.State(), arena.draws, arena.rand, neurals, links)
      invariant count == TotalSize(links)
    {
      var current := neurals[i];
      var next := neurals[i + 1];
      var layer := LinkLayer(arena, current, next, g0, d0, neurals, links);
      TotalSizeAppend(links, layer);
      links := links + [layer];
      count := count + |current| * |next|;
      i := i + 1;
    }
  }

  /** The body of the loop of fullConnection for the neuron layers prev and
      next that follow the link layers `links`: a link from each neuron of
      prev to each neuron of next, source-major, each registered with both
      its ends. */
  method LinkLayer(arena: Arena, prev: seq<nat>, next: seq<nat>, ghost g0: Net, ghost d0: nat,
                   ghost neurals: seq<seq<nat>>, ghost links: seq<seq<nat>>)
    returns (layer: seq<nat>)
    requires BuiltSoFar(g0, d0, arena.State(), arena.draws, arena.rand, neurals, links)
    requires |links| + 1 < |neurals| && prev == neurals[|links|] && next == neurals[|links| + 1]
    modifies arena`wiring, arena`ends, arena`weights, arena`draws
    ensures BuiltSoFar(g0, d0, arena.State(), arena.draws, arena.rand, neurals, links + [layer])
    ensures |layer| == |prev| * |next|
  {
    BuiltOpen(g0.wiring, g0.ends, arena.wiring, arena.ends, neurals, links);
    layer := [];
    var j := 0;
    assert prev[..0] == [];
    while j < |prev|
      invariant Linking(arena, g0.wiring, g0.ends, neurals, links, j, layer, g0, d0)
    {
      var row := JoinRow(arena, prev[j], next, g0.wiring, g0.ends, neurals, links, j, layer, g0, d0);
      layer := layer + row;
      j := j + 1;
    }
    assert j == |prev| && neurals[|links|][..j] == prev;
    assert EndsOf(arena.ends, layer) == Pairs(prev, next);
    BuiltClose(g0.wiring, g0.ends, arena.wiring, arena.ends, neurals, links, layer);
    EndsOfLength(arena.ends, layer);
    PairsLength(prev, next);
  }

  /** The k loop of fullConnection: neuron a, the j-th of its layer, is
      joined to every neuron of the next layer, in order. */
  method JoinRow(arena: Arena, a: nat, next: seq<nat>, ghost W0: seq<Wiring>, ghost E0: seq<Endpoints>,
                 ghost neurals: seq<seq<nat>>, ghost links: seq<seq<nat>>, ghost j: nat,
                 ghost cur: seq<nat>, ghost g0: Net, ghost d0: nat)
    returns (row: seq<nat>)
    requires Linking(arena, W0, E0, neurals, links, j, cur, g0, d0) && j < |neurals[|links|]|
    requires a == neurals[|links|][j] && next == neurals[|links| + 1]
    modifies arena`wiring, arena`ends, arena`weights, arena`draws
    ensures Linking(arena, W0, E0, neurals, links, j + 1, cur + row, g0, d0)
  {
    ghost var h0 := arena.State();
    ghost var e0 := arena.draws;
    DrawnNone(h0, e0, arena.rand);
    row := [];
    var k := 0;
    assert cur + row == cur && next[..0] == [];
    while k < |next|
      invariant Joining(arena, W0, E0, neurals, links, j, k, cur, row, h0, e0)
    {
      var l := JoinPair(arena, a, next[k], W0, E0, neurals, links, j, k, cur, row, h0, e0);
      row := row + [l];
      k := k + 1;
    }
    assert next[..|next|] == next;
    PairsStep(neurals[|links|], next, j);
    DrawnTransitive(g0, d0, h0, e0, arena.State(), arena.draws, arena.rand);
  }

  /** One turn of the k loop of fullConnection: a new link from neuron a,
      the j-th of its layer, to neuron b, the k-th of the next, connected
      both ways. */
  method JoinPair(arena: Arena, a: nat, b: nat, ghost W0: seq<Wiring>, ghost E0: seq<Endpoints>,
                  ghost neurals: seq<seq<nat>>, ghost links: seq<seq<nat>>, ghost j: nat, ghost k: nat,
                  ghost cur: seq<nat>, ghost row: seq<nat>, ghost g0: Net, ghost d0: nat)
    returns (l: nat)
    requires Joining(arena, W0, E0, neurals, links, j, k, cur, row, g0, d0) && k < |neurals[|links| + 1]|
    requires a == neurals[|links|][j] && b == neurals[|links| + 1][k]
    modifies arena`wiring, arena`ends, arena`weights, arena`draws
    ensures Joining(arena, W0, E0, neurals, links, j, k + 1, cur, row + [l], g0, d0)
  {
    ghost var h := arena.State();
    ghost var d := arena.draws;
    ConnectKinds(W0, E0, arena.wiring, neurals, |links|, j, k);
    l := NewLink(arena, a, b);
    JoinedStep(W0, E0, neurals, links, j, k, cur, row, g0, d0, h, d, arena.rand, arena.State(), l);
  }

  // The loops of learn, estimate and backPropagation, each over the arena
  // and the layers it walks.

  /** The set-inputs loop of learn and estimate: setValue(values[i]) on
      neuron i of the input layer, which accepts it. */
  method SetInputValues(arena: Arena, layer: seq<nat>, values: seq<real>)
    requires arena.Valid() && OfKind(arena.wiring, layer, InputNeural) && |layer| <= |values|
    modifies arena`activation
    ensures arena.Valid()
    ensures arena.State() == SetInputs(old(arena.State()), layer, values)
  {
    ghost var g := arena.State();
    var i := 0;
    while i < |layer|
      invariant 0 <= i <= |layer|
      invariant arena.Valid() && arena.State() == SetInputs(g, layer[..i], values)
    {
      assert layer[..i + 1][..i] == layer[..i];
      var o := arena.SetValue(layer[i], values[i]);
      i := i + 1;
    }
    assert layer[..i] == layer;
  }

  /** The loop of getClassMax over the output layer, as written:
      maxClassValue is read once from the first output neuron and is never
      updated, so every output is compared with the first one. */
  method MaxClass(arena: Arena, layer: seq<nat>) returns (maxClass: nat)
    requires arena.Valid() && Below(layer, |arena.wiring|) && |layer| > 0
    ensures maxClass == ClassMax(Outputs(arena.State(), layer))
  {
    ghost var values := Outputs(arena.State(), layer);
    maxClass := 0;
    var maxClassValue := arena.activation[layer[0]].outputValue;
    var i := 1;
    while i < |layer|
      invariant 1 <= i <= |layer|
      invariant maxClass == ClassMax(values[..i]) && maxClassValue == values[0]
    {
      var value := arena.activation[layer[i]].outputValue;
      assert values[..i + 1][..i] == values[..i] && values[..i + 1][0] == values[0];
      if value > maxClassValue {
        maxClass := i;
      }
      i := i + 1;
    }
    assert values[..i] == values;
  }

  /** The inner loop of the forward pass: forwardPropagation on each neuron
      of one layer, none of which is a bias neuron. */
  method PropagateLayer(arena: Arena, layer: seq<nat>)
    requires arena.Valid() && NoBias(arena.wiring, layer)
    modifies arena`activation
    ensures arena.Valid() && Below(layer, |old(arena.wiring)|)
    ensures arena.State() == ForwardAll(old(arena.State()), arena.curves, layer)
  {
    ghost var g := arena.State();
    var j := 0;
    while j < |layer|
      invariant 0 <= j <= |layer|
      invariant arena.Valid() && arena.State() == ForwardAll(g, arena.curves, layer[..j])
    {
      ghost var h := arena.State();
      var o := arena.ForwardPropagation(layer[j]);
      ForwardStep(g, arena.curves, layer, j, h, arena.State());
      j := j + 1;
    }
    assert layer[..j] == layer;
  }

  /** The forward pass of learn and estimate: every layer in order. */
  method PropagateAll(arena: Arena, neurals: seq<seq<nat>>)
    requires arena.Valid() && forall p :: 0 <= p < |neurals| ==> NoBias(arena.wiring, neurals[p])
    modifies arena`activation
    ensures arena.Valid() && Below(Flatten(neurals), |old(arena.wiring)|)
    ensures arena.State() == ForwardAll(old(arena.State()), arena.curves, Flatten(neurals))
  {
    ghost var g := arena.State();
    var i := 0;
    while i < |neurals|
      invariant 0 <= i <= |neurals| && Below(Flatten(neurals[..i]), |g.wiring|)
      invariant arena.Valid() && arena.State() == ForwardAll(g, arena.curves, Flatten(neurals[..i]))
    {
      assert neurals[..i + 1][..i] == neurals[..i];
      PropagateLayer(arena, neurals[i]);
      ForwardAllConcat(g, arena.curves, Flatten(neurals[..i]), neurals[i]);
      i := i + 1;
    }
    assert neurals[..i] == neurals;
  }

  /** The output-errors loop of learn: computeDeltaOutput(expected[j]) on
      neuron j of the output layer, which accepts it, collecting what it
      returns. */
  method ComputeOutputErrors(arena: Arena, layer: seq<nat>, expectedValues: seq<real>) returns (outputErrors: seq<real>)
    requires arena.Valid() && OfKind(arena.wiring, layer, OutputNeural) && |layer| <= |expectedValues|
    modifies arena`activation
    ensures arena.Valid()
    ensures arena.State() == DeltaOutputs(old(arena.State()), layer, expectedValues)
    ensures outputErrors == OutputErrors(old(arena.State()), layer, expectedValues)
  {
    ghost var g := arena.State();
    outputErrors := [];
    var j := 0;
    while j < |layer|
      invariant 0 <= j <= |layer|
      invariant arena.Valid() && arena.State() == DeltaOutputs(g, layer[..j], expectedValues)
      invariant outputErrors == OutputErrors(g, layer[..j], expectedValues)
    {
      ghost var h := arena.State();
      var r := arena.ComputeDeltaOutput(layer[j], expectedValues[j]);
      DeltaOutputStep(g, layer, expectedValues, j, h, arena.State(), r.value);
      outputErrors := outputErrors + [r.value];
      j := j + 1;
    }
    assert layer[..j] == layer;
  }

  /** The inner loop of backPropagation: backwardPropagation on each neuron
      of one layer, each a hidden or output neuron with an excitation. */
  method BackPropagateLayer(arena: Arena, layer: seq<nat>)
    requires arena.Valid() && Computable(arena.wiring, layer)
    modifies arena`activation, arena`weights
    ensures arena.Valid() && Excited(old(arena.wiring), layer)
    ensures arena.State() == BackwardAll(old(arena.State()), arena.curves, arena.learningRate, layer)
  {
    ghost var g := arena.State();
    ComputableExcited(g.wiring, layer);
    var j := 0;
    while j < |layer|
      invariant 0 <= j <= |layer|
      invariant arena.Valid() && arena.State() == BackwardAll(g, arena.curves, arena.learningRate, layer[..j])
    {
      ghost var h := arena.State();
      var o := arena.BackwardPropagation(layer[j]);
      BackwardStep(g, arena.curves, arena.learningRate, layer, j, h, arena.State());
      j := j + 1;
    }
    assert layer[..j] == layer;
  }

  /** The backward pass has done layers last, ..., i + 1 and left `h`. */
  ghost predicate BackwardSoFar(g: Net, c: Curves, learningRate: real, neurals: seq<seq<nat>>, i: nat, h: Net)
  {
    && Closed(g) && i < |neurals| && Excited(g.wiring, Down(neurals, i + 1))
    && h == BackwardAll(g, c, learningRate, Down(neurals, i + 1))
  }

  lemma BackwardLayerDone(g: Net, c: Curves, learningRate: real, neurals: seq<seq<nat>>, i: nat, h: Net, h': Net)
    requires BackwardSoFar(g, c, learningRate, neurals, i, h) && 1 <= i
    requires Excited(g.wiring, neurals[i]) && h' == BackwardAll(h, c, learningRate, neurals[i])
    ensures BackwardSoFar(g, c, learningRate, neurals, i - 1, h')
  {
    BackwardAllConcat(g, c, learningRate, Down(neurals, i + 1), neurals[i]);
    assert Down(neurals, i) == Down(neurals, i + 1) + neurals[i];
  }

  /** backPropagation: layers last, last - 1, ..., 1, never the input layer. */
  method BackPropagateAll(arena: Arena, neurals: seq<seq<nat>>, last: nat)
    requires arena.Valid() && last + 1 == |neurals|
    requires forall p :: 1 <= p < |neurals| ==> Computable(arena.wiring, neurals[p])
    modifies arena`activation, arena`weights
    ensures arena.Valid() && Excited(old(arena.wiring), Down(neurals, 1))
    ensures arena.State() == BackwardAll(old(arena.State()), arena.curves, arena.learningRate, Down(neurals, 1))
  {
    ghost var g := arena.State();
    var i: nat := last;
    assert Down(neurals, last + 1) == [];
    while i >= 1
      invariant i <= last && arena.Valid() && arena.wiring == g.wiring
      invariant BackwardSoFar(g, arena.curves, arena.learningRate, neurals, i, arena.State())
      decreases i
    {
      ghost var h := arena.State();
      BackPropagateLayer(arena, neurals[i]);
      BackwardLayerDone(g, arena.curves, arena.learningRate, neurals, i, h, arena.State());
      i := i - 1;
    }
  }

  /** The part of Network::learn between the checks and the loss: set the
      inputs, run the forward pass and compute the output deltas. */
  method RunForward(arena: Arena, neurals: seq<seq<nat>>, inputValues: seq<real>, expectedValues: seq<real>)
    returns (outputErrors: seq<real>)
    requires arena.Valid() && |neurals| >= 2 && Layered(arena.wiring, arena.ends, neurals, true)
    requires |neurals[0]| <= |inputValues| && |neurals[|neurals| - 1]| <= |expectedValues|
    modifies arena`activation
    ensures arena.Valid() && arena.wiring == old(arena.wiring) && arena.ends == old(arena.ends)
    ensures arena.State() == DeltaOutputs(Estimated(old(arena.State()), arena.curves, neurals, inputValues),
                                          neurals[|neurals| - 1], expectedValues)
    ensures outputErrors == LearnErrors(old(arena.State()), arena.curves, neurals, inputValues, expectedValues)
  {
    var last := |neurals| - 1;
    LayerKinds(arena.wiring, arena.ends, neurals, 0);
    LayerKinds(arena.wiring, arena.ends, neurals, last);
    AllLayerKinds(arena.wiring, arena.ends, neurals);
    ghost var g := arena.State();
    SetInputValues(arena, neurals[0], inputValues);
    PropagateAll(arena, neurals);
    assert arena.State() == Estimated(g, arena.curves, neurals, inputValues);
    outputErrors := ComputeOutputErrors(arena, neurals[last], expectedValues);
  }

  /** Network::learn on the arena, after its checks: the forward part, then
      backPropagation over layers |neurals| - 1, ..., 1. Every neuron after
      the input layer needs an excitation. */
  method TrainArena(arena: Arena, neurals: seq<seq<nat>>, inputValues: seq<real>, expectedValues: seq<real>)
    returns (outputErrors: seq<real>)
    requires arena.Valid() && |neurals| >= 2 && Layered(arena.wiring, arena.ends, neurals, true)
    requires |neurals[0]| <= |inputValues| && |neurals[|neurals| - 1]| <= |expectedValues|
    requires LayersExcited(arena.wiring, neurals)
    modifies arena`activation, arena`weights
    ensures arena.Valid() && arena.wiring == old(arena.wiring) && arena.ends == old(arena.ends)
    ensures arena.learningRate == old(arena.learningRate)
    ensures arena.State() == Trained(old(arena.State()), arena.curves, arena.learningRate, neurals, inputValues, expectedValues)
    ensures outputErrors == LearnErrors(old(arena.State()), arena.curves, neurals, inputValues, expectedValues)
  {
    ghost var g := arena.State();
    AllLayerKinds(arena.wiring, arena.ends, neurals);
    outputErrors := RunForward(arena, neurals, inputValues, expectedValues);
    ghost var d := arena.State();
    LayerBelow(neurals, |g.wiring|, |neurals| - 1);
    TrainedSteps(g, arena.curves, arena.learningRate, neurals, inputValues, expectedValues, d);
    BackPropagateAll(arena, neurals, |neurals| - 1);
  }

  /** A network: its layers of neuron indices and link indices into one arena. */
  class Network {
    /** Every neuron and link of this network, and the shared learning rate. */
    const arena: Arena
    /** The neuron layers: input layer first, output layer last once it is set. */
    var neurals: seq<seq<nat>>
    /** The link layers: layer i joins neuron layers i and i + 1. */
    var links: seq<seq<nat>>
    var isInputSet: bool
    var isOutputSet: bool
    var neuralsCount: nat
    var linksCount: nat
    var outputsCount: nat
    var lastNeuralLayerIndex: nat
    var loss: real
    const lossFunction: LossFunctionType

    /** The layout of the network: its neuron layers as the build phase lays
        them out, its link layers and its counts. Nothing in it depends on the
        activations, the weights or the loss, which learn and estimate change. */
    ghost predicate Shape()
      reads this`neurals, this`links, this`isInputSet, this`isOutputSet, this`neuralsCount,
            this`linksCount, this`outputsCount, this`lastNeuralLayerIndex, arena`wiring, arena`ends
    {
      NetworkLayout(arena.wiring, arena.ends, neurals, links, isInputSet, isOutputSet,
                    neuralsCount, linksCount, outputsCount, lastNeuralLayerIndex)
    }

    ghost predicate Valid()
      reads this, arena
    {
      arena.Valid() && Shape() && loss >= 0.0
    }

    /** Network::Network: no layer, nothing set, every count 0, loss 1.0, and
        the shared learning rate set. The source seeds `rand()` with the
        clock; here `rand` gives the values it returns, in order, and
        `curves` the two exp-based excitations. */
    constructor(learningRate: real, lossFunctionType: LossFunctionType, rand: nat -> RandomValue, curves: Curves)
      ensures Valid() && fresh(arena)
      ensures neurals == [] && links == []
      ensures !isInputSet && !isOutputSet
      ensures neuralsCount == 0 && linksCount == 0 && outputsCount == 0 && lastNeuralLayerIndex == 0
      ensures loss == 1.0 && lossFunction == lossFunctionType
      ensures arena.learningRate == learningRate
      ensures arena.wiring == [] && arena.activation == [] && arena.ends == [] && arena.weights == []
      ensures arena.draws == 0 && arena.rand == rand && arena.curves == curves
    {
      arena := new Arena(rand, curves);
      isInputSet := false;
      isOutputSet := false;
      neuralsCount := 0;
      linksCount := 0;
      outputsCount := 0;
      lastNeuralLayerIndex := 0;
      loss := 1.0;
      lossFunction := lossFunctionType;
      neurals := [];
      links := [];
      new;
      arena.SetLearningRate(learningRate);
    }

    /** The private Network::addLayer(t, nbN, aT, eT): nbN new neurons of
        kind t, each given its bias, appended as one more layer. */
    method AddLayerOfKind(t: NeuralType, nbN: nat, aT: AggregationType, eT: ExcitationType) returns (layer: seq<nat>)
      requires Valid() && !isOutputSet
      requires t.InputNeural? <==> !isInputSet
      requires t.InputNeural? ==> aT.NoAgg? && eT.NoExc?
      requires t.HiddenNeural? || t.OutputNeural? || t.InputNeural?
      modifies this`neurals, this`neuralsCount
      modifies arena`wiring, arena`activation, arena`ends, arena`weights, arena`draws
      ensures arena.Valid() && Extends(old(arena.State()), arena.State())
      ensures Layered(arena.wiring, arena.ends, neurals, t.OutputNeural?)
      ensures Wired(arena.wiring, arena.ends, neurals, [])
      ensures neurals == old(neurals) + [layer] && |layer| == nbN
      ensures neuralsCount == old(neuralsCount) + nbN == TotalSize(neurals)
      ensures forall m :: 0 <= m < nbN ==> FreshNeuron(arena.State(), layer[m], t, aT, eT)
      ensures isInputSet == old(isInputSet) && isOutputSet == old(isOutputSet) && loss == old(loss)
      ensures links == old(links) && linksCount == old(linksCount)
      ensures DrawnWeights(old(arena.State()), old(arena.draws), arena.State(), arena.draws, arena.rand)
    {
      ghost var g0 := arena.State();
      ghost var d0 := arena.draws;
      layer := [];
      var i := 0;
      assert g0.wiring[..|g0.wiring|] == g0.wiring && g0.activation[..|g0.activation|] == g0.activation;
      assert g0.ends[..|g0.ends|] == g0.ends && g0.weights[..|g0.weights|] == g0.weights;
      DrawnNone(g0, d0, arena.rand);
      while i < nbN
        invariant 0 <= i <= nbN && |layer| == i
        invariant neurals == old(neurals) && neuralsCount == old(neuralsCount)
        invariant arena.Valid() && LaidSoFar(g0, arena.State(), layer, t, aT, eT)
        invariant DrawnWeights(g0, d0, arena.State(), arena.draws, arena.rand)
      {
        ghost var h := arena.State();
        ghost var e := arena.draws;
        var n := AddNeuron(arena, t, aT, eT, g0, layer);
        DrawnTransitive(g0, d0, h, e, arena.State(), arena.draws, arena.rand);
        layer := layer + [n];
        i := i + 1;
      }
      neurals := neurals + [layer];
      neuralsCount := neuralsCount + nbN;
      LayerFinished(g0, arena.State(), old(neurals), layer, t, aT, eT);
    }
  
    /** Network::addInputLayer: the first layer, of input neurons without
        aggregation, excitation or bias; it can be added only once. */
    method AddInputLayer(nbN: nat) returns (o: Outcome)
      requires Valid()
      modifies this`neurals, this`neuralsCount, this`isInputSet
      modifies arena`wiring, arena`activation, arena`ends, arena`weights, arena`draws
      ensures Valid()
      ensures o == if old(isInputSet) then Fail(InputLayerAlreadySet) else Pass
      ensures o.Fail? ==> neurals == old(neurals) && neuralsCount == old(neuralsCount) && isInputSet
      ensures o.Fail? ==> arena.State() == old(arena.State()) && arena.draws == old(arena.draws)
      ensures o.Pass? ==> && isInputSet && |neurals| == 1 && |neurals[0]| == nbN && neuralsCount == nbN
                          && Extends(old(arena.State()), arena.State())
                          && forall m :: 0 <= m < nbN ==> FreshNeuron(arena.State(), neurals[0][m], InputNeural, NoAgg, NoExc)
    {
      if !isInputSet {
        var layer := AddLayerOfKind(InputNeural, nbN, NoAgg, NoExc);
        isInputSet := true;
        o := Pass;
      } else {
        o := Fail(InputLayerAlreadySet);
      }
    }

    /** The guard of the public addLayer and of addOutputLayer: the input
        layer must be set and the output layer not yet. */
    function LayerGuard(): (o: Outcome)
      reads this
      ensures o.Pass? <==> isInputSet && !isOutputSet
      ensures o == Fail(InputLayerNotSet) <==> !isInputSet
      ensures o == Fail(OutputLayerAlreadySet) <==> isInputSet && isOutputSet
    {
      if isInputSet && !isOutputSet then Pass
      else if !isInputSet then Fail(InputLayerNotSet)
      else Fail(OutputLayerAlreadySet)
    }

    /** Network::addLayer(nbN, aT, eT): one more layer of hidden neurons,
        each with its bias. */
    method AddLayer(nbN: nat, aT: AggregationType, eT: ExcitationType) returns (o: Outcome)
      requires Valid()
      modifies this`neurals, this`neuralsCount
      modifies arena`wiring, arena`activation, arena`ends, arena`weights, arena`draws
      ensures Valid()
      ensures o == old(LayerGuard())
      ensures o.Fail? ==> neurals == old(neurals) && neuralsCount == old(neuralsCount)
      ensures o.Fail? ==> arena.State() == old(arena.State()) && arena.draws == old(arena.draws)
      ensures o.Pass? ==> && |neurals| == |old(neurals)| + 1 && neurals[..|old(neurals)|] == old(neurals)
                          && |neurals[|old(neurals)|]| == nbN
                          && neuralsCount == old(neuralsCount) + nbN
                          && Extends(old(arena.State()), arena.State())
                          && DrawnWeights(old(arena.State()), old(arena.draws), arena.State(), arena.draws, arena.rand)
                          && forall m :: 0 <= m < nbN ==> FreshNeuron(arena.State(), neurals[|old(neurals)|][m], HiddenNeural, aT, eT)
    {
      o := LayerGuard();
      if o.Pass? {
        var layer := AddLayerOfKind(HiddenNeural, nbN, aT, eT);
      }
    }

    /** Network::addOutputLayer(nbN, aT, eT): the last layer, of output
        neurons each with its bias, after which fullConnection wires every
        pair of consecutive layers. */
    method AddOutputLayer(nbN: nat, aT: AggregationType, eT: ExcitationType) returns (o: Outcome)
      requires Valid()
      modifies this`neurals, this`neuralsCount, this`isOutputSet
      modifies this`links, this`linksCount, this`outputsCount, this`lastNeuralLayerIndex
      modifies arena`wiring, arena`activation, arena`ends, arena`weights, arena`draws
      ensures Valid()
      ensures o == old(LayerGuard())
      ensures o.Fail? ==> && neurals == old(neurals) && neuralsCount == old(neuralsCount) && isOutputSet == old(isOutputSet)
                          && links == old(links) && linksCount == old(linksCount)
                          && outputsCount == old(outputsCount) && lastNeuralLayerIndex == old(lastNeuralLayerIndex)
      ensures o.Fail? ==> arena.State() == old(arena.State()) && arena.draws == old(arena.draws)
      ensures o.Pass? ==> && isOutputSet
                          && |neurals| == |old(neurals)| + 1 && neurals[..|old(neurals)|] == old(neurals)
                          && |neurals[|old(neurals)|]| == nbN
                          && neuralsCount == old(neuralsCount) + nbN
                          && linksCount == LinkCount(neurals)
                          && Grown(old(arena.State()), old(arena.draws), arena.State(), arena.draws, arena.rand)
                          && OutputsBiased(arena.wiring, arena.activation, neurals[|old(neurals)|], aT, eT)
                          && |arena.wiring| >= |old(arena.wiring)|
                          && SameButLists(old(arena.wiring), arena.wiring[..|old(arena.wiring)|])
    {
      o := LayerGuard();
      if o.Pass? {
        var layer := AddLayerOfKind(OutputNeural, nbN, aT, eT);
        LastAppended(old(neurals), layer);
        isOutputSet := true;
        ghost var g0 := arena.State();
        ghost var d0 := arena.draws;
        BuiltStart(g0.wiring, g0.ends, neurals);
        FullConnection(g0, d0);
        Connected(g0, d0);
        FreshKept(g0, arena.wiring, layer, OutputNeural, aT, eT);
        GrownByConnection(old(arena.State()), old(arena.draws), g0, d0, arena.State(), arena.draws, arena.rand);
        SameButListsPrefix(old(arena.wiring), g0.wiring, arena.wiring);
      }
    }

    /** Network::fullConnection: link layer i joins every neuron of layer i
        to every neuron of layer i + 1, and linksCount grows by the product
        of their sizes; g0 and d0 are the arena and the number of draws
        before the call. */
    method FullConnection(ghost g0: Net, ghost d0: nat)
      requires arena.Valid() && links == [] && linksCount == 0 && |neurals| >= 2
      requires g0 == arena.State() && d0 == arena.draws
      requires Built(g0.wiring, g0.ends, arena.wiring, arena.ends, neurals, links)
      modifies this`links, this`linksCount, this`outputsCount, this`lastNeuralLayerIndex
      modifies arena`wiring, arena`ends, arena`weights, arena`draws
      ensures |links| + 1 == |neurals|
      ensures outputsCount == |neurals[|neurals| - 1]| && lastNeuralLayerIndex == |neurals| - 1
      ensures BuiltSoFar(g0, d0, arena.State(), arena.draws, arena.rand, neurals, links)
      ensures linksCount == TotalSize(links)
      ensures isInputSet == old(isInputSet) && neurals == old(neurals) && isOutputSet == old(isOutputSet)
      ensures neuralsCount == old(neuralsCount) && loss == old(loss)
    {
      outputsCount := |neurals[|neurals| - 1]|;
      lastNeuralLayerIndex := |neurals| - 1;
      links, linksCount := LinkAll(arena, neurals, lastNeuralLayerIndex, g0, d0);
    }

    /** Once every link layer is built, the network is valid again. */
    lemma Connected(g0: Net, d0: nat)
      requires |links| + 1 == |neurals| && |neurals| >= 2
      requires BuiltSoFar(g0, d0, arena.State(), arena.draws, arena.rand, neurals, links)
      requires (isInputSet <==> |neurals| > 0) && neuralsCount == TotalSize(neurals)
      requires isOutputSet && loss >= 0.0 && linksCount == TotalSize(links)
      requires lastNeuralLayerIndex == |neurals| - 1 && outputsCount == |neurals[|neurals| - 1]|
      ensures Valid() && linksCount == LinkCount(neurals)
      ensures SameButLists(g0.wiring, arena.wiring)
      ensures |arena.ends| >= |g0.ends| && arena.ends[..|g0.ends|] == g0.ends
      ensures DrawnWeights(g0, d0, arena.State(), arena.draws, arena.rand)
    {
      BuiltEnd(g0.wiring, g0.ends, arena.wiring, arena.ends, neurals, links);
    }

    /** Network::getNeuralAt: a layer index past the end, or a position past
        the end of its layer, is out of bound; an index equal to the size
        passes that check and fails in `at`. */
    function NeuralAt(layer: nat, neuralPos: nat): (r: Result<nat>)
      reads this
      ensures r.Ok? <==> layer < |neurals| && neuralPos < |neurals[layer]|
      ensures r.Ok? ==> r.value == neurals[layer][neuralPos]
      ensures r == Err(LayerOutOfBound) <==> |neurals| < layer
      ensures r == Err(PositionOutOfBound) <==> layer < |neurals| && |neurals[layer]| < neuralPos
      ensures r.Err? ==> r.error.LayerOutOfBound? || r.error.PositionOutOfBound? || r.error.OutOfRange?
    {
      if |neurals| < layer then Err(LayerOutOfBound)
      else if layer == |neurals| then Err(OutOfRange)
      else if |neurals[layer]| < neuralPos then Err(PositionOutOfBound)
      else if neuralPos == |neurals[layer]| then Err(OutOfRange)
      else Ok(neurals[layer][neuralPos])
    }

    /** Network::getNeuralAtTheLastLayer: once the output layer is set, its
        outputsCount neurons are exactly the positions that succeed. */
    function NeuralAtTheLastLayer(neuralPos: nat): (r: Result<nat>)
      reads this, arena
      ensures Valid() && isOutputSet ==> (r.Ok? <==> neuralPos < outputsCount)
      ensures Valid() && isOutputSet && neuralPos == outputsCount ==> r == Err(OutOfRange)
      ensures r.Ok? ==> lastNeuralLayerIndex < |neurals| && neuralPos < |neurals[lastNeuralLayerIndex]|
                        && r.value == neurals[lastNeuralLayerIndex][neuralPos]
    {
      NeuralAt(lastNeuralLayerIndex, neuralPos)
    }

    /** Network::getLinkAt, with the same checks as getNeuralAt. */
    function LinkAt(layer: nat, linkPos: nat): (r: Result<nat>)
      reads this
      ensures r.Ok? <==> layer < |links| && linkPos < |links[layer]|
      ensures r.Ok? ==> r.value == links[layer][linkPos]
      ensures r == Err(LayerOutOfBound) <==> |links| < layer
      ensures r == Err(PositionOutOfBound) <==> layer < |links| && |links[layer]| < linkPos
      ensures r.Err? ==> r.error.LayerOutOfBound? || r.error.PositionOutOfBound? || r.error.OutOfRange?
    {
      if |links| < layer then Err(LayerOutOfBound)
      else if layer == |links| then Err(OutOfRange)
      else if |links[layer]| < linkPos then Err(PositionOutOfBound)
      else if linkPos == |links[layer]| then Err(OutOfRange)
      else Ok(links[layer][linkPos])
    }

    /** Network::getClassMax: the last output neuron whose output value
        exceeds the first one's, or 0. An empty output layer fails in `at(0)`. */
    method GetClassMax() returns (r: Result<nat>)
      requires Valid() && isOutputSet
      ensures r == if outputsCount == 0 then Err(OutOfRange)
                   else Ok(ClassMax(Outputs(arena.State(), neurals[lastNeuralLayerIndex])))
    {
      var first := NeuralAtTheLastLayer(0);
      if first.Err? {
        return Err(first.error);
      }
      LayerBelow(neurals, |arena.wiring|, lastNeuralLayerIndex);
      var maxClass := MaxClass(arena, neurals[lastNeuralLayerIndex]);
      r := Ok(maxClass);
    }

    /** The checks learn and estimate make before touching any neuron: the
        input layer, then the output layer, then the input values. */
    function InputGuard(inputCount: nat): (o: Outcome)
      reads this
      requires isInputSet ==> |neurals| > 0
      ensures o.Pass? <==> isInputSet && isOutputSet && |neurals[0]| <= inputCount
      ensures o == Fail(InputLayerNotSet) <==> !isInputSet
      ensures o == Fail(OutputLayerNotSet) <==> isInputSet && !isOutputSet
      ensures o == Fail(InputValuesTooShort) <==> isInputSet && isOutputSet && inputCount < |neurals[0]|
    {
      if !isInputSet then Fail(InputLayerNotSet)
      else if !isOutputSet then Fail(OutputLayerNotSet)
      else if inputCount < |neurals[0]| then Fail(InputValuesTooShort)
      else Pass
    }

    /** The checks of learn: those of InputGuard, then the expected values. */
    function LearnGuard(inputCount: nat, expectedCount: nat): (o: Outcome)
      reads this
      requires isInputSet ==> |neurals| > 0
      requires isOutputSet ==> lastNeuralLayerIndex < |neurals|
      ensures InputGuard(inputCount).Fail? ==> o == InputGuard(inputCount)
      ensures o.Pass? <==> InputGuard(inputCount).Pass? && |neurals[lastNeuralLayerIndex]| <= expectedCount
      ensures o == Fail(ExpectedValuesTooShort)
          <==> InputGuard(inputCount).Pass? && expectedCount < |neurals[lastNeuralLayerIndex]|
    {
      var o := InputGuard(inputCount);
      if o.Fail? then o
      else if expectedCount < |neurals[lastNeuralLayerIndex]| then Fail(ExpectedValuesTooShort)
      else Pass
    }

    /** Network::getLoss: the loss of the last learn, 1.0 before any. */
    function GetLoss(): (r: real)
      reads this, arena
      requires Valid()
      ensures r >= 0.0
    {
      loss
    }

    /** Network::backPropagation: backwardPropagation on every neuron of
        layers lastNeuralLayerIndex, ..., 1, in order within each layer.
        setDelta dereferences the excitation of each of those neurons. */
    method BackPropagation()
      requires Valid() && isOutputSet && LayersExcited(arena.wiring, neurals)
      modifies arena`activation, arena`weights
      ensures Valid() && Excited(old(arena.wiring), Down(neurals, 1))
      ensures arena.State() == BackwardAll(old(arena.State()), arena.curves, arena.learningRate, Down(neurals, 1))
    {
      AllLayerKinds(arena.wiring, arena.ends, neurals);
      BackPropagateAll(arena, neurals, lastNeuralLayerIndex);
    }

    /** The loss step of Network::learn: lossFunction->compute on the output
        errors, which is Mse::compute (the only loss there is). */
    method UpdateLoss(outputErrors: seq<real>)
      requires arena.Valid() && Shape() && |outputErrors| > 0
      modifies this`loss
      ensures Valid() && loss == Mse.MeanSquaredError(outputErrors)
    {
      Mse.MseNonNegative(outputErrors);
      loss := Mse.Compute(outputErrors);
    }

    /** The steps of Network::learn after its checks: set the inputs, run
        the forward pass, compute the output deltas, the loss from them, and
        run backPropagation (in TrainArena; the loss, which backPropagation
        does not read, is stored last). */
    method Train(inputValues: seq<real>, expectedValues: seq<real>)
      requires Valid() && isOutputSet && outputsCount > 0 && LayersExcited(arena.wiring, neurals)
      requires |neurals[0]| <= |inputValues| && outputsCount <= |expectedValues|
      modifies this`loss, arena`activation, arena`weights
      ensures Valid()
      ensures arena.State() == old(Trained(arena.State(), arena.curves, arena.learningRate, neurals, inputValues, expectedValues))
      ensures loss == old(Mse.MeanSquaredError(LearnErrors(arena.State(), arena.curves, neurals, inputValues, expectedValues)))
    {
      var outputErrors := TrainArena(arena, neurals, inputValues, expectedValues);
      UpdateLoss(outputErrors);
    }

    /** The arena and the loss a learn that passes its checks leaves behind:
        the arena Trained from its current state, and the mean squared error
        of the output errors. */
    ghost function Learned(inputValues: seq<real>, expectedValues: seq<real>): (Net, real)
      reads this, arena
      requires Valid() && LearnGuard(|inputValues|, |expectedValues|).Pass?
      requires outputsCount > 0 && LayersExcited(arena.wiring, neurals)
    {
      (Trained(arena.State(), arena.curves, arena.learningRate, neurals, inputValues, expectedValues),
       Mse.MeanSquaredError(LearnErrors(arena.State(), arena.curves, neurals, inputValues, expectedValues)))
    }

    /** Network::learn: after the checks, the steps of Train. A failed check
        changes nothing. When the checks pass, every neuron after the input
        layer needs an excitation, which setDelta dereferences, and the output
        layer must not be empty, or the loss is not a number. */
    method Learn(inputValues: seq<real>, expectedValues: seq<real>) returns (o: Outcome)
      requires Valid()
      requires LearnGuard(|inputValues|, |expectedValues|).Pass? ==> outputsCount > 0 && LayersExcited(arena.wiring, neurals)
      modifies this`loss, arena`activation, arena`weights
      ensures Valid()
      ensures o == old(LearnGuard(|inputValues|, |expectedValues|))
      ensures o.Fail? ==> arena.State() == old(arena.State()) && loss == old(loss)
      ensures o.Pass? ==> (arena.State(), loss) == old(Learned(inputValues, expectedValues))
    {
      o := LearnGuard(|inputValues|, |expectedValues|);
      if o.Fail? {
        return;
      }
      Train(inputValues, expectedValues);
    }

    /** Network::estimate: after the checks of learn on the input values, set
        the inputs, run the forward pass and report getClassMax. Neither the
        weights nor the loss change. */
    method Estimate(inputValue: seq<real>) returns (r: Result<nat>)
      requires Valid()
      modifies arena`activation
      ensures Valid()
      ensures old(InputGuard(|inputValue|)).Fail? ==>
        r == Err(old(InputGuard(|inputValue|)).error) && arena.State() == old(arena.State())
      ensures old(InputGuard(|inputValue|)).Pass? ==>
        && arena.State() == Estimated(old(arena.State()), arena.curves, neurals, inputValue)
        && r == if outputsCount == 0 then Err(OutOfRange)
                else Ok(ClassMax(Outputs(arena.State(), neurals[lastNeuralLayerIndex])))
    {
      var o := InputGuard(|inputValue|);
      if o.Fail? {
        return Err(o.error);
      }
      LayerKinds(arena.wiring, arena.ends, neurals, 0);
      AllLayerKinds(arena.wiring, arena.ends, neurals);
      SetInputValues(arena, neurals[0], inputValue);
      PropagateAll(arena, neurals);
      r := GetClassMax();
    }
  }
}
