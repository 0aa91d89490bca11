/** The layered shape of a network (Network.cpp), stated on values: the
    neuron layers `neurals`, the link layers `links`, and what they say
    about the neurons and links of the arena. */
module Layers {
  import opened Results
  import opened Graph
  import opened Neural

  /** The number of neurons in all layers (bias neurons are not in any layer). */
  function TotalSize(ls: seq<seq<nat>>): nat
  {
    if ls == [] then 0 else TotalSize(ls[..|ls| - 1]) + |ls[|ls| - 1]|
  }

  lemma TotalSizeAppend(ls: seq<seq<nat>>, x: seq<nat>)
    ensures TotalSize(ls + [x]) == TotalSize(ls) + |x|
  {
    assert (ls + [x])[..|ls|] == ls;
  }

  /** The number of links full connection creates: the sum of
      size(i) * size(i + 1) over consecutive layers. */
  function LinkCount(ls: seq<seq<nat>>): nat
  {
    if |ls| < 2 then 0 else LinkCount(ls[..|ls| - 1]) + |ls[|ls| - 2]| * |ls[|ls| - 1]|
  }

  /** The layers one after the other, first layer first. */
  function Flatten(ls: seq<seq<nat>>): seq<nat>
  {
    if ls == [] then [] else Flatten(ls[..|ls| - 1]) + ls[|ls| - 1]
  }

  /** Layers i, i + 1, ... one after the other, the last layer first and
      each layer in order: how backPropagation visits them from i = 1. */
  function Down(ls: seq<seq<nat>>, i: nat): seq<nat>
    decreases |ls| - i
  {
    if i >= |ls| then [] else Down(ls, i + 1) + ls[i]
  }

  /** The links from `a` to each neuron of `next`, in order. */
  function Row(a: nat, next: seq<nat>): seq<Endpoints>
  {
    if next == [] then [] else Row(a, next[..|next| - 1]) + [Endpoints(a, next[|next| - 1])]
  }

  /** The links from each neuron of `prev` to each neuron of `next`, in the
      order fullConnection creates them: source-major. */
  function Pairs(prev: seq<nat>, next: seq<nat>): seq<Endpoints>
  {
    if prev == [] then [] else Pairs(prev[..|prev| - 1], next) + Row(prev[|prev| - 1], next)
  }

  /** The endpoints of the links `ls`. */
  function EndsOf(ends: seq<Endpoints>, ls: seq<nat>): seq<Endpoints>
    requires Below(ls, |ends|)
  {
    if ls == [] then [] else EndsOf(ends, ls[..|ls| - 1]) + [ends[ls[|ls| - 1]]]
  }

  /** The links of `ls` that leave neuron n, in order. */
  function Leaving(ends: seq<Endpoints>, ls: seq<nat>, n: nat): seq<nat>
    requires Below(ls, |ends|)
  {
    if ls == [] then []
    else Leaving(ends, ls[..|ls| - 1], n) + (if ends[ls[|ls| - 1]].previous == n then [ls[|ls| - 1]] else [])
  }

  /** The links of `ls` that enter neuron n, in order. */
  function Entering(ends: seq<Endpoints>, ls: seq<nat>, n: nat): seq<nat>
    requires Below(ls, |ends|)
  {
    if ls == [] then []
    else Entering(ends, ls[..|ls| - 1], n) + (if ends[ls[|ls| - 1]].next == n then [ls[|ls| - 1]] else [])
  }

  /** The link from its bias neuron, which addBias puts first among a
      neuron's input links. */
  function BiasPrefix(w: Wiring): seq<nat>
  {
    if w.biasLink.Some? then [w.biasLink.value] else []
  }

  /** The link layer leaving neuron layer p, and the one entering it. */
  function OutLayer(lls: seq<seq<nat>>, p: nat): seq<nat>
  {
    if p < |lls| then lls[p] else []
  }

  function InLayer(lls: seq<seq<nat>>, p: nat): seq<nat>
  {
    if 0 < p <= |lls| then lls[p - 1] else []
  }

  /** The kind of the neurons of layer p out of `count`. */
  function LayerKind(p: nat, count: nat, outputSet: bool): NeuralType
  {
    if p == 0 then InputNeural
    else if outputSet && p == count - 1 then OutputNeural
    else HiddenNeural
  }

  predicate InArena(neurals: seq<seq<nat>>, bound: nat)
  {
    forall p, j :: 0 <= p < |neurals| && 0 <= j < |neurals[p]| ==> neurals[p][j] < bound
  }

  /** Neuron j of layer p. DistinctLayers speaks through this name, so that
      it is used only where a proof names the positions it compares. */
  function At(neurals: seq<seq<nat>>, p: nat, j: nat): nat
    requires p < |neurals| && j < |neurals[p]|
  {
    neurals[p][j]
  }

  /** No neuron is in two places of the layers. */
  predicate DistinctLayers(neurals: seq<seq<nat>>)
  {
    forall p, j, q, k {:trigger At(neurals, p, j), At(neurals, q, k)} ::
      (0 <= p < |neurals| && 0 <= j < |neurals[p]| && 0 <= q < |neurals| && 0 <= k < |neurals[q]|
       && At(neurals, p, j) == At(neurals, q, k)) ==> p == q && j == k
  }

  predicate LinkLayersBelow(lls: seq<seq<nat>>, bound: nat)
  {
    forall q :: 0 <= q < |lls| ==> Below(lls[q], bound)
  }

  /** Neuron n as addLayer builds it for a layer of `kind`: an input neuron
      has neither aggregation, excitation nor bias; any other neuron owns a
      bias neuron and the link from it. */
  predicate NeuronOfKind(ws: seq<Wiring>, ends: seq<Endpoints>, n: nat, kind: NeuralType)
  {
    && n < |ws|
    && ws[n].kind == kind
    && (kind.InputNeural? ==>
          ws[n].aggregation.NoAgg? && ws[n].excitation.NoExc? && ws[n].biasNeural.None? && ws[n].biasLink.None?)
    && (!kind.InputNeural? ==>
          && ws[n].biasNeural.Some? && ws[n].biasLink.Some?
          && ws[n].biasNeural.value < |ws| && ws[ws[n].biasNeural.value].kind.BiasNeural?
          && ws[n].biasLink.value < |ends| && ends[ws[n].biasLink.value] == Endpoints(ws[n].biasNeural.value, n))
  }

  /** The neuron layers: in the arena, distinct, and each neuron of the kind of its layer. */
  predicate Layered(ws: seq<Wiring>, ends: seq<Endpoints>, neurals: seq<seq<nat>>, outputSet: bool)
  {
    && InArena(neurals, |ws|)
    && DistinctLayers(neurals)
    && (forall p, j :: 0 <= p < |neurals| && 0 <= j < |neurals[p]| ==>
          NeuronOfKind(ws, ends, neurals[p][j], LayerKind(p, |neurals|, outputSet)))
  }

  /** The link lists of every layer neuron: its output links are the links
      of the link layer after it that leave it, and its input links are its
      bias link followed by the links of the link layer before it that
      enter it. */
  predicate Wired(ws: seq<Wiring>, ends: seq<Endpoints>, neurals: seq<seq<nat>>, lls: seq<seq<nat>>)
  {
    && InArena(neurals, |ws|)
    && LinkLayersBelow(lls, |ends|)
    && (forall p, j :: 0 <= p < |neurals| && 0 <= j < |neurals[p]| ==> NeuronWired(ws, ends, lls, neurals[p][j], p))
  }

  /** Wired for neuron n of layer p. */
  predicate NeuronWired(ws: seq<Wiring>, ends: seq<Endpoints>, lls: seq<seq<nat>>, n: nat, p: nat)
  {
    && n < |ws|
    && Below(OutLayer(lls, p), |ends|) && Below(InLayer(lls, p), |ends|)
    && ws[n].outputLinks == Leaving(ends, OutLayer(lls, p), n)
    && ws[n].inputLinks == BiasPrefix(ws[n]) + Entering(ends, InLayer(lls, p), n)
  }

  /** Link layer q joins every neuron of layer q to every neuron of layer q + 1. */
  predicate FullyConnected(ends: seq<Endpoints>, neurals: seq<seq<nat>>, lls: seq<seq<nat>>)
  {
    && |lls| + 1 == |neurals|
    && LinkLayersBelow(lls, |ends|)
    && (forall q :: 0 <= q < |lls| ==> EndsOf(ends, lls[q]) == Pairs(neurals[q], neurals[q + 1]))
  }

  /** What a Network keeps true of its layers and counts between its
      operations, given the wiring and the link ends of its arena. */
  predicate NetworkLayout(ws: seq<Wiring>, ends: seq<Endpoints>, neurals: seq<seq<nat>>, lls: seq<seq<nat>>,
                          isInputSet: bool, isOutputSet: bool, neuralsCount: nat, linksCount: nat,
                          outputsCount: nat, lastNeuralLayerIndex: nat)
  {
    && Layered(ws, ends, neurals, isOutputSet)
    && (isInputSet <==> |neurals| > 0)
    && neuralsCount == TotalSize(neurals)
    && Wired(ws, ends, neurals, lls)
    && linksCount == TotalSize(lls)
    && (isOutputSet ==>
          && |neurals| >= 2
          && FullyConnected(ends, neurals, lls)
          && lastNeuralLayerIndex == |neurals| - 1
          && outputsCount == |neurals[|neurals| - 1]|)
    && (!isOutputSet ==> lls == [] && lastNeuralLayerIndex == 0 && outputsCount == 0)
  }

  /** Only the link lists differ. */
  predicate SameButLists(ws: seq<Wiring>, ws': seq<Wiring>)
  {
    && |ws| == |ws'|
    && (forall m :: 0 <= m < |ws| ==> SameNeuronButLists(ws[m], ws'[m]))
  }

  predicate SameNeuronButLists(w: Wiring, w': Wiring)
  {
    && w'.kind == w.kind && w'.aggregation == w.aggregation && w'.excitation == w.excitation
    && w'.biasNeural == w.biasNeural && w'.biasLink == w.biasLink
  }

  /** A link layer being built: the links so far, and the neuron layers around them. */
  predicate Connecting(W0: seq<Wiring>, E0: seq<Endpoints>, ws: seq<Wiring>, ends: seq<Endpoints>,
                       neurals: seq<seq<nat>>, links: seq<seq<nat>>, cur: seq<nat>)
  {
    && Layered(W0, E0, neurals, true)
    && SameButLists(W0, ws)
    && |ends| >= |E0| && ends[..|E0|] == E0
    && |links| + 1 < |neurals|
    && LinkLayersBelow(links, |ends|)
    && Below(cur, |ends|)
    && Wired(ws, ends, neurals, links + [cur])
    && (forall q :: 0 <= q < |links| ==> EndsOf(ends, links[q]) == Pairs(neurals[q], neurals[q + 1]))
  }

  // Appending one link to a list.

  lemma EndsOfAppend(ends: seq<Endpoints>, ls: seq<nat>, l: nat)
    requires Below(ls, |ends|) && l < |ends|
    ensures Below(ls + [l], |ends|)
    ensures EndsOf(ends, ls + [l]) == EndsOf(ends, ls) + [ends[l]]
  {
    assert (ls + [l])[..|ls|] == ls;
  }

  lemma LeavingAppend(ends: seq<Endpoints>, ls: seq<nat>, l: nat, n: nat)
    requires Below(ls, |ends|) && l < |ends|
    ensures Below(ls + [l], |ends|)
    ensures Leaving(ends, ls + [l], n) == Leaving(ends, ls, n) + (if ends[l].previous == n then [l] else [])
  {
    assert (ls + [l])[..|ls|] == ls;
  }

  lemma EnteringAppend(ends: seq<Endpoints>, ls: seq<nat>, l: nat, n: nat)
    requires Below(ls, |ends|) && l < |ends|
    ensures Below(ls + [l], |ends|)
    ensures Entering(ends, ls + [l], n) == Entering(ends, ls, n) + (if ends[l].next == n then [l] else [])
  {
    assert (ls + [l])[..|ls|] == ls;
  }

  // Creating a link does not change what the existing links join.

  lemma {:induction false} EndsOfGrow(ends: seq<Endpoints>, e: Endpoints, ls: seq<nat>)
    requires Below(ls, |ends|)
    ensures Below(ls, |ends + [e]|) && EndsOf(ends + [e], ls) == EndsOf(ends, ls)
  {
    if ls != [] {
      EndsOfGrow(ends, e, ls[..|ls| - 1]);
    }
  }

  lemma {:induction false} LeavingGrow(ends: seq<Endpoints>, e: Endpoints, ls: seq<nat>, n: nat)
    requires Below(ls, |ends|)
    ensures Below(ls, |ends + [e]|) && Leaving(ends + [e], ls, n) == Leaving(ends, ls, n)
  {
    if ls != [] {
      LeavingGrow(ends, e, ls[..|ls| - 1], n);
    }
  }

  lemma {:induction false} EnteringGrow(ends: seq<Endpoints>, e: Endpoints, ls: seq<nat>, n: nat)
    requires Below(ls, |ends|)
    ensures Below(ls, |ends + [e]|) && Entering(ends + [e], ls, n) == Entering(ends, ls, n)
  {
    if ls != [] {
      EnteringGrow(ends, e, ls[..|ls| - 1], n);
    }
  }

  /** Link l = a -> b, created and connected in both directions, extends the
      link layer being built and the link lists of exactly a and b. */
  lemma WiredStep(ws: seq<Wiring>, ends: seq<Endpoints>, neurals: seq<seq<nat>>, links: seq<seq<nat>>,
                  cur: seq<nat>, j: nat, k: nat, a: nat, b: nat, l: nat, ws': seq<Wiring>, ends': seq<Endpoints>)
    requires DistinctLayers(neurals) && Wired(ws, ends, neurals, links + [cur])
    requires |links| + 1 < |neurals| && j < |neurals[|links|]| && k < |neurals[|links| + 1]|
    requires a == neurals[|links|][j] && b == neurals[|links| + 1][k] && a < |ws| && b < |ws| && l == |ends|
    requires ws' == WithOutputLink(WithInputLink(ws, b, l), a, l)
    requires ends' == ends + [Endpoints(a, b)]
    ensures Wired(ws', ends', neurals, links + [cur + [l]])
  {
    var lls := links + [cur];
    var lls' := links + [cur + [l]];
    assert lls[..|links|] == links;
    LinkLayersStep(ends, Endpoints(a, b), lls);
    assert |ws'| == |ws|;
    forall p, m | 0 <= p < |neurals| && 0 <= m < |neurals[p]|
      ensures NeuronWired(ws', ends', lls', neurals[p][m], p)
    {
      assert NeuronWired(ws, ends, lls, neurals[p][m], p);
      NeuronWiredStep(ws, ends, neurals, links, cur, j, k, a, b, l, ws', ends', p, m);
    }
  }

  /** WiredStep for the neuron at position m of layer p. */
  lemma NeuronWiredStep(ws: seq<Wiring>, ends: seq<Endpoints>, neurals: seq<seq<nat>>, links: seq<seq<nat>>,
                        cur: seq<nat>, j: nat, k: nat, a: nat, b: nat, l: nat, ws': seq<Wiring>, ends': seq<Endpoints>,
                        p: nat, m: nat)
    requires DistinctLayers(neurals) && LinkLayersBelow(links + [cur], |ends|)
    requires |links| + 1 < |neurals| && j < |neurals[|links|]| && k < |neurals[|links| + 1]|
    requires a == neurals[|links|][j] && b == neurals[|links| + 1][k] && a < |ws| && b < |ws| && l == |ends|
    requires p < |neurals| && m < |neurals[p]| && NeuronWired(ws, ends, links + [cur], neurals[p][m], p)
    requires ws' == WithOutputLink(WithInputLink(ws, b, l), a, l)
    requires ends' == ends + [Endpoints(a, b)]
    ensures NeuronWired(ws', ends', links + [cur + [l]], neurals[p][m], p)
  {
    var lls := links + [cur];
    assert At(neurals, p, m) == neurals[p][m];
    assert At(neurals, |links|, j) == a && At(neurals, |links| + 1, k) == b;
    assert lls[..|lls| - 1] + [lls[|lls| - 1] + [l]] == links + [cur + [l]];
    NeuronStep(ws, ends, lls, a, b, neurals[p][m], p, ws', ends', links + [cur + [l]]);
  }

  lemma LinkLayersStep(ends: seq<Endpoints>, e: Endpoints, lls: seq<seq<nat>>)
    requires lls != [] && LinkLayersBelow(lls, |ends|)
    ensures LinkLayersBelow(lls[..|lls| - 1] + [lls[|lls| - 1] + [|ends|]], |ends + [e]|)
  {
    var lls' := lls[..|lls| - 1] + [lls[|lls| - 1] + [|ends|]];
    forall q | 0 <= q < |lls'| ensures Below(lls'[q], |ends| + 1) {
      assert Below(lls[q], |ends|);
    }
  }

  /** WiredStep for one neuron n of layer p, given where a and b are. */
  lemma NeuronStep(ws: seq<Wiring>, ends: seq<Endpoints>, lls: seq<seq<nat>>, a: nat, b: nat, n: nat, p: nat,
                   ws': seq<Wiring>, ends': seq<Endpoints>, lls': seq<seq<nat>>)
    requires a < |ws| && b < |ws| && n < |ws| && a != b && lls != []
    requires LinkLayersBelow(lls, |ends|)
    requires n == a ==> p == |lls| - 1
    requires n == b ==> p == |lls|
    requires NeuronWired(ws, ends, lls, n, p)
    requires ws' == WithOutputLink(WithInputLink(ws, b, |ends|), a, |ends|)
    requires ends' == ends + [Endpoints(a, b)]
    requires lls' == lls[..|lls| - 1] + [lls[|lls| - 1] + [|ends|]]
    ensures NeuronWired(ws', ends', lls', n, p)
  {
    OutputStep(ends, lls, a, b, n, p);
    InputStep(ends, lls, a, b, n, p);
    var added: seq<nat> := if n == b then [|ends|] else [];
    assert ws'[n].inputLinks == ws[n].inputLinks + added;
    Associative(BiasPrefix(ws[n]), Entering(ends, InLayer(lls, p), n), added);
  }

  lemma Associative(x: seq<nat>, y: seq<nat>, z: seq<nat>)
    ensures (x + y) + z == x + (y + z)
  {
  }

  lemma OutputStep(ends: seq<Endpoints>, lls: seq<seq<nat>>, a: nat, b: nat, n: nat, p: nat)
    requires lls != [] && LinkLayersBelow(lls, |ends|)
    requires n == a ==> p == |lls| - 1
    ensures var ends' := ends + [Endpoints(a, b)];
            var lls' := lls[..|lls| - 1] + [lls[|lls| - 1] + [|ends|]];
            && Below(OutLayer(lls, p), |ends|) && Below(OutLayer(lls', p), |ends'|)
            && Leaving(ends', OutLayer(lls', p), n)
               == Leaving(ends, OutLayer(lls, p), n) + (if n == a then [|ends|] else [])
  {
    var i := |lls| - 1;
    var cur := lls[i];
    var l := |ends|;
    var e := Endpoints(a, b);
    var ends' := ends + [e];
    var lls' := lls[..i] + [cur + [l]];
    assert Below(cur, |ends|);
    assert Below(OutLayer(lls, p), |ends|);
    LeavingGrow(ends, e, OutLayer(lls, p), n);
    if p == i {
      assert OutLayer(lls', p) == cur + [l];
      LeavingAppend(ends', cur, l, n);
    } else {
      assert OutLayer(lls', p) == OutLayer(lls, p);
    }
  }

  lemma InputStep(ends: seq<Endpoints>, lls: seq<seq<nat>>, a: nat, b: nat, n: nat, p: nat)
    requires lls != [] && LinkLayersBelow(lls, |ends|)
    requires n == b ==> p == |lls|
    ensures var ends' := ends + [Endpoints(a, b)];
            var lls' := lls[..|lls| - 1] + [lls[|lls| - 1] + [|ends|]];
            && Below(InLayer(lls, p), |ends|) && Below(InLayer(lls', p), |ends'|)
            && Entering(ends', InLayer(lls', p), n)
               == Entering(ends, InLayer(lls, p), n) + (if n == b then [|ends|] else [])
  {
    var i := |lls| - 1;
    var cur := lls[i];
    var l := |ends|;
    var e := Endpoints(a, b);
    var ends' := ends + [e];
    var lls' := lls[..i] + [cur + [l]];
    assert Below(cur, |ends|);
    assert Below(InLayer(lls, p), |ends|);
    EnteringGrow(ends, e, InLayer(lls, p), n);
    if p == i + 1 {
      assert InLayer(lls', p) == cur + [l];
      EnteringAppend(ends', cur, l, n);
    } else {
      assert InLayer(lls', p) == InLayer(lls, p);
    }
  }

  /** Starting a new, empty link layer changes nothing in the link lists. */
  lemma WiredOpen(ws: seq<Wiring>, ends: seq<Endpoints>, neurals: seq<seq<nat>>, links: seq<seq<nat>>)
    requires Wired(ws, ends, neurals, links) && |links| + 1 < |neurals|
    ensures Wired(ws, ends, neurals, links + [[]])
  {
    var lls := links + [[]];
    forall p | 0 <= p < |neurals|
      ensures OutLayer(lls, p) == OutLayer(links, p) && InLayer(lls, p) == InLayer(links, p)
    {
    }
    assert LinkLayersBelow(lls, |ends|) by {
      forall q | 0 <= q < |lls| ensures Below(lls[q], |ends|) {
        if q < |links| {
          assert lls[q] == links[q];
        }
      }
    }
  }

  /** The kinds, strategies and bias links of the layer neurons survive any
      change of link lists and the creation of more links. */
  lemma LayeredTransfer(W0: seq<Wiring>, E0: seq<Endpoints>, ws: seq<Wiring>, ends: seq<Endpoints>,
                        neurals: seq<seq<nat>>, outputSet: bool)
    requires Layered(W0, E0, neurals, outputSet) && SameButLists(W0, ws)
    requires |ends| >= |E0| && ends[..|E0|] == E0
    ensures Layered(ws, ends, neurals, outputSet)
  {
    forall p, m | 0 <= p < |neurals| && 0 <= m < |neurals[p]|
      ensures NeuronOfKind(ws, ends, neurals[p][m], LayerKind(p, |neurals|, outputSet))
    {
      var n := neurals[p][m];
      assert NeuronOfKind(W0, E0, n, LayerKind(p, |neurals|, outputSet));
      if W0[n].biasNeural.Some? {
        assert ws[W0[n].biasNeural.value].kind == W0[W0[n].biasNeural.value].kind;
      }
      if W0[n].biasLink.Some? {
        assert ends[W0[n].biasLink.value] == E0[W0[n].biasLink.value];
      }
    }
  }

  /** A neuron keeps its kind and bias when neurons and links are only appended. */
  lemma NeuronOfKindGrow(ws: seq<Wiring>, ends: seq<Endpoints>, ws': seq<Wiring>, ends': seq<Endpoints>,
                         n: nat, kind: NeuralType)
    requires NeuronOfKind(ws, ends, n, kind)
    requires |ws'| >= |ws| && ws'[..|ws|] == ws && |ends'| >= |ends| && ends'[..|ends|] == ends
    ensures NeuronOfKind(ws', ends', n, kind) && ws'[n] == ws[n]
  {
    assert ws'[n] == ws[n];
    if ws[n].biasNeural.Some? {
      assert ws'[ws[n].biasNeural.value] == ws[ws[n].biasNeural.value];
    }
    if ws[n].biasLink.Some? {
      assert ends'[ws[n].biasLink.value] == ends[ws[n].biasLink.value];
    }
  }

  /** addLayer appends a layer of fresh neurons of one kind, each fed only by its bias. */
  lemma AppendLayer(ws0: seq<Wiring>, e0: seq<Endpoints>, ws: seq<Wiring>, ends: seq<Endpoints>,
                    neurals: seq<seq<nat>>, layer: seq<nat>, outputSet: bool)
    requires Layered(ws0, e0, neurals, false) && Wired(ws0, e0, neurals, [])
    requires |ws| >= |ws0| && ws[..|ws0|] == ws0 && |ends| >= |e0| && ends[..|e0|] == e0
    requires forall m :: 0 <= m < |layer| ==>
      && |ws0| <= layer[m] < |ws|
      && NeuronOfKind(ws, ends, layer[m], LayerKind(|neurals|, |neurals| + 1, outputSet))
      && ws[layer[m]].outputLinks == [] && ws[layer[m]].inputLinks == BiasPrefix(ws[layer[m]])
    requires forall m, m' :: 0 <= m < m' < |layer| ==> layer[m] < layer[m']
    ensures Layered(ws, ends, neurals + [layer], outputSet)
    ensures Wired(ws, ends, neurals + [layer], [])
  {
    var ns := neurals + [layer];
    forall p, m | 0 <= p < |ns| && 0 <= m < |ns[p]|
      ensures ns[p][m] < |ws|
      ensures NeuronOfKind(ws, ends, ns[p][m], LayerKind(p, |ns|, outputSet))
      ensures NeuronWired(ws, ends, [], ns[p][m], p)
    {
      if p < |neurals| {
        assert ns[p][m] == neurals[p][m];
        assert LayerKind(p, |ns|, outputSet) == LayerKind(p, |neurals|, false);
        NeuronOfKindGrow(ws0, e0, ws, ends, neurals[p][m], LayerKind(p, |neurals|, false));
        assert NeuronWired(ws0, e0, [], neurals[p][m], p);
      } else {
        assert ns[p][m] == layer[m];
      }
    }
    assert DistinctLayers(ns) by {
      forall p, m, q, m' | 0 <= p < |ns| && 0 <= m < |ns[p]| && 0 <= q < |ns| && 0 <= m' < |ns[q]|
        && At(ns, p, m) == At(ns, q, m')
        ensures p == q && m == m'
      {
        if p < |neurals| && q < |neurals| {
          assert At(neurals, p, m) == At(neurals, q, m');
        }
      }
    }
  }

  // What full connection builds.

  lemma {:induction false} RowLength(a: nat, next: seq<nat>)
    ensures |Row(a, next)| == |next|
  {
    if next != [] {
      RowLength(a, next[..|next| - 1]);
    }
  }

  lemma {:induction false} RowAt(a: nat, next: seq<nat>, k: nat)
    requires k < |next|
    ensures |Row(a, next)| == |next| && Row(a, next)[k] == Endpoints(a, next[k])
  {
    RowLength(a, next);
    var init := next[..|next| - 1];
    RowLength(a, init);
    if k < |init| {
      RowAt(a, init, k);
    }
  }

  /** A link layer has size(i) * size(i + 1) links. */
  lemma {:induction false} PairsLength(prev: seq<nat>, next: seq<nat>)
    ensures |Pairs(prev, next)| == |prev| * |next|
  {
    if prev != [] {
      var init := prev[..|prev| - 1];
      PairsLength(init, next);
      RowLength(prev[|prev| - 1], next);
      assert |init| * |next| + |next| == |prev| * |next|;
    }
  }

  /** Link j * size(i + 1) + k of a link layer joins neuron j of layer i
      to neuron k of layer i + 1. */
  lemma {:induction false} PairsAt(prev: seq<nat>, next: seq<nat>, j: nat, k: nat)
    requires j < |prev| && k < |next|
    ensures j * |next| + k < |Pairs(prev, next)|
    ensures Pairs(prev, next)[j * |next| + k] == Endpoints(prev[j], next[k])
  {
    var init := prev[..|prev| - 1];
    if j < |init| {
      PairsAt(init, next, j, k);
      PairsFront(prev, next, j * |next| + k);
      assert init[j] == prev[j];
    } else {
      PairsLast(prev, next, k);
    }
  }

  /** The links of the earlier source neurons come first. */
  lemma PairsFront(prev: seq<nat>, next: seq<nat>, idx: nat)
    requires prev != [] && idx < |Pairs(prev[..|prev| - 1], next)|
    ensures idx < |Pairs(prev, next)| && Pairs(prev, next)[idx] == Pairs(prev[..|prev| - 1], next)[idx]
  {
  }

  /** The links of the last source neuron come last, one per target. */
  lemma PairsLast(prev: seq<nat>, next: seq<nat>, k: nat)
    requires prev != [] && k < |next|
    ensures (|prev| - 1) * |next| + k < |Pairs(prev, next)|
    ensures Pairs(prev, next)[(|prev| - 1) * |next| + k] == Endpoints(prev[|prev| - 1], next[k])
  {
    var init := prev[..|prev| - 1];
    PairsLength(init, next);
    RowAt(prev[|prev| - 1], next, k);
    var front := Pairs(init, next);
    assert Pairs(prev, next) == front + Row(prev[|prev| - 1], next);
    assert |front| == (|prev| - 1) * |next|;
  }

  /** The link layer joins exactly the neurons of two consecutive layers. */
  lemma {:induction false} PairsMember(prev: seq<nat>, next: seq<nat>, e: Endpoints)
    ensures e in Pairs(prev, next) <==> e.previous in prev && e.next in next
  {
    if prev != [] {
      var init := prev[..|prev| - 1];
      var a := prev[|prev| - 1];
      PairsMember(init, next, e);
      RowMember(a, next, e);
      assert prev == init + [a];
    }
  }

  lemma {:induction false} RowMember(a: nat, next: seq<nat>, e: Endpoints)
    ensures e in Row(a, next) <==> e.previous == a && e.next in next
  {
    if next != [] {
      var init := next[..|next| - 1];
      RowMember(a, init, e);
      assert next == init + [next[|next| - 1]];
    }
  }

  lemma {:induction false} EndsOfAt(ends: seq<Endpoints>, ls: seq<nat>, i: nat)
    requires Below(ls, |ends|) && i < |ls|
    ensures |EndsOf(ends, ls)| == |ls| && EndsOf(ends, ls)[i] == ends[ls[i]]
  {
    EndsOfLength(ends, ls);
    var init := ls[..|ls| - 1];
    EndsOfLength(ends, init);
    if i < |init| {
      EndsOfAt(ends, init, i);
    }
  }

  lemma {:induction false} EndsOfLength(ends: seq<Endpoints>, ls: seq<nat>)
    requires Below(ls, |ends|)
    ensures |EndsOf(ends, ls)| == |ls|
  {
    if ls != [] {
      EndsOfLength(ends, ls[..|ls| - 1]);
    }
  }

  /** In a fully connected network, link j * size(q + 1) + k of link layer q
      joins neuron j of layer q to neuron k of layer q + 1, and the layer has
      no other link. */
  lemma LinkAt(ends: seq<Endpoints>, neurals: seq<seq<nat>>, links: seq<seq<nat>>, q: nat, j: nat, k: nat)
    requires FullyConnected(ends, neurals, links) && q < |links|
    requires j < |neurals[q]| && k < |neurals[q + 1]|
    ensures |links[q]| == |neurals[q]| * |neurals[q + 1]|
    ensures j * |neurals[q + 1]| + k < |links[q]|
    ensures ends[links[q][j * |neurals[q + 1]| + k]] == Endpoints(neurals[q][j], neurals[q + 1][k])
  {
    assert Below(links[q], |ends|);
    EndsOfLength(ends, links[q]);
    PairsLength(neurals[q], neurals[q + 1]);
    PairsAt(neurals[q], neurals[q + 1], j, k);
    EndsOfAt(ends, links[q], j * |neurals[q + 1]| + k);
  }

  /** linksCount counts every link of every link layer. */
  lemma {:induction false} LinkCountOfLayers(ends: seq<Endpoints>, neurals: seq<seq<nat>>, links: seq<seq<nat>>)
    requires FullyConnected(ends, neurals, links)
    ensures TotalSize(links) == LinkCount(neurals)
  {
    if links != [] {
      var links' := links[..|links| - 1];
      var neurals' := neurals[..|neurals| - 1];
      assert FullyConnected(ends, neurals', links') by {
        forall q | 0 <= q < |links'|
          ensures Below(links'[q], |ends|) && EndsOf(ends, links'[q]) == Pairs(neurals'[q], neurals'[q + 1])
        {
          assert links'[q] == links[q] && neurals'[q] == neurals[q] && neurals'[q + 1] == neurals[q + 1];
        }
      }
      LinkCountOfLayers(ends, neurals', links');
      var q := |links| - 1;
      assert Below(links[q], |ends|);
      EndsOfLength(ends, links[q]);
      PairsLength(neurals[q], neurals[q + 1]);
    }
  }

  // The orders in which the passes visit the neurons.

  /** The forward pass visits neuralsCount neurons. */
  lemma {:induction false} FlattenLength(ls: seq<seq<nat>>)
    ensures |Flatten(ls)| == TotalSize(ls)
  {
    if ls != [] {
      FlattenLength(ls[..|ls| - 1]);
    }
  }

  lemma {:induction false} FlattenMember(ls: seq<seq<nat>>, x: nat)
    ensures x in Flatten(ls) <==> exists p, j :: 0 <= p < |ls| && 0 <= j < |ls[p]| && ls[p][j] == x
  {
    if ls != [] {
      var init := ls[..|ls| - 1];
      FlattenMember(init, x);
      if x in ls[|ls| - 1] {
        var j :| 0 <= j < |ls[|ls| - 1]| && ls[|ls| - 1][j] == x;
        assert ls[|ls| - 1][j] == x;
      }
      if exists p, j :: 0 <= p < |ls| && 0 <= j < |ls[p]| && ls[p][j] == x {
        var p, j :| 0 <= p < |ls| && 0 <= j < |ls[p]| && ls[p][j] == x;
        if p < |init| {
          assert init[p][j] == x;
        } else {
          assert ls[|ls| - 1][j] == x;
        }
      }
    }
  }

  /** The backward order visits exactly the neurons of layers i and above. */
  lemma {:induction false} DownMember(ls: seq<seq<nat>>, i: nat, x: nat)
    ensures x in Down(ls, i) <==> exists p, j :: i <= p < |ls| && 0 <= j < |ls[p]| && ls[p][j] == x
    decreases |ls| - i
  {
    if i < |ls| {
      DownMember(ls, i + 1, x);
      if x in ls[i] {
        var j :| 0 <= j < |ls[i]| && ls[i][j] == x;
        assert ls[i][j] == x;
      }
    }
  }

  /** The backward order visits TotalSize(ls) - |ls[0]| neurons from i = 1. */
  lemma {:induction false} DownLength(ls: seq<seq<nat>>, i: nat)
    ensures |Down(ls, i)| + TotalSize(ls[..if i <= |ls| then i else |ls|]) == TotalSize(ls)
    decreases |ls| - i
  {
    if i < |ls| {
      DownLength(ls, i + 1);
      assert ls[..i + 1][..i] == ls[..i];
    } else {
      assert ls[..|ls|] == ls;
    }
  }

  // The loops of fullConnection.

  /** The finished link layers of fullConnection: each joins its two neuron
      layers densely, and the link lists say so. */
  predicate Built(W0: seq<Wiring>, E0: seq<Endpoints>, ws: seq<Wiring>, ends: seq<Endpoints>,
                  neurals: seq<seq<nat>>, links: seq<seq<nat>>)
  {
    && Layered(W0, E0, neurals, true)
    && SameButLists(W0, ws)
    && |ends| >= |E0| && ends[..|E0|] == E0
    && |links| < |neurals|
    && LinkLayersBelow(links, |ends|)
    && Wired(ws, ends, neurals, links)
    && (forall q :: 0 <= q < |links| ==> EndsOf(ends, links[q]) == Pairs(neurals[q], neurals[q + 1]))
  }

  /** Before the first link, nothing is built. */
  lemma BuiltStart(ws: seq<Wiring>, ends: seq<Endpoints>, neurals: seq<seq<nat>>)
    requires Layered(ws, ends, neurals, true) && Wired(ws, ends, neurals, []) && |neurals| > 0
    ensures Built(ws, ends, ws, ends, neurals, [])
  {
    assert ends[..|ends|] == ends;
    assert SameButLists(ws, ws) by {
      forall m | 0 <= m < |ws| ensures SameNeuronButLists(ws[m], ws[m]) {
      }
    }
  }

  /** Opening link layer |links| with no link yet. */
  lemma BuiltOpen(W0: seq<Wiring>, E0: seq<Endpoints>, ws: seq<Wiring>, ends: seq<Endpoints>,
                  neurals: seq<seq<nat>>, links: seq<seq<nat>>)
    requires Built(W0, E0, ws, ends, neurals, links) && |links| + 1 < |neurals|
    ensures Connecting(W0, E0, ws, ends, neurals, links, [])
  {
    WiredOpen(ws, ends, neurals, links);
  }

  /** Closing link layer |links| once it holds every pair of its two neuron layers. */
  lemma BuiltClose(W0: seq<Wiring>, E0: seq<Endpoints>, ws: seq<Wiring>, ends: seq<Endpoints>,
                   neurals: seq<seq<nat>>, links: seq<seq<nat>>, cur: seq<nat>)
    requires Connecting(W0, E0, ws, ends, neurals, links, cur)
    requires EndsOf(ends, cur) == Pairs(neurals[|links|], neurals[|links| + 1])
    ensures Built(W0, E0, ws, ends, neurals, links + [cur])
  {
    var lls := links + [cur];
    forall q | 0 <= q < |lls|
      ensures Below(lls[q], |ends|) && EndsOf(ends, lls[q]) == Pairs(neurals[q], neurals[q + 1])
    {
      if q < |links| {
        assert lls[q] == links[q];
      }
    }
  }

  /** With every link layer built, the network is fully connected and its
      neurons keep their kinds. */
  lemma BuiltEnd(W0: seq<Wiring>, E0: seq<Endpoints>, ws: seq<Wiring>, ends: seq<Endpoints>,
                 neurals: seq<seq<nat>>, links: seq<seq<nat>>)
    requires Built(W0, E0, ws, ends, neurals, links) && |links| + 1 == |neurals|
    ensures FullyConnected(ends, neurals, links)
    ensures Layered(ws, ends, neurals, true) && Wired(ws, ends, neurals, links)
    ensures TotalSize(links) == LinkCount(neurals)
  {
    LayeredTransfer(W0, E0, ws, ends, neurals, true);
    LinkCountOfLayers(ends, neurals, links);
  }

  /** One more target neuron. */
  lemma RowStep(a: nat, next: seq<nat>, k: nat)
    requires k < |next|
    ensures Row(a, next[..k + 1]) == Row(a, next[..k]) + [Endpoints(a, next[k])]
  {
    assert next[..k + 1][..k] == next[..k];
  }

  /** One more source neuron. */
  lemma PairsStep(prev: seq<nat>, next: seq<nat>, j: nat)
    requires j < |prev|
    ensures Pairs(prev[..j + 1], next) == Pairs(prev[..j], next) + Row(prev[j], next)
  {
    assert prev[..j + 1][..j] == prev[..j];
    assert next[..|next|] == next;
  }

  // One step of fullConnection.

  /** One more link from neuron j of the layer after `links` to neuron k of
      the next layer, the k-th of the row being built after `cur`. */
  lemma RowJoined(W0: seq<Wiring>, E0: seq<Endpoints>, ws: seq<Wiring>, ends: seq<Endpoints>,
                  neurals: seq<seq<nat>>, links: seq<seq<nat>>, j: nat, k: nat, cur: seq<nat>, row: seq<nat>,
                  before: seq<Endpoints>, l: nat, ws': seq<Wiring>, ends': seq<Endpoints>)
    requires Connecting(W0, E0, ws, ends, neurals, links, cur + row)
    requires j < |neurals[|links|]| && k < |neurals[|links| + 1]|
    requires EndsOf(ends, cur + row) == before + Row(neurals[|links|][j], neurals[|links| + 1][..k])
    requires neurals[|links|][j] < |ws| && neurals[|links| + 1][k] < |ws| && l == |ends|
    requires ws' == WithOutputLink(WithInputLink(ws, neurals[|links| + 1][k], l), neurals[|links|][j], l)
    requires ends' == ends + [Endpoints(neurals[|links|][j], neurals[|links| + 1][k])]
    ensures Connecting(W0, E0, ws', ends', neurals, links, cur + (row + [l]))
    ensures EndsOf(ends', cur + (row + [l])) == before + Row(neurals[|links|][j], neurals[|links| + 1][..k + 1])
  {
    var a := neurals[|links|][j];
    var b := neurals[|links| + 1][k];
    ConnectingStep(W0, E0, ws, ends, neurals, links, cur + row, j, k, a, b, l, ws', ends');
    AppendRegroup(cur, row, l);
    RowStep(a, neurals[|links| + 1], k);
    AppendRegroup(before, Row(a, neurals[|links| + 1][..k]), Endpoints(a, b));
  }

  /** The two neurons full connection joins next: a neuron of layer i, which
      is not an output neuron, and one of layer i + 1, which is a hidden or
      output neuron. */
  lemma ConnectKinds(W0: seq<Wiring>, E0: seq<Endpoints>, ws: seq<Wiring>, neurals: seq<seq<nat>>, i: nat, j: nat, k: nat)
    requires Layered(W0, E0, neurals, true) && SameButLists(W0, ws)
    requires i + 1 < |neurals| && j < |neurals[i]| && k < |neurals[i + 1]|
    ensures neurals[i][j] < |ws| && neurals[i + 1][k] < |ws|
    ensures !ws[neurals[i][j]].kind.OutputNeural? && !ws[neurals[i][j]].kind.BiasNeural?
    ensures ws[neurals[i + 1][k]].kind.HiddenNeural? || ws[neurals[i + 1][k]].kind.OutputNeural?
  {
    assert NeuronOfKind(W0, E0, neurals[i][j], LayerKind(i, |neurals|, true));
    assert NeuronOfKind(W0, E0, neurals[i + 1][k], LayerKind(i + 1, |neurals|, true));
    assert ws[neurals[i][j]].kind == W0[neurals[i][j]].kind;
    assert ws[neurals[i + 1][k]].kind == W0[neurals[i + 1][k]].kind;
  }

  /** Creating link l = a -> b and connecting it both ways keeps the layer
      being built consistent and appends a -> b to it. */
  lemma ConnectingStep(W0: seq<Wiring>, E0: seq<Endpoints>, ws: seq<Wiring>, ends: seq<Endpoints>,
                       neurals: seq<seq<nat>>, links: seq<seq<nat>>, cur: seq<nat>, j: nat, k: nat,
                       a: nat, b: nat, l: nat, ws': seq<Wiring>, ends': seq<Endpoints>)
    requires Connecting(W0, E0, ws, ends, neurals, links, cur)
    requires j < |neurals[|links|]| && k < |neurals[|links| + 1]|
    requires a == neurals[|links|][j] && b == neurals[|links| + 1][k] && a < |ws| && b < |ws| && l == |ends|
    requires ws' == WithOutputLink(WithInputLink(ws, b, l), a, l)
    requires ends' == ends + [Endpoints(a, b)]
    ensures Connecting(W0, E0, ws', ends', neurals, links, cur + [l])
    ensures EndsOf(ends', cur + [l]) == EndsOf(ends, cur) + [Endpoints(a, b)]
  {
    var e := Endpoints(a, b);
    WiredStep(ws, ends, neurals, links, cur, j, k, a, b, l, ws', ends');
    FinishedLayersGrow(ends, e, neurals, links);
    CurrentLayerGrow(ends, e, cur);
    SameButListsStep(W0, ws, a, b, l);
    PrefixGrow(E0, ends, e);
    ConnectingIntro(W0, E0, ws', ends', neurals, links, cur + [l]);
  }

  lemma CurrentLayerGrow(ends: seq<Endpoints>, e: Endpoints, cur: seq<nat>)
    requires Below(cur, |ends|)
    ensures Below(cur + [|ends|], |ends + [e]|)
    ensures EndsOf(ends + [e], cur + [|ends|]) == EndsOf(ends, cur) + [e]
  {
    EndsOfGrow(ends, e, cur);
    EndsOfAppend(ends + [e], cur, |ends|);
  }

  lemma PrefixGrow(E0: seq<Endpoints>, ends: seq<Endpoints>, e: Endpoints)
    requires |ends| >= |E0| && ends[..|E0|] == E0
    ensures |ends + [e]| >= |E0| && (ends + [e])[..|E0|] == E0
  {
    assert (ends + [e])[..|E0|] == ends[..|E0|];
  }

  lemma ConnectingIntro(W0: seq<Wiring>, E0: seq<Endpoints>, ws: seq<Wiring>, ends: seq<Endpoints>,
                        neurals: seq<seq<nat>>, links: seq<seq<nat>>, cur: seq<nat>)
    requires Layered(W0, E0, neurals, true)
    requires SameButLists(W0, ws)
    requires |ends| >= |E0| && ends[..|E0|] == E0
    requires |links| + 1 < |neurals|
    requires LinkLayersBelow(links, |ends|)
    requires Below(cur, |ends|)
    requires Wired(ws, ends, neurals, links + [cur])
    requires forall q :: 0 <= q < |links| ==> EndsOf(ends, links[q]) == Pairs(neurals[q], neurals[q + 1])
    ensures Connecting(W0, E0, ws, ends, neurals, links, cur)
  {
  }

  /** The finished link layers keep what they join when one more link is created. */
  lemma FinishedLayersGrow(ends: seq<Endpoints>, e: Endpoints, neurals: seq<seq<nat>>, links: seq<seq<nat>>)
    requires |links| + 1 < |neurals| && LinkLayersBelow(links, |ends|)
    requires forall q :: 0 <= q < |links| ==> EndsOf(ends, links[q]) == Pairs(neurals[q], neurals[q + 1])
    ensures LinkLayersBelow(links, |ends + [e]|)
    ensures forall q :: 0 <= q < |links| ==> EndsOf(ends + [e], links[q]) == Pairs(neurals[q], neurals[q + 1])
  {
    forall q | 0 <= q < |links|
      ensures Below(links[q], |ends + [e]|) && EndsOf(ends + [e], links[q]) == Pairs(neurals[q], neurals[q + 1])
    {
      assert Below(links[q], |ends|);
      EndsOfGrow(ends, e, links[q]);
    }
  }

  /** Connecting a link changes link lists only. */
  lemma SameButListsStep(W0: seq<Wiring>, ws: seq<Wiring>, a: nat, b: nat, l: nat)
    requires SameButLists(W0, ws) && a < |ws| && b < |ws|
    ensures SameButLists(W0, WithOutputLink(WithInputLink(ws, b, l), a, l))
  {
    var ws' := WithOutputLink(WithInputLink(ws, b, l), a, l);
    forall m | 0 <= m < |W0| ensures SameNeuronButLists(W0[m], ws'[m]) {
      assert SameNeuronButLists(W0[m], ws[m]);
    }
  }

  /** The neurons that were there before ws1 grew from ws0 keep everything
      but their link lists in ws2. */
  lemma SameButListsPrefix(ws0: seq<Wiring>, ws1: seq<Wiring>, ws2: seq<Wiring>)
    requires |ws1| >= |ws0| && ws1[..|ws0|] == ws0 && SameButLists(ws1, ws2)
    ensures |ws2| >= |ws0| && SameButLists(ws0, ws2[..|ws0|])
  {
    forall m | 0 <= m < |ws0| ensures SameNeuronButLists(ws0[m], ws2[..|ws0|][m]) {
      assert ws0[m] == ws1[m];
    }
  }

  lemma LayerBelow(neurals: seq<seq<nat>>, bound: nat, p: nat)
    requires InArena(neurals, bound) && p < |neurals|
    ensures Below(neurals[p], bound)
  {
    forall j | 0 <= j < |neurals[p]| ensures neurals[p][j] < bound {
    }
  }

  lemma {:induction false} FlattenBelow(ls: seq<seq<nat>>, bound: nat)
    requires InArena(ls, bound)
    ensures Below(Flatten(ls), bound)
  {
    if ls != [] {
      var init := ls[..|ls| - 1];
      assert InArena(init, bound) by {
        forall p, j | 0 <= p < |init| && 0 <= j < |init[p]| ensures init[p][j] < bound {
          assert init[p] == ls[p];
        }
      }
      FlattenBelow(init, bound);
      LayerBelow(ls, bound, |ls| - 1);
    }
  }
}
