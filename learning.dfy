/** What one call of Network::learn does to each link and each neuron of a
    fully connected network: every link moves exactly once, by
    -learningRate * (output of its source) * (delta of its target), and the
    delta of a hidden neuron is read through the links of the layer after
    it, whose weights that same backward pass has already moved. */
module Learning {
  import opened Graph
  import opened Excitation
  import opened Link
  import opened Neural
  import opened Layers
  import opened Passes

  // Link lists in a fully connected network.

  /** Every input link of neuron m enters m. */
  predicate Enters(ws: seq<Wiring>, ends: seq<Endpoints>, m: nat)
  {
    && m < |ws|
    && forall k :: 0 <= k < |ws[m].inputLinks| ==>
         ws[m].inputLinks[k] < |ends| && ends[ws[m].inputLinks[k]].next == m
  }

  predicate AllEnter(ws: seq<Wiring>, ends: seq<Endpoints>, order: seq<nat>)
  {
    forall i :: 0 <= i < |order| ==> Enters(ws, ends, order[i])
  }

  lemma {:induction false} EnteringMember(ends: seq<Endpoints>, ls: seq<nat>, n: nat, x: nat)
    requires Below(ls, |ends|)
    ensures x in Entering(ends, ls, n) <==> x in ls && ends[x].next == n
  {
    if ls != [] {
      var init := ls[..|ls| - 1];
      EnteringMember(ends, init, n, x);
      assert ls == init + [ls[|ls| - 1]];
    }
  }

  lemma {:induction false} LeavingMember(ends: seq<Endpoints>, ls: seq<nat>, n: nat, x: nat)
    requires Below(ls, |ends|)
    ensures x in Leaving(ends, ls, n) <==> x in ls && ends[x].previous == n
  {
    if ls != [] {
      var init := ls[..|ls| - 1];
      LeavingMember(ends, init, n, x);
      assert ls == init + [ls[|ls| - 1]];
    }
  }

  /** Keeping only the links that enter n keeps them distinct. */
  lemma {:induction false} EnteringDistinct(ends: seq<Endpoints>, ls: seq<nat>, n: nat)
    requires Below(ls, |ends|) && Distinct(ls)
    ensures Distinct(Entering(ends, ls, n))
  {
    if ls != [] {
      var init := ls[..|ls| - 1];
      var last := ls[|ls| - 1];
      assert ls == init + [last];
      EnteringDistinct(ends, init, n);
      EnteringMember(ends, init, n, last);
      assert last !in init by {
        forall i | 0 <= i < |init| ensures init[i] != last {
          assert init[i] == ls[i];
        }
      }
    }
  }

  /** No two links of a link layer join the same two neurons, when no neuron
      appears twice in either layer. */
  lemma {:induction false} PairsDistinct(prev: seq<nat>, next: seq<nat>)
    requires Distinct(prev) && Distinct(next)
    ensures forall i, i' :: 0 <= i < i' < |Pairs(prev, next)| ==> Pairs(prev, next)[i] != Pairs(prev, next)[i']
  {
    if prev != [] {
      var init := prev[..|prev| - 1];
      var a := prev[|prev| - 1];
      var front := Pairs(init, next);
      var row := Row(a, next);
      assert Pairs(prev, next) == front + row;
      assert Distinct(init) by {
        forall i, i' | 0 <= i < i' < |init| ensures init[i] != init[i'] {
          assert init[i] == prev[i] && init[i'] == prev[i'];
        }
      }
      PairsDistinct(init, next);
      RowLength(a, next);
      forall i, i' | 0 <= i < i' < |front + row| ensures (front + row)[i] != (front + row)[i'] {
        if i' < |front| {
          assert (front + row)[i] == front[i] && (front + row)[i'] == front[i'];
        } else if |front| <= i {
          RowAt(a, next, i - |front|);
          RowAt(a, next, i' - |front|);
        } else {
          RowAt(a, next, i' - |front|);
          PairsMember(init, next, front[i]);
          assert front[i] in front;
          assert a !in init by {
            forall m | 0 <= m < |init| ensures init[m] != a {
              assert init[m] == prev[m];
            }
          }
        }
      }
    }
  }

  /** No link appears twice in a link layer of a fully connected network. */
  lemma LinkLayerDistinct(ws: seq<Wiring>, ends: seq<Endpoints>, neurals: seq<seq<nat>>, lls: seq<seq<nat>>, q: nat)
    requires Layered(ws, ends, neurals, true) && FullyConnected(ends, neurals, lls) && q < |lls|
    ensures Distinct(lls[q])
  {
    LayerDistinct(neurals, q);
    LayerDistinct(neurals, q + 1);
    PairsDistinct(neurals[q], neurals[q + 1]);
    assert Below(lls[q], |ends|);
    forall i, i' | 0 <= i < i' < |lls[q]| ensures lls[q][i] != lls[q][i'] {
      EndsOfAt(ends, lls[q], i);
      EndsOfAt(ends, lls[q], i');
    }
  }

  /** Every input link of a layer neuron enters it: its bias link, and the
      links of the link layer before it that enter it. */
  lemma NeuronEnters(ws: seq<Wiring>, ends: seq<Endpoints>, neurals: seq<seq<nat>>, lls: seq<seq<nat>>, p: nat, j: nat)
    requires Layered(ws, ends, neurals, true) && Wired(ws, ends, neurals, lls)
    requires p < |neurals| && j < |neurals[p]|
    ensures Enters(ws, ends, neurals[p][j])
  {
    var n := neurals[p][j];
    assert NeuronWired(ws, ends, lls, n, p);
    assert NeuronOfKind(ws, ends, n, LayerKind(p, |neurals|, true));
    var bias := BiasPrefix(ws[n]);
    var entering := Entering(ends, InLayer(lls, p), n);
    assert ws[n].inputLinks == bias + entering;
    forall k | 0 <= k < |ws[n].inputLinks|
      ensures ws[n].inputLinks[k] < |ends| && ends[ws[n].inputLinks[k]].next == n
    {
      if k >= |bias| {
        assert ws[n].inputLinks[k] == entering[k - |bias|];
        EnteringMember(ends, InLayer(lls, p), n, entering[k - |bias|]);
      }
    }
  }

  /** The input links of a neuron after the input layer are distinct: the
      links entering it from the layer before are distinct, and its bias
      link is not among them, since it comes from a bias neuron and no bias
      neuron is in a layer. */
  lemma InputLinksDistinct(ws: seq<Wiring>, ends: seq<Endpoints>, neurals: seq<seq<nat>>, lls: seq<seq<nat>>, p: nat, j: nat)
    requires Layered(ws, ends, neurals, true) && Wired(ws, ends, neurals, lls) && FullyConnected(ends, neurals, lls)
    requires 1 <= p < |neurals| && j < |neurals[p]|
    ensures Distinct(ws[neurals[p][j]].inputLinks)
  {
    var n := neurals[p][j];
    assert NeuronWired(ws, ends, lls, n, p);
    assert NeuronOfKind(ws, ends, n, LayerKind(p, |neurals|, true));
    var layer := lls[p - 1];
    assert InLayer(lls, p) == layer;
    assert Below(layer, |ends|);
    var entering := Entering(ends, layer, n);
    var b := ws[n].biasLink.value;
    assert ws[n].inputLinks == [b] + entering;
    LinkLayerDistinct(ws, ends, neurals, lls, p - 1);
    EnteringDistinct(ends, layer, n);
    assert b !in entering by {
      EnteringMember(ends, layer, n, b);
      if b in layer {
        var i :| 0 <= i < |layer| && layer[i] == b;
        EndsOfAt(ends, layer, i);
        assert ends[b] in Pairs(neurals[p - 1], neurals[p]);
        PairsMember(neurals[p - 1], neurals[p], ends[b]);
      }
    }
    ConsDistinct(b, entering);
  }

  lemma ConsDistinct(b: nat, s: seq<nat>)
    requires Distinct(s) && b !in s
    ensures Distinct([b] + s)
  {
    forall i, i' | 0 <= i < i' < |[b] + s| ensures ([b] + s)[i] != ([b] + s)[i'] {
      assert ([b] + s)[i'] == s[i' - 1];
      if i > 0 {
        assert ([b] + s)[i] == s[i - 1];
      }
    }
  }

  /** A complete network: its arena is closed, its layers are set up to the
      output layer, its link lists agree with the link layers, and every
      link layer joins two consecutive layers densely. */
  predicate Complete(g: Net, neurals: seq<seq<nat>>, lls: seq<seq<nat>>)
  {
    && Closed(g)
    && Layered(g.wiring, g.ends, neurals, true)
    && Wired(g.wiring, g.ends, neurals, lls)
    && FullyConnected(g.ends, neurals, lls)
  }

  /** An output link of neuron j of layer p belongs to link layer p and
      joins that neuron to a neuron of layer p + 1. */
  lemma OutputLinkAhead(g: Net, neurals: seq<seq<nat>>, lls: seq<seq<nat>>, p: nat, j: nat, m: nat)
    requires Complete(g, neurals, lls) && p + 1 < |neurals| && j < |neurals[p]|
    requires m in g.wiring[neurals[p][j]].outputLinks
    ensures m in lls[p] && m < |g.ends|
    ensures g.ends[m].previous == neurals[p][j] && g.ends[m].next in neurals[p + 1]
  {
    var n := neurals[p][j];
    assert NeuronWired(g.wiring, g.ends, lls, n, p);
    assert OutLayer(lls, p) == lls[p];
    assert Below(lls[p], |g.ends|);
    LeavingMember(g.ends, lls[p], n, m);
    var i :| 0 <= i < |lls[p]| && lls[p][i] == m;
    EndsOfAt(g.ends, lls[p], i);
    assert g.ends[m] in Pairs(neurals[p], neurals[p + 1]);
    PairsMember(neurals[p], neurals[p + 1], g.ends[m]);
  }

  /** The link m = a -> b of link layer p is an input link of b. */
  lemma LinkEntersTarget(g: Net, neurals: seq<seq<nat>>, lls: seq<seq<nat>>, p: nat, k: nat, m: nat)
    requires Complete(g, neurals, lls) && p + 1 < |neurals| && k < |neurals[p + 1]|
    requires m in lls[p] && m < |g.ends| && g.ends[m].next == neurals[p + 1][k]
    ensures m in g.wiring[neurals[p + 1][k]].inputLinks
  {
    var b := neurals[p + 1][k];
    assert NeuronWired(g.wiring, g.ends, lls, b, p + 1);
    assert InLayer(lls, p + 1) == lls[p];
    assert Below(lls[p], |g.ends|);
    EnteringMember(g.ends, lls[p], b, m);
  }

  // The order of the backward pass.

  /** Layers p - 1, ..., 1 one after the other: what backPropagation visits
      after layer p. */
  function Lower(ls: seq<seq<nat>>, p: nat): seq<nat>
    requires p <= |ls|
  {
    if p <= 1 then [] else ls[p - 1] + Lower(ls, p - 1)
  }

  lemma {:induction false} DownSplit(ls: seq<seq<nat>>, p: nat)
    requires 1 <= p <= |ls|
    ensures Down(ls, 1) == Down(ls, p) + Lower(ls, p)
  {
    if p > 1 {
      DownSplit(ls, p - 1);
      assert Down(ls, p - 1) == Down(ls, p) + ls[p - 1];
    }
  }

  /** backPropagation reaches neuron j of layer p once it has been through
      every layer after p and through the neurons before j in layer p. */
  lemma DownIndex(ls: seq<seq<nat>>, p: nat, j: nat)
    requires 1 <= p < |ls| && j < |ls[p]|
    ensures |Down(ls, p + 1)| + j < |Down(ls, 1)|
    ensures Down(ls, 1)[|Down(ls, p + 1)| + j] == ls[p][j]
    ensures Down(ls, 1)[..|Down(ls, p + 1)| + j] == Down(ls, p + 1) + ls[p][..j]
  {
    DownSplit(ls, p + 1);
    var d := Down(ls, p + 1);
    var rest := Lower(ls, p);
    assert Down(ls, 1) == d + ls[p] + rest;
    assert (d + ls[p] + rest)[|d| + j] == ls[p][j];
    assert (d + ls[p] + rest)[..|d| + j] == d + ls[p][..j];
  }

  /** backPropagation visits no neuron twice. */
  lemma {:induction false} DownDistinct(ls: seq<seq<nat>>, i: nat)
    requires DistinctLayers(ls)
    ensures Distinct(Down(ls, i))
    decreases |ls| - i
  {
    if i < |ls| {
      DownDistinct(ls, i + 1);
      LayerDistinct(ls, i);
      var d := Down(ls, i + 1);
      forall u, v | 0 <= u < v < |d + ls[i]| ensures (d + ls[i])[u] != (d + ls[i])[v] {
        if v < |d| {
          assert (d + ls[i])[u] == d[u] && (d + ls[i])[v] == d[v];
        } else if |d| <= u {
          assert (d + ls[i])[u] == ls[i][u - |d|] && (d + ls[i])[v] == ls[i][v - |d|];
        } else {
          assert (d + ls[i])[u] == d[u] && (d + ls[i])[v] == ls[i][v - |d|];
          DownMember(ls, i + 1, d[u]);
          var q, k :| i + 1 <= q < |ls| && 0 <= k < |ls[q]| && ls[q][k] == d[u];
          assert At(ls, q, k) != At(ls, i, v - |d|);
        }
      }
    }
  }

  /** Every neuron backPropagation visits receives only links that enter it. */
  lemma DownEnters(g: Net, neurals: seq<seq<nat>>, lls: seq<seq<nat>>)
    requires Complete(g, neurals, lls)
    ensures AllEnter(g.wiring, g.ends, Down(neurals, 1))
  {
    var order := Down(neurals, 1);
    forall i | 0 <= i < |order| ensures Enters(g.wiring, g.ends, order[i]) {
      DownMember(neurals, 1, order[i]);
      var p, j :| 1 <= p < |neurals| && 0 <= j < |neurals[p]| && neurals[p][j] == order[i];
      NeuronEnters(g.wiring, g.ends, neurals, lls, p, j);
    }
  }

  lemma AllEnterSlices(ws: seq<Wiring>, ends: seq<Endpoints>, order: seq<nat>, k: nat)
    requires AllEnter(ws, ends, order) && k < |order|
    ensures AllEnter(ws, ends, order[..k]) && AllEnter(ws, ends, order[k + 1..])
  {
    var a := order[..k];
    var b := order[k + 1..];
    assert forall i :: 0 <= i < |a| ==> a[i] == order[i];
    assert forall i :: 0 <= i < |b| ==> b[i] == order[k + 1 + i];
  }

  /** A link that enters no neuron of `order` is an input link of none of them. */
  lemma NoneEnters(ws: seq<Wiring>, ends: seq<Endpoints>, order: seq<nat>, l: nat)
    requires AllEnter(ws, ends, order) && l < |ends| && ends[l].next !in order
    ensures forall i :: 0 <= i < |order| ==> l !in ws[order[i]].inputLinks
  {
    forall i | 0 <= i < |order| ensures l !in ws[order[i]].inputLinks {
      assert Enters(ws, ends, order[i]);
    }
  }

  lemma DistinctSplit(order: seq<nat>, k: nat)
    requires Distinct(order) && k < |order|
    ensures order[k] !in order[..k] && order[k] !in order[k + 1..]
    ensures forall x :: x in order[..k] ==> x !in order[k + 1..]
  {
    forall x | x in order[..k] ensures x !in order[k + 1..] {
      var u :| 0 <= u < k && order[..k][u] == x;
      assert order[u] == x;
    }
  }

  // The backward pass, neuron by neuron.

  /** The sum of the deltas fed back through `ls` depends only on the
      weights of those links and the deltas of their targets. */
  lemma {:induction false} SumOfComputedDeltasFrame(g: Net, h: Net, ls: seq<nat>)
    requires Closed(g) && Closed(h) && Below(ls, |g.ends|) && h.ends == g.ends
    requires forall i :: 0 <= i < |ls| ==> h.weights[ls[i]] == g.weights[ls[i]]
    requires forall i :: 0 <= i < |ls| ==> h.activation[g.ends[ls[i]].next].delta == g.activation[g.ends[ls[i]].next].delta
    ensures SumOfComputedDeltas(h, ls) == SumOfComputedDeltas(g, ls)
  {
    if ls != [] {
      var init := ls[..|ls| - 1];
      assert forall i :: 0 <= i < |init| ==> init[i] == ls[i];
      SumOfComputedDeltasFrame(g, h, init);
    }
  }

  /** The backward pass over `order` is the pass up to order[k], then
      backwardPropagation of order[k], then the rest of the pass. */
  lemma BackwardAllAt(g: Net, c: Curves, learningRate: real, order: seq<nat>, k: nat)
    requires Closed(g) && Excited(g.wiring, order) && k < |order|
    ensures Excited(g.wiring, order[..k]) && Excited(g.wiring, order[k + 1..])
    ensures BackwardAll(g, c, learningRate, order)
         == BackwardAll(BackPropagated(BackwardAll(g, c, learningRate, order[..k]), c, learningRate, order[k]),
                        c, learningRate, order[k + 1..])
  {
    var a := order[..k + 1];
    ExcitedSlices(g.wiring, order, k);
    assert a[..k] == order[..k] && a[k] == order[k];
    assert a + order[k + 1..] == order;
    BackwardAllConcat(g, c, learningRate, a, order[k + 1..]);
  }

  lemma ExcitedSlices(ws: seq<Wiring>, order: seq<nat>, k: nat)
    requires Excited(ws, order) && k < |order|
    ensures Excited(ws, order[..k]) && Excited(ws, order[..k + 1]) && Excited(ws, order[k + 1..])
  {
    var a := order[..k + 1];
    var b := order[k + 1..];
    assert forall i :: 0 <= i < |a| ==> a[i] == order[i];
    assert forall i :: 0 <= i < |b| ==> b[i] == order[k + 1 + i];
  }

  /** With no neuron visited twice and every input link entering its
      neuron, the backward pass moves an input link l of order[k] exactly
      once, when it reaches order[k]: by -learningRate times the output of
      l's source times the delta order[k] ends with. */
  lemma BackwardAllLinkOnce(g: Net, c: Curves, learningRate: real, order: seq<nat>, n: nat, l: nat)
    requires Closed(g) && Excited(g.wiring, order) && Distinct(order) && AllEnter(g.wiring, g.ends, order)
    requires n in order && n < |g.wiring| && Distinct(g.wiring[n].inputLinks) && l in g.wiring[n].inputLinks
    ensures l < |g.ends| && g.ends[l].next == n
    ensures BackwardAll(g, c, learningRate, order).weights[l]
         == UpdatedWeight(g.weights[l], learningRate, g.activation[g.ends[l].previous].outputValue,
                          BackwardAll(g, c, learningRate, order).activation[n].delta)
  {
    var k :| 0 <= k < |order| && order[k] == n;
    assert Enters(g.wiring, g.ends, n);
    BackwardAllAt(g, c, learningRate, order, k);
    DistinctSplit(order, k);
    AllEnterSlices(g.wiring, g.ends, order, k);
    BackPropagatedLink(g, c, learningRate, order[..k], n, l);
    var s := BackPropagated(BackwardAll(g, c, learningRate, order[..k]), c, learningRate, n);
    BackwardAllKeepsLink(s, c, learningRate, order[k + 1..], n, l);
  }

  /** backwardPropagation of n, once the pass has been through `a`, moves
      an input link l of n by one step from its weight before the pass,
      with the delta setDelta gives n. */
  lemma BackPropagatedLink(g: Net, c: Curves, learningRate: real, a: seq<nat>, n: nat, l: nat)
    requires Closed(g) && Excited(g.wiring, a) && AllEnter(g.wiring, g.ends, a)
    requires n < |g.wiring| && !g.wiring[n].excitation.NoExc? && n !in a
    requires Distinct(g.wiring[n].inputLinks) && l in g.wiring[n].inputLinks && l < |g.ends| && g.ends[l].next == n
    ensures var r := BackwardAll(g, c, learningRate, a);
            var s := BackPropagated(r, c, learningRate, n);
            && s.activation[n] == WithDelta(r, c, n)
            && s.weights[l] == UpdatedWeight(g.weights[l], learningRate, g.activation[g.ends[l].previous].outputValue,
                                             WithDelta(r, c, n).delta)
  {
    var r := BackwardAll(g, c, learningRate, a);
    var s := BackPropagated(r, c, learningRate, n);
    NoneEnters(g.wiring, g.ends, a, l);
    BackwardAllWeightsOutside(g, c, learningRate, a, l);
    var w := WithDelta(r, c, n);
    var r' := r.(activation := r.activation[n := w]);
    assert s == UpdateLinks(r', learningRate, g.wiring[n].inputLinks);
    UpdateLinksOnce(r', learningRate, g.wiring[n].inputLinks, l);
    BackwardAllKeepsValues(g, c, learningRate, a, g.ends[l].previous);
    assert PreviousValue(r', l) == g.activation[g.ends[l].previous].outputValue;
    assert NextDelta(r', l) == w.delta;
    BackPropagatedActivation(r, c, learningRate, n);
    StepOfUpdate(r', learningRate, l, g.weights[l], g.activation[g.ends[l].previous].outputValue, w.delta);
  }

  /** The rest of the pass, which does not visit n, leaves n and the links
      entering n alone. */
  lemma BackwardAllKeepsLink(s: Net, c: Curves, learningRate: real, b: seq<nat>, n: nat, l: nat)
    requires Closed(s) && Excited(s.wiring, b) && AllEnter(s.wiring, s.ends, b)
    requires n < |s.activation| && n !in b && l < |s.ends| && s.ends[l].next == n
    ensures BackwardAll(s, c, learningRate, b).weights[l] == s.weights[l]
    ensures BackwardAll(s, c, learningRate, b).activation[n] == s.activation[n]
  {
    NoneEnters(s.wiring, s.ends, b, l);
    BackwardAllWeightsOutside(s, c, learningRate, b, l);
    BackwardAllOutside(s, c, learningRate, b, n);
  }

  /** computeWeight on link l of h, from weight x, with the source output
      and target delta h shows. */
  lemma StepOfUpdate(h: Net, learningRate: real, l: nat, x: real, previousValue: real, nextDelta: real)
    requires Closed(h) && l < |h.ends|
    requires PreviousValue(h, l) == previousValue && NextDelta(h, l) == nextDelta
    ensures x - WeightStep(h, learningRate, l) == UpdatedWeight(x, learningRate, previousValue, nextDelta)
  {
  }

  /** When the backward pass reaches order[k] = n, setDelta gives n the
      delta f'(inputValue) * nextLayerComputedDelta, and nothing after
      changes it. An output neuron keeps the nextLayerComputedDelta it had;
      a hidden neuron whose output links all lead to neurons visited before
      it collects their deltas through those links, and those neurons and
      links are never touched again, so the sum it reads is the one the
      finished pass shows. */
  lemma BackwardAllDelta(g: Net, c: Curves, learningRate: real, order: seq<nat>, n: nat)
    requires Closed(g) && Excited(g.wiring, order) && Distinct(order) && n in order
    ensures n < |g.wiring| && !g.wiring[n].excitation.NoExc?
    ensures DeltaFrom(BackwardAll(g, c, learningRate, order).activation[n],
                      g.wiring[n].excitation, c, g.activation[n].inputValue)
  {
    var k :| 0 <= k < |order| && order[k] == n;
    DeltaSetOnce(g, c, learningRate, order, k);
    DeltaOfSet(BackwardAll(g, c, learningRate, order[..k]), c, order[k], g.activation[order[k]], g.wiring[order[k]],
               BackwardAll(g, c, learningRate, order).activation[order[k]]);
  }

  /** The activation setDelta gives n holds the product it names. */
  lemma DeltaOfSet(g: Net, c: Curves, n: nat, a: Activation, w: Wiring, b: Activation)
    requires Closed(g) && n < |g.wiring| && g.wiring[n] == w && !w.excitation.NoExc? && g.activation[n] == a
    requires b == WithDelta(g, c, n)
    ensures DeltaFrom(b, w.excitation, c, a.inputValue)
  {
  }

  /** `b` holds delta = f'(x) * nextLayerComputedDelta. */
  predicate DeltaFrom(b: Activation, e: ExcitationType, c: Curves, x: real)
    requires !e.NoExc?
  {
    b.delta == Derivative(e, c, x) * b.nextLayerComputedDelta
  }

  /** An output neuron ends the pass with the nextLayerComputedDelta it had. */
  lemma BackwardAllNextKept(g: Net, c: Curves, learningRate: real, order: seq<nat>, n: nat)
    requires Closed(g) && Excited(g.wiring, order) && Distinct(order) && n in order
    requires n < |g.wiring| && !g.wiring[n].kind.HiddenNeural?
    ensures BackwardAll(g, c, learningRate, order).activation[n].nextLayerComputedDelta
            == g.activation[n].nextLayerComputedDelta
  {
    var k :| 0 <= k < |order| && order[k] == n;
    DeltaSetOnce(g, c, learningRate, order, k);
    WithDeltaOf(BackwardAll(g, c, learningRate, order[..k]), c, order[k], g.activation[order[k]], g.wiring[order[k]]);
  }

  /** A hidden neuron whose output links all lead to neurons visited before
      it ends the pass holding the sum of the deltas those links feed back,
      read from the finished pass. */
  lemma BackwardAllNextSum(g: Net, c: Curves, learningRate: real, order: seq<nat>, k: nat, n: nat, outs: seq<nat>)
    requires NextSumReady(g, order, k, n, outs)
    ensures Below(outs, |g.ends|) && Excited(g.wiring, order)
    ensures BackwardAll(g, c, learningRate, order).activation[n].nextLayerComputedDelta
            == SumOfComputedDeltas(BackwardAll(g, c, learningRate, order), outs)
  {
    DeltaSetOnce(g, c, learningRate, order, k);
    WithDeltaOf(BackwardAll(g, c, learningRate, order[..k]), c, order[k], g.activation[order[k]], g.wiring[order[k]]);
    DeltasReadKept(g, c, learningRate, order, k);
  }

  /** What BackwardAllNextSum asks of the pass and of hidden neuron n = order[k]. */
  predicate NextSumReady(g: Net, order: seq<nat>, k: nat, n: nat, outs: seq<nat>)
  {
    && Closed(g) && Excited(g.wiring, order) && Distinct(order) && AllEnter(g.wiring, g.ends, order)
    && k < |order| && order[k] == n && n < |g.wiring| && g.wiring[n].kind.HiddenNeural? && outs == g.wiring[n].outputLinks
    && (forall i :: 0 <= i < |outs| ==> outs[i] < |g.ends| && g.ends[outs[i]].next in order[..k])
  }

  /** setDelta of n, when n holds activation `a`. */
  lemma WithDeltaOf(g: Net, c: Curves, n: nat, a: Activation, w: Wiring)
    requires Closed(g) && n < |g.wiring| && g.wiring[n] == w && !w.excitation.NoExc? && g.activation[n] == a
    ensures w.kind.HiddenNeural? ==> WithDelta(g, c, n).nextLayerComputedDelta == SumOfComputedDeltas(g, w.outputLinks)
    ensures !w.kind.HiddenNeural? ==> WithDelta(g, c, n).nextLayerComputedDelta == a.nextLayerComputedDelta
  {
  }

  /** order[k] still has the activation it started with when the pass
      reaches it, and ends with the one setDelta gives it then. */
  lemma DeltaSetOnce(g: Net, c: Curves, learningRate: real, order: seq<nat>, k: nat)
    requires Closed(g) && Excited(g.wiring, order) && Distinct(order) && k < |order|
    ensures Excited(g.wiring, order[..k])
    ensures BackwardAll(g, c, learningRate, order[..k]).activation[order[k]] == g.activation[order[k]]
    ensures BackwardAll(g, c, learningRate, order).activation[order[k]]
         == WithDelta(BackwardAll(g, c, learningRate, order[..k]), c, order[k])
  {
    var n := order[k];
    BackwardAllAt(g, c, learningRate, order, k);
    DistinctSplit(order, k);
    var r := BackwardAll(g, c, learningRate, order[..k]);
    var s := BackPropagated(r, c, learningRate, n);
    BackwardAllOutside(g, c, learningRate, order[..k], n);
    BackPropagatedActivation(r, c, learningRate, n);
    BackwardAllOutside(s, c, learningRate, order[k + 1..], n);
  }

  /** When the output links of order[k] all lead to neurons visited before
      it, the deltas they feed back add up, at the end of the pass, to what
      they added up to when the pass reached order[k]. */
  lemma DeltasReadKept(g: Net, c: Curves, learningRate: real, order: seq<nat>, k: nat)
    requires Closed(g) && Excited(g.wiring, order) && Distinct(order) && AllEnter(g.wiring, g.ends, order)
    requires k < |order|
    requires forall i :: 0 <= i < |g.wiring[order[k]].outputLinks| ==>
               g.ends[g.wiring[order[k]].outputLinks[i]].next in order[..k]
    ensures Excited(g.wiring, order[..k])
    ensures SumOfComputedDeltas(BackwardAll(g, c, learningRate, order), g.wiring[order[k]].outputLinks)
         == SumOfComputedDeltas(BackwardAll(g, c, learningRate, order[..k]), g.wiring[order[k]].outputLinks)
  {
    var outs := g.wiring[order[k]].outputLinks;
    ExcitedSlices(g.wiring, order, k);
    var r := BackwardAll(g, c, learningRate, order[..k]);
    var t := BackwardAll(g, c, learningRate, order);
    forall i | 0 <= i < |outs|
      ensures t.weights[outs[i]] == r.weights[outs[i]]
      ensures t.activation[g.ends[outs[i]].next].delta == r.activation[g.ends[outs[i]].next].delta
    {
      OutputLinkKept(g, c, learningRate, order, k, outs[i]);
    }
    SumOfComputedDeltasFrame(r, t, outs);
  }

  /** A link into a neuron visited before order[k] keeps its weight and
      its target's delta from the moment the pass reaches order[k]. */
  lemma OutputLinkKept(g: Net, c: Curves, learningRate: real, order: seq<nat>, k: nat, m: nat)
    requires Closed(g) && Excited(g.wiring, order) && Distinct(order) && AllEnter(g.wiring, g.ends, order)
    requires k < |order| && m < |g.ends| && g.ends[m].next in order[..k]
    ensures Excited(g.wiring, order[..k]) && Excited(g.wiring, order[k + 1..])
    ensures var r := BackwardAll(g, c, learningRate, order[..k]);
            var t := BackwardAll(g, c, learningRate, order);
            t.weights[m] == r.weights[m] && t.activation[g.ends[m].next].delta == r.activation[g.ends[m].next].delta
  {
    var n := order[k];
    var a := order[..k];
    var b := order[k + 1..];
    var x := g.ends[m].next;
    BackwardAllAt(g, c, learningRate, order, k);
    DistinctSplit(order, k);
    var r := BackwardAll(g, c, learningRate, a);
    var s := BackPropagated(r, c, learningRate, n);
    assert m !in g.wiring[n].inputLinks by {
      assert Enters(g.wiring, g.ends, order[k]);
    }
    BackPropagatedWeights(r, c, learningRate, n, m);
    AllEnterSlices(g.wiring, g.ends, order, k);
    NoneEnters(g.wiring, g.ends, b, m);
    BackwardAllWeightsOutside(s, c, learningRate, b, m);
    BackPropagatedActivation(r, c, learningRate, n);
    BackwardAllOutside(s, c, learningRate, b, x);
  }

  // One call of learn.

  /** The order in which learn's backward pass visits the neurons meets
      what the lemmas above ask of it, and neuron j of layer p is visited
      right after the layers behind p and the first j neurons of p. */
  lemma LearnOrder(g: Net, neurals: seq<seq<nat>>, lls: seq<seq<nat>>, p: nat, j: nat)
    requires Complete(g, neurals, lls) && LayersExcited(g.wiring, neurals)
    requires 1 <= p < |neurals| && j < |neurals[p]|
    ensures Excited(g.wiring, Down(neurals, 1)) && Distinct(Down(neurals, 1))
    ensures AllEnter(g.wiring, g.ends, Down(neurals, 1))
    ensures |Down(neurals, p + 1)| + j < |Down(neurals, 1)|
    ensures Down(neurals, 1)[|Down(neurals, p + 1)| + j] == neurals[p][j]
    ensures Down(neurals, 1)[..|Down(neurals, p + 1)| + j] == Down(neurals, p + 1) + neurals[p][..j]
  {
    DownExcited(g.wiring, neurals, 1);
    DownDistinct(neurals, 1);
    DownEnters(g, neurals, lls);
    DownIndex(neurals, p, j);
  }

  /** The arena learn's backward pass starts from: the forward pass, then
      computeDeltaOutput on the last layer. */
  function Primed(g: Net, c: Curves, neurals: seq<seq<nat>>, inputValues: seq<real>, expectedValues: seq<real>): (r: Net)
    requires Closed(g) && InArena(neurals, |g.wiring|) && |neurals| > 0 && |neurals[0]| <= |inputValues|
    requires |neurals[|neurals| - 1]| <= |expectedValues|
    ensures Closed(r) && r.wiring == g.wiring && r.ends == g.ends && r.weights == g.weights
    ensures forall n :: 0 <= n < |r.activation| ==>
              r.activation[n].outputValue == Estimated(g, c, neurals, inputValues).activation[n].outputValue
  {
    LayerBelow(neurals, |g.wiring|, |neurals| - 1);
    DeltaOutputs(Estimated(g, c, neurals, inputValues), neurals[|neurals| - 1], expectedValues)
  }

  /** learn is its backward pass run from the primed arena. */
  lemma TrainedFromPrimed(g: Net, c: Curves, learningRate: real, neurals: seq<seq<nat>>,
                          inputValues: seq<real>, expectedValues: seq<real>)
    requires Closed(g) && InArena(neurals, |g.wiring|) && |neurals| > 0 && |neurals[0]| <= |inputValues|
    requires |neurals[|neurals| - 1]| <= |expectedValues| && LayersExcited(g.wiring, neurals)
    ensures Excited(g.wiring, Down(neurals, 1))
    ensures Trained(g, c, learningRate, neurals, inputValues, expectedValues)
         == BackwardAll(Primed(g, c, neurals, inputValues, expectedValues), c, learningRate, Down(neurals, 1))
  {
    DownExcited(g.wiring, neurals, 1);
  }

  /** learn moves each input link l of neuron j of layer p (p >= 1) once:
      from its weight before the call, by -learningRate times the output
      the forward pass gave l's source, times the delta the neuron ends with. */
  lemma LearnMovesLinkOnce(g: Net, c: Curves, learningRate: real, neurals: seq<seq<nat>>, lls: seq<seq<nat>>,
                           inputValues: seq<real>, expectedValues: seq<real>, p: nat, j: nat, l: nat)
    requires Complete(g, neurals, lls) && LayersExcited(g.wiring, neurals)
    requires |neurals[0]| <= |inputValues| && |neurals[|neurals| - 1]| <= |expectedValues|
    requires 1 <= p < |neurals| && j < |neurals[p]| && l in g.wiring[neurals[p][j]].inputLinks
    ensures l < |g.ends| && g.ends[l].next == neurals[p][j]
    ensures Trained(g, c, learningRate, neurals, inputValues, expectedValues).weights[l]
         == UpdatedWeight(g.weights[l], learningRate,
                          Estimated(g, c, neurals, inputValues).activation[g.ends[l].previous].outputValue,
                          Trained(g, c, learningRate, neurals, inputValues, expectedValues).activation[neurals[p][j]].delta)
  {
    var d := Primed(g, c, neurals, inputValues, expectedValues);
    LearnMovesLinkPrimed(g, c, learningRate, neurals, lls, inputValues, expectedValues, p, j, l);
    TrainedFromPrimed(g, c, learningRate, neurals, inputValues, expectedValues);
    assert d.activation[g.ends[l].previous].outputValue
        == Estimated(g, c, neurals, inputValues).activation[g.ends[l].previous].outputValue;
  }

  /** LearnMovesLinkOnce for the backward pass run from the primed arena. */
  lemma LearnMovesLinkPrimed(g: Net, c: Curves, learningRate: real, neurals: seq<seq<nat>>, lls: seq<seq<nat>>,
                             inputValues: seq<real>, expectedValues: seq<real>, p: nat, j: nat, l: nat)
    requires Complete(g, neurals, lls) && LayersExcited(g.wiring, neurals)
    requires |neurals[0]| <= |inputValues| && |neurals[|neurals| - 1]| <= |expectedValues|
    requires 1 <= p < |neurals| && j < |neurals[p]| && l in g.wiring[neurals[p][j]].inputLinks
    ensures l < |g.ends| && g.ends[l].next == neurals[p][j] && Excited(g.wiring, Down(neurals, 1))
    ensures BackwardAll(Primed(g, c, neurals, inputValues, expectedValues), c, learningRate, Down(neurals, 1)).weights[l]
         == UpdatedWeight(g.weights[l], learningRate,
                          Primed(g, c, neurals, inputValues, expectedValues).activation[g.ends[l].previous].outputValue,
                          BackwardAll(Primed(g, c, neurals, inputValues, expectedValues), c, learningRate, Down(neurals, 1))
                            .activation[neurals[p][j]].delta)
  {
    LearnOrder(g, neurals, lls, p, j);
    InputLinksDistinct(g.wiring, g.ends, neurals, lls, p, j);
    BackwardAllLinkOnce(Primed(g, c, neurals, inputValues, expectedValues), c, learningRate, Down(neurals, 1),
                        neurals[p][j], l);
  }

  /** The delta learn leaves on neuron j of layer p (p >= 1) is the
      derivative of its excitation at the input value of the forward pass,
      times its nextLayerComputedDelta. */
  lemma LearnDelta(g: Net, c: Curves, learningRate: real, neurals: seq<seq<nat>>, lls: seq<seq<nat>>,
                   inputValues: seq<real>, expectedValues: seq<real>, p: nat, j: nat)
    requires Complete(g, neurals, lls) && LayersExcited(g.wiring, neurals)
    requires |neurals[0]| <= |inputValues| && |neurals[|neurals| - 1]| <= |expectedValues|
    requires 1 <= p < |neurals| && j < |neurals[p]|
    ensures DeltaFrom(Trained(g, c, learningRate, neurals, inputValues, expectedValues).activation[neurals[p][j]],
                      g.wiring[neurals[p][j]].excitation, c,
                      Estimated(g, c, neurals, inputValues).activation[neurals[p][j]].inputValue)
  {
    var n := neurals[p][j];
    var d := Primed(g, c, neurals, inputValues, expectedValues);
    LearnDeltaPrimed(g, c, learningRate, neurals, lls, inputValues, expectedValues, p, j);
    PrimedKeepsInput(g, c, neurals, inputValues, expectedValues, p, j);
    TrainedFromPrimed(g, c, learningRate, neurals, inputValues, expectedValues);
    DeltaFromCarried(BackwardAll(d, c, learningRate, Down(neurals, 1)).activation[n],
                     Trained(g, c, learningRate, neurals, inputValues, expectedValues).activation[n],
                     g.wiring[n].excitation, c, d.activation[n].inputValue,
                     Estimated(g, c, neurals, inputValues).activation[n].inputValue);
  }

  /** LearnDelta for the backward pass run from the primed arena. */
  lemma LearnDeltaPrimed(g: Net, c: Curves, learningRate: real, neurals: seq<seq<nat>>, lls: seq<seq<nat>>,
                         inputValues: seq<real>, expectedValues: seq<real>, p: nat, j: nat)
    requires Complete(g, neurals, lls) && LayersExcited(g.wiring, neurals)
    requires |neurals[0]| <= |inputValues| && |neurals[|neurals| - 1]| <= |expectedValues|
    requires 1 <= p < |neurals| && j < |neurals[p]|
    ensures Excited(g.wiring, Down(neurals, 1))
    ensures DeltaFrom(BackwardAll(Primed(g, c, neurals, inputValues, expectedValues), c, learningRate, Down(neurals, 1))
                        .activation[neurals[p][j]],
                      g.wiring[neurals[p][j]].excitation, c,
                      Primed(g, c, neurals, inputValues, expectedValues).activation[neurals[p][j]].inputValue)
  {
    LearnOrder(g, neurals, lls, p, j);
    BackwardAllDelta(Primed(g, c, neurals, inputValues, expectedValues), c, learningRate, Down(neurals, 1), neurals[p][j]);
  }

  /** DeltaFrom carried over equal activations and equal inputs. */
  lemma DeltaFromCarried(a: Activation, b: Activation, e: ExcitationType, c: Curves, x: real, y: real)
    requires !e.NoExc? && a == b && x == y && DeltaFrom(a, e, c, x)
    ensures DeltaFrom(b, e, c, y)
  {
  }

  /** computeDeltaOutput leaves the input value of every neuron alone. */
  lemma PrimedKeepsInput(g: Net, c: Curves, neurals: seq<seq<nat>>, inputValues: seq<real>, expectedValues: seq<real>,
                         p: nat, j: nat)
    requires Closed(g) && InArena(neurals, |g.wiring|) && DistinctLayers(neurals) && p < |neurals| && j < |neurals[p]|
    requires |neurals[0]| <= |inputValues| && |neurals[|neurals| - 1]| <= |expectedValues|
    ensures Primed(g, c, neurals, inputValues, expectedValues).activation[neurals[p][j]].inputValue
         == Estimated(g, c, neurals, inputValues).activation[neurals[p][j]].inputValue
  {
    var last := |neurals| - 1;
    LayerBelow(neurals, |g.wiring|, last);
    LayerDistinct(neurals, last);
    DeltaOutputsValues(Estimated(g, c, neurals, inputValues), neurals[last], expectedValues);
    if neurals[p][j] in neurals[last] {
      var i :| 0 <= i < |neurals[last]| && neurals[last][i] == neurals[p][j];
    }
  }

  /** An output neuron starts the backward pass, and ends learn, with
      nextLayerComputedDelta = outputValue - expected value. */
  lemma LearnOutputDelta(g: Net, c: Curves, learningRate: real, neurals: seq<seq<nat>>, lls: seq<seq<nat>>,
                         inputValues: seq<real>, expectedValues: seq<real>, j: nat)
    requires Complete(g, neurals, lls) && LayersExcited(g.wiring, neurals) && |neurals| >= 2
    requires |neurals[0]| <= |inputValues| && |neurals[|neurals| - 1]| <= |expectedValues|
    requires j < |neurals[|neurals| - 1]|
    ensures Trained(g, c, learningRate, neurals, inputValues, expectedValues)
              .activation[neurals[|neurals| - 1][j]].nextLayerComputedDelta
         == Estimated(g, c, neurals, inputValues).activation[neurals[|neurals| - 1][j]].outputValue - expectedValues[j]
  {
    var last := |neurals| - 1;
    var n := neurals[last][j];
    LearnOrder(g, neurals, lls, last, j);
    assert NeuronOfKind(g.wiring, g.ends, n, LayerKind(last, |neurals|, true));
    var d := Primed(g, c, neurals, inputValues, expectedValues);
    assert n in Down(neurals, 1) by {
      assert Down(neurals, 1)[|Down(neurals, last + 1)| + j] == n;
    }
    BackwardAllNextKept(d, c, learningRate, Down(neurals, 1), n);
    TrainedFromPrimed(g, c, learningRate, neurals, inputValues, expectedValues);
    PrimedOutputDelta(g, c, neurals, inputValues, expectedValues, j);
  }

  /** computeDeltaOutput gives output neuron j nextLayerComputedDelta =
      outputValue - expectedValues[j]. */
  lemma PrimedOutputDelta(g: Net, c: Curves, neurals: seq<seq<nat>>, inputValues: seq<real>, expectedValues: seq<real>,
                          j: nat)
    requires Closed(g) && InArena(neurals, |g.wiring|) && DistinctLayers(neurals) && |neurals| > 0
    requires |neurals[0]| <= |inputValues| && |neurals[|neurals| - 1]| <= |expectedValues|
    requires j < |neurals[|neurals| - 1]|
    ensures Primed(g, c, neurals, inputValues, expectedValues).activation[neurals[|neurals| - 1][j]].nextLayerComputedDelta
         == Estimated(g, c, neurals, inputValues).activation[neurals[|neurals| - 1][j]].outputValue - expectedValues[j]
  {
    var last := |neurals| - 1;
    LayerBelow(neurals, |g.wiring|, last);
    LayerDistinct(neurals, last);
    DeltaOutputsValues(Estimated(g, c, neurals, inputValues), neurals[last], expectedValues);
  }

  /** A hidden neuron ends learn holding, as nextLayerComputedDelta, the
      sum over its output links of weight times target delta, both as
      learn leaves them: the links were moved before the neuron was reached. */
  lemma LearnHiddenDelta(g: Net, c: Curves, learningRate: real, neurals: seq<seq<nat>>, lls: seq<seq<nat>>,
                         inputValues: seq<real>, expectedValues: seq<real>, p: nat, j: nat)
    requires Complete(g, neurals, lls) && LayersExcited(g.wiring, neurals)
    requires |neurals[0]| <= |inputValues| && |neurals[|neurals| - 1]| <= |expectedValues|
    requires 1 <= p < |neurals| - 1 && j < |neurals[p]|
    ensures Trained(g, c, learningRate, neurals, inputValues, expectedValues).activation[neurals[p][j]].nextLayerComputedDelta
         == SumOfComputedDeltas(Trained(g, c, learningRate, neurals, inputValues, expectedValues),
                                g.wiring[neurals[p][j]].outputLinks)
  {
    LearnHiddenPrimed(g, c, learningRate, neurals, lls, inputValues, expectedValues, p, j);
    TrainedFromPrimed(g, c, learningRate, neurals, inputValues, expectedValues);
  }

  /** LearnHiddenDelta for the backward pass run from the primed arena. */
  lemma LearnHiddenPrimed(g: Net, c: Curves, learningRate: real, neurals: seq<seq<nat>>, lls: seq<seq<nat>>,
                          inputValues: seq<real>, expectedValues: seq<real>, p: nat, j: nat)
    requires Complete(g, neurals, lls) && LayersExcited(g.wiring, neurals)
    requires |neurals[0]| <= |inputValues| && |neurals[|neurals| - 1]| <= |expectedValues|
    requires 1 <= p < |neurals| - 1 && j < |neurals[p]|
    ensures Excited(g.wiring, Down(neurals, 1))
    ensures BackwardAll(Primed(g, c, neurals, inputValues, expectedValues), c, learningRate, Down(neurals, 1))
              .activation[neurals[p][j]].nextLayerComputedDelta
         == SumOfComputedDeltas(BackwardAll(Primed(g, c, neurals, inputValues, expectedValues), c, learningRate, Down(neurals, 1)),
                                g.wiring[neurals[p][j]].outputLinks)
  {
    var d := Primed(g, c, neurals, inputValues, expectedValues);
    assert Complete(d, neurals, lls);
    HiddenNextSum(d, c, learningRate, neurals, lls, p, j);
  }

  /** In the backward pass over the layers of a complete network, a hidden
      neuron ends with the sum its output links feed back. */
  lemma HiddenNextSum(g: Net, c: Curves, learningRate: real, neurals: seq<seq<nat>>, lls: seq<seq<nat>>, p: nat, j: nat)
    requires Complete(g, neurals, lls) && LayersExcited(g.wiring, neurals)
    requires 1 <= p < |neurals| - 1 && j < |neurals[p]|
    ensures Excited(g.wiring, Down(neurals, 1))
    ensures BackwardAll(g, c, learningRate, Down(neurals, 1)).activation[neurals[p][j]].nextLayerComputedDelta
         == SumOfComputedDeltas(BackwardAll(g, c, learningRate, Down(neurals, 1)), g.wiring[neurals[p][j]].outputLinks)
  {
    HiddenReady(g, neurals, lls, p, j);
    BackwardAllNextSum(g, c, learningRate, Down(neurals, 1), |Down(neurals, p + 1)| + j, neurals[p][j],
                       g.wiring[neurals[p][j]].outputLinks);
  }

  /** A hidden neuron of a complete network meets NextSumReady in learn's backward order. */
  lemma HiddenReady(g: Net, neurals: seq<seq<nat>>, lls: seq<seq<nat>>, p: nat, j: nat)
    requires Complete(g, neurals, lls) && LayersExcited(g.wiring, neurals)
    requires 1 <= p < |neurals| - 1 && j < |neurals[p]|
    ensures NextSumReady(g, Down(neurals, 1), |Down(neurals, p + 1)| + j, neurals[p][j], g.wiring[neurals[p][j]].outputLinks)
  {
    LearnOrder(g, neurals, lls, p, j);
    assert g.wiring[neurals[p][j]].kind.HiddenNeural? by {
      assert NeuronOfKind(g.wiring, g.ends, neurals[p][j], LayerKind(p, |neurals|, true));
    }
    TargetsVisitedBefore(g, neurals, lls, p, j);
  }

  /** The output links of neuron j of a hidden layer p lead to neurons the
      backward pass visits before it. */
  lemma TargetsVisitedBefore(g: Net, neurals: seq<seq<nat>>, lls: seq<seq<nat>>, p: nat, j: nat)
    requires Complete(g, neurals, lls) && 1 <= p < |neurals| - 1 && j < |neurals[p]|
    ensures |Down(neurals, p + 1)| + j <= |Down(neurals, 1)|
    ensures forall i :: 0 <= i < |g.wiring[neurals[p][j]].outputLinks| ==>
              g.wiring[neurals[p][j]].outputLinks[i] < |g.ends| &&
              g.ends[g.wiring[neurals[p][j]].outputLinks[i]].next in Down(neurals, 1)[..|Down(neurals, p + 1)| + j]
  {
    DownIndex(neurals, p, j);
    var outs := g.wiring[neurals[p][j]].outputLinks;
    forall i | 0 <= i < |outs|
      ensures outs[i] < |g.ends| && g.ends[outs[i]].next in Down(neurals, 1)[..|Down(neurals, p + 1)| + j]
    {
      OutputLinkAhead(g, neurals, lls, p, j, outs[i]);
      VisitedBefore(neurals, p, j, g.ends[outs[i]].next);
    }
  }

  /** A neuron of layer p + 1 is visited before neuron j of layer p. */
  lemma VisitedBefore(neurals: seq<seq<nat>>, p: nat, j: nat, x: nat)
    requires 1 <= p < |neurals| - 1 && j < |neurals[p]| && x in neurals[p + 1]
    ensures |Down(neurals, p + 1)| + j <= |Down(neurals, 1)|
    ensures x in Down(neurals, 1)[..|Down(neurals, p + 1)| + j]
  {
    DownIndex(neurals, p, j);
    DownMember(neurals, p + 1, x);
    var q :| 0 <= q < |neurals[p + 1]| && neurals[p + 1][q] == x;
    assert x in Down(neurals, p + 1);
  }

  /** Each output link m of a hidden neuron, read by that neuron's delta,
      already carries its updated weight: learn moved it from its weight
      before the call by -learningRate times the neuron's output times the
      delta of m's target. */
  lemma LearnReadsUpdatedWeights(g: Net, c: Curves, learningRate: real, neurals: seq<seq<nat>>, lls: seq<seq<nat>>,
                                 inputValues: seq<real>, expectedValues: seq<real>, p: nat, j: nat, m: nat)
    requires Complete(g, neurals, lls) && LayersExcited(g.wiring, neurals)
    requires |neurals[0]| <= |inputValues| && |neurals[|neurals| - 1]| <= |expectedValues|
    requires p + 1 < |neurals| && j < |neurals[p]| && m in g.wiring[neurals[p][j]].outputLinks
    ensures m < |g.ends| && g.ends[m].previous == neurals[p][j]
    ensures Trained(g, c, learningRate, neurals, inputValues, expectedValues).weights[m]
         == UpdatedWeight(g.weights[m], learningRate,
                          Estimated(g, c, neurals, inputValues).activation[neurals[p][j]].outputValue,
                          Trained(g, c, learningRate, neurals, inputValues, expectedValues).activation[g.ends[m].next].delta)
  {
    OutputLinkAhead(g, neurals, lls, p, j, m);
    var q :| 0 <= q < |neurals[p + 1]| && neurals[p + 1][q] == g.ends[m].next;
    LinkEntersTarget(g, neurals, lls, p, q, m);
    LearnMovesLinkOnce(g, c, learningRate, neurals, lls, inputValues, expectedValues, p + 1, q, m);
  }
}
