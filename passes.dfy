/** The passes Network::learn and Network::estimate make over the arena,
    as functions of the arena's state: setting the inputs, the forward
    pass, the output deltas, the loss inputs, the backward pass, and the
    class getClassMax reports. */
module Passes {
  import opened Graph
  import opened Excitation
  import opened Neural
  import opened Layers
  import Mse

  predicate Distinct(s: seq<nat>)
  {
    forall i, j :: 0 <= i < j < |s| ==> s[i] != s[j]
  }

  /** setValue(values[i]) on neuron layer[i], for each i in turn. */
  function SetInputs(g: Net, layer: seq<nat>, values: seq<real>): (r: Net)
    requires Closed(g) && Below(layer, |g.wiring|) && |layer| <= |values|
    ensures Closed(r) && r.wiring == g.wiring && r.ends == g.ends && r.weights == g.weights
  {
    if layer == [] then g
    else
      var h := SetInputs(g, layer[..|layer| - 1], values);
      var n := layer[|layer| - 1];
      h.(activation := h.activation[n := h.activation[n].(outputValue := values[|layer| - 1])])
  }

  /** forwardPropagation on each neuron of `order` in turn. */
  function ForwardAll(g: Net, c: Curves, order: seq<nat>): (r: Net)
    requires Closed(g) && Below(order, |g.wiring|)
    ensures Closed(r) && r.wiring == g.wiring && r.ends == g.ends && r.weights == g.weights
  {
    if order == [] then g
    else
      var h := ForwardAll(g, c, order[..|order| - 1]);
      var n := order[|order| - 1];
      h.(activation := h.activation[n := Forwarded(h, c, n)])
  }

  /** computeDeltaOutput(expected[j]) on output neuron layer[j], for each j in turn. */
  function DeltaOutputs(g: Net, layer: seq<nat>, expected: seq<real>): (r: Net)
    requires Closed(g) && Below(layer, |g.wiring|) && |layer| <= |expected|
    ensures Closed(r) && r.wiring == g.wiring && r.ends == g.ends && r.weights == g.weights
    ensures forall n :: 0 <= n < |r.activation| ==> r.activation[n].outputValue == g.activation[n].outputValue
  {
    if layer == [] then g
    else
      var h := DeltaOutputs(g, layer[..|layer| - 1], expected);
      var n := layer[|layer| - 1];
      h.(activation := h.activation[n := h.activation[n].(nextLayerComputedDelta :=
                                            h.activation[n].outputValue - expected[|layer| - 1])])
  }

  /** The vector learn hands to the loss function: what computeDeltaOutput
      returns for each output neuron. */
  function OutputErrors(g: Net, layer: seq<nat>, expected: seq<real>): (r: seq<real>)
    requires Closed(g) && Below(layer, |g.wiring|) && |layer| <= |expected|
    ensures |r| == |layer|
    ensures forall j :: 0 <= j < |layer| ==> r[j] == g.activation[layer[j]].outputValue - expected[j]
  {
    if layer == [] then []
    else OutputErrors(g, layer[..|layer| - 1], expected)
         + [g.activation[layer[|layer| - 1]].outputValue - expected[|layer| - 1]]
  }

  /** One turn of the output-delta loop of learn: the neuron layer[j] gets
      its delta from the output value it had before the loop. */
  lemma DeltaOutputStep(g: Net, layer: seq<nat>, expected: seq<real>, j: nat, h: Net, h': Net, d: real)
    requires Closed(g) && Below(layer, |g.wiring|) && |layer| <= |expected| && j < |layer|
    requires h == DeltaOutputs(g, layer[..j], expected)
    requires d == h.activation[layer[j]].outputValue - expected[j]
    requires h' == h.(activation := h.activation[layer[j] := h.activation[layer[j]].(nextLayerComputedDelta := d)])
    ensures h' == DeltaOutputs(g, layer[..j + 1], expected)
    ensures OutputErrors(g, layer[..j + 1], expected) == OutputErrors(g, layer[..j], expected) + [d]
  {
    var l := layer[..j + 1];
    assert l[..j] == layer[..j] && l[j] == layer[j] && |l| == j + 1;
    assert h.activation[layer[j]].outputValue == g.activation[layer[j]].outputValue;
  }

  /** The output values of the neurons of `layer`. */
  function Outputs(g: Net, layer: seq<nat>): (r: seq<real>)
    requires Closed(g) && Below(layer, |g.wiring|)
    ensures |r| == |layer|
    ensures forall j :: 0 <= j < |layer| ==> r[j] == g.activation[layer[j]].outputValue
  {
    if layer == [] then [] else Outputs(g, layer[..|layer| - 1]) + [g.activation[layer[|layer| - 1]].outputValue]
  }

  /** Every neuron of `order` has an excitation (backwardPropagation dereferences it). */
  predicate Excited(ws: seq<Wiring>, order: seq<nat>)
  {
    forall i :: 0 <= i < |order| ==> order[i] < |ws| && !ws[order[i]].excitation.NoExc?
  }

  /** backwardPropagation on each neuron of `order` in turn. */
  function BackwardAll(g: Net, c: Curves, learningRate: real, order: seq<nat>): (r: Net)
    requires Closed(g) && Excited(g.wiring, order)
    ensures Closed(r) && r.wiring == g.wiring && r.ends == g.ends
  {
    if order == [] then g
    else BackPropagated(BackwardAll(g, c, learningRate, order[..|order| - 1]), c, learningRate, order[|order| - 1])
  }

  /** What getClassMax computes from the output values: maxClassValue stays
      the value of the first output, so the class is the last index whose
      value exceeds the first one, or 0. */
  function ClassMax(values: seq<real>): (r: nat)
    requires |values| > 0
    ensures r < |values|
  {
    if |values| == 1 then 0
    else if values[|values| - 1] > values[0] then |values| - 1
    else ClassMax(values[..|values| - 1])
  }

  // Setting the inputs.

  /** Input neuron layer[j] ends with output value values[j], and every
      other neuron is left alone. */
  lemma {:induction false} SetInputsValues(g: Net, layer: seq<nat>, values: seq<real>)
    requires Closed(g) && Below(layer, |g.wiring|) && |layer| <= |values| && Distinct(layer)
    ensures forall j :: 0 <= j < |layer| ==>
      SetInputs(g, layer, values).activation[layer[j]] == g.activation[layer[j]].(outputValue := values[j])
    ensures forall n :: 0 <= n < |g.activation| && n !in layer ==>
      SetInputs(g, layer, values).activation[n] == g.activation[n]
  {
    if layer != [] {
      var init := layer[..|layer| - 1];
      SetInputsValues(g, init, values);
      assert layer == init + [layer[|layer| - 1]];
    }
  }

  // The forward pass.

  /** A neuron the forward pass does not visit keeps its values. */
  lemma {:induction false} ForwardAllOutside(g: Net, c: Curves, order: seq<nat>, n: nat)
    requires Closed(g) && Below(order, |g.wiring|) && n < |g.activation| && n !in order
    ensures ForwardAll(g, c, order).activation[n] == g.activation[n]
  {
    if order != [] {
      var init := order[..|order| - 1];
      assert order == init + [order[|order| - 1]];
      ForwardAllOutside(g, c, init, n);
    }
  }

  /** A neuron without aggregation and excitation, an input neuron, keeps its
      values through the forward pass: the inputs learn sets survive it. */
  lemma {:induction false} ForwardAllPassive(g: Net, c: Curves, order: seq<nat>, n: nat)
    requires Closed(g) && Below(order, |g.wiring|) && n < |g.activation|
    requires g.wiring[n].aggregation.NoAgg? && g.wiring[n].excitation.NoExc?
    ensures ForwardAll(g, c, order).activation[n] == g.activation[n]
  {
    if order != [] {
      ForwardAllPassive(g, c, order[..|order| - 1], n);
    }
  }

  /** The forward pass writes only input and output values: every delta is kept. */
  lemma {:induction false} ForwardAllKeepsDeltas(g: Net, c: Curves, order: seq<nat>, n: nat)
    requires Closed(g) && Below(order, |g.wiring|) && n < |g.activation|
    ensures ForwardAll(g, c, order).activation[n].delta == g.activation[n].delta
    ensures ForwardAll(g, c, order).activation[n].nextLayerComputedDelta == g.activation[n].nextLayerComputedDelta
  {
    if order != [] {
      ForwardAllKeepsDeltas(g, c, order[..|order| - 1], n);
    }
  }

  /** When a neuron is visited last, its new values are forwardPropagation
      applied to what the earlier visits left. */
  lemma ForwardAllLast(g: Net, c: Curves, order: seq<nat>, n: nat)
    requires Closed(g) && Below(order, |g.wiring|) && n < |g.wiring|
    ensures Below(order + [n], |g.wiring|)
    ensures ForwardAll(g, c, order + [n]).activation[n] == Forwarded(ForwardAll(g, c, order), c, n)
  {
    assert (order + [n])[..|order|] == order;
  }

  /** One more neuron of `order` through the forward pass. */
  lemma ForwardStep(g: Net, c: Curves, order: seq<nat>, k: nat, h: Net, h': Net)
    requires Closed(g) && Below(order, |g.wiring|) && k < |order|
    requires h == ForwardAll(g, c, order[..k])
    requires h' == h.(activation := h.activation[order[k] := Forwarded(h, c, order[k])])
    ensures h' == ForwardAll(g, c, order[..k + 1])
  {
    assert order[..k + 1][..k] == order[..k];
  }

  /** The forward pass over `a + b` is the pass over `a`, then over `b`. */
  lemma {:induction false} ForwardAllConcat(g: Net, c: Curves, a: seq<nat>, b: seq<nat>)
    requires Closed(g) && Below(a, |g.wiring|) && Below(b, |g.wiring|)
    ensures Below(a + b, |g.wiring|)
    ensures ForwardAll(g, c, a + b) == ForwardAll(ForwardAll(g, c, a), c, b)
  {
    BelowConcat(a, b, |g.wiring|);
    if b == [] {
      assert a + b == a;
    } else {
      var init := b[..|b| - 1];
      ForwardAllConcat(g, c, a, init);
      assert (a + b)[..|a + b| - 1] == a + init;
    }
  }

  lemma BelowConcat(a: seq<nat>, b: seq<nat>, bound: nat)
    requires Below(a, bound) && Below(b, bound)
    ensures Below(a + b, bound)
  {
  }

  // The output deltas and the loss.

  /** Output neuron layer[j] holds outputValue - expected[j] as the delta it
      starts the backward pass with; every other neuron is left alone. */
  lemma {:induction false} DeltaOutputsValues(g: Net, layer: seq<nat>, expected: seq<real>)
    requires Closed(g) && Below(layer, |g.wiring|) && |layer| <= |expected| && Distinct(layer)
    ensures forall j :: 0 <= j < |layer| ==>
      DeltaOutputs(g, layer, expected).activation[layer[j]]
      == g.activation[layer[j]].(nextLayerComputedDelta := g.activation[layer[j]].outputValue - expected[j])
    ensures forall n :: 0 <= n < |g.activation| && n !in layer ==>
      DeltaOutputs(g, layer, expected).activation[n] == g.activation[n]
  {
    if layer != [] {
      var init := layer[..|layer| - 1];
      DeltaOutputsValues(g, init, expected);
      assert layer == init + [layer[|layer| - 1]];
    }
  }

  /** The loss learn records is never negative, and it is zero exactly when
      every output matches its expected value. */
  lemma LossZeroIff(g: Net, layer: seq<nat>, expected: seq<real>)
    requires Closed(g) && Below(layer, |g.wiring|) && |layer| <= |expected| && |layer| > 0
    ensures Mse.MeanSquaredError(OutputErrors(g, layer, expected)) >= 0.0
    ensures Mse.MeanSquaredError(OutputErrors(g, layer, expected)) == 0.0
        <==> forall j :: 0 <= j < |layer| ==> g.activation[layer[j]].outputValue == expected[j]
  {
    var e := OutputErrors(g, layer, expected);
    Mse.MseNonNegative(e);
    Mse.MseZeroIff(e);
    assert (forall i :: 0 <= i < |e| ==> e[i] == 0.0)
       <==> forall j :: 0 <= j < |layer| ==> g.activation[layer[j]].outputValue == expected[j];
  }

  // The backward pass.

  /** backwardPropagation on n rewrites only the deltas of n, and only the
      weights of n's input links. */
  lemma BackPropagatedActivation(g: Net, c: Curves, learningRate: real, n: nat)
    requires Closed(g) && n < |g.wiring| && !g.wiring[n].excitation.NoExc?
    ensures BackPropagated(g, c, learningRate, n).activation == g.activation[n := WithDelta(g, c, n)]
  {
  }

  lemma BackPropagatedWeights(g: Net, c: Curves, learningRate: real, n: nat, l: nat)
    requires Closed(g) && n < |g.wiring| && !g.wiring[n].excitation.NoExc? && l < |g.ends|
    ensures l !in g.wiring[n].inputLinks ==> BackPropagated(g, c, learningRate, n).weights[l] == g.weights[l]
  {
    var g' := g.(activation := g.activation[n := WithDelta(g, c, n)]);
    if l !in g.wiring[n].inputLinks {
      UpdateLinksWeights(g', learningRate, g.wiring[n].inputLinks, l);
      OccurrencesAbsent(g.wiring[n].inputLinks, l);
    }
  }

  lemma {:induction false} OccurrencesAbsent(ls: seq<nat>, l: nat)
    requires l !in ls
    ensures Occurrences(ls, l) == 0
  {
    if ls != [] {
      assert ls == ls[..|ls| - 1] + [ls[|ls| - 1]];
      OccurrencesAbsent(ls[..|ls| - 1], l);
    }
  }

  /** One more neuron of `order` through the backward pass. */
  lemma BackwardStep(g: Net, c: Curves, learningRate: real, order: seq<nat>, k: nat, h: Net, h': Net)
    requires Closed(g) && Excited(g.wiring, order) && k < |order|
    requires h == BackwardAll(g, c, learningRate, order[..k])
    requires h' == BackPropagated(h, c, learningRate, order[k])
    ensures h' == BackwardAll(g, c, learningRate, order[..k + 1])
  {
    assert order[..k + 1][..k] == order[..k];
  }

  /** The backward pass over `a + b` is the pass over `a`, then over `b`. */
  lemma {:induction false} BackwardAllConcat(g: Net, c: Curves, learningRate: real, a: seq<nat>, b: seq<nat>)
    requires Closed(g) && Excited(g.wiring, a) && Excited(g.wiring, b)
    ensures Excited(g.wiring, a + b)
    ensures BackwardAll(g, c, learningRate, a + b) == BackwardAll(BackwardAll(g, c, learningRate, a), c, learningRate, b)
  {
    if b == [] {
      assert a + b == a;
    } else {
      var init := b[..|b| - 1];
      BackwardAllConcat(g, c, learningRate, a, init);
      assert (a + b)[..|a + b| - 1] == a + init;
    }
  }

  lemma ComputableExcited(ws: seq<Wiring>, b: seq<nat>)
    requires Computable(ws, b)
    ensures Excited(ws, b)
  {
  }

  /** The backward pass never changes an input or output value. */
  lemma {:induction false} BackwardAllKeepsValues(g: Net, c: Curves, learningRate: real, order: seq<nat>, n: nat)
    requires Closed(g) && Excited(g.wiring, order) && n < |g.activation|
    ensures BackwardAll(g, c, learningRate, order).activation[n].inputValue == g.activation[n].inputValue
    ensures BackwardAll(g, c, learningRate, order).activation[n].outputValue == g.activation[n].outputValue
  {
    if order != [] {
      var init := order[..|order| - 1];
      var h := BackwardAll(g, c, learningRate, init);
      BackwardAllKeepsValues(g, c, learningRate, init, n);
      BackPropagatedActivation(h, c, learningRate, order[|order| - 1]);
    }
  }

  /** A neuron the backward pass does not visit keeps its values. */
  lemma {:induction false} BackwardAllOutside(g: Net, c: Curves, learningRate: real, order: seq<nat>, n: nat)
    requires Closed(g) && Excited(g.wiring, order) && n < |g.activation| && n !in order
    ensures BackwardAll(g, c, learningRate, order).activation[n] == g.activation[n]
  {
    if order != [] {
      var init := order[..|order| - 1];
      assert order == init + [order[|order| - 1]];
      var h := BackwardAll(g, c, learningRate, init);
      BackwardAllOutside(g, c, learningRate, init, n);
      BackPropagatedActivation(h, c, learningRate, order[|order| - 1]);
    }
  }

  /** The backward pass changes the weight of a link only when the link is an
      input link of a visited neuron. */
  lemma {:induction false} BackwardAllWeightsOutside(g: Net, c: Curves, learningRate: real, order: seq<nat>, l: nat)
    requires Closed(g) && Excited(g.wiring, order) && l < |g.ends|
    requires forall i :: 0 <= i < |order| ==> l !in g.wiring[order[i]].inputLinks
    ensures BackwardAll(g, c, learningRate, order).weights[l] == g.weights[l]
  {
    if order != [] {
      var init := order[..|order| - 1];
      var h := BackwardAll(g, c, learningRate, init);
      BackwardAllWeightsOutside(g, c, learningRate, init, l);
      assert l !in g.wiring[order[|order| - 1]].inputLinks;
      BackPropagatedWeights(h, c, learningRate, order[|order| - 1], l);
    }
  }

  // The class getClassMax reports.

  /** ClassMax is the last index whose value exceeds the first value, or 0
      when there is none; nothing else satisfies that description. */
  lemma {:induction false} ClassMaxIff(values: seq<real>, r: nat)
    requires |values| > 0
    ensures ClassMax(values) == r
        <==> && r < |values|
             && (r == 0 || values[r] > values[0])
             && (forall i :: r < i < |values| ==> values[i] <= values[0])
  {
    if |values| > 1 {
      var init := values[..|values| - 1];
      ClassMaxIff(init, r);
      if r < |init| {
        assert forall i :: r < i < |init| ==> init[i] == values[i];
      }
    }
  }

  /** getClassMax is not an arg-max: with outputs 0, 2, 1 it reports class 2
      although class 1 has the largest output. */
  lemma ClassMaxNotArgmax()
    ensures ClassMax([0.0, 2.0, 1.0]) == 2
    ensures ArgMax([0.0, 2.0, 1.0]) == 1
  {
    assert [0.0, 2.0, 1.0][..2] == [0.0, 2.0];
    assert [0.0, 2.0][..1] == [0.0];
  }

  /** The class getClassMax is meant to report: the first index of the
      largest value (maxClassValue follows maxClass). */
  function ArgMax(values: seq<real>): (r: nat)
    requires |values| > 0
    ensures r < |values|
  {
    if |values| == 1 then 0
    else
      var m := ArgMax(values[..|values| - 1]);
      if values[|values| - 1] > values[m] then |values| - 1 else m
  }

  /** getClassMax's loop, one value further. */
  lemma ArgMaxStep(values: seq<real>, i: nat)
    requires 0 < i < |values|
    ensures ArgMax(values[..i + 1])
         == if values[i] > values[ArgMax(values[..i])] then i else ArgMax(values[..i])
  {
    assert values[..i + 1][..i] == values[..i];
  }

  /** r holds a largest value, and every earlier value is strictly smaller. */
  predicate FirstMax(values: seq<real>, r: nat)
  {
    && r < |values|
    && (forall i :: 0 <= i < |values| ==> values[i] <= values[r])
    && (forall i :: 0 <= i < r ==> values[i] < values[r])
  }

  lemma {:induction false} ArgMaxFirst(values: seq<real>)
    requires |values| > 0
    ensures FirstMax(values, ArgMax(values))
  {
    if |values| > 1 {
      var init := values[..|values| - 1];
      ArgMaxFirst(init);
      var m := ArgMax(init);
      assert forall i :: 0 <= i < |init| ==> init[i] == values[i];
    }
  }

  lemma FirstMaxUnique(values: seq<real>, r: nat, s: nat)
    requires FirstMax(values, r) && FirstMax(values, s)
    ensures r == s
  {
    assert values[r] == values[s];
  }

  /** ArgMax is exactly the first index of the largest value. */
  lemma ArgMaxIff(values: seq<real>, r: nat)
    requires |values| > 0
    ensures ArgMax(values) == r <==> FirstMax(values, r)
  {
    ArgMaxFirst(values);
    if FirstMax(values, r) {
      FirstMaxUnique(values, ArgMax(values), r);
    }
  }

  // The neuron kinds the passes rely on.

  /** Every neuron of `layer` is in the arena and of kind `kind`. */
  predicate OfKind(ws: seq<Wiring>, layer: seq<nat>, kind: NeuralType)
  {
    forall j :: 0 <= j < |layer| ==> layer[j] < |ws| && ws[layer[j]].kind == kind
  }

  /** No neuron of `layer` is a bias neuron, so forwardPropagation accepts each. */
  predicate NoBias(ws: seq<Wiring>, layer: seq<nat>)
  {
    forall j :: 0 <= j < |layer| ==> layer[j] < |ws| && !ws[layer[j]].kind.BiasNeural?
  }

  /** Every neuron of `layer` is a hidden or an output neuron with an
      excitation, so backwardPropagation accepts each and setDelta can run. */
  predicate Computable(ws: seq<Wiring>, layer: seq<nat>)
  {
    forall j :: 0 <= j < |layer| ==>
      && layer[j] < |ws|
      && (ws[layer[j]].kind.HiddenNeural? || ws[layer[j]].kind.OutputNeural?)
      && !ws[layer[j]].excitation.NoExc?
  }

  /** Every neuron after the input layer has an excitation. */
  predicate LayersExcited(ws: seq<Wiring>, neurals: seq<seq<nat>>)
  {
    forall p, j :: 1 <= p < |neurals| && 0 <= j < |neurals[p]| && neurals[p][j] < |ws| ==>
      !ws[neurals[p][j]].excitation.NoExc?
  }

  /** The kinds the layers of a complete network have: the input layer holds
      input neurons, the last layer output neurons, no layer a bias neuron,
      and every layer after the input one is computable when excited. */
  lemma LayerKinds(ws: seq<Wiring>, ends: seq<Endpoints>, neurals: seq<seq<nat>>, p: nat)
    requires Layered(ws, ends, neurals, true) && p < |neurals|
    ensures NoBias(ws, neurals[p])
    ensures p == 0 ==> OfKind(ws, neurals[p], InputNeural)
    ensures 0 < p == |neurals| - 1 ==> OfKind(ws, neurals[p], OutputNeural)
    ensures 0 < p && LayersExcited(ws, neurals) ==> Computable(ws, neurals[p])
  {
    forall j | 0 <= j < |neurals[p]|
      ensures NeuronOfKind(ws, ends, neurals[p][j], LayerKind(p, |neurals|, true))
    {
    }
  }

  /** LayerKinds for all the layers at once. */
  lemma AllLayerKinds(ws: seq<Wiring>, ends: seq<Endpoints>, neurals: seq<seq<nat>>)
    requires Layered(ws, ends, neurals, true)
    ensures forall p :: 0 <= p < |neurals| ==> NoBias(ws, neurals[p])
    ensures LayersExcited(ws, neurals) ==> forall p :: 1 <= p < |neurals| ==> Computable(ws, neurals[p])
  {
    forall p | 0 <= p < |neurals|
      ensures NoBias(ws, neurals[p])
      ensures 0 < p && LayersExcited(ws, neurals) ==> Computable(ws, neurals[p])
    {
      LayerKinds(ws, ends, neurals, p);
    }
  }

  /** No neuron appears twice in one layer. */
  lemma LayerDistinct(neurals: seq<seq<nat>>, p: nat)
    requires DistinctLayers(neurals) && p < |neurals|
    ensures Distinct(neurals[p])
  {
    forall i, j | 0 <= i < j < |neurals[p]| ensures neurals[p][i] != neurals[p][j] {
      assert At(neurals, p, i) != At(neurals, p, j);
    }
  }

  /** Every neuron the backward pass visits has an excitation. */
  lemma {:induction false} DownExcited(ws: seq<Wiring>, neurals: seq<seq<nat>>, i: nat)
    requires InArena(neurals, |ws|) && LayersExcited(ws, neurals) && i >= 1
    ensures Excited(ws, Down(neurals, i))
    decreases |neurals| - i
  {
    if i < |neurals| {
      DownExcited(ws, neurals, i + 1);
      var d := Down(neurals, i + 1);
      forall k | 0 <= k < |d + neurals[i]|
        ensures (d + neurals[i])[k] < |ws| && !ws[(d + neurals[i])[k]].excitation.NoExc?
      {
        if k >= |d| {
          assert (d + neurals[i])[k] == neurals[i][k - |d|];
        }
      }
    }
  }

  // Whole passes.

  /** The arena after the first two loops of learn and estimate: the input
      values set on the input layer, then forwardPropagation on every layer
      neuron, first layer first. */
  function Estimated(g: Net, c: Curves, neurals: seq<seq<nat>>, inputValues: seq<real>): (r: Net)
    requires Closed(g) && InArena(neurals, |g.wiring|) && |neurals| > 0 && |neurals[0]| <= |inputValues|
    ensures Closed(r) && r.wiring == g.wiring && r.ends == g.ends && r.weights == g.weights
  {
    LayerBelow(neurals, |g.wiring|, 0);
    FlattenBelow(neurals, |g.wiring|);
    ForwardAll(SetInputs(g, neurals[0], inputValues), c, Flatten(neurals))
  }

  /** The errors learn hands to the loss function: outputValue - expected
      for each neuron of the last layer, after the forward pass. */
  function LearnErrors(g: Net, c: Curves, neurals: seq<seq<nat>>, inputValues: seq<real>, expectedValues: seq<real>): (r: seq<real>)
    requires Closed(g) && InArena(neurals, |g.wiring|) && |neurals| > 0 && |neurals[0]| <= |inputValues|
    requires |neurals[|neurals| - 1]| <= |expectedValues|
    ensures |r| == |neurals[|neurals| - 1]|
  {
    LayerBelow(neurals, |g.wiring|, |neurals| - 1);
    OutputErrors(Estimated(g, c, neurals, inputValues), neurals[|neurals| - 1], expectedValues)
  }

  /** The arena after learn: the forward pass, computeDeltaOutput on each
      neuron of the last layer, then backwardPropagation on layers
      last, ..., 1. */
  function Trained(g: Net, c: Curves, learningRate: real, neurals: seq<seq<nat>>,
                   inputValues: seq<real>, expectedValues: seq<real>): (r: Net)
    requires Closed(g) && InArena(neurals, |g.wiring|) && |neurals| > 0 && |neurals[0]| <= |inputValues|
    requires |neurals[|neurals| - 1]| <= |expectedValues| && LayersExcited(g.wiring, neurals)
    ensures Closed(r) && r.wiring == g.wiring && r.ends == g.ends
  {
    LayerBelow(neurals, |g.wiring|, |neurals| - 1);
    DownExcited(g.wiring, neurals, 1);
    var f := Estimated(g, c, neurals, inputValues);
    BackwardAll(DeltaOutputs(f, neurals[|neurals| - 1], expectedValues), c, learningRate, Down(neurals, 1))
  }

  /** learn's arena as its three steps: the forward pass, the output
      deltas and the backward pass. */
  lemma TrainedSteps(g: Net, c: Curves, learningRate: real, neurals: seq<seq<nat>>,
                     inputValues: seq<real>, expectedValues: seq<real>, d: Net)
    requires Closed(g) && InArena(neurals, |g.wiring|) && |neurals| > 0 && |neurals[0]| <= |inputValues|
    requires |neurals[|neurals| - 1]| <= |expectedValues| && LayersExcited(g.wiring, neurals)
    requires Below(neurals[|neurals| - 1], |g.wiring|)
    requires d == DeltaOutputs(Estimated(g, c, neurals, inputValues), neurals[|neurals| - 1], expectedValues)
    ensures Excited(d.wiring, Down(neurals, 1))
    ensures Trained(g, c, learningRate, neurals, inputValues, expectedValues) == BackwardAll(d, c, learningRate, Down(neurals, 1))
  {
    DownExcited(g.wiring, neurals, 1);
  }

  /** After the forward pass each input neuron still holds its input value. */
  lemma EstimatedInputs(g: Net, c: Curves, neurals: seq<seq<nat>>, inputValues: seq<real>)
    requires Closed(g) && Layered(g.wiring, g.ends, neurals, true) && |neurals| > 0 && |neurals[0]| <= |inputValues|
    ensures forall j :: 0 <= j < |neurals[0]| ==>
      Estimated(g, c, neurals, inputValues).activation[neurals[0][j]].outputValue == inputValues[j]
  {
    LayerBelow(neurals, |g.wiring|, 0);
    FlattenBelow(neurals, |g.wiring|);
    LayerDistinct(neurals, 0);
    LayerKinds(g.wiring, g.ends, neurals, 0);
    SetInputsValues(g, neurals[0], inputValues);
    var s := SetInputs(g, neurals[0], inputValues);
    forall j | 0 <= j < |neurals[0]|
      ensures ForwardAll(s, c, Flatten(neurals)).activation[neurals[0][j]] == s.activation[neurals[0][j]]
    {
      assert NeuronOfKind(g.wiring, g.ends, neurals[0][j], LayerKind(0, |neurals|, true));
      ForwardAllPassive(s, c, Flatten(neurals), neurals[0][j]);
    }
  }

  /** The backward pass never visits a neuron of the input layer. */
  lemma DownSkipsInputs(neurals: seq<seq<nat>>, j: nat)
    requires DistinctLayers(neurals) && |neurals| > 0 && j < |neurals[0]|
    ensures neurals[0][j] !in Down(neurals, 1)
  {
    DownMember(neurals, 1, neurals[0][j]);
    forall p, k | 1 <= p < |neurals| && 0 <= k < |neurals[p]| ensures neurals[p][k] != neurals[0][j] {
      assert At(neurals, p, k) != At(neurals, 0, j);
    }
  }

  /** After learn each input neuron still holds its input value: the
      backward pass leaves input and output values alone. */
  lemma TrainedInputs(g: Net, c: Curves, learningRate: real, neurals: seq<seq<nat>>,
                      inputValues: seq<real>, expectedValues: seq<real>)
    requires Closed(g) && Layered(g.wiring, g.ends, neurals, true) && |neurals| > 0 && |neurals[0]| <= |inputValues|
    requires |neurals[|neurals| - 1]| <= |expectedValues| && LayersExcited(g.wiring, neurals)
    ensures forall j :: 0 <= j < |neurals[0]| ==>
      Trained(g, c, learningRate, neurals, inputValues, expectedValues).activation[neurals[0][j]].outputValue
      == inputValues[j]
  {
    EstimatedInputs(g, c, neurals, inputValues);
    LayerBelow(neurals, |g.wiring|, |neurals| - 1);
    DownExcited(g.wiring, neurals, 1);
    var d := DeltaOutputs(Estimated(g, c, neurals, inputValues), neurals[|neurals| - 1], expectedValues);
    forall j | 0 <= j < |neurals[0]|
      ensures BackwardAll(d, c, learningRate, Down(neurals, 1)).activation[neurals[0][j]].outputValue
              == d.activation[neurals[0][j]].outputValue
    {
      BackwardAllKeepsValues(d, c, learningRate, Down(neurals, 1), neurals[0][j]);
    }
  }

  /** backPropagation leaves every neuron of the input layer exactly as it was. */
  lemma BackPropagationSkipsInputs(g: Net, c: Curves, learningRate: real, neurals: seq<seq<nat>>)
    requires Closed(g) && InArena(neurals, |g.wiring|) && DistinctLayers(neurals) && |neurals| > 0
    requires LayersExcited(g.wiring, neurals)
    ensures Excited(g.wiring, Down(neurals, 1))
    ensures forall j :: 0 <= j < |neurals[0]| ==>
      BackwardAll(g, c, learningRate, Down(neurals, 1)).activation[neurals[0][j]] == g.activation[neurals[0][j]]
  {
    DownExcited(g.wiring, neurals, 1);
    forall j | 0 <= j < |neurals[0]|
      ensures BackwardAll(g, c, learningRate, Down(neurals, 1)).activation[neurals[0][j]] == g.activation[neurals[0][j]]
    {
      DownSkipsInputs(neurals, j);
      BackwardAllOutside(g, c, learningRate, Down(neurals, 1), neurals[0][j]);
    }
  }
}
