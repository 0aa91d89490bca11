/** The `Neural` objects and the mutating half of `Link` (Neural.cpp,
    Link.cpp). Every neuron and link of an engine lives in one `Arena`;
    a method taking `n` is the C++ method called on neuron n, one taking
    `l` the C++ method called on link l. */
module Neural {
  import opened Results
  import opened Excitation
  import opened Graph
  import opened Link
  import Aggregation

  /** Why addInputLink refuses a link, by the kind of the neuron. */
  function InputLinkOutcome(k: NeuralType): Outcome
  {
    if k.BiasNeural? then Fail(BiasHasNoInputLinks)
    else if k.InputNeural? then Fail(InputHasNoInputLinks)
    else Pass
  }

  /** Why addOutputLink refuses a link, by the kind of the neuron. */
  function OutputLinkOutcome(k: NeuralType): Outcome
  {
    if k.OutputNeural? then Fail(OutputHasNoOutputLinks) else Pass
  }

  /** Neuron n with link l appended to its input links. */
  function WithInputLink(ws: seq<Wiring>, n: nat, l: nat): seq<Wiring>
    requires n < |ws|
  {
    ws[n := ws[n].(inputLinks := ws[n].inputLinks + [l])]
  }

  /** Neuron n with link l appended to its output links. */
  function WithOutputLink(ws: seq<Wiring>, n: nat, l: nat): seq<Wiring>
    requires n < |ws|
  {
    ws[n := ws[n].(outputLinks := ws[n].outputLinks + [l])]
  }

  /** The fields of a neuron fresh from the constructor: no links, no bias. */
  function NewWiring(t: NeuralType, aT: AggregationType, eT: ExcitationType): Wiring
  {
    Wiring(t, aT, eT, [], [], None, None)
  }

  /** The values of a neuron fresh from the constructor: only a bias
      neuron starts with a non-zero output, the value it is given. */
  function NewActivation(t: NeuralType, v: real): (a: Activation)
    ensures a.inputValue == 0.0 && a.delta == 0.0 && a.nextLayerComputedDelta == 0.0
    ensures a.outputValue == (if t.BiasNeural? then v else 0.0)
  {
    Activation(0.0, if t.BiasNeural? then v else 0.0, 0.0, 0.0)
  }

  /** forwardPropagation of neuron n (not a bias neuron): the input value
      is aggregated when there is an aggregation and at least one input
      link; the output value is excited when there is an excitation. */
  function Forwarded(g: Net, c: Curves, n: nat): Activation
    requires Closed(g) && n < |g.wiring|
  {
    var w := g.wiring[n];
    var a := g.activation[n];
    var input := if w.aggregation.Sum? && |w.inputLinks| > 0
                 then Aggregation.SumOfComputedValues(g, w.inputLinks) else a.inputValue;
    var output := if w.excitation.NoExc? then a.outputValue else Compute(w.excitation, c, input);
    a.(inputValue := input, outputValue := output)
  }

  /** The sum of getComputedDelta over `ls`, accumulated from the first link on. */
  function SumOfComputedDeltas(g: Net, ls: seq<nat>): real
    requires Closed(g) && Below(ls, |g.ends|)
  {
    if ls == [] then 0.0
    else SumOfComputedDeltas(g, ls[..|ls| - 1]) + ComputedDelta(g, ls[|ls| - 1])
  }

  /** setDelta of neuron n: a hidden neuron first collects the deltas its
      output links feed back; then delta = f'(inputValue) * nextLayerComputedDelta. */
  function WithDelta(g: Net, c: Curves, n: nat): Activation
    requires Closed(g) && n < |g.wiring| && !g.wiring[n].excitation.NoExc?
  {
    var w := g.wiring[n];
    var a := g.activation[n];
    var next := if w.kind.HiddenNeural? then SumOfComputedDeltas(g, w.outputLinks)
                else a.nextLayerComputedDelta;
    a.(nextLayerComputedDelta := next, delta := Derivative(w.excitation, c, a.inputValue) * next)
  }

  /** The step Link::computeWeight subtracts from the weight of link l. */
  function WeightStep(g: Net, learningRate: real, l: nat): real
    requires Closed(g) && l < |g.ends|
  {
    learningRate * PreviousValue(g, l) * NextDelta(g, l)
  }

  /** Link::computeWeight on each link of `ls` in turn (Neural::computeWeight). */
  function UpdateLinks(g: Net, learningRate: real, ls: seq<nat>): (r: Net)
    requires Closed(g) && Below(ls, |g.ends|)
    ensures Closed(r)
    ensures r.wiring == g.wiring && r.activation == g.activation && r.ends == g.ends
    ensures |r.weights| == |g.weights|
  {
    if ls == [] then g
    else
      var h := UpdateLinks(g, learningRate, ls[..|ls| - 1]);
      var l := ls[|ls| - 1];
      h.(weights := h.weights[l := UpdatedWeight(h.weights[l], learningRate, PreviousValue(h, l), NextDelta(h, l))])
  }

  /** backwardPropagation of neuron n (a hidden or output neuron): setDelta,
      then computeWeight with the new delta. */
  function BackPropagated(g: Net, c: Curves, learningRate: real, n: nat): (r: Net)
    requires Closed(g) && n < |g.wiring| && !g.wiring[n].excitation.NoExc?
    ensures Closed(r)
    ensures r.wiring == g.wiring && r.ends == g.ends
  {
    var g' := g.(activation := g.activation[n := WithDelta(g, c, n)]);
    UpdateLinks(g', learningRate, g.wiring[n].inputLinks)
  }

  /** UpdateLinks over ls[..i + 1] is one more computeWeight after UpdateLinks over ls[..i]. */
  lemma UpdateLinksNext(g: Net, learningRate: real, ls: seq<nat>, i: nat, h: Net)
    requires Closed(g) && Below(ls, |g.ends|) && i < |ls|
    requires h == UpdateLinks(g, learningRate, ls[..i])
    ensures UpdateLinks(g, learningRate, ls[..i + 1])
         == h.(weights := h.weights[ls[i] := UpdatedWeight(h.weights[ls[i]], learningRate, PreviousValue(h, ls[i]), NextDelta(h, ls[i]))])
  {
    assert ls[..i + 1][..i] == ls[..i];
  }

  /** Updating the links of `ls` one after the other moves each weight by
      one step per occurrence of its link in `ls`; the step is fixed, because
      neither source outputs nor target deltas change meanwhile. */
  lemma {:induction false} UpdateLinksWeights(g: Net, learningRate: real, ls: seq<nat>, l: nat)
    requires Closed(g) && Below(ls, |g.ends|) && l < |g.ends|
    ensures UpdateLinks(g, learningRate, ls).weights[l]
         == g.weights[l] - Steps(Occurrences(ls, l), WeightStep(g, learningRate, l))
  {
    if ls != [] {
      var init := ls[..|ls| - 1];
      var last := ls[|ls| - 1];
      UpdateLinksWeights(g, learningRate, init, l);
      UpdateLinksLast(g, learningRate, ls, l);
      if last == l {
        assert Occurrences(ls, l) == Occurrences(init, l) + 1;
      } else {
        assert Occurrences(ls, l) == Occurrences(init, l);
      }
    }
  }

  /** The last update of `ls` moves link l by one step if it is l, and not at all otherwise. */
  lemma UpdateLinksLast(g: Net, learningRate: real, ls: seq<nat>, l: nat)
    requires Closed(g) && Below(ls, |g.ends|) && l < |g.ends| && ls != []
    ensures ls[|ls| - 1] == l ==>
      UpdateLinks(g, learningRate, ls).weights[l]
      == UpdateLinks(g, learningRate, ls[..|ls| - 1]).weights[l] - WeightStep(g, learningRate, l)
    ensures ls[|ls| - 1] != l ==>
      UpdateLinks(g, learningRate, ls).weights[l] == UpdateLinks(g, learningRate, ls[..|ls| - 1]).weights[l]
  {
    var h := UpdateLinks(g, learningRate, ls[..|ls| - 1]);
    var last := ls[|ls| - 1];
    var r := UpdateLinks(g, learningRate, ls);
    var w := UpdatedWeight(h.weights[last], learningRate, PreviousValue(h, last), NextDelta(h, last));
    assert r.weights == h.weights[last := w];
    if last == l {
      UpdateOnSameStep(g, h, learningRate, l);
    }
  }

  /** The step of a link depends only on its endpoints and their values. */
  lemma UpdateOnSameStep(g: Net, h: Net, learningRate: real, l: nat)
    requires Closed(g) && Closed(h) && l < |g.ends| && l < |h.ends|
    requires h.activation == g.activation && h.ends == g.ends
    ensures UpdatedWeight(h.weights[l], learningRate, PreviousValue(h, l), NextDelta(h, l))
         == h.weights[l] - WeightStep(g, learningRate, l)
  {
  }

  /** k equal steps of size `step`, one after the other. */
  function Steps(k: nat, step: real): real
  {
    if k == 0 then 0.0 else Steps(k - 1, step) + step
  }

  /** k steps of size `step` add up to k times `step`. */
  lemma {:induction false} StepsMultiply(k: nat, step: real)
    ensures Steps(k, step) == (k as real) * step
  {
    if k > 0 {
      StepsMultiply(k - 1, step);
    }
  }

  /** When the input links of a neuron are distinct, computeWeight updates
      each of them exactly once and leaves every other link alone. */
  lemma UpdateLinksOnce(g: Net, learningRate: real, ls: seq<nat>, l: nat)
    requires Closed(g) && Below(ls, |g.ends|) && l < |g.ends|
    requires forall i, j :: 0 <= i < j < |ls| ==> ls[i] != ls[j]
    ensures l in ls ==> UpdateLinks(g, learningRate, ls).weights[l] == g.weights[l] - WeightStep(g, learningRate, l)
    ensures l !in ls ==> UpdateLinks(g, learningRate, ls).weights[l] == g.weights[l]
  {
    UpdateLinksWeights(g, learningRate, ls, l);
    DistinctCount(ls, l);
  }

  /** How many times link l occurs in `ls`. */
  function Occurrences(ls: seq<nat>, l: nat): nat
  {
    if ls == [] then 0
    else Occurrences(ls[..|ls| - 1], l) + (if ls[|ls| - 1] == l then 1 else 0)
  }

  lemma {:induction false} DistinctCount(ls: seq<nat>, l: nat)
    requires forall i, j :: 0 <= i < j < |ls| ==> ls[i] != ls[j]
    ensures Occurrences(ls, l) == if l in ls then 1 else 0
  {
    if ls != [] {
      var init := ls[..|ls| - 1];
      assert ls == init + [ls[|ls| - 1]];
      DistinctCount(init, l);
      if ls[|ls| - 1] == l {
        assert l !in init by {
          forall i | 0 <= i < |init| ensures init[i] != l {
            assert init[i] == ls[i];
          }
        }
      }
    }
  }

  /** A Step neuron's backward delta is 0 unless its input value is exactly 0,
      where it is the collected delta itself. */
  lemma StepDelta(g: Net, c: Curves, n: nat)
    requires Closed(g) && n < |g.wiring| && g.wiring[n].excitation.Step?
    ensures g.activation[n].inputValue != 0.0 ==> WithDelta(g, c, n).delta == 0.0
    ensures g.activation[n].inputValue == 0.0 ==> WithDelta(g, c, n).delta == WithDelta(g, c, n).nextLayerComputedDelta
  {
  }

  /** A neuron without aggregation and excitation (an input neuron) is left
      as it is by forwardPropagation. */
  lemma ForwardedPassive(g: Net, c: Curves, n: nat)
    requires Closed(g) && n < |g.wiring|
    requires g.wiring[n].aggregation.NoAgg? && g.wiring[n].excitation.NoExc?
    ensures Forwarded(g, c, n) == g.activation[n]
  {
  }

  /** forwardPropagation with Sum and at least one input link feeds the
      excitation the sum of the computed values of the input links. */
  lemma ForwardedSum(g: Net, c: Curves, n: nat)
    requires Closed(g) && n < |g.wiring|
    requires g.wiring[n].aggregation.Sum? && |g.wiring[n].inputLinks| > 0 && !g.wiring[n].excitation.NoExc?
    ensures Forwarded(g, c, n).inputValue == Aggregation.SumOfComputedValues(g, g.wiring[n].inputLinks)
    ensures Forwarded(g, c, n).outputValue == Compute(g.wiring[n].excitation, c, Forwarded(g, c, n).inputValue)
    ensures Forwarded(g, c, n).delta == g.activation[n].delta
  {
  }

  /** The neurons and links of one engine. */
  class Arena {
    var wiring: seq<Wiring>
    var activation: seq<Activation>
    var ends: seq<Endpoints>
    var weights: seq<real>
    /** The static Link::learningRate. */
    var learningRate: real
    /** How many times `rand()` has been called. */
    var draws: nat
    /** The values successive `rand()` calls return. */
    const rand: nat -> RandomValue
    const curves: Curves

    function State(): Net
      reads this
    {
      Net(wiring, activation, ends, weights)
    }

    predicate Valid()
      reads this
    {
      Closed(State())
    }

    /** An empty arena; the learning rate starts at 0.0. */
    constructor(rand: nat -> RandomValue, curves: Curves)
      ensures Valid()
      ensures wiring == [] && activation == [] && ends == [] && weights == []
      ensures learningRate == 0.0 && draws == 0
      ensures this.rand == rand && this.curves == curves
    {
      wiring := [];
      activation := [];
      ends := [];
      weights := [];
      learningRate := 0.0;
      draws := 0;
      this.rand := rand;
      this.curves := curves;
    }

    /** Neural::Neural(t, aT, eT, v). */
    method AddNeural(t: NeuralType, aT: AggregationType, eT: ExcitationType, v: real) returns (n: nat)
      requires Valid()
      modifies this`wiring, this`activation
      ensures Valid()
      ensures n == |old(wiring)|
      ensures wiring == old(wiring) + [NewWiring(t, aT, eT)]
      ensures activation == old(activation) + [NewActivation(t, v)]
    {
      n := |wiring|;
      wiring := wiring + [NewWiring(t, aT, eT)];
      activation := activation + [Activation(0.0, if t == BiasNeural then v else 0.0, 0.0, 0.0)];
      assert forall m :: 0 <= m < n ==> wiring[m] == old(wiring)[m];
    }

    /** Link::Link(previous, next): a new link whose weight is
        rand() / RAND_MAX; it is not yet in any neuron's lists. */
    method AddLink(previous: nat, next: nat) returns (l: nat)
      requires Valid() && previous < |wiring| && next < |wiring|
      modifies this`ends, this`weights, this`draws
      ensures Valid()
      ensures l == |old(ends)|
      ensures ends == old(ends) + [Endpoints(previous, next)]
      ensures weights == old(weights) + [InitialWeight(rand(old(draws)))]
      ensures draws == old(draws) + 1
    {
      l := |ends|;
      ends := ends + [Endpoints(previous, next)];
      weights := weights + [InitialWeight(rand(draws))];
      draws := draws + 1;
      forall m | 0 <= m < |wiring|
        ensures WiringClosed(wiring[m], |wiring|, |ends|)
      {
        assert WiringClosed(wiring[m], |wiring|, l);
      }
    }

    /** Neural::addInputLink: bias and input neurons have no input links. */
    method AddInputLink(n: nat, l: nat) returns (o: Outcome)
      requires Valid() && n < |wiring| && l < |ends|
      modifies this`wiring
      ensures Valid()
      ensures o == InputLinkOutcome(old(wiring[n].kind))
      ensures wiring == if o.Pass? then WithInputLink(old(wiring), n, l) else old(wiring)
    {
      if wiring[n].kind == BiasNeural {
        return Fail(BiasHasNoInputLinks);
      }
      if wiring[n].kind == InputNeural {
        return Fail(InputHasNoInputLinks);
      }
      wiring := WithInputLink(wiring, n, l);
      o := Pass;
      assert WiringClosed(wiring[n], |wiring|, |ends|);
    }

    /** Neural::addOutputLink: output neurons have no output links. */
    method AddOutputLink(n: nat, l: nat) returns (o: Outcome)
      requires Valid() && n < |wiring| && l < |ends|
      modifies this`wiring
      ensures Valid()
      ensures o == OutputLinkOutcome(old(wiring[n].kind))
      ensures wiring == if o.Pass? then WithOutputLink(old(wiring), n, l) else old(wiring)
    {
      if wiring[n].kind == OutputNeural {
        return Fail(OutputHasNoOutputLinks);
      }
      wiring := WithOutputLink(wiring, n, l);
      o := Pass;
      assert WiringClosed(wiring[n], |wiring|, |ends|);
    }

    /** Link::connect: FORWARD registers link l with its target, BACKWARD
        with its source, BOTH with the target and then the source. When the
        source refuses, the target keeps the link. */
    method Connect(l: nat, direction: ConnectDirection) returns (o: Outcome)
      requires Valid() && l < |ends|
      modifies this`wiring
      ensures Valid()
      ensures direction.Forward? ==>
        o == InputLinkOutcome(old(wiring[ends[l].next].kind))
        && wiring == (if o.Pass? then WithInputLink(old(wiring), ends[l].next, l) else old(wiring))
      ensures direction.Backward? ==>
        o == OutputLinkOutcome(old(wiring[ends[l].previous].kind))
        && wiring == (if o.Pass? then WithOutputLink(old(wiring), ends[l].previous, l) else old(wiring))
      ensures direction.Both? && InputLinkOutcome(old(wiring[ends[l].next].kind)).Fail? ==>
        o == InputLinkOutcome(old(wiring[ends[l].next].kind)) && wiring == old(wiring)
      ensures direction.Both? && InputLinkOutcome(old(wiring[ends[l].next].kind)).Pass? ==>
        o == OutputLinkOutcome(old(wiring[ends[l].previous].kind))
        && wiring == (if o.Pass? then WithOutputLink(WithInputLink(old(wiring), ends[l].next, l), ends[l].previous, l)
                      else WithInputLink(old(wiring), ends[l].next, l))
    {
      var e := ends[l];
      match direction
      case Forward =>
        o := AddInputLink(e.next, l);
      case Backward =>
        o := AddOutputLink(e.previous, l);
      case Both =>
        o := AddInputLink(e.next, l);
        if o.Pass? {
          o := AddOutputLink(e.previous, l);
        }
    }

    /** Neural::connectFrom: a new link previous -> n, registered with
        `previous` and then appended to n's input links. */
    method ConnectFrom(n: nat, previous: nat) returns (r: Result<nat>)
      requires Valid() && n < |wiring| && previous < |wiring|
      modifies this`wiring, this`ends, this`weights, this`draws
      ensures Valid()
      ensures ends == old(ends) + [Endpoints(previous, n)]
      ensures weights == old(weights) + [InitialWeight(rand(old(draws)))]
      ensures draws == old(draws) + 1
      ensures r == if OutputLinkOutcome(old(wiring[previous].kind)).Pass? then Ok(|old(ends)|)
                   else Err(OutputLinkOutcome(old(wiring[previous].kind)).error)
      ensures wiring == if r.Ok? then WithInputLink(WithOutputLink(old(wiring), previous, r.value), n, r.value)
                        else old(wiring)
    {
      var l := AddLink(previous, n);
      var o := Connect(l, Backward);
      if o.Fail? {
        return Err(o.error);
      }
      wiring := WithInputLink(wiring, n, l);
      r := Ok(l);
      assert WiringClosed(wiring[n], |wiring|, |ends|);
    }

    /** Neural::connectTo: a new link n -> next, registered with `next` and
        then appended to n's output links. */
    method ConnectTo(n: nat, next: nat) returns (r: Result<nat>)
      requires Valid() && n < |wiring| && next < |wiring|
      modifies this`wiring, this`ends, this`weights, this`draws
      ensures Valid()
      ensures ends == old(ends) + [Endpoints(n, next)]
      ensures weights == old(weights) + [InitialWeight(rand(old(draws)))]
      ensures draws == old(draws) + 1
      ensures r == if InputLinkOutcome(old(wiring[next].kind)).Pass? then Ok(|old(ends)|)
                   else Err(InputLinkOutcome(old(wiring[next].kind)).error)
      ensures wiring == if r.Ok? then WithOutputLink(WithInputLink(old(wiring), next, r.value), n, r.value)
                        else old(wiring)
    {
      var l := AddLink(n, next);
      var o := Connect(l, Forward);
      if o.Fail? {
        return Err(o.error);
      }
      wiring := WithOutputLink(wiring, n, l);
      r := Ok(l);
      assert WiringClosed(wiring[n], |wiring|, |ends|);
    }

    /** Neural::addBias: a hidden or output neuron gets its own bias neuron,
        whose output is `value`, and one input link from it; any other neuron
        gets neither. */
    method AddBias(n: nat, value: real)
      requires Valid() && n < |wiring|
      modifies this`wiring, this`activation, this`ends, this`weights, this`draws
      ensures Valid()
      ensures old(wiring[n].kind).HiddenNeural? || old(wiring[n].kind).OutputNeural? ==>
        && wiring == old(wiring)[n := old(wiring[n]).(inputLinks := old(wiring[n].inputLinks) + [|old(ends)|],
                                                      biasNeural := Some(|old(wiring)|),
                                                      biasLink := Some(|old(ends)|))]
                      + [NewWiring(BiasNeural, NoAgg, NoExc).(outputLinks := [|old(ends)|])]
        && activation == old(activation) + [NewActivation(BiasNeural, value)]
        && ends == old(ends) + [Endpoints(|old(wiring)|, n)]
        && weights == old(weights) + [InitialWeight(rand(old(draws)))]
        && draws == old(draws) + 1
      ensures !(old(wiring[n].kind).HiddenNeural? || old(wiring[n].kind).OutputNeural?) ==>
        && wiring == old(wiring)[n := old(wiring[n]).(biasNeural := None, biasLink := None)]
        && activation == old(activation) && ends == old(ends) && weights == old(weights) && draws == old(draws)
    {
      if wiring[n].kind == HiddenNeural || wiring[n].kind == OutputNeural {
        ghost var w0 := wiring;
        ghost var l0 := |ends|;
        var bias := AddNeural(BiasNeural, NoAgg, NoExc, value);
        var link := ConnectFrom(n, bias);
        wiring := wiring[n := wiring[n].(biasNeural := Some(bias), biasLink := Some(link.value))];
        ghost var expected := w0[n := w0[n].(inputLinks := w0[n].inputLinks + [l0],
                                             biasNeural := Some(|w0|), biasLink := Some(l0))]
                              + [NewWiring(BiasNeural, NoAgg, NoExc).(outputLinks := [l0])];
        assert wiring == expected by {
          assert |wiring| == |expected|;
          forall m | 0 <= m < |wiring| ensures wiring[m] == expected[m] {
          }
        }
        assert WiringClosed(wiring[n], |wiring|, |ends|);
      } else {
        wiring := wiring[n := wiring[n].(biasNeural := None, biasLink := None)];
      }
    }

    /** Neural::setValue: only an input neuron takes a value. */
    method SetValue(n: nat, value: real) returns (o: Outcome)
      requires Valid() && n < |wiring|
      modifies this`activation
      ensures Valid()
      ensures o == if wiring[n].kind.InputNeural? then Pass else Fail(OnlyInputCanBeSet)
      ensures activation == if o.Pass? then old(activation)[n := old(activation[n]).(outputValue := value)]
                            else old(activation)
    {
      if wiring[n].kind == InputNeural {
        activation := activation[n := activation[n].(outputValue := value)];
        o := Pass;
      } else {
        o := Fail(OnlyInputCanBeSet);
      }
    }

    /** Neural::forwardPropagation: a bias neuron cannot be computed. */
    method ForwardPropagation(n: nat) returns (o: Outcome)
      requires Valid() && n < |wiring|
      modifies this`activation
      ensures Valid()
      ensures o == if wiring[n].kind.BiasNeural? then Fail(BiasCannotBeComputed) else Pass
      ensures activation == if o.Pass? then old(activation)[n := Forwarded(old(State()), curves, n)]
                            else old(activation)
    {
      if wiring[n].kind == BiasNeural {
        return Fail(BiasCannotBeComputed);
      }
      var a := activation[n];
      if wiring[n].aggregation == Sum && |wiring[n].inputLinks| > 0 {
        var sum := Aggregation.Compute(State(), wiring[n].inputLinks);
        a := a.(inputValue := sum);
      }
      if wiring[n].excitation != NoExc {
        a := a.(outputValue := Compute(wiring[n].excitation, curves, a.inputValue));
      }
      activation := activation[n := a];
      o := Pass;
    }

    /** Neural::setDelta; the source dereferences the excitation object, so
        the neuron must have one. */
    method SetDelta(n: nat)
      requires Valid() && n < |wiring| && !wiring[n].excitation.NoExc?
      modifies this`activation
      ensures Valid()
      ensures activation == old(activation)[n := WithDelta(old(State()), curves, n)]
    {
      var a := activation[n];
      if wiring[n].kind == HiddenNeural {
        var g := State();
        var outputLinks := wiring[n].outputLinks;
        var next := 0.0;
        var i := 0;
        while i < |outputLinks|
          invariant 0 <= i <= |outputLinks|
          invariant next == SumOfComputedDeltas(g, outputLinks[..i])
        {
          assert outputLinks[..i + 1][..i] == outputLinks[..i];
          next := next + ComputedDelta(g, outputLinks[i]);
          i := i + 1;
        }
        assert outputLinks[..i] == outputLinks;
        a := a.(nextLayerComputedDelta := next);
      }
      a := a.(delta := Derivative(wiring[n].excitation, curves, a.inputValue) * a.nextLayerComputedDelta);
      assert a.nextLayerComputedDelta == WithDelta(old(State()), curves, n).nextLayerComputedDelta;
      assert a == WithDelta(old(State()), curves, n);
      activation := activation[n := a];
    }

    /** Neural::computeDeltaOutput: an output neuron stores and returns
        outputValue - expectedValue; any other neuron refuses. */
    method ComputeDeltaOutput(n: nat, expectedValue: real) returns (r: Result<real>)
      requires Valid() && n < |wiring|
      modifies this`activation
      ensures Valid()
      ensures r == if wiring[n].kind.OutputNeural? then Ok(old(activation[n].outputValue) - expectedValue)
                   else Err(OnlyOutputComputesDeltaOutput)
      ensures activation == if r.Ok? then old(activation)[n := old(activation[n]).(nextLayerComputedDelta := r.value)]
                            else old(activation)
    {
      if wiring[n].kind == OutputNeural {
        var d := activation[n].outputValue - expectedValue;
        activation := activation[n := activation[n].(nextLayerComputedDelta := d)];
        r := Ok(d);
      } else {
        r := Err(OnlyOutputComputesDeltaOutput);
      }
    }

    /** Link::computeWeight on link l, with the shared learning rate. */
    method ComputeLinkWeight(l: nat)
      requires Valid() && l < |ends|
      modifies this`weights
      ensures Valid()
      ensures weights == old(weights)[l := UpdatedWeight(old(weights[l]), learningRate,
                                                         PreviousValue(old(State()), l), NextDelta(old(State()), l))]
    {
      weights := weights[l := UpdatedWeight(weights[l], learningRate, PreviousValue(State(), l), NextDelta(State(), l))];
    }

    /** Neural::computeWeight: computeWeight on every input link of n, in order. */
    method ComputeWeight(n: nat)
      requires Valid() && n < |wiring|
      modifies this`weights
      ensures Valid()
      ensures State() == UpdateLinks(old(State()), learningRate, wiring[n].inputLinks)
    {
      var inputLinks := wiring[n].inputLinks;
      var i := 0;
      while i < |inputLinks|
        invariant 0 <= i <= |inputLinks|
        invariant Valid()
        invariant State() == UpdateLinks(old(State()), learningRate, inputLinks[..i])
      {
        UpdateLinksNext(old(State()), learningRate, inputLinks, i, State());
        ComputeLinkWeight(inputLinks[i]);
        i := i + 1;
      }
      assert inputLinks[..i] == inputLinks;
    }

    /** Neural::backwardPropagation: bias and input neurons cannot be
        computed; any other neuron sets its delta and then updates its
        input links. The source dereferences the excitation object of such
        a neuron, so it must have one. */
    method BackwardPropagation(n: nat) returns (o: Outcome)
      requires Valid() && n < |wiring|
      requires wiring[n].kind.BiasNeural? || wiring[n].kind.InputNeural? || !wiring[n].excitation.NoExc?
      modifies this`activation, this`weights
      ensures Valid()
      ensures o == if wiring[n].kind.BiasNeural? then Fail(BiasCannotBeComputed)
                   else if wiring[n].kind.InputNeural? then Fail(InputCannotBeComputed)
                   else Pass
      ensures State() == if o.Pass? then BackPropagated(old(State()), curves, learningRate, n) else old(State())
    {
      if wiring[n].kind == BiasNeural {
        return Fail(BiasCannotBeComputed);
      }
      if wiring[n].kind == InputNeural {
        return Fail(InputCannotBeComputed);
      }
      SetDelta(n);
      ComputeWeight(n);
      o := Pass;
    }

    /** Link::setLearningRate: one rate shared by every link. */
    method SetLearningRate(learningRate: real)
      modifies this`learningRate
      ensures this.learningRate == learningRate
    {
      this.learningRate := learningRate;
    }
  }
}
