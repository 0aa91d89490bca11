/** The objects of the engine as values. The C++ `Neural` and `Link`
    objects point at each other through `shared_ptr`; here they live in one
    arena and refer to each other by index: neuron n is `wiring[n]` together
    with `activation[n]`, and link l is `ends[l]` together with `weights[l]`. */
module Graph {
  import opened Results
  import opened Excitation

  /** `NeuralType` (the source spells the last one BIAIS_NEURAL). */
  datatype NeuralType = InputNeural | OutputNeural | HiddenNeural | BiasNeural

  /** `AggregationType`. */
  datatype AggregationType = NoAgg | Sum

  /** `ConnectDirection`. */
  datatype ConnectDirection = Forward | Backward | Both

  /** `LossFunctionType`. */
  datatype LossFunctionType = Mse

  /** The fields of a `Neural` object that are fixed once the network is
      built: its kind, its strategies, its link lists and its bias. */
  datatype Wiring = Wiring(
    kind: NeuralType,
    aggregation: AggregationType,
    excitation: ExcitationType,
    inputLinks: seq<nat>,
    outputLinks: seq<nat>,
    biasNeural: Option<nat>,
    biasLink: Option<nat>)

  /** The numeric fields of a `Neural` object, rewritten by every pass. */
  datatype Activation = Activation(
    inputValue: real,
    outputValue: real,
    delta: real,
    nextLayerComputedDelta: real)

  /** The two neurons a `Link` joins. */
  datatype Endpoints = Endpoints(previous: nat, next: nat)

  /** Every neuron and link of one engine. */
  datatype Net = Net(
    wiring: seq<Wiring>,
    activation: seq<Activation>,
    ends: seq<Endpoints>,
    weights: seq<real>)

  predicate Below(ids: seq<nat>, bound: nat)
  {
    forall i :: 0 <= i < |ids| ==> ids[i] < bound
  }

  predicate OptionBelow(o: Option<nat>, bound: nat)
  {
    o.Some? ==> o.value < bound
  }

  /** Every index a neuron holds names an existing neuron or link. */
  predicate WiringClosed(w: Wiring, neurons: nat, links: nat)
  {
    && Below(w.inputLinks, links)
    && Below(w.outputLinks, links)
    && OptionBelow(w.biasNeural, neurons)
    && OptionBelow(w.biasLink, links)
  }

  /** The arena never holds a dangling index (the C++ `shared_ptr`s are never null
      where they are followed). */
  predicate Closed(g: Net)
  {
    && |g.wiring| == |g.activation|
    && |g.ends| == |g.weights|
    && (forall l :: 0 <= l < |g.ends| ==> g.ends[l].previous < |g.wiring| && g.ends[l].next < |g.wiring|)
    && (forall n :: 0 <= n < |g.wiring| ==> WiringClosed(g.wiring[n], |g.wiring|, |g.ends|))
  }

  /** Appending one element after two lists is appending it to the second. */
  lemma AppendRegroup<T>(a: seq<T>, b: seq<T>, x: T)
    ensures a + b + [x] == a + (b + [x])
  {
  }

  lemma BelowAppend(ids: seq<nat>, x: nat, bound: nat)
    requires Below(ids, bound) && x < bound
    ensures Below(ids + [x], bound)
  {
  }
}
