# ann — a Dafny model of a small feed-forward neural network engine

The engine builds a layered perceptron in two phases.

In the **build phase**:
- `Network::addInputLayer` adds the first layer;
- any number of `Network::addLayer` calls add hidden layers;
- `Network::addOutputLayer` closes the network with `fullConnection`. This joins every neuron of each layer to every neuron of the next through a `Link`, whose initial weight is `rand() / RAND_MAX`.

Every hidden and output neuron owns a bias neuron (output value −1.0) linked into it.

In the **run phase**:
- `Network::learn` sets the input layer and propagates forward, layer by layer.
- It then computes the output errors `outputValue − expected` and stores their mean squared error as the loss.
- It back-propagates from the last layer down to layer 1. Each neuron computes its delta `f'(inputValue) · Σ(delta · weight)` and moves every input link's weight by `− learningRate · previousValue · nextDelta`.
- `Network::estimate` runs the forward pass and reports `getClassMax`. That is meant to be the output neuron with the largest output. As written, it is the last output neuron whose output exceeds the first one's, or 0 (see Findings).

## How the model is laid out

- `Results` has one `Error` constructor per `throw` site. An operation that can throw returns an `Outcome` (`Pass | Fail(e)`) or a `Result<T>` (`Ok(v) | Err(e)`).
- `Excitation` holds the `Step` strategy exactly. `Sigmoid` and `TanHyp` are given by their curves (`Curves`), which are arbitrary `real -> real` functions.
- `Mse` holds `Mse::compute`, as a loop method, and its specification `MeanSquaredError`.
- `Aggregation` holds `Sum::compute`, as a loop method, and its specification `SumOfComputedValues`.
- `Graph` and `Link` give the neurons and links as values. The C++ objects point at each other through `shared_ptr`; here every neuron and link lives in one arena and is named by its index:
  - neuron `n` is `wiring[n]` (kind, strategies, link lists, bias) plus `activation[n]` (input value, output value, delta, nextLayerComputedDelta);
  - link `l` is `ends[l]` plus `weights[l]`.
- `Neural` holds the class `Arena`. It owns those four sequences and also:
  - the learning rate (the static `Link::learningRate`);
  - the number of `rand()` draws made so far.

  The arena's methods are the mutating members of `Neural` and `Link`. Each is proved against a function on the arena's value (`Forwarded`, `WithDelta`, `BackPropagated`, `UpdateLinks`).
- `Layers` states what a built network looks like:
  - the neuron layers are distinct and of the right kinds (`Layered`);
  - every neuron's input and output links are exactly its bias link and the links of the neighbouring link layers (`Wired`);
  - link layer q joins layer q to layer q + 1, pair by pair (`FullyConnected`).
- `Passes` defines whole passes as functions on the arena's value:
  - `SetInputs` and `ForwardAll` (forward);
  - `DeltaOutputs` and `OutputErrors` (output errors);
  - `BackwardAll` (backward);
  - `Estimated` and `Trained` (whole calls);
  - `ClassMax` and `ArgMax` (picking the class).

  It also proves their properties.
- `Learning` follows one `learn` call link by link and neuron by neuron:
  - in a built network no link index repeats within a neuron's input links;
  - every input link is moved exactly once, by its own update;
  - every neuron ends with the delta `setDelta` gives it;
  - a hidden neuron sums its deltas through weights that the layer above has already updated.
- `Network` holds the class `Network`. Its fields match the C++ object's: layers of neuron indices, layers of link indices, the counters, the two phase flags and the loss. Every loop of `Network.cpp` is a method with its invariants, proved against the functions of `Passes`. `getClassMax` keeps its loop as written and is proved against `ClassMax`.
- `rand()` is a parameter: the arena's `rand` maps the k-th draw to a value in `0..RAND_MAX`, with `RAND_MAX = 2147483647`. `srand(time(NULL))` is therefore not modelled.

## Model

| member | source | states |
|---|---|---|
| Excitation.StepCompute | src/Network/Functions/Excitation/Step/Step.cpp:12-14 | the step is 0 or 1, and 1 exactly when x ≥ 0 |
| Excitation.StepDerivative | src/Network/Functions/Excitation/Step/Step.cpp:16-18 | the derivative is 0 or 1, and 1 exactly at x = 0 |
| Excitation.StepLocallyConstant | src/Network/Functions/Excitation/Step/Step.cpp:12-18 | away from 0 the step does not change within distance abs(x) of x, and its derivative there is 0 |
| Excitation.StepMonotone | src/Network/Functions/Excitation/Step/Step.cpp:12-14 | the step never decreases |
| Mse.Compute | src/Network/Functions/Loss/Mse/Mse.cpp:10-22 | the loop's result is MeanSquaredError, the mean of the squared errors (1/n)·Σe² |
| Mse.SumSquaresAppend | src/Network/Functions/Loss/Mse/Mse.cpp:15-18 | one more error adds its square to the running sum |
| Mse.SumSquaresNonNegative | src/Network/Functions/Loss/Mse/Mse.cpp:15-18 | the sum of squares is never negative |
| Mse.SumSquaresZeroIff | src/Network/Functions/Loss/Mse/Mse.cpp:15-18 | the sum of squares is 0 if and only if every error is 0 |
| Mse.MseNonNegative | src/Network/Functions/Loss/Mse/Mse.cpp:10-22 | the loss is never negative |
| Mse.MseZeroIff | src/Network/Functions/Loss/Mse/Mse.cpp:10-22 | the loss is 0 if and only if every output error is 0 |
| Mse.SumSquaresNegateOne | src/Network/Functions/Loss/Mse/Mse.cpp:15-18 | negating one error leaves the sum of squares unchanged |
| Mse.MseNegateOne | src/Network/Functions/Loss/Mse/Mse.cpp:10-22 | the loss does not depend on the sign of any single error |
| Aggregation.Compute | src/Network/Functions/Aggregation/Sum/Sum.cpp:12-18 | the loop's result is SumOfComputedValues: the sum, over the input links in order, of each link's ComputedValue |
| Aggregation.SumAppend | src/Network/Functions/Aggregation/Sum/Sum.cpp:12-18 | one more input link adds its computed value |
| Aggregation.SumConcat | src/Network/Functions/Aggregation/Sum/Sum.cpp:12-18 | the sum over two runs of links is the sum of the two sums |
| Aggregation.SumReadsSourcesOnly | src/Network/Functions/Aggregation/Sum/Sum.cpp:12-18 | the sum depends only on those links' ends and weights and on their source neurons' output values |
| Link.InitialWeight | src/Network/Link/Link.cpp:13-19 | the integer division `rand() / RAND_MAX` gives 0 or 1, and 1 exactly when rand() returned RAND_MAX |
| Link.ComputedValue | src/Network/Link/Link.cpp:37-39 | the value a link feeds forward is 0 exactly when its source's output or its weight is 0 |
| Link.ComputedDelta | src/Network/Link/Link.cpp:41-43 | the delta a link feeds backward is 0 exactly when its target's delta or its weight is 0 |
| Link.UpdatedWeightUnchangedIff | src/Network/Link/Link.cpp:53-57 | UpdatedWeight, a weight update, leaves the weight unchanged if and only if the learning rate, the previous value or the next delta is 0 |
| Link.UpdatedWeightDescends | src/Network/Link/Link.cpp:53-57 | with a positive learning rate, UpdatedWeight decreases when previousValue·nextDelta > 0 and increases when it is < 0 (a gradient-descent step) |
| Link.UpdatedComputedValue | src/Network/Link/Link.cpp:37-57 | after an update the link's computed value z·w' is z·w − learningRate·z²·nextDelta |
| Neural.NewActivation | src/Network/Neural/Neural.cpp:16-52 | a new neuron starts with every value at 0, except a bias neuron, whose output value is v |
| Neural.Arena.constructor | src/Network/Link/Link.cpp:11 | an empty arena with the learning rate at 0.0 and no draws made |
| Neural.Arena.AddNeural | src/Network/Neural/Neural.cpp:16-52 | appends one neuron of the given kind and strategies, with no links and the initial values of NewActivation |
| Neural.Arena.AddLink | src/Network/Link/Link.cpp:13-19 | appends a link between the two neurons, weighing InitialWeight of the next draw, and counts that draw |
| Neural.Arena.AddInputLink | src/Network/Neural/Neural.cpp:65-74 | bias and input neurons refuse an input link with their own errors; otherwise the link is appended to the input links |
| Neural.Arena.AddOutputLink | src/Network/Neural/Neural.cpp:76-82 | an output neuron refuses an output link; otherwise the link is appended to the output links |
| Neural.Arena.Connect | src/Network/Link/Link.cpp:21-35 | FORWARD registers the link with its next neuron and BACKWARD with its previous neuron. BOTH does the next neuron first, and if that throws the previous neuron is left untouched |
| Neural.Arena.ConnectFrom | src/Network/Neural/Neural.cpp:151-156 | a new link from `previous` is registered backward, then appended to this neuron's input links; its index is returned unless the registration failed |
| Neural.Arena.ConnectTo | src/Network/Neural/Neural.cpp:144-149 | a new link to `next` is registered forward, then appended to this neuron's output links |
| Neural.Arena.AddBias | src/Network/Neural/Neural.cpp:54-63 | a hidden or output neuron gets a new bias neuron with output `value`, linked into its input links; any other neuron gets no bias |
| Neural.Arena.SetValue | src/Network/Neural/Neural.cpp:174-180 | only an input neuron accepts a value, as its output value; anything else fails and changes nothing |
| Neural.Arena.ForwardPropagation | src/Network/Neural/Neural.cpp:84-98 | a bias neuron fails. Otherwise the neuron becomes Forwarded (the neuron's new activation): it sums its input links if it aggregates and has any, then applies its excitation if it has one |
| Neural.ForwardedPassive | src/Network/Neural/Neural.cpp:84-98 | a neuron with neither aggregation nor excitation (an input neuron) is left exactly as it was |
| Neural.ForwardedSum | src/Network/Neural/Neural.cpp:84-98 | a summing neuron with input links gets their SumOfComputedValues as input value and Excitation.Compute of that as output value, and keeps its delta |
| Neural.Arena.SetDelta | src/Network/Neural/Neural.cpp:115-126 | the neuron becomes WithDelta. A hidden neuron first sets nextLayerComputedDelta to SumOfComputedDeltas of its output links; the delta is then Excitation.Derivative(inputValue) · nextLayerComputedDelta |
| Neural.StepDelta | src/Network/Neural/Neural.cpp:115-126 | with the step excitation, the delta is 0 unless the input value is exactly 0, where it equals nextLayerComputedDelta |
| Neural.Arena.ComputeDeltaOutput | src/Network/Neural/Neural.cpp:128-135 | an output neuron stores and returns outputValue − expected; any other neuron fails and changes nothing |
| Neural.Arena.ComputeLinkWeight | src/Network/Link/Link.cpp:45-57 | exactly that link's weight becomes UpdatedWeight: weight − learningRate · PreviousValue (its source's output) · NextDelta (its target's delta) |
| Neural.Arena.ComputeWeight | src/Network/Neural/Neural.cpp:137-142 | every input link's weight is updated in order (UpdateLinks); nothing else changes |
| Neural.UpdateLinks | src/Network/Neural/Neural.cpp:137-142 | updating a run of links changes only weights, and no neuron or link is added |
| Neural.UpdateLinksWeights | src/Network/Neural/Neural.cpp:137-142 | a link that appears k times in the run is moved by k steps |
| Neural.UpdateLinksOnce | src/Network/Neural/Neural.cpp:137-142 | with distinct input links, each one is moved by exactly one step and every other link keeps its weight |
| Neural.BackPropagated | src/Network/Neural/Neural.cpp:100-113 | setDelta followed by computeWeight changes only activations and weights |
| Neural.Arena.BackwardPropagation | src/Network/Neural/Neural.cpp:100-113 | bias and input neurons fail with their own errors and change nothing; any other neuron becomes BackPropagated |
| Neural.Arena.SetLearningRate | src/Network/Link/Link.cpp:59-61 | the shared learning rate becomes the new value |
| Passes.BackPropagatedActivation | src/Network/Neural/Neural.cpp:100-113 | back-propagating a neuron changes the activation of that neuron alone, to WithDelta |
| Passes.BackPropagatedWeights | src/Network/Neural/Neural.cpp:137-142 | back-propagating a neuron leaves every link that does not enter it untouched |
| Network.Network.constructor | src/Network/Network.cpp:14-45 | no layer, all counters 0, loss 1.0 and the shared learning rate set; the arena is empty |
| Network.AddNeuron | src/Network/Network.cpp:50-56 | one turn of the private addLayer loop: a new neuron of the layer's kind, with its bias, and the earlier neurons unchanged |
| Network.NewNeuronStep | src/Network/Network.cpp:50-56 | the loop invariant of the private addLayer holds one neuron further |
| Network.LayerFinished | src/Network/Network.cpp:47-61 | the finished layer, appended, keeps the layers of the right kinds and wired to their biases |
| Network.Network.AddLayerOfKind | src/Network/Network.cpp:47-61 | appends a layer of nbN fresh neurons, of the layer's kind and with their biases; neuralsCount grows by nbN |
| Network.Network.AddInputLayer | src/Network/Network.cpp:63-71 | a second call fails and changes nothing; the first lays out nbN input neurons and sets isInputSet |
| Network.Network.LayerGuard | src/Network/Network.cpp:73-84 | adding a layer passes exactly when the input layer is set and the output layer is not; otherwise it fails with InputLayerNotSet when there is no input layer, else with OutputLayerAlreadySet |
| Network.Network.AddLayer | src/Network/Network.cpp:73-84 | fails and changes nothing unless LayerGuard passes. Otherwise it appends nbN hidden neurons with the given strategies, each with its own bias outputting −1.0 (FreshNeuron); earlier neurons and links are kept (Extends) and the new bias links weigh the successive draws (DrawnWeights) |
| Network.Network.AddOutputLayer | src/Network/Network.cpp:86-103 | fails and changes nothing unless LayerGuard passes. Otherwise it appends nbN output neurons, sets isOutputSet and fully connects the layers, with linksCount = Σ size(i)·size(i+1). Earlier activations and links are kept, and every new link weighs the successive draws (Grown, with DrawnWeights). Each output neuron has the strategies and a bias outputting −1.0 (OutputsBiased). Every neuron that existed before the call keeps its kind, strategies and bias; only its link lists change (SameButLists) |
| Network.Network.FullConnection | src/Network/Network.cpp:105-137 | sets outputsCount and lastNeuralLayerIndex, builds one link layer per pair of consecutive layers, and sets linksCount to the number of links |
| Network.LinkAll | src/Network/Network.cpp:111-136 | the loop over layer pairs builds link layer i as layer i × layer i+1, each link weighing its own draw |
| Network.LinkLayer | src/Network/Network.cpp:112-135 | one link layer holds |prev|·|next| links |
| Network.JoinRow | src/Network/Network.cpp:118-129 | neuron j is joined, in order, to every neuron of the next layer |
| Network.JoinPair | src/Network/Network.cpp:121-127 | one link from neuron j to neuron k, registered both ways |
| Network.NewLink | src/Network/Network.cpp:125-126 | `make_shared<Link>` followed by `connect(BOTH)`: the arena becomes Joined with the next draw's weight |
| Network.Joined | src/Network/Network.cpp:125-126 | the new link is the last one and joins a to b |
| Network.JoinedStep | src/Network/Network.cpp:118-128 | the invariant of the k loop holds one link further |
| Network.DrawnStep | src/Network/Link/Link.cpp:18 | each new link weighs what the next `rand()` returns |
| Network.DrawnTransitive | src/Network/Link/Link.cpp:18 | two runs of draws, one after the other, are one run |
| Network.Network.Connected | src/Network/Network.cpp:105-137 | after full connection the network is valid, linksCount = LinkCount(neurals), only link lists changed on existing neurons, and the new weights are the draws in order |
| Layers.LinkCountOfLayers | src/Network/Network.cpp:135 | the per-layer increments of linksCount add up to Σ size(i)·size(i+1) |
| Passes.LayerKinds | src/Network/Network.cpp:63-103 | in a built network, layer 0 holds input neurons, the last layer output neurons, no layer holds a bias neuron, and every neuron above layer 0 has an excitation |
| Network.Network.NeuralAt | src/Network/Network.cpp:139-150 | succeeds exactly for an existing position and returns it. It fails with LayerOutOfBound past the end, with PositionOutOfBound past a layer's end, and otherwise, at the end itself, with out_of_range from `at` |
| Network.Network.NeuralAtTheLastLayer | src/Network/Network.cpp:152-155 | once the output layer is set, succeeds exactly below outputsCount, and fails with out_of_range at outputsCount |
| Network.Network.LinkAt | src/Network/Network.cpp:157-168 | like NeuralAt, over the link layers |
| Passes.ClassMax | src/Network/Network.cpp:170-182 | the loop as written returns an index inside the output layer |
| Passes.ClassMaxIff | src/Network/Network.cpp:170-182 | the loop as written returns the LAST index whose value beats the first output, or 0 when none does |
| Passes.ClassMaxNotArgmax | src/Network/Network.cpp:177-179 | on outputs [0, 2, 1] the loop as written returns 2 where the largest output is at 1 |
| Passes.ArgMax | src/Network/Network.cpp:170-182 | the corrected loop returns an index inside the output layer |
| Passes.ArgMaxStep | src/Network/Network.cpp:175-180 | one turn of the corrected loop moves to i exactly when output i beats the current maximum |
| Passes.ArgMaxFirst | src/Network/Network.cpp:170-182 | the corrected loop returns the first index of the largest output |
| Passes.FirstMaxUnique | src/Network/Network.cpp:170-182 | the first index of the largest output is unique |
| Passes.ArgMaxIff | src/Network/Network.cpp:170-182 | the corrected loop returns r if and only if r is the first index of the largest output |
| Network.MaxClass | src/Network/Network.cpp:170-182 | the loop as written, with maxClassValue fixed at output 0, returns ClassMax of the output layer's output values |
| Network.Network.GetClassMax | src/Network/Network.cpp:170-182 | an empty output layer fails with out_of_range; otherwise the result is ClassMax: the last index whose output exceeds output 0, or 0 |
| Network.Network.InputGuard | src/Network/Network.cpp:229-239 | passes exactly when both layers are set and there are enough input values. It fails with InputLayerNotSet, OutputLayerNotSet or InputValuesTooShort, each exactly when that check is the first to fail |
| Network.Network.LearnGuard | src/Network/Network.cpp:186-200 | the checks of estimate come first, with their errors; once they pass, the guard fails with ExpectedValuesTooShort exactly when there are fewer expected values than output neurons |
| Passes.SetInputs | src/Network/Network.cpp:203-205 | the set-inputs loop changes neither wiring nor weights |
| Passes.SetInputsValues | src/Network/Network.cpp:203-205 | input neuron j outputs inputValues[j] and every other neuron is untouched |
| Network.SetInputValues | src/Network/Network.cpp:203-205 | the loop leaves the arena as SetInputs says |
| Passes.ForwardAll | src/Network/Network.cpp:208-212 | forward propagation in a given order changes only activations |
| Passes.ForwardAllOutside | src/Network/Network.cpp:208-212 | a neuron outside the order is untouched |
| Passes.ForwardAllPassive | src/Network/Network.cpp:208-212 | a neuron with neither aggregation nor excitation (an input neuron) keeps the value it was given |
| Passes.ForwardAllKeepsDeltas | src/Network/Network.cpp:208-212 | the forward pass never changes a delta |
| Passes.ForwardAllLast | src/Network/Network.cpp:208-212 | the last neuron propagated is Forwarded from the state before it |
| Passes.ForwardStep | src/Network/Network.cpp:209-211 | the inner loop's invariant holds one neuron further |
| Passes.ForwardAllConcat | src/Network/Network.cpp:208-212 | propagating two orders one after the other is propagating their concatenation (layer by layer is one pass over all neurons) |
| Network.PropagateLayer | src/Network/Network.cpp:209-211 | the inner loop leaves the arena as ForwardAll over the layer says |
| Network.PropagateAll | src/Network/Network.cpp:208-212 | the nested loops leave the arena as ForwardAll over all layers, first to last, says |
| Passes.DeltaOutputs | src/Network/Network.cpp:215-218 | the output-error loop keeps wiring, links and weights, and keeps every output value |
| Passes.OutputErrors | src/Network/Network.cpp:215-218 | error j is output j − expected j, one per output neuron |
| Passes.DeltaOutputStep | src/Network/Network.cpp:216-217 | the loop's invariant holds one output neuron further |
| Passes.DeltaOutputsValues | src/Network/Network.cpp:215-218 | output neuron j holds output j − expected j as nextLayerComputedDelta; other neurons are untouched |
| Network.ComputeOutputErrors | src/Network/Network.cpp:215-218 | the loop returns OutputErrors and leaves the arena as DeltaOutputs says |
| Passes.LossZeroIff | src/Network/Network.cpp:215-221 | the loss is never negative, and is 0 exactly when every output equals its expected value |
| Network.Network.UpdateLoss | src/Network/Network.cpp:221 | the loss becomes the mean squared error of the output errors |
| Passes.Estimated | src/Network/Network.cpp:241-251 | setting inputs then propagating changes only activations |
| Passes.EstimatedInputs | src/Network/Network.cpp:241-251 | after the forward pass the input neurons still output the input values |
| Passes.LearnErrors | src/Network/Network.cpp:202-218 | learn's output errors are one per output neuron |
| Passes.BackwardAll | src/Network/Network.cpp:261-269 | back-propagation in a given order changes no wiring and adds no link |
| Passes.BackwardStep | src/Network/Network.cpp:265-267 | the inner loop's invariant holds one neuron further |
| Passes.BackwardAllConcat | src/Network/Network.cpp:261-269 | back-propagating two orders one after the other is back-propagating their concatenation |
| Passes.BackwardAllKeepsValues | src/Network/Network.cpp:261-269 | the backward pass never changes an input or output value |
| Passes.BackwardAllOutside | src/Network/Network.cpp:261-269 | a neuron outside the order is untouched |
| Passes.BackwardAllWeightsOutside | src/Network/Network.cpp:261-269 | a link entering no neuron of the order keeps its weight |
| Passes.BackPropagationSkipsInputs | src/Network/Network.cpp:261-269 | backPropagation (layers last down to 1) leaves every input neuron exactly as it was |
| Passes.Trained | src/Network/Network.cpp:202-224 | a training step changes no wiring and adds no link |
| Passes.TrainedInputs | src/Network/Network.cpp:202-224 | after learn the input neurons still output the input values |
| Network.BackPropagateLayer | src/Network/Network.cpp:265-267 | the inner loop leaves the arena as BackwardAll over the layer says |
| Network.BackwardLayerDone | src/Network/Network.cpp:263-268 | the outer loop's invariant holds one layer further down |
| Network.BackPropagateAll | src/Network/Network.cpp:261-269 | the loops leave the arena as BackwardAll over layers last, last−1, …, 1 says |
| Network.Network.BackPropagation | src/Network/Network.cpp:261-269 | the network stays valid, and the arena is BackwardAll over layers last down to 1 |
| Network.RunForward | src/Network/Network.cpp:202-218 | set inputs, propagate and compute the output errors: the arena is DeltaOutputs of Estimated, and the errors are LearnErrors |
| Network.TrainArena | src/Network/Network.cpp:202-224 | learn's arena work: the arena becomes Trained and the errors are LearnErrors |
| Network.Network.Train | src/Network/Network.cpp:202-224 | the arena becomes Trained from its old state, and the loss becomes the mean squared error of LearnErrors |
| Network.Network.Learn | src/Network/Network.cpp:184-225 | fails with LearnGuard's error and changes nothing, or trains as Train says; the network stays valid. Only once LearnGuard passes does it require a non-empty output layer and an excitation on every neuron above the input layer |
| Network.Network.Estimate | src/Network/Network.cpp:227-255 | fails with InputGuard's error and changes nothing, or leaves the arena Estimated and returns ClassMax of the outputs, the last index whose output exceeds output 0, or 0 (out_of_range for an empty output layer) |
| Network.Network.GetLoss | src/Network/Network.cpp:257-259 | the loss read back is never negative |
| Learning.LinkLayerDistinct | src/Network/Network.cpp:116-132 | no link appears twice in a link layer of a fully connected network |
| Learning.NeuronEnters | src/Network/Network.cpp:121-126 | every input link of a layer neuron enters that neuron |
| Learning.InputLinksDistinct | src/Network/Network.cpp:105-137 | the input links of every neuron above the input layer are distinct: its bias link, then the links entering it from the layer below |
| Learning.OutputLinkAhead | src/Network/Network.cpp:121-126 | an output link of neuron j of layer p belongs to link layer p and leads to a neuron of layer p + 1 |
| Learning.BackwardAllLinkOnce | src/Network/Network.cpp:261-269 | with no neuron visited twice, the backward pass moves an input link of a visited neuron exactly once, by UpdatedWeight from its weight before the pass, its source's output and the final delta of its target |
| Learning.BackwardAllDelta | src/Network/Neural/Neural.cpp:115-126 | every visited neuron ends the pass with delta = Derivative(inputValue) · nextLayerComputedDelta |
| Learning.BackwardAllNextKept | src/Network/Neural/Neural.cpp:115-122 | an output neuron ends the pass with the nextLayerComputedDelta it had |
| Learning.BackwardAllNextSum | src/Network/Neural/Neural.cpp:115-122 | a hidden neuron whose output links all lead to neurons visited before it ends the pass holding the SumOfComputedDeltas of those links, read in the finished state |
| Learning.LearnMovesLinkOnce | src/Network/Neural/Neural.cpp:137-142 | one learn moves every input link of every neuron above the input layer exactly once: to UpdatedWeight of its old weight, its source's forward output and its target's final delta |
| Learning.LearnDelta | src/Network/Neural/Neural.cpp:115-126 | after learn, every neuron above the input layer holds delta = Derivative(its forward inputValue) · nextLayerComputedDelta |
| Learning.LearnOutputDelta | src/Network/Network.cpp:215-218 | after learn, output neuron j holds nextLayerComputedDelta = its output − expected j |
| Learning.LearnHiddenDelta | src/Network/Neural/Neural.cpp:115-122 | after learn, a hidden neuron holds nextLayerComputedDelta = SumOfComputedDeltas of its output links, read with the weights and deltas the finished learn shows |
| Learning.LearnReadsUpdatedWeights | src/Network/Neural/Neural.cpp:109-112 | each output link of a hidden neuron has already been moved by its target's update when that neuron reads it: its final weight is UpdatedWeight of its old weight, so a hidden delta uses the updated weights of the layer above |

## Left out

- Sigmoid and TanHyp (Sigmoid.cpp and TanHyp.cpp) are built on `exp`. Their curves are parameters (`Curves`); their derivative formulas y·(1 − y) and 1 − y² are kept in terms of those curves.
- Floating point: `double` is modelled as `real`. Rounding, overflow, NaN and infinities are not captured.
- Unsigned wrap-around of the `unsigned int` counters is not modelled.
- `srand(time(NULL))` in the constructor is not modelled. `rand()` is the arena's `rand` parameter, called once per link in creation order.
- `Network::print`, `Neural::toString` and `Link::toString` only write text, so they are left out. `main.cpp` is not part of this model.
- `Neural::getDelta`, `getOutputValue`, `getBiasNeural` and `getBiasLink` are plain field reads. Every reader uses `activation[n]` and `wiring[n]` directly.
- The static `Link::learningRate` is a field of the arena. One network owns one arena, so the value is shared by all of its links as in the source. Two networks in one program overwriting each other's rate is not captured.
- `shared_ptr` ownership and aliasing become arena indices. No object is ever freed.
- The loss function object (`lossFunction`) is always `Mse`, the only `LossFunctionType`. `Learn` calls `Mse.Compute` through `UpdateLoss`.
- Network.Network.Learn requires a non-empty output layer when its checks pass. With none, the loss computation multiplies `1 / (double) 0`, which is infinity, by the empty sum 0.0 and stores NaN as the loss, which `real` cannot express.
- Network.Network.Learn (when its checks pass) and Network.Network.BackPropagation require every hidden and output neuron to have an excitation (`LayersExcited`). Without one, `setDelta` dereferences a null strategy, which is undefined behaviour rather than an error.
- Network.Network.Learn, in the model, trains the arena (`TrainArena`: forward pass, output errors, then the body of `backPropagation`) before it stores the loss. The source stores the loss before back-propagating. Back-propagation never reads the loss and the loss computation never reads the weights, so the final state is the same.
- Network.Network.GetClassMax requires the output layer to be set. It is private, and `estimate`, its only caller, checks that first.
- `fullConnection` pushes each link layer onto `links` inside its loop. The model collects them in a local and stores them after the loop; no code observes the difference.

## Findings

| source | as written | input that shows it | evidently intended | confidence | as-written member | corrected member |
|---|---|---|---|---|---|---|
| src/Network/Network.cpp:177-179 | `getClassMax` updates `maxClass` but never `maxClassValue`, so every output is compared with output 0. It returns the last index whose output beats output 0. | output values [0.0, 2.0, 1.0]: the result is 2, but the largest output is at index 1 | return the index of the largest output, the first one on ties (set `maxClassValue` together with `maxClass`); the network's methods keep the as-written result | not executed | Passes.ClassMaxNotArgmax | Passes.ArgMaxIff |
