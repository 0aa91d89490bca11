/** The arithmetic of a `Link` (Link.cpp): the value and delta it carries,
    its initial weight and its gradient-descent update. The updates of its
    neurons' link lists and of its weight are methods of `Neural.Arena`. */
module Link {
  import opened Graph
  import Reals

  /** RAND_MAX of the C library the engine is built against (glibc). */
  const RAND_MAX: nat := 2147483647

  /** A value `rand()` can return. */
  type RandomValue = r: nat | r <= RAND_MAX

  /** `rand() / RAND_MAX` is an integer division before the conversion to
      double, so a fresh link weighs 0, or 1 when `rand()` returned RAND_MAX. */
  function InitialWeight(r: RandomValue): (w: real)
    ensures w == 0.0 || w == 1.0
    ensures w == 1.0 <==> r == RAND_MAX
  {
    (r / RAND_MAX) as real
  }

  /** getPreviousValue: the output value of the link's source neuron. */
  function PreviousValue(g: Net, l: nat): real
    requires Closed(g) && l < |g.ends|
  {
    g.activation[g.ends[l].previous].outputValue
  }

  /** getNextDelta: the delta of the link's target neuron. */
  function NextDelta(g: Net, l: nat): real
    requires Closed(g) && l < |g.ends|
  {
    g.activation[g.ends[l].next].delta
  }

  /** getComputedValue: what the link feeds forward into its target. It
      carries nothing exactly when its source is silent or it weighs 0. */
  function ComputedValue(g: Net, l: nat): (v: real)
    requires Closed(g) && l < |g.ends|
    ensures v == 0.0 <==> PreviousValue(g, l) == 0.0 || g.weights[l] == 0.0
  {
    PreviousValue(g, l) * g.weights[l]
  }

  /** getComputedDelta: what the link feeds backward into its source. It
      carries nothing exactly when its target's delta is 0 or it weighs 0. */
  function ComputedDelta(g: Net, l: nat): (d: real)
    requires Closed(g) && l < |g.ends|
    ensures d == 0.0 <==> NextDelta(g, l) == 0.0 || g.weights[l] == 0.0
  {
    NextDelta(g, l) * g.weights[l]
  }

  /** computeWeight: w := w - learningRate * z * delta, where z * delta is
      the derivative of the loss with respect to w. */
  function UpdatedWeight(weight: real, learningRate: real, previousValue: real, nextDelta: real): real
  {
    weight - learningRate * previousValue * nextDelta
  }

  /** The update leaves the weight as it is exactly when the learning rate,
      the source output or the target delta is zero. */
  lemma UpdatedWeightUnchangedIff(weight: real, learningRate: real, previousValue: real, nextDelta: real)
    ensures UpdatedWeight(weight, learningRate, previousValue, nextDelta) == weight
        <==> learningRate == 0.0 || previousValue == 0.0 || nextDelta == 0.0
  {
    if learningRate != 0.0 && previousValue != 0.0 && nextDelta != 0.0 {
      ProductNonZero(learningRate, previousValue);
      ProductNonZero(learningRate * previousValue, nextDelta);
    }
  }

  lemma ProductNonZero(a: real, b: real)
    requires a != 0.0 && b != 0.0
    ensures a * b != 0.0
  {
  }

  /** With a positive learning rate the weight moves against the gradient
      z * delta: down when it is positive, up when it is negative. */
  lemma UpdatedWeightDescends(weight: real, learningRate: real, previousValue: real, nextDelta: real)
    requires learningRate > 0.0
    ensures previousValue * nextDelta > 0.0 ==> UpdatedWeight(weight, learningRate, previousValue, nextDelta) < weight
    ensures previousValue * nextDelta < 0.0 ==> UpdatedWeight(weight, learningRate, previousValue, nextDelta) > weight
  {
    var gradient := previousValue * nextDelta;
    assert learningRate * previousValue * nextDelta == learningRate * gradient;
  }

  /** After the update, the value the link feeds forward has moved by
      -learningRate * z^2 * delta: against the delta of its target. */
  lemma UpdatedComputedValue(weight: real, learningRate: real, previousValue: real, nextDelta: real)
    ensures previousValue * UpdatedWeight(weight, learningRate, previousValue, nextDelta)
         == previousValue * weight - learningRate * Reals.Square(previousValue) * nextDelta
  {
  }
}
