/** The Sum aggregation (Sum.cpp): a neuron's input value is the sum of
    what its input links feed forward. */
module Aggregation {
  import opened Graph
  import opened Link

  /** The sum of getComputedValue over `ls`, accumulated from the first link on. */
  function SumOfComputedValues(g: Net, ls: seq<nat>): real
    requires Closed(g) && Below(ls, |g.ends|)
  {
    if ls == [] then 0.0
    else SumOfComputedValues(g, ls[..|ls| - 1]) + ComputedValue(g, ls[|ls| - 1])
  }

  /** Sum::compute walks the links in order and adds each computed value. */
  method Compute(g: Net, inputLinks: seq<nat>) returns (sum: real)
    requires Closed(g) && Below(inputLinks, |g.ends|)
    ensures sum == SumOfComputedValues(g, inputLinks)
  {
    sum := 0.0;
    var i := 0;
    while i < |inputLinks|
      invariant 0 <= i <= |inputLinks|
      invariant sum == SumOfComputedValues(g, inputLinks[..i])
    {
      assert inputLinks[..i + 1][..i] == inputLinks[..i];
      sum := sum + ComputedValue(g, inputLinks[i]);
      i := i + 1;
    }
    assert inputLinks[..i] == inputLinks;
  }

  /** Appending one link adds exactly that link's computed value. */
  lemma SumAppend(g: Net, ls: seq<nat>, l: nat)
    requires Closed(g) && Below(ls, |g.ends|) && l < |g.ends|
    ensures SumOfComputedValues(g, ls + [l]) == SumOfComputedValues(g, ls) + ComputedValue(g, l)
  {
    assert (ls + [l])[..|ls|] == ls;
  }

  /** The sum over two lists of links is the sum of the two sums. */
  lemma {:induction false} SumConcat(g: Net, a: seq<nat>, b: seq<nat>)
    requires Closed(g) && Below(a, |g.ends|) && Below(b, |g.ends|)
    ensures SumOfComputedValues(g, a + b) == SumOfComputedValues(g, a) + SumOfComputedValues(g, b)
  {
    if b != [] {
      var b' := b[..|b| - 1];
      assert (a + b)[..|a + b| - 1] == a + b';
      SumConcat(g, a, b');
    } else {
      assert a + b == a;
    }
  }

  /** The sum reads only the weights of the links in `ls` and the output
      values of their source neurons. */
  lemma {:induction false} SumReadsSourcesOnly(g: Net, h: Net, ls: seq<nat>)
    requires Closed(g) && Closed(h) && Below(ls, |g.ends|) && Below(ls, |h.ends|)
    requires forall i :: 0 <= i < |ls| ==> g.ends[ls[i]] == h.ends[ls[i]] && g.weights[ls[i]] == h.weights[ls[i]]
    requires forall i :: 0 <= i < |ls| ==>
      g.activation[g.ends[ls[i]].previous].outputValue == h.activation[h.ends[ls[i]].previous].outputValue
    ensures SumOfComputedValues(g, ls) == SumOfComputedValues(h, ls)
  {
    if ls != [] {
      SumReadsSourcesOnly(g, h, ls[..|ls| - 1]);
      var last := |ls| - 1;
      assert g.ends[ls[last]] == h.ends[ls[last]];
    }
  }
}
