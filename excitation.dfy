/** Excitation (activation) strategies of a neuron: `Excitation::compute`
    and `Excitation::derivative`. Step is plain arithmetic and is modelled
    exactly; Sigmoid and TanHyp are built on `exp`, so each is given by its
    curve f, an arbitrary `real -> real`, and keeps the source's derivative
    formula written in terms of f(x). */
module Excitation {
  import opened Reals

  /** `ExcitationType`: which strategy object a neuron owns (NoExc: none). */
  datatype ExcitationType = NoExc | Sigmoid | Step | TanHyp

  /** The two `exp`-based curves: 1 / (1 + exp(-x)) (lambda = 1.0) and
      (e^x - e^-x) / (e^x + e^-x). */
  datatype Curves = Curves(logistic: real -> real, tanh: real -> real)

  /** Step::compute: 0 below zero, 1 from zero on. */
  function StepCompute(x: real): (y: real)
    ensures y == 0.0 || y == 1.0
    ensures y == 1.0 <==> x >= 0.0
  {
    if x < 0.0 then 0.0 else 1.0
  }

  /** Step::derivative: 1 exactly at zero, 0 elsewhere (the source's choice
      at the discontinuity). */
  function StepDerivative(x: real): (d: real)
    ensures d == 0.0 || d == 1.0
    ensures d == 1.0 <==> x == 0.0
  {
    if x != 0.0 then 0.0 else 1.0
  }

  /** Away from zero the step is locally constant, and there its derivative is 0. */
  lemma StepLocallyConstant(x: real, h: real)
    requires x != 0.0
    requires -(if x < 0.0 then -x else x) < h < (if x < 0.0 then -x else x)
    ensures StepCompute(x + h) == StepCompute(x)
    ensures StepDerivative(x) == 0.0
  {
  }

  /** The step never decreases. */
  lemma StepMonotone(x: real, y: real)
    requires x <= y
    ensures StepCompute(x) <= StepCompute(y)
  {
  }

  /** `excitationFunction->compute(x)`; there is nothing to call without an
      excitation object. */
  function Compute(e: ExcitationType, c: Curves, x: real): real
    requires !e.NoExc?
  {
    match e
    case Sigmoid => c.logistic(x)
    case Step => StepCompute(x)
    case TanHyp => c.tanh(x)
  }

  /** `excitationFunction->derivative(x)`; Sigmoid and TanHyp express it in
      terms of their own value y = f(x): y * (1 - y) and 1 - y * y. */
  function Derivative(e: ExcitationType, c: Curves, x: real): real
    requires !e.NoExc?
  {
    match e
    case Sigmoid => c.logistic(x) * (1.0 - c.logistic(x))
    case Step => StepDerivative(x)
    case TanHyp => 1.0 - Square(c.tanh(x))
  }
}
