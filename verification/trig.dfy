/** `sin`, `cos` and `pi` from Python's `math` module, kept uninterpreted:
    the model only relies on the laws listed in `Laws`. */
module Trig {

  datatype TrigFunctions = TrigFunctions(sin: real -> real, cos: real -> real, pi: real)

  /** The facts about the trigonometric functions the model uses. */
  ghost predicate Laws(t: TrigFunctions) {
    && t.sin(0.0) == 0.0
    && t.cos(0.0) == 1.0
    && t.pi > 0.0
    && forall a: real :: t.sin(a) * t.sin(a) + t.cos(a) * t.cos(a) == 1.0
  }

  type Trig = t: TrigFunctions | Laws(t)
    witness TrigFunctions(a => 0.0, a => 1.0, 3.0)

  /** cos^2 never exceeds 1. */
  lemma CosSquaredAtMostOne(t: Trig, a: real)
    ensures t.cos(a) * t.cos(a) <= 1.0
  {
    assert t.sin(a) * t.sin(a) + t.cos(a) * t.cos(a) == 1.0;
  }
}
