/** math.Round and its use as a key at two decimal scales. */
module Rounding {
  /** Nearest integer, halves away from zero. */
  function RoundHalfAway(x: real): real {
    if x >= 0.0 then (x + 0.5).Floor as real else -((-x + 0.5).Floor as real)
  }

  lemma RoundNear(x: real)
    ensures -0.5 <= RoundHalfAway(x) - x <= 0.5
  {
  }

  function Round10(x: real): real { RoundHalfAway(x * 10.0) / 10.0 }

  function Round100(x: real): real { RoundHalfAway(x * 100.0) / 100.0 }

  lemma Round10Near(x: real)
    ensures -0.05 <= Round10(x) - x <= 0.05
  {
    RoundNear(x * 10.0);
  }

  /** The result is a whole number of tenths. */
  lemma Round10IsTenth(x: real) returns (n: int)
    ensures Round10(x) == n as real / 10.0
  {
    n := if x >= 0.0 then (x * 10.0 + 0.5).Floor else -(-(x * 10.0) + 0.5).Floor;
  }

  lemma Round100IsHundredth(x: real) returns (n: int)
    ensures Round100(x) == n as real / 100.0
  {
    n := if x >= 0.0 then (x * 100.0 + 0.5).Floor else -(-(x * 100.0) + 0.5).Floor;
  }

  lemma Round100Near(x: real)
    ensures -0.005 <= Round100(x) - x <= 0.005
  {
    RoundNear(x * 100.0);
  }

  /** Rounding to a tenth keeps values that are more than 3 apart more than 2.9 apart. */
  lemma Round10KeepsApart(x: real, y: real)
    requires y - x > 3.0
    ensures Round10(y) - Round10(x) > 2.9
  {
    Round10Near(x);
    Round10Near(y);
  }

  lemma Round100KeepsApart(x: real, y: real)
    requires y - x > 3.0
    ensures Round100(y) != Round100(x)
  {
    Round100Near(x);
    Round100Near(y);
  }
}
