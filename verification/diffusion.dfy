/** The avalanche measurement of `testAvalancheEffect`: how many output bits
    of the RC6-like transform change when one input bit is flipped. The
    random inputs are a parameter. */
module Diffusion {
  import opened Words
  import opened Wrappers
  import opened Arith

  /** `rc6Transform`: rotate left 5, multiply by the constant modulo 2^32,
      rotate left 3. The constant 0 sends every input to 0; with the
      constant 1 the transform is a plain rotation by 8, which moves every
      flipped bit without spreading it. */
  function Rc6Transform(input: bv32, constant: bv32): (t: bv32)
    ensures constant == 0 ==> t == 0
    ensures constant == 1 ==> t == RotateLeft(input, 8)
  {
    RotateLeft(RotateLeft(input, 5) * constant, 3)
  }

  /** Output bits that change when input bit `bitPos` is flipped. */
  function FlipChanges(input: bv32, constant: bv32, bitPos: bv5): (r: nat)
    ensures r <= 32
  {
    var modified := input ^ Shl(1, bitPos);
    PopCount(Rc6Transform(input, constant) ^ Rc6Transform(modified, constant))
  }

  /** The inner loop over bit positions `0 .. k-1` for one input. */
  function TrialChanges(input: bv32, constant: bv32, k: nat): (r: nat)
    requires k <= 32
    ensures r <= 32 * k
  {
    if k == 0 then 0 else TrialChanges(input, constant, k - 1) + FlipChanges(input, constant, (k - 1) as bv5)
  }

  /** `totalChanges` over all trials. */
  function TotalChanges(inputs: seq<bv32>, constant: bv32): (r: nat)
    ensures r <= 1024 * |inputs|
  {
    if |inputs| == 0 then 0
    else TotalChanges(inputs[..|inputs| - 1], constant) + TrialChanges(inputs[|inputs| - 1], constant, 32)
  }

  /** `testAvalancheEffect`, one random input per trial. With no trials the
      quotient is 0/0, a NaN, which is `None`. */
  function AvalancheScore(inputs: seq<bv32>, constant: bv32): (r: Option<real>)
    ensures r.None? <==> |inputs| == 0
    ensures r.Some? ==> 0.0 <= r.value <= 1.0
  {
    var testCases := |inputs|;
    if testCases == 0 then None
    else
      var total := TotalChanges(inputs, constant);
      var denominator := (testCases * 32 * 32) as real;
      RatioBounds(total as real, denominator);
      Some(total as real / denominator)
  }

  /** Multiplying by zero sends every input to zero, so nothing ever changes. */
  lemma {:induction false} ZeroConstantTrial(input: bv32, k: nat)
    requires k <= 32
    ensures TrialChanges(input, 0, k) == 0
  {
    if k > 0 {
      ZeroConstantTrial(input, k - 1);
      PopCountExtremes(0);
    }
  }

  lemma {:induction false} ZeroConstantTotal(inputs: seq<bv32>)
    ensures TotalChanges(inputs, 0) == 0
  {
    if |inputs| > 0 {
      ZeroConstantTotal(inputs[..|inputs| - 1]);
      ZeroConstantTrial(inputs[|inputs| - 1], 32);
    }
  }

  /** The zero constant has no diffusion at all: its score is 0. */
  lemma ZeroConstantScore(inputs: seq<bv32>)
    requires |inputs| > 0
    ensures AvalancheScore(inputs, 0) == Some(0.0)
  {
    ZeroConstantTotal(inputs);
    var denominator := (|inputs| * 32 * 32) as real;
    assert 0.0 / denominator == 0.0;
  }
}
