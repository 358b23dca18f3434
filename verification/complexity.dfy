/** The Berlekamp-Massey algorithm of `calculateLinearComplexity`, run over
    the 32 bits of a word, least significant first.

    Go keeps the connection polynomials `C` and `B` as `[]int` arrays of 0s
    and 1s combined with `&` and `^`; here they are `seq<bool>` combined with
    `&&` and `!=`, which is the same arithmetic on {0, 1}. */
module Complexity {
  import opened Words

  /** The value as the bit sequence `sequence[i]`. */
  function BitSequence(v: bv32): (s: seq<bool>)
    ensures |s| == 32
    ensures forall i :: 0 <= i < 32 ==> s[i] == Bit(v, i)
  {
    seq(32, i requires 0 <= i < 32 => Bit(v, i))
  }

  /** The algorithm's state between iterations: `C`, `B`, `L` and `m`. */
  datatype State = State(c: seq<bool>, b: seq<bool>, l: int, m: int)

  /** The state before iteration `n`: `L <= n` and `-1 <= m < n`, which is
      what keeps every array index in bounds. */
  predicate Valid(st: State, n: nat)
  {
    |st.c| == 32 && |st.b| == 32 && 0 <= st.l <= n && -1 <= st.m < n
  }

  function Initial(): (st: State)
    ensures Valid(st, 0) && st.l == 0
  {
    State(seq(32, i => i == 0), seq(32, i => i == 0), 0, -1)
  }

  /** The inner loop `for i := 1; i <= L; i++ { d ^= C[i] & sequence[n-i] }`
      from index `i` on, with `d` the value accumulated so far. */
  function DiscrepancyFrom(s: seq<bool>, c: seq<bool>, n: nat, l: nat, i: nat, d: bool): bool
    requires |s| == 32 && |c| == 32 && l <= n < 32 && 1 <= i
    decreases l + 1 - i
  {
    if i <= l then DiscrepancyFrom(s, c, n, l, i + 1, d != (c[i] && s[n - i])) else d
  }

  /** `C[n-m+i] ^= B[i]` for every `i < 32-n+m`: B shifted up by `n - m`. */
  function AddShifted(c: seq<bool>, b: seq<bool>, shift: nat): (c': seq<bool>)
    requires |c| == 32 && |b| == 32 && 1 <= shift
    ensures |c'| == 32
    ensures forall j :: 0 <= j < shift && j < 32 ==> c'[j] == c[j]
  {
    seq(32, j requires 0 <= j < 32 => if shift <= j then c[j] != b[j - shift] else c[j])
  }

  /** Iteration `n` of the outer loop. */
  function Step(s: seq<bool>, st: State, n: nat): (st': State)
    requires |s| == 32 && n < 32 && Valid(st, n)
    ensures Valid(st', n + 1)
  {
    var d := DiscrepancyFrom(s, st.c, n, st.l, 1, s[n]);
    if d then
      var t := st.c;
      var c' := AddShifted(st.c, st.b, n - st.m);
      if st.l <= n / 2 then State(c', t, n + 1 - st.l, n) else State(c', st.b, st.l, st.m)
    else
      st
  }

  /** Iterations `n` to 31 of the outer loop. */
  function Run(s: seq<bool>, st: State, n: nat): (st': State)
    requires |s| == 32 && n <= 32 && Valid(st, n)
    ensures Valid(st', 32)
    decreases 32 - n
  {
    if n < 32 then Run(s, Step(s, st, n), n + 1) else st
  }

  /** `calculateLinearComplexity(value)`: the final `L`. */
  function LinearComplexity(v: bv32): (l: int)
    ensures 0 <= l <= 32
  {
    Run(BitSequence(v), Initial(), 0).l
  }

  /** With `L == 0` the inner loop is empty and the discrepancy is the bit itself. */
  lemma DiscrepancyEmpty(s: seq<bool>, c: seq<bool>, n: nat, d: bool)
    requires |s| == 32 && |c| == 32 && n < 32
    ensures DiscrepancyFrom(s, c, n, 0, 1, d) == d
  {
  }

  /** One iteration never shortens the register. */
  lemma StepNeverShortens(s: seq<bool>, st: State, n: nat)
    requires |s| == 32 && n < 32 && Valid(st, n)
    ensures Step(s, st, n).l >= st.l
  {
  }

  /** `L` never decreases across the iterations from `n` on. */
  lemma {:induction false} RunNeverShortens(s: seq<bool>, st: State, n: nat)
    requires |s| == 32 && n <= 32 && Valid(st, n)
    ensures Run(s, st, n).l >= st.l
    decreases 32 - n
  {
    if n < 32 {
      StepNeverShortens(s, st, n);
      RunNeverShortens(s, Step(s, st, n), n + 1);
    }
  }

  /** `L` stays 0 exactly as long as every bit seen so far is 0. */
  lemma StepZero(s: seq<bool>, st: State, n: nat)
    requires |s| == 32 && n < 32 && Valid(st, n)
    requires st.l == 0 <==> forall j :: 0 <= j < n ==> !s[j]
    ensures Step(s, st, n).l == 0 <==> forall j :: 0 <= j <= n ==> !s[j]
  {
    StepNeverShortens(s, st, n);
    if st.l == 0 {
      DiscrepancyEmpty(s, st.c, n, s[n]);
    }
  }

  lemma {:induction false} RunZero(s: seq<bool>, st: State, n: nat)
    requires |s| == 32 && n <= 32 && Valid(st, n)
    requires st.l == 0 <==> forall j :: 0 <= j < n ==> !s[j]
    ensures Run(s, st, n).l == 0 <==> forall j :: 0 <= j < 32 ==> !s[j]
    decreases 32 - n
  {
    if n < 32 {
      StepZero(s, st, n);
      RunZero(s, Step(s, st, n), n + 1);
    }
  }

  /** The linear complexity is 0 exactly for the zero word. */
  lemma ComplexityZeroIffZero(v: bv32)
    ensures LinearComplexity(v) == 0 <==> v == 0
  {
    var s := BitSequence(v);
    RunZero(s, Initial(), 0);
    if LinearComplexity(v) == 0 {
      NoBitsSetIsZero(v);
    }
    if v == 0 {
      forall i | 0 <= i < 32
        ensures !s[i]
      {
        ZeroBitAt(i as bv5);
      }
    }
  }
}
