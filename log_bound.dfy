/**
 * The depth and stack bound of the DAG engine: `(n as f64).log2().ceil() as usize`,
 * written as an integer function. For n = 0 the float expression is -inf and the
 * saturating cast gives 0; for n = 1 it is 0.
 */
module LogBound {

  /** 2 to the power k. */
  function Pow2(k: nat): (p: nat)
    ensures p >= 1
  {
    if k == 0 then 1 else 2 * Pow2(k - 1)
  }

  /**
   * Ceiling of log2 n, and 0 for n = 0: the least k with n <= 2^k.
   */
  function CeilLog2(n: nat): (k: nat)
    ensures n <= Pow2(k)
    ensures k > 0 ==> Pow2(k - 1) < n
    ensures k == 0 <==> n <= 1
    decreases n
  {
    if n <= 1 then 0 else 1 + CeilLog2((n + 1) / 2)
  }

  /** The bound never shrinks as the node count grows. */
  lemma {:induction false} CeilLog2Monotone(a: nat, b: nat)
    requires a <= b
    ensures CeilLog2(a) <= CeilLog2(b)
    decreases b
  {
    if a > 1 {
      CeilLog2Monotone((a + 1) / 2, (b + 1) / 2);
    }
  }
}
