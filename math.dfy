/** Integer helpers shared by the two retry models. */
module Math {

  /** `2 ** k` in Python, `Math.pow(2, k)` in JavaScript, for natural k. */
  function Pow2(k: nat): (r: nat)
    ensures r >= 1
  {
    if k == 0 then 1 else 2 * Pow2(k - 1)
  }
}
