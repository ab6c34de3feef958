/** Machine integers, and facts about products, quotients and remainders that the solver does not find on its own. */
module Arith {

  const TWO31 := 0x8000_0000
  const TWO32 := 0x1_0000_0000
  const TWO63 := 0x8000_0000_0000_0000
  const TWO64 := 0x1_0000_0000_0000_0000
  type byte = x: int | 0 <= x < 256
  type uint32 = x: int | 0 <= x < TWO32
  type uint64 = x: int | 0 <= x < TWO64
  type int32 = x: int | -TWO31 <= x < TWO31
  type int64 = x: int | -TWO63 <= x < TWO63

  type Positive = x: int | 0 < x witness 1

  /** Go's integer division truncates towards zero. */
  function Quo(a: int, b: Positive): int {
    if a >= 0 then a / b else -((-a) / b)
  }

  lemma MulMono(k: nat, a: int, b: int)
    ensures a <= b ==> k * a <= k * b
  {
  }

  /** Quotient and remainder are unique. */
  lemma DivModUnique(a: int, k: Positive, q: int, r: int)
    requires a == k * q + r && 0 <= r < k
    ensures a / k == q && a % k == r
  {
    var q', r' := a / k, a % k;
    assert a == k * q' + r';
    assert k * (q - q') == r' - r;
    MulMono(k, 1, q - q');
    MulMono(k, q - q', -1);
  }

  /** Two distinct multiples of k are at least k apart. */
  lemma MultiplesAreFarApart(m: int, s: int, k: Positive)
    requires m % k == 0 && s % k == 0
    ensures m < s ==> m + k <= s
  {
    var i, j := m / k, s / k;
    assert m == k * i && s == k * j;
    assert k * (j - i) == s - m;
    MulMono(k, j - i, 0);
    MulMono(k, 1, j - i);
  }

  /** Shifting by a multiple of k does not change divisibility by k. */
  lemma ShiftByMultiple(s: int, t: int, k: Positive)
    requires s % k == 0
    ensures (t - s) % k == 0 <==> t % k == 0
  {
    var i, j, r := s / k, t / k, t % k;
    assert s == k * i && t == k * j + r;
    assert t - s == k * (j - i) + r;
    DivModUnique(t - s, k, j - i, r);
  }
}
