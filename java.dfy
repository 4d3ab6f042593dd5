/** The few pieces of Java semantics the button code relies on: truncating
    integer division, `List.indexOf` and `List.get` (which throws instead of
    returning a value for an index out of range). */
module Java {

  datatype Option<+T> = None | Some(value: T)

  /** Java's `/` on `int`: the quotient rounded toward zero. (Dafny's own `/`
      is Euclidean, so the two differ on negative dividends.) */
  function Div(a: int, b: int): (q: int)
    requires b > 0
    ensures 0 <= a ==> 0 <= q && 0 <= a - q * b < b
    ensures a < 0 ==> q <= 0 && -b < a - q * b <= 0
  {
    if a >= 0 then
      NatQuotient(a, b);
      a / b
    else
      NatQuotient(-a, b);
      -((-a) / b)
  }

  /** Euclidean division of a natural number leaves a remainder below `b`. */
  lemma NatQuotient(a: nat, b: int)
    requires b > 0
    ensures 0 <= a / b && 0 <= a - a / b * b < b
  {
    var q, r := a / b, a % b;
    assert a == q * b + r;
  }

  /** Truncation is symmetric about zero. */
  lemma DivNeg(a: int, b: int)
    requires b > 0
    ensures Div(-a, b) == -Div(a, b)
  {
  }

  /** Integer halving of three halves: `m * 3 / 2 - m / 2 == m` under Java
      division, for every `m` (odd, even, negative). */
  lemma ThreeHalvesMinusHalf(m: int)
    ensures Div(m * 3, 2) - Div(m, 2) == m
    decreases if m < 0 then 1 else 0
  {
    if m >= 0 {
      var q, r := m / 2, m % 2;
      assert m == 2 * q + r;
      assert m * 3 == 2 * (3 * q + r) + r;
      assert Div(m * 3, 2) == 3 * q + r;
      assert Div(m, 2) == q;
    } else {
      ThreeHalvesMinusHalf(-m);
      DivNeg(m * 3, 2);
      DivNeg(m, 2);
      assert -m * 3 == -(m * 3);
    }
  }

  /** `List.indexOf`: the first position of `x` in `s`, or -1 when `x` does
      not occur. */
  function IndexOf<T(==)>(s: seq<T>, x: T): (r: int)
    ensures -1 <= r < |s|
    ensures r == -1 <==> x !in s
    ensures 0 <= r ==> s[r] == x && x !in s[..r]
  {
    if s == [] then -1
    else if s[0] == x then 0
    else
      var k := IndexOf(s[1..], x);
      if k == -1 then -1
      else
        assert s[..k + 1] == [s[0]] + s[1..][..k];
        k + 1
  }

  /** `List.get`: the element at `n`, or None where Java throws
      IndexOutOfBoundsException. */
  function Get<T>(s: seq<T>, n: int): (r: Option<T>)
    ensures r.Some? <==> 0 <= n < |s|
    ensures r.Some? ==> r.value == s[n]
  {
    if 0 <= n < |s| then Some(s[n]) else None
  }

  /** On a list without duplicates, `get` undoes `indexOf` and `indexOf`
      undoes `get`. */
  lemma {:induction false} IndexOfGet<T>(s: seq<T>, n: int)
    requires forall i, j :: 0 <= i < j < |s| ==> s[i] != s[j]
    requires 0 <= n < |s|
    ensures IndexOf(s, s[n]) == n
    ensures Get(s, IndexOf(s, s[n])) == Some(s[n])
  {
    var r := IndexOf(s, s[n]);
    assert s[r] == s[n];
  }
}
