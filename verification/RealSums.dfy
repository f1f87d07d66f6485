/** Sums of real numbers, shared by the arithmetic models. */
module RealSums {
  function Sum(s: seq<real>): real {
    if s == [] then 0.0 else Sum(s[..|s| - 1]) + s[|s| - 1]
  }

  lemma {:induction false} SumSnoc(s: seq<real>, t: seq<real>, x: real)
    requires t == s + [x]
    ensures Sum(t) == Sum(s) + x
  {
    assert t[..|t| - 1] == s;
  }
}
