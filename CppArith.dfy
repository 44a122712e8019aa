/** C++ integer arithmetic where it differs from Dafny's: `/` on `int` truncates
    towards zero in C++, whereas Dafny's `/` is Euclidean. */
module CppArith {

  function Abs(a: int): (r: nat)
    ensures r == a || r == -a
  {
    if a < 0 then -a else a
  }

  /** C++ `a / b` for `b > 0`: the quotient truncated towards zero. */
  function TruncDiv(a: int, b: int): (q: int)
    requires b > 0
    ensures Abs(q) * b <= Abs(a) < (Abs(q) + 1) * b
    ensures a >= 0 ==> q >= 0
    ensures a <= 0 ==> q <= 0
  {
    if a >= 0 then a / b else -((-a) / b)
  }

  /** On non-negative operands the C++ and the Dafny quotient agree. */
  lemma TruncDivOfNonNegative(a: nat, b: int)
    requires b > 0
    ensures TruncDiv(a, b) == a / b
  {
  }
}
