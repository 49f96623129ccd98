/** Taking turns: what index % m means, as a counter that starts again at zero. */
module Rotation {

  /** Whose turn number n is, among m. */
  function Turn(n: nat, m: nat): (t: nat)
    requires m > 0
    ensures t < m
  {
    if n == 0 then 0
    else
      var t := Turn(n - 1, m);
      if t == m - 1 then 0 else t + 1
  }

  /** How many complete rounds precede turn n. */
  function Rounds(n: nat, m: nat): (r: nat)
    requires m > 0
  {
    if n == 0 then 0 else Rounds(n - 1, m) + (if Turn(n, m) == 0 then 1 else 0)
  }

  /** How many of the first n turns are those of a. */
  function Uses(n: nat, m: nat, a: nat): (u: nat)
    requires m > 0
  {
    if n == 0 then 0 else Uses(n - 1, m, a) + (if Turn(n - 1, m) == a then 1 else 0)
  }

  lemma {:induction false} Division(n: nat, m: nat)
    requires m > 0
    ensures n == Rounds(n, m) * m + Turn(n, m)
    ensures n / m == Rounds(n, m) && n % m == Turn(n, m)
  {
    if n > 0 {
      Division(n - 1, m);
      var r := Rounds(n - 1, m);
      assert (r + 1) * m == r * m + m;
    }
    Unique(n, m, Rounds(n, m), Turn(n, m));
  }

  lemma Unique(n: nat, m: nat, q: nat, r: nat)
    requires r < m && n == q * m + r
    ensures n / m == q && n % m == r
  {
    var d := n / m - q;
    assert n == (n / m) * m + n % m;
    assert d * m == (n / m) * m - q * m;
    if d != 0 {
      FarFromZero(d, m);
    }
  }

  lemma FarFromZero(d: int, m: int)
    requires d != 0 && m > 0
    ensures d * m >= m || d * m <= 0 - m
  {
    if d >= 1 {
      assert (d - 1) * m >= 0;
    } else {
      assert (-1 - d) * m >= 0;
    }
  }

  /** Everyone gets the same number of turns, up to one. */
  lemma {:induction false} Fair(n: nat, m: nat, a: nat)
    requires a < m
    ensures Uses(n, m, a) == Rounds(n, m) + (if a < Turn(n, m) then 1 else 0)
  {
    if n > 0 {
      Fair(n - 1, m, a);
    }
  }
}
