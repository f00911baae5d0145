/** Division facts that the closed forms need. */
module Arithmetic {

  function CeilDiv(a: nat, b: nat): nat
    requires b > 0
  {
    if a % b == 0 then a / b else a / b + 1
  }

  lemma Scaled(x: int, y: int, b: nat)
    requires x <= y
    ensures x * b <= y * b
  {
  }

  lemma CeilDivBounds(a: nat, b: nat)
    requires b > 0
    ensures var n := CeilDiv(a, b);
            n * b >= a && (n > 0 ==> (n - 1) * b < a)
  {
    var q, r := a / b, a % b;
    assert a == b * q + r && 0 <= r < b;
    assert (q + 1) * b == q * b + b && (q - 1) * b == q * b - b;
  }

  /** The ceiling is the only multiple count that reaches `a` when one less does not. */
  lemma CeilDivIsLeast(a: nat, b: nat, n: nat)
    requires b > 0 && n * b >= a && (n > 0 ==> (n - 1) * b < a)
    ensures n == CeilDiv(a, b)
  {
    var m := CeilDiv(a, b);
    CeilDivBounds(a, b);
    hide CeilDiv;
    if m < n {
      Scaled(m, n - 1, b);
    } else if n < m {
      Scaled(n, m - 1, b);
    }
  }

  lemma QuotientStep(t: nat, freq: nat)
    requires freq > 0 && t > 0
    ensures t / freq == (t - 1) / freq + if t % freq == 0 then 1 else 0
  {
    var q, r := (t - 1) / freq, (t - 1) % freq;
    assert t == freq * q + (r + 1);
    if r + 1 == freq {
      assert t == freq * (q + 1);
      DivisionIs(t, freq, q + 1, 0);
    } else {
      DivisionIs(t, freq, q, r + 1);
    }
  }

  lemma DivisionIs(a: nat, b: nat, q: nat, r: nat)
    requires b > 0 && a == b * q + r && r < b
    ensures a / b == q && a % b == r
  {
    var x, y := a / b, a % b;
    assert a == b * x + y;
    if x < q {
      Scaled(x + 1, q, b);
    } else if q < x {
      Scaled(q + 1, x, b);
    }
  }

  lemma SmallModulo(i: nat, n: nat)
    requires i < n
    ensures i % n == i
  {
  }

  lemma ModuloBack(i: nat, n: nat)
    requires i >= n > 0
    ensures (i - n) % n == i % n
  {
    var q, r := i / n, i % n;
    assert i == n * q + r;
    assert q == 0 ==> n * q == 0;
    assert n * q == n * (q - 1) + n;
    DivisionIs(i - n, n, q - 1, r);
  }

  lemma Percentage(used: int, total: nat)
    requires 0 <= used <= total && total > 0
    ensures 0.0 <= 100.0 * used as real / total as real <= 100.0
  {
    var share := used as real / total as real;
    assert share * total as real == used as real;
    assert 0.0 <= share <= 1.0;
    assert 100.0 * used as real / total as real == 100.0 * share;
  }
}
