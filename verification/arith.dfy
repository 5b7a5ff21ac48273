/** Small facts about real division that the solver needs spelled out. */
module Arith {

  /** Cancelling a positive factor. */
  lemma Cancel(x: real, y: real, d: real)
    requires d > 0.0
    requires x * d == y * d
    ensures x == y
  {
    assert (x - y) * d == 0.0;
  }

  lemma DivCancel(c: real, d: real)
    requires d > 0.0
    ensures (c * d) / d == c
  {
    var q := (c * d) / d;
    assert q * d == c * d;
    Cancel(q, c, d);
  }

  lemma MulDiv(x: real, d: real)
    requires d > 0.0
    ensures (x / d) * d == x
  {
  }

  /** Dividing by a positive `d` keeps a bound that holds for `d` multiples. */
  lemma DivBound(a: real, d: real, b: real)
    requires d > 0.0
    ensures a <= d * b ==> a / d <= b
    ensures d * b <= a ==> b <= a / d
  {
    var q := a / d;
    MulDiv(a, d);
    assert (q - b) * d == a - d * b;
    MulSign(q - b, d);
  }

  lemma DivAdd(a: real, b: real, d: real)
    requires d > 0.0
    ensures (a + b) / d == a / d + b / d
  {
    var q := (a + b) / d;
    var x := a / d;
    var y := b / d;
    assert q * d == a + b;
    assert x * d == a;
    assert y * d == b;
    assert (x + y) * d == x * d + y * d;
    assert (q - (x + y)) * d == 0.0;
  }

  /** Multiplying by a positive factor keeps the sign. */
  lemma MulSign(x: real, d: real)
    requires d > 0.0
    ensures x * d > 0.0 <==> x > 0.0
    ensures x * d == 0.0 <==> x == 0.0
    ensures x * d < 0.0 <==> x < 0.0
  {
  }

  /** A square is never negative, and zero only for zero. */
  lemma Square(x: real)
    ensures x * x >= 0.0
    ensures x * x == 0.0 <==> x == 0.0
  {
    if x > 0.0 {
      MulSign(x, x);
    } else if x < 0.0 {
      assert x * x == (-x) * (-x);
      MulSign(-x, -x);
    }
  }

  lemma DivScale(c: real, a: real, d: real)
    requires d > 0.0
    ensures (c * a) / d == c * (a / d)
  {
    var x := (c * a) / d;
    var y := a / d;
    assert x * d == c * a;
    assert y * d == a;
    assert (c * y) * d == c * (y * d);
    Cancel(x, c * y, d);
  }

  /** The relative change from `before` to `after` lies above -1 and has the sign of the change. */
  lemma RelativeChange(before: real, after: real)
    requires before > 0.0 && after > 0.0
    ensures (after - before) / before > -1.0
    ensures (after - before) / before > 0.0 <==> after > before
    ensures (after - before) / before == 0.0 <==> after == before
  {
    var q := (after - before) / before;
    assert q * before == after - before;
    assert (q + 1.0) * before == after;
    MulSign(q + 1.0, before);
    MulSign(q, before);
  }

  /** The relative change does not depend on the unit. */
  lemma RelativeChangeScale(c: real, before: real, after: real)
    requires c > 0.0 && before > 0.0
    ensures (c * after - c * before) / (c * before) == (after - before) / before
  {
    var q1 := (after - before) / before;
    var q2 := (c * after - c * before) / (c * before);
    assert q1 * before == after - before;
    assert q1 * (c * before) == c * (q1 * before);
    assert q1 * (c * before) == c * after - c * before;
    assert q2 * (c * before) == c * after - c * before;
    Cancel(q1, q2, c * before);
  }

  /** Comparing with a multiple of a reference does not depend on the unit. */
  lemma CompareScaled(c: real, a: real, b: real, ca: real, cb: real, ratio: real)
    requires c > 0.0
    requires ca == c * a && cb == c * b
    ensures ca > cb * ratio <==> a > b * ratio
  {
    var diff := a - b * ratio;
    assert ca - cb * ratio == diff * c;
    MulSign(diff, c);
  }

  /** The mean of `n` votes of which `m` are 100 and the rest 50. */
  lemma MeanVote(n: nat, m: nat)
    requires 0 < n && m <= n
    ensures var mean := (50.0 * n as real + 50.0 * m as real) / n as real;
      && mean == 50.0 + 50.0 * (m as real / n as real)
      && 50.0 <= mean <= 100.0
      && (mean == 100.0 <==> m == n)
      && (mean == 50.0 <==> m == 0)
  {
    var total := n as real;
    var matched := m as real;
    var share := matched / total;
    DivAdd(50.0 * total, 50.0 * matched, total);
    DivScale(50.0, total, total);
    DivScale(50.0, matched, total);
    DivCancel(1.0, total);
    MulDiv(matched, total);
    assert share * total == matched;
    assert (share - 1.0) * total == matched - total;
    MulSign(share - 1.0, total);
    MulSign(share, total);
  }
}
