/** Money columns against double precision: when a stored balance moves by the stored amount. */
module CreditRounding {
  import opened CreditAdjust

  function Fraction(x: real): real {
    x - x.Floor as real
  }

  /** The digits of the amount beyond the fourth decimal stay away from a half, by a tenth of the
      fourth decimal, the error of the computation. */
  predicate Clear(p: Payload) {
    var t := Fraction(p.amount * 10000.0 + 0.5);
    if p.direction == Credit then 0.1 <= t < 0.9 else 0.1 < t <= 0.9
  }

  lemma FloorIs(x: real, n: int)
    requires n as real <= x < n as real + 1.0
    ensures x.Floor == n
  {
  }

  /** A whole number of ten-thousandths is clear. */
  lemma FourDecimalsAreClear(p: Payload, n: int)
    requires p.amount == n as real / 10000.0
    ensures Clear(p)
  {
    assert p.amount * 10000.0 == n as real;
    FloorIs(p.amount * 10000.0 + 0.5, n);
  }

  lemma ScaledNext(previous: int, p: Payload)
    ensures NextBalance(previous, p) * 10000.0
         == previous as real + if p.direction == Credit then p.amount * 10000.0 else -(p.amount * 10000.0)
  {
  }

  lemma CloseRounds(next: real, previous: int, p: Payload)
    requires Close(next, previous, p) && Clear(p)
    ensures Grid(next) == previous + Signed(p)
  {
    ScaledNext(previous, p);
    var x := next * 10000.0;
    assert -0.1 <= x - NextBalance(previous, p) * 10000.0 <= 0.1;
    FloorIs(x + 0.5, previous + Signed(p));
  }

  lemma MovesExactly(add: Arithmetic, previous: int, p: Payload)
    requires Sound(add) && Held(previous, p) && Clear(p)
    ensures Grid(add(previous, p)) == previous + Signed(p)
  {
    CloseRounds(add(previous, p), previous, p);
  }

  /** Exact but for one sum, which is off by `error`. */
  function Off(previous: int, p: Payload, error: real): Arithmetic {
    (q, x) => if q == previous && x == p then NextBalance(q, x) + error else NextBalance(q, x)
  }

  lemma OffIsSound(previous: int, p: Payload, error: real)
    requires -ERROR <= error <= ERROR
    ensures Sound(Off(previous, p, error))
  {
  }

  lemma UnclearMisses(previous: int, p: Payload)
    requires !Clear(p)
    ensures Grid(Off(previous, p, ERROR)(previous, p)) != previous + Signed(p)
         || Grid(Off(previous, p, -ERROR)(previous, p)) != previous + Signed(p)
  {
    ScaledNext(previous, p);
    var up, down := NextBalance(previous, p) + ERROR, NextBalance(previous, p) - ERROR;
    assert up * 10000.0 == NextBalance(previous, p) * 10000.0 + 0.1;
    assert down * 10000.0 == NextBalance(previous, p) * 10000.0 - 0.1;
  }

  ghost predicate MovesByAmount(add: Arithmetic, previous: int, p: Payload) {
    Grid(add(previous, p)) == previous + Signed(p)
  }

  /** The stored balance moves by the stored amount, however the computation rounds, exactly if the
      amount is clear. */
  lemma StoredBalanceMoves(previous: int, p: Payload)
    requires Held(previous, p)
    ensures (forall add | Sound(add) :: MovesByAmount(add, previous, p)) <==> Clear(p)
  {
    if Clear(p) {
      forall add | Sound(add) ensures MovesByAmount(add, previous, p) {
        MovesExactly(add, previous, p);
      }
    } else {
      UnclearMisses(previous, p);
      OffIsSound(previous, p, ERROR);
      OffIsSound(previous, p, -ERROR);
      assert !MovesByAmount(Off(previous, p, ERROR), previous, p)
             || !MovesByAmount(Off(previous, p, -ERROR), previous, p);
    }
  }
}
