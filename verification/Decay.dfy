/**
 The comparison of Apollo's decay with the node's, in arithmetic that rounds every
 result. `rnd` is the rounding; numbers that cannot be parsed are None.
 */
module Decay {
  import opened Common

  type Rounding = real -> real

  function Abs(x: real): real {
    if x < 0.0 then -x else x
  }

  /** Multiplication under a name, so that proofs can treat a product as a whole. */
  function Mul(x: real, y: real): real {
    x * y
  }

  /** Every rounded result is within the relative error `u` of the exact one. */
  ghost predicate Rounds(rnd: Rounding, u: real) {
    0.0 <= u < 1.0 && forall x :: RoundsAt(rnd, u, x)
  }

  predicate RoundsAt(rnd: Rounding, u: real, x: real) {
    Abs(rnd(x) - x) <= Mul(u, Abs(x))
  }

  /** The limit in the code is the double nearest to 0.00001. */
  const LIMIT: real := 5902958103587057.0 / 590295810358705651712.0

  /** 53 bits, and off by at most half a unit in the last place. */
  lemma LimitIsNearestDouble()
    ensures LIMIT * 590295810358705651712.0 == 5902958103587057.0
    ensures 4503599627370496.0 <= 5902958103587057.0 < 9007199254740992.0
    ensures Abs(LIMIT - 0.00001) * 1180591620717411303424.0 <= 1.0
  {
  }

  datatype Kind = Creation | Transfer | DeferredTransfer | Other

  datatype Error = InvalidBalance | InvalidDecay | DecayDeviates

  /** Exact deviation of Apollo's value `a` from the decay of `start` under `factor`. */
  function Deviation(start: real, factor: real, a: real): real {
    a - (start - Mul(start, factor))
  }

  /** The deviation as the rounded arithmetic sees it. */
  function Measured(rnd: Rounding, start: real, factor: real, a: real): real {
    var s := rnd(start);
    rnd(rnd(a) - rnd(s - rnd(Mul(s, factor))))
  }

  /**
   The check. `start` is the balance the node reports; None stands for a string
   that is no number.
   */
  method ValidateApolloDecay(kind: Kind, start: Option<real>, factor: real, apollo: Option<real>, rnd: Rounding)
    returns (r: Result<bool, Error>)
    ensures kind.Other? ==> r == Ok(true)
    ensures !kind.Other? && start.None? ==> r == Err(InvalidBalance)
    ensures !kind.Other? && start.Some? && apollo.None? ==> r == Err(InvalidDecay)
    ensures !kind.Other? && start.Some? && apollo.Some? ==>
              r == if -LIMIT < Measured(rnd, start.value, factor, apollo.value) < LIMIT
                   then Ok(true) else Err(DecayDeviates)
  {
    if kind.Other? {
      return Ok(true);
    }
    if start.None? {
      return Err(InvalidBalance);
    }
    var startBalance := rnd(start.value);
    var balance := startBalance;
    var decayTemp := factor;
    balance := rnd(Mul(balance, decayTemp));
    decayTemp := rnd(startBalance - balance);
    if apollo.None? {
      return Err(InvalidDecay);
    }
    balance := rnd(apollo.value);
    var diff := rnd(balance - decayTemp);
    diff := Abs(diff);
    if diff >= LIMIT {
      return Err(DecayDeviates);
    }
    r := Ok(true);
  }

  // ---- the error bound -----------------------------------------------------

  /** Error of a rounded difference whose operands are off by `ex` and `ey`, the exact one being at most `m`. */
  function SubError(u: real, ex: real, ey: real, m: real): real {
    ex + ey + Mul(u, m + ex + ey)
  }

  /** Error of the rounded end balance for a start balance of size `s` and a factor of size `f`. */
  function EndError(u: real, s: real, f: real): real {
    Mul(Mul(u, s), f) + Mul(u, Mul(Mul(1.0 + u, s), f))
  }

  /** How far the measured deviation can be from the exact one. */
  function Slack(u: real, s: real, f: real, a: real): real {
    var decayError := SubError(u, Mul(u, s), EndError(u, s, f), s + Mul(s, f));
    SubError(u, Mul(u, a), decayError, a + (s + Mul(s, f)))
  }

  /** The rounding error of a number of size at most `b`. */
  lemma RoundedWithin(rnd: Rounding, u: real, x: real, b: real)
    requires Rounds(rnd, u) && Abs(x) <= b
    ensures Abs(rnd(x) - x) <= Mul(u, b)
  {
    assert RoundsAt(rnd, u, x);
    assert u * Abs(x) <= u * b;
  }

  lemma ProductWithin(x: real, y: real, b: real)
    requires Abs(x) <= b
    ensures Abs(Mul(x, y)) <= Mul(b, Abs(y))
  {
    assert Abs(x * y) == Abs(x) * Abs(y);
  }

  lemma ErrorsAdd(x: real, x': real, y: real, y': real, ex: real, ey: real, r: real, err: real)
    requires Abs(x' - x) <= ex && Abs(y' - y) <= ey && Abs(r - (x' - y')) <= err
    ensures Abs(r - (x - y)) <= ex + ey + err
  {
  }

  lemma SubBound(rnd: Rounding, u: real, x: real, x': real, y: real, y': real, ex: real, ey: real, m: real)
    requires Rounds(rnd, u) && Abs(x' - x) <= ex && Abs(y' - y) <= ey && Abs(x - y) <= m
    ensures Abs(rnd(x' - y') - (x - y)) <= SubError(u, ex, ey, m)
  {
    RoundedWithin(rnd, u, x' - y', m + ex + ey);
    ErrorsAdd(x, x', y, y', ex, ey, rnd(x' - y'), Mul(u, m + ex + ey));
  }

  lemma EndBound(rnd: Rounding, u: real, start: real, factor: real)
    requires Rounds(rnd, u)
    ensures Abs(rnd(Mul(rnd(start), factor)) - Mul(start, factor)) <= EndError(u, Abs(start), Abs(factor))
  {
    RoundedWithin(rnd, u, start, Abs(start));
    RoundedSize(u, start, rnd(start));
    EndBoundFor(rnd, u, start, rnd(start), factor, Mul(u, Abs(start)), Mul(1.0 + u, Abs(start)));
  }

  lemma RoundedSize(u: real, x: real, x': real)
    requires Abs(x' - x) <= Mul(u, Abs(x))
    ensures Abs(x') <= Mul(1.0 + u, Abs(x))
  {
    assert (1.0 + u) * Abs(x) == Abs(x) + u * Abs(x);
  }

  lemma EndBoundFor(rnd: Rounding, u: real, start: real, s: real, factor: real, e: real, b: real)
    requires Rounds(rnd, u) && Abs(s - start) <= e && Abs(s) <= b
    ensures Abs(rnd(Mul(s, factor)) - Mul(start, factor)) <= Mul(e, Abs(factor)) + Mul(u, Mul(b, Abs(factor)))
  {
    ProductWithin(s - start, factor, e);
    assert Mul(s - start, factor) == Mul(s, factor) - Mul(start, factor);
    ProductWithin(s, factor, b);
    RoundedWithin(rnd, u, Mul(s, factor), Mul(b, Abs(factor)));
  }

  /** The measured deviation is within the slack of the exact one, on either side. */
  lemma MeasuredIsClose(rnd: Rounding, u: real, start: real, factor: real, a: real)
    requires Rounds(rnd, u)
    ensures Abs(Measured(rnd, start, factor, a) - Deviation(start, factor, a))
            <= Slack(u, Abs(start), Abs(factor), Abs(a))
  {
    var m, f := Abs(start), Abs(factor);
    EndBound(rnd, u, start, factor);
    RoundedWithin(rnd, u, start, m);
    RoundedWithin(rnd, u, a, Abs(a));
    DecaySize(start, factor);
    CloseFrom(rnd, u, start, rnd(start), Mul(start, factor), rnd(Mul(rnd(start), factor)), a, rnd(a),
              Mul(u, m), EndError(u, m, f), Mul(u, Abs(a)), m + Mul(m, f));
  }

  lemma DecaySize(start: real, factor: real)
    ensures Abs(start - Mul(start, factor)) <= Abs(start) + Mul(Abs(start), Abs(factor))
  {
    ProductWithin(start, factor, Abs(start));
  }

  lemma CloseFrom(rnd: Rounding, u: real, s: real, s': real, end: real, end': real, a: real, a': real,
                  es: real, ee: real, ea: real, m: real)
    requires Rounds(rnd, u) && Abs(s' - s) <= es && Abs(end' - end) <= ee && Abs(a' - a) <= ea && Abs(s - end) <= m
    ensures Abs(rnd(a' - rnd(s' - end')) - (a - (s - end))) <= SubError(u, ea, SubError(u, es, ee, m), Abs(a) + m)
  {
    SubBound(rnd, u, s, s', end, end', es, ee, m);
    SubBound(rnd, u, a, a', s - end, rnd(s' - end'), ea, SubError(u, es, ee, m), Abs(a) + m);
  }

  /** What the comparison with the limit says about the exact deviation. */
  lemma DecidedWithinSlack(rnd: Rounding, u: real, start: real, factor: real, a: real)
    requires Rounds(rnd, u)
    ensures var exact, slack := Abs(Deviation(start, factor, a)), Slack(u, Abs(start), Abs(factor), Abs(a));
      && (Abs(Measured(rnd, start, factor, a)) < LIMIT ==> exact < LIMIT + slack)
      && (exact < LIMIT - slack ==> Abs(Measured(rnd, start, factor, a)) < LIMIT)
  {
    MeasuredIsClose(rnd, u, start, factor, a);
  }

  /** Without rounding the check accepts exactly the deviations below the limit. */
  lemma ExactArithmeticIsExact(start: real, factor: real, a: real)
    ensures Slack(0.0, Abs(start), Abs(factor), Abs(a)) == 0.0
    ensures Measured(x => x, start, factor, a) == Deviation(start, factor, a) == a - (start - start * factor)
  {
  }
}
