/** The search for the time step a six-digit code was generated for. */
module TotpSearch {
  import opened Options

  const TOTP_PERIOD: nat := 30
  const TOTP_SKEW: nat := 1

  /** The code generator: a code for a secret and a step, or an error. */
  type Generator = (string, int) -> Option<string>

  /** Go's integer division, which truncates toward zero. */
  function Quotient(a: int, b: int): int
    requires b > 0
  {
    if a >= 0 then a / b else -(-a / b)
  }

  /** The period a moment falls in; before 1970 truncation takes the later one. */
  lemma {:induction false} QuotientLaw(now: int, period: nat)
    requires period > 0
    ensures var t0 := Quotient(now, period);
            if now >= 0 then t0 * period <= now < (t0 + 1) * period else (t0 - 1) * period < now <= t0 * period
  {
    if now >= 0 {
      DivMod(now, period);
      Shift(now / period, period);
    } else {
      DivMod(-now, period);
      Negate(-now / period, period);
    }
  }

  lemma {:induction false} DivMod(a: nat, b: nat)
    requires b > 0
    ensures a / b * b <= a < a / b * b + b
  {
    assert a == b * (a / b) + a % b;
  }

  lemma {:induction false} Shift(q: int, b: nat)
    ensures (q + 1) * b == q * b + b
  {
  }

  lemma {:induction false} Negate(q: int, b: nat)
    ensures -q * b == -(q * b) && (-q - 1) * b == -(q * b) - b
  {
  }

  function StepsAtDistance(t0: int, d: nat): seq<int> {
    if d == 0 then [t0] else [t0 + d, t0 - d]
  }

  function Distance(t0: int, step: int): nat {
    if step >= t0 then step - t0 else t0 - step
  }

  /** The order of the search: outward from t0, the later step first. */
  predicate Before(t0: int, a: int, b: int) {
    Distance(t0, a) < Distance(t0, b) || (Distance(t0, a) == Distance(t0, b) && a > b)
  }

  /** The step is in the window, its code is the one presented, and every step nearer
      to now has a code, and a different one. */
  ghost predicate Nearest(t0: int, skew: nat, code: string, secret: string, generate: Generator, step: int) {
    && Distance(t0, step) <= skew
    && generate(secret, step) == Some(code)
    && forall a :: Before(t0, a, step) ==> generate(secret, a).Some? && generate(secret, a) != Some(code)
  }

  /** Reached once every nearer distance and k steps of this one have been tried. */
  ghost predicate Visited(t0: int, d: nat, k: nat, a: int)
    requires k <= |StepsAtDistance(t0, d)|
  {
    Distance(t0, a) < d || a in StepsAtDistance(t0, d)[..k]
  }

  lemma {:induction false} VisitedNext(t0: int, d: nat, k: nat)
    requires k < |StepsAtDistance(t0, d)|
    ensures var step := StepsAtDistance(t0, d)[k];
            && Distance(t0, step) == d
            && (forall a :: Visited(t0, d, k, a) <==> Before(t0, a, step))
            && (forall a :: Visited(t0, d, k + 1, a) <==> Visited(t0, d, k, a) || a == step)
  {
    var steps, more := StepsAtDistance(t0, d), k + 1;
    var step := steps[k];
    assert steps[..k] == (if k == 0 then [] else [t0 + d]) && steps[..more] == steps[..k] + [step];
    forall a ensures Visited(t0, d, k, a) <==> Before(t0, a, step) {
      assert a in steps[..k] <==> k == 1 && a == t0 + d;
    }
    forall a ensures Visited(t0, d, more, a) <==> Visited(t0, d, k, a) || a == step {
      assert a in steps[..more] <==> a in steps[..k] || a == step;
    }
  }

  lemma {:induction false} VisitedRound(t0: int, d: nat)
    ensures forall a :: Visited(t0, d, |StepsAtDistance(t0, d)|, a) <==> Visited(t0, d + 1, 0, a)
  {
    var steps := StepsAtDistance(t0, d);
    assert steps[..|steps|] == steps;
    forall a ensures a in steps <==> Distance(t0, a) == d {
      if d > 0 { assert steps[0] == t0 + d && steps[1] == t0 - d; }
    }
  }

  /** Everything visited was tried, in order, and had another code. */
  ghost predicate Passed(t0: int, code: string, secret: string, generate: Generator, probed: seq<int>, d: nat, k: nat)
    requires k <= |StepsAtDistance(t0, d)|
  {
    && (forall i, j :: 0 <= i < j < |probed| ==> Before(t0, probed[i], probed[j]))
    && (forall a :: a in probed <==> Visited(t0, d, k, a))
    && (forall a :: a in probed ==> generate(secret, a).Some? && generate(secret, a) != Some(code))
  }

  /** matchTOTPStep. The ghost result is the steps it generated a code for, in order. */
  method MatchTotpStep(code: string, secret: string, now: int, period: nat, skew: nat, generate: Generator)
    returns (r: Option<int>, ghost probed: seq<int>)
    requires period > 0
    ensures forall step :: r == Some(step) <==> Nearest(Quotient(now, period), skew, code, secret, generate, step)
    ensures forall i, j :: 0 <= i < j < |probed| ==> Before(Quotient(now, period), probed[i], probed[j])
    ensures forall i :: 0 <= i < |probed| ==> Distance(Quotient(now, period), probed[i]) <= skew
    ensures r.None? && (forall i :: 0 <= i < |probed| ==> generate(secret, probed[i]).Some?) ==>
              forall a :: Distance(Quotient(now, period), a) <= skew ==> a in probed
  {
    var t0 := Quotient(now, period);
    probed := [];
    var d := 0;
    while d <= skew
      invariant d <= skew + 1
      invariant Passed(t0, code, secret, generate, probed, d, 0)
    {
      var steps := StepsAtDistance(t0, d);
      var k := 0;
      while k < |steps|
        invariant k <= |steps|
        invariant Passed(t0, code, secret, generate, probed, d, k)
      {
        var step := steps[k];
        VisitedNext(t0, d, k);
        probed := probed + [step];
        var candidate := generate(secret, step);
        assert probed[|probed| - 1] == step;
        if candidate.None? { return None, probed; }
        if candidate.value == code { return Some(step), probed; }
        k := k + 1;
      }
      VisitedRound(t0, d);
      d := d + 1;
    }
    assert forall i :: 0 <= i < |probed| ==> probed[i] in probed;
    return None, probed;
  }

  /** With a secret the generator accepts, the search finds a step exactly when the
      window has one. */
  lemma {:induction false} FoundIffPresent(t0: int, skew: nat, code: string, secret: string, generate: Generator)
    requires forall a :: Distance(t0, a) <= skew ==> generate(secret, a).Some?
    ensures (exists a :: Nearest(t0, skew, code, secret, generate, a)) <==>
            exists a :: Distance(t0, a) <= skew && generate(secret, a) == Some(code)
  {
    if a :| Distance(t0, a) <= skew && generate(secret, a) == Some(code) {
      Closest(t0, skew, code, secret, generate, a);
    }
  }

  lemma {:induction false} Closest(t0: int, skew: nat, code: string, secret: string, generate: Generator, a: int)
    requires forall b :: Distance(t0, b) <= skew ==> generate(secret, b).Some?
    requires Distance(t0, a) <= skew && generate(secret, a) == Some(code)
    ensures exists b :: Nearest(t0, skew, code, secret, generate, b)
    decreases Distance(t0, a), t0 - a + Distance(t0, a)
  {
    if b :| Before(t0, b, a) && generate(secret, b) == Some(code) {
      Closest(t0, skew, code, secret, generate, b);
    } else {
      assert Nearest(t0, skew, code, secret, generate, a);
    }
  }
}
