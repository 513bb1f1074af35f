/**
  The volatility step of Glicko-2 (internal/rating/glicko2/calculator.go:85-132), Step 5 of
  Glickman's "Example of the Glicko-2 system": the Illinois method on a bracket of the objective,
  over the reals.  Exp and log are arbitrary functions with the properties named in ExpLog.
*/
module Glicko2 {
  import opened Prelude

  datatype GlickoError = InvalidInput

  const CONVERGENCE_TOLERANCE := 0.000001
  const MAX_ITERATIONS := 100

  type Fn = real -> real

  ghost predicate ExpLog(exp: Fn, log: Fn) {
    && (forall x :: exp(x) > 0.0)
    && (forall x, y :: x < y ==> exp(x) < exp(y))
    && (forall y :: y > 0.0 ==> exp(log(y)) == y)
  }

  // The values of tau that NewCalculator accepts.
  predicate AcceptsTau(tau: real) {
    0.3 <= tau <= 1.2
  }

  // What the caller has checked: tau of the calculator, a valid rating, and a positive variance.
  datatype Inputs = Inputs(tau: real, phi: real, volatility: real, delta: real, variance: real) {
    predicate Valid() {
      tau > 0.0 && phi > 0.0 && volatility > 0.0 && variance > 0.0
    }

    // The square of the volatility at which the first term of the objective vanishes.
    function Target(): real {
      Square(delta) - Square(phi) - variance
    }
  }

  // The signs of two values are the same.
  predicate SameSign(u: real, v: real) {
    (u > 0.0 && v > 0.0) || (u < 0.0 && v < 0.0) || (u == 0.0 && v == 0.0)
  }

  function Times(x: real, y: real): (r: real)
    ensures x > 0.0 ==> SameSign(r, y)
  {
    x * y
  }

  function Over(x: real, scale: real): (r: real)
    requires scale > 0.0
    ensures SameSign(r, x)
  {
    x / scale
  }

  function Square(x: real): (r: real)
    ensures x > 0.0 ==> r > 0.0
  {
    Times(x, x)
  }

  // The first term of the objective, for e = exp(x).
  function Pull(p: Inputs, e: real): (r: real)
    requires p.Valid() && e > 0.0
    ensures SameSign(r, p.Target() - e)
  {
    Over(Times(e, p.Target() - e), 2.0 * Square(Square(p.phi) + p.variance + e))
  }

  // The second term.
  function Drift(p: Inputs, a: real, x: real): (r: real)
    requires p.Valid()
    ensures SameSign(r, x - a)
  {
    Over(x - a, Square(p.tau))
  }

  function Objective(p: Inputs, exp: Fn, a: real, x: real): real
    requires p.Valid() && exp(x) > 0.0
  {
    Pull(p, exp(x)) - Drift(p, a, x)
  }

  // The signs of two values differ, or one of them is zero.
  predicate Opposite(u: real, v: real) {
    (u <= 0.0 && v >= 0.0) || (u >= 0.0 && v <= 0.0)
  }

  // Between two points, in either order.
  predicate Within(x: real, left: real, right: real) {
    left <= x <= right || right <= x <= left
  }

  lemma SignOfProduct(u: real, v: real)
    ensures u * v <= 0.0 <==> Opposite(u, v)
  {
  }

  lemma Ratio(u: real, w: real)
    requires 0.0 <= u <= w && w > 0.0
    ensures 0.0 <= u / w <= 1.0
  {
  }

  lemma NonNegative(x: real, y: real)
    requires x >= 0.0 && y >= 0.0
    ensures x * y >= 0.0
  {
  }

  lemma Share(d: real, t: real)
    requires d >= 0.0 && 0.0 <= t <= 1.0
    ensures 0.0 <= d * t <= d
  {
    NonNegative(d, t);
    NonNegative(d, 1.0 - t);
    assert d * (1.0 - t) == d - d * t;
  }

  // A share between nothing and all of the way.
  lemma Partway(left: real, way: real, t: real)
    requires 0.0 <= t <= 1.0
    ensures Within(left + way * t, left, left + way)
  {
    if way >= 0.0 {
      Share(way, t);
    } else {
      Share(-way, t);
      Negated(way, t);
    }
  }

  lemma Negated(x: real, y: real)
    ensures (-x) * y == -(x * y) && (-x) * (-y) == x * y
  {
  }

  lemma Quotients(d: real, u: real, w: real)
    requires w != 0.0
    ensures d * u / w == d * (u / w) && u / -w == -(u / w)
    ensures w == -u ==> u / w == -1.0
  {
  }

  lemma NegatedQuotient(u: real, w: real)
    requires w != 0.0
    ensures (-u) / w == -(u / w)
  {
    var q := u / w;
    assert q * w == u;
    Negated(q, w);
  }

  // The share of the way that the secant through the two values takes.
  lemma SecantShare(u: real, w: real)
    requires w != 0.0 && (0.0 <= u <= -w || -w <= u <= 0.0)
    ensures 0.0 <= -(u / w) <= 1.0
  {
    if u >= 0.0 && w < 0.0 {
      Ratio(u, -w);
      Quotients(0.0, u, w);
    } else {
      Ratio(-u, w);
      NegatedQuotient(u, w);
    }
  }

  function Middle(left: real, right: real, fLeft: real, fRight: real): real
    requires fRight != fLeft
  {
    left + (left - right) * fLeft / (fRight - fLeft)
  }

  /** The new point lies in the bracket, and on its right end if that is a root. */
  lemma MiddleIsWithin(left: real, right: real, fLeft: real, fRight: real)
    requires fLeft != 0.0 && Opposite(fLeft, fRight)
    ensures fRight != fLeft && Within(Middle(left, right, fLeft, fRight), left, right)
    ensures fRight == 0.0 ==> Middle(left, right, fLeft, fRight) == right
  {
    var d, w := left - right, fRight - fLeft;
    var q := fLeft / w;
    SecantShare(fLeft, w);
    Partway(left, -d, -q);
    Negated(d, q);
    Quotients(d, fLeft, w);
  }

  function Start(p: Inputs, log: Fn): real {
    log(Square(p.volatility))
  }

  function Probe(p: Inputs, a: real, k: int): real {
    a - k as real * p.tau
  }

  /* The loop */

  // What every round keeps: the values straddle zero, they have the signs of the objective at the
  // ends, the left one only vanishes when there is nothing left to search, and the bracket lies in
  // the one it started from.
  ghost predicate Straddles(p: Inputs, exp: Fn, a: real, left: real, right: real, fLeft: real, fRight: real)
    requires p.Valid() && forall x :: exp(x) > 0.0
  {
    && Opposite(fLeft, fRight)
    && SameSign(fLeft, Objective(p, exp, a, left))
    && fRight == Objective(p, exp, a, right)
    && (fLeft == 0.0 ==> left == right)
  }

  /** One round of the Illinois method narrows the bracket and keeps the signs apart. */
  lemma RoundKeeps(p: Inputs, exp: Fn, a: real, left: real, right: real, fLeft: real, fRight: real)
    requires p.Valid() && (forall x :: exp(x) > 0.0) && Straddles(p, exp, a, left, right, fLeft, fRight)
             && left != right
    ensures fRight != fLeft
    ensures var middle := Middle(left, right, fLeft, fRight);
            var fMiddle := Objective(p, exp, a, middle);
            && Within(middle, left, right)
            && (fMiddle * fRight <= 0.0 ==> Straddles(p, exp, a, right, middle, fRight, fMiddle))
            && (fMiddle * fRight > 0.0 ==> Straddles(p, exp, a, left, middle, fLeft / 2.0, fMiddle))
  {
    MiddleIsWithin(left, right, fLeft, fRight);
    var middle := Middle(left, right, fLeft, fRight);
    var fMiddle := Objective(p, exp, a, middle);
    SignOfProduct(fMiddle, fRight);
  }

  /** Step 5.2: the initial bracket straddles zero, whichever of its two forms it takes. */
  lemma InitialBracket(p: Inputs, exp: Fn, log: Fn, right: real)
    requires p.Valid() && ExpLog(exp, log)
    requires var a := Start(p, log);
             if p.Target() > 0.0 then right == log(p.Target()) else right < a && Objective(p, exp, a, right) >= 0.0
    ensures var a := Start(p, log);
            Straddles(p, exp, a, a, right, Objective(p, exp, a, a), Objective(p, exp, a, right))
  {
    var square := Square(p.volatility);
    var a := Start(p, log);
    assert exp(a) == square;
    if p.Target() > 0.0 {
      if right > a {
        assert exp(right) > exp(a);
      } else if right < a {
        assert exp(right) < exp(a);
      }
    }
  }

  function Abs(x: real): real {
    if x < 0.0 then -x else x
  }

  datatype Bracket = Bracket(left: real, right: real, fLeft: real, fRight: real) {
    predicate Wide() {
      Abs(right - left) > CONVERGENCE_TOLERANCE
    }
  }

  // One round of the Illinois method; it does not apply to a bracket that has collapsed.
  function Narrowed(p: Inputs, exp: Fn, a: real, b: Bracket): Bracket
    requires p.Valid() && forall x :: exp(x) > 0.0
  {
    if b.left == b.right || b.fRight == b.fLeft then b
    else
      var middle := Middle(b.left, b.right, b.fLeft, b.fRight);
      var fMiddle := Objective(p, exp, a, middle);
      if fMiddle * b.fRight <= 0.0 then Bracket(b.right, middle, b.fRight, fMiddle)
      else Bracket(b.left, middle, b.fLeft / 2.0, fMiddle)
  }

  function After(p: Inputs, exp: Fn, a: real, b: Bracket, rounds: nat): Bracket
    requires p.Valid() && forall x :: exp(x) > 0.0
  {
    if rounds == 0 then b else Narrowed(p, exp, a, After(p, exp, a, b, rounds - 1))
  }

  function Initial(p: Inputs, exp: Fn, log: Fn, right: real): Bracket
    requires p.Valid() && forall x :: exp(x) > 0.0
  {
    var a := Start(p, log);
    Bracket(a, right, Objective(p, exp, a, a), Objective(p, exp, a, right))
  }

  // The other end of the initial bracket: closed form, or the first step down with a value that is not negative.
  ghost predicate OtherEnd(p: Inputs, exp: Fn, log: Fn, right: real)
    requires p.Valid() && forall x :: exp(x) > 0.0
  {
    if p.Target() > 0.0 then right == log(p.Target())
    else
      exists k ::
        1 <= k <= MAX_ITERATIONS && FirstProbe(p, exp, Start(p, log), k) && right == Probe(p, Start(p, log), k)
  }

  ghost predicate FirstProbe(p: Inputs, exp: Fn, a: real, k: int)
    requires p.Valid() && forall x :: exp(x) > 0.0
  {
    && Objective(p, exp, a, Probe(p, a, k)) >= 0.0
    && forall j :: 1 <= j < k ==> Objective(p, exp, a, Probe(p, a, j)) < 0.0
  }

  /** There is at most one such end. */
  lemma OtherEndIsUnique(p: Inputs, exp: Fn, log: Fn, x: real, y: real)
    requires p.Valid() && (forall x :: exp(x) > 0.0) && OtherEnd(p, exp, log, x) && OtherEnd(p, exp, log, y)
    ensures x == y
  {
    if p.Target() <= 0.0 {
      var a := Start(p, log);
      var j :| 1 <= j <= MAX_ITERATIONS && FirstProbe(p, exp, a, j) && x == Probe(p, a, j);
      var k :| 1 <= k <= MAX_ITERATIONS && FirstProbe(p, exp, a, k) && y == Probe(p, a, k);
      assert j == k;
    }
  }

  /* The search for the other end */

  lemma Monotone(x: real, y: real, z: real)
    requires x <= y && z >= 0.0
    ensures x * z <= y * z
  {
    NonNegative(y - x, z);
    assert (y - x) * z == y * z - x * z;
  }

  lemma AtLeastHalf(n: real, square: real)
    requires square > 0.0 && -square <= n
    ensures n / (2.0 * square) >= -0.5
  {
  }

  lemma AtMostHalf(n: real, square: real)
    requires square > 0.0 && n <= -0.5 * square
    ensures n / square <= -0.5
  {
  }

  lemma Reversed(x: real, y: real)
    ensures Times(x, y - x) == -((x - y) * x)
  {
  }

  // However small the target, the first term is at least minus one half.
  lemma PullIsBounded(p: Inputs, e: real)
    requires p.Valid() && e > 0.0
    ensures Pull(p, e) >= -0.5
  {
    var d := Square(p.phi) + p.variance + e;
    SquareIsNonNegative(p.delta);
    Monotone(e - p.Target(), d, e);
    Monotone(e, d, d);
    Reversed(e, p.Target());
    AtLeastHalf(Times(e, p.Target() - e), Square(d));
  }

  lemma SquareIsNonNegative(x: real)
    ensures Square(x) >= 0.0
  {
    if x < 0.0 {
      Negated(x, x);
      NonNegative(-x, -x);
    } else {
      NonNegative(x, x);
    }
  }

  lemma AtMostTwice(x: real, y: real)
    requires x <= 2.0 && y >= 0.0
    ensures Times(x, y) <= 2.0 * y
  {
    Monotone(x, 2.0, y);
  }

  // One step down the second term is at most minus one half.
  lemma DriftOfOneStep(p: Inputs, a: real)
    requires p.Valid() && p.tau <= 2.0
    ensures Drift(p, a, Probe(p, a, 1)) <= -0.5
  {
    AtMostTwice(p.tau, p.tau);
    OneStep(p, a);
    AtMostHalf(-p.tau, Square(p.tau));
  }

  lemma OneStep(p: Inputs, a: real)
    ensures Probe(p, a, 1) - a == -p.tau
  {
  }

  // The other end that the search finds for a calculator's tau.
  function FirstEnd(p: Inputs, log: Fn): real {
    if p.Target() > 0.0 then log(p.Target()) else Probe(p, Start(p, log), 1)
  }

  /** For every tau that the calculator accepts, the search ends at its first step. */
  lemma FirstStepSucceeds(p: Inputs, exp: Fn, log: Fn)
    requires p.Valid() && AcceptsTau(p.tau) && ExpLog(exp, log)
    ensures OtherEnd(p, exp, log, FirstEnd(p, log))
  {
    if p.Target() <= 0.0 {
      var a := Start(p, log);
      PullIsBounded(p, exp(Probe(p, a, 1)));
      DriftOfOneStep(p, a);
      assert FirstProbe(p, exp, a, 1);
    }
  }

  ghost predicate Bracketed(p: Inputs, exp: Fn, a: real, b: Bracket)
    requires p.Valid() && forall x :: exp(x) > 0.0
  {
    Straddles(p, exp, a, b.left, b.right, b.fLeft, b.fRight)
  }

  lemma NarrowedKeeps(p: Inputs, exp: Fn, a: real, b: Bracket)
    requires p.Valid() && (forall x :: exp(x) > 0.0) && Bracketed(p, exp, a, b)
    ensures var next := Narrowed(p, exp, a, b);
            Bracketed(p, exp, a, next) && Within(next.left, b.left, b.right) && Within(next.right, b.left, b.right)
  {
    if b.left != b.right {
      RoundKeeps(p, exp, a, b.left, b.right, b.fLeft, b.fRight);
    }
  }

  // The denominator of the first term, halved and before squaring.
  function Scale(p: Inputs, e: real): real {
    p.phi * p.phi + p.variance + e
  }

  lemma PullIs(p: Inputs, e: real)
    requires p.Valid() && e > 0.0
    ensures Square(Scale(p, e)) > 0.0 && Square(Scale(p, e)) == Scale(p, e) * Scale(p, e)
    ensures Pull(p, e)
            == e * (p.delta * p.delta - p.phi * p.phi - p.variance - e) / (2.0 * Square(Scale(p, e)))
  {
    assert Square(p.phi) > 0.0;
    assert Scale(p, e) == Square(p.phi) + p.variance + e;
    assert p.Target() - e == p.delta * p.delta - p.phi * p.phi - p.variance - e;
  }

  lemma DriftIs(p: Inputs, a: real, x: real)
    requires p.Valid()
    ensures Square(p.tau) > 0.0 && Square(p.tau) == p.tau * p.tau && Drift(p, a, x) == (x - a) / Square(p.tau)
  {
  }

  /** The objective is the function of Step 5.1, and the search starts at the logarithm of the squared volatility. */
  lemma ObjectiveIs(p: Inputs, exp: Fn, log: Fn, x: real)
    requires p.Valid() && ExpLog(exp, log)
    ensures Square(Scale(p, exp(x))) > 0.0 && Square(p.tau) > 0.0
    ensures Objective(p, exp, Start(p, log), x)
            == exp(x) * (p.delta * p.delta - p.phi * p.phi - p.variance - exp(x)) / (2.0 * Square(Scale(p, exp(x))))
               - (x - Start(p, log)) / Square(p.tau)
    ensures exp(Start(p, log)) == Square(p.volatility)
  {
    PullIs(p, exp(x));
    DriftIs(p, Start(p, log), x);
    assert Square(p.volatility) > 0.0;
  }

  /**
    A round goes on from the point where the secant through the ends of the bracket meets the axis (RoundMeetsAxis).
    The other end is the last point if the sign changes between the two; otherwise it stays, and its
    value is halved.
  */
  lemma RoundIs(p: Inputs, exp: Fn, a: real, b: Bracket)
    requires p.Valid() && (forall x :: exp(x) > 0.0) && Bracketed(p, exp, a, b) && b.left != b.right
    ensures var next := Narrowed(p, exp, a, b);
            && next.fRight == Objective(p, exp, a, next.right)
            && (Opposite(next.fRight, b.fRight) ==> next.left == b.right && next.fLeft == b.fRight)
            && (!Opposite(next.fRight, b.fRight) ==> next.left == b.left && 2.0 * next.fLeft == b.fLeft)
  {
    RoundKeeps(p, exp, a, b.left, b.right, b.fLeft, b.fRight);
    SignOfProduct(Narrowed(p, exp, a, b).fRight, b.fRight);
  }

  lemma RoundMeetsAxis(p: Inputs, exp: Fn, a: real, b: Bracket)
    requires p.Valid() && (forall x :: exp(x) > 0.0) && b.left != b.right && b.fRight != b.fLeft
    ensures (Narrowed(p, exp, a, b).right - b.left) * (b.fRight - b.fLeft) == (b.left - b.right) * b.fLeft
  {
    assert Narrowed(p, exp, a, b).right == Middle(b.left, b.right, b.fLeft, b.fRight);
    SecantMeets(b.left, b.right, b.fLeft, b.fRight);
  }

  lemma SecantMeets(left: real, right: real, fLeft: real, fRight: real)
    requires fRight != fLeft
    ensures (Middle(left, right, fLeft, fRight) - left) * (fRight - fLeft) == (left - right) * fLeft
  {
  }

  lemma InitialKeeps(p: Inputs, exp: Fn, log: Fn, right: real)
    requires p.Valid() && ExpLog(exp, log) && OtherEnd(p, exp, log, right)
    ensures Bracketed(p, exp, Start(p, log), Initial(p, exp, log, right))
  {
    if p.Target() <= 0.0 {
      EndIsBelow(p, exp, log, right);
    }
    InitialBracket(p, exp, log, right);
  }

  /**
    After any number of rounds the objective has opposite signs at the ends of the bracket, and the
    bracket lies in the initial one; each round takes it into the one before.
  */
  lemma {:induction false} BracketInvariant(p: Inputs, exp: Fn, log: Fn, right: real, rounds: nat)
    requires p.Valid() && ExpLog(exp, log) && OtherEnd(p, exp, log, right)
    ensures var a := Start(p, log);
            var b := After(p, exp, a, Initial(p, exp, log, right), rounds);
            && Bracketed(p, exp, a, b) && Opposite(Objective(p, exp, a, b.left), Objective(p, exp, a, b.right))
            && Within(b.left, a, right) && Within(b.right, a, right)
            && (rounds > 0 ==>
                 var before := After(p, exp, a, Initial(p, exp, log, right), rounds - 1);
                 Within(b.left, before.left, before.right) && Within(b.right, before.left, before.right))
  {
    if rounds == 0 {
      InitialKeeps(p, exp, log, right);
    } else {
      BracketInvariant(p, exp, log, right, rounds - 1);
      NarrowedKeeps(p, exp, Start(p, log), After(p, exp, Start(p, log), Initial(p, exp, log, right), rounds - 1));
    }
  }

  lemma EndIsBelow(p: Inputs, exp: Fn, log: Fn, right: real)
    requires p.Valid() && ExpLog(exp, log) && OtherEnd(p, exp, log, right) && p.Target() <= 0.0
    ensures right < Start(p, log) && Objective(p, exp, Start(p, log), right) >= 0.0
  {
  }

  // The bracket is short enough after the given number of rounds and not before.
  ghost predicate Converges(p: Inputs, exp: Fn, a: real, b: Bracket, rounds: nat)
    requires p.Valid() && forall x :: exp(x) > 0.0
  {
    && rounds <= MAX_ITERATIONS && !After(p, exp, a, b, rounds).Wide()
    && WideUntil(p, exp, a, b, rounds)
  }

  ghost predicate WideUntil(p: Inputs, exp: Fn, a: real, b: Bracket, rounds: nat)
    requires p.Valid() && forall x :: exp(x) > 0.0
  {
    forall n :: 0 <= n < rounds ==> After(p, exp, a, b, n).Wide()
  }

  lemma OnlyConvergenceCounts(p: Inputs, exp: Fn, log: Fn)
    requires p.Valid() && AcceptsTau(p.tau) && ExpLog(exp, log)
    ensures (exists x, n: nat ::
               OtherEnd(p, exp, log, x) && Converges(p, exp, Start(p, log), Initial(p, exp, log, x), n)) <==>
            (exists n: nat :: Converges(p, exp, Start(p, log), Initial(p, exp, log, FirstEnd(p, log)), n))
  {
    FirstStepSucceeds(p, exp, log);
    forall x | OtherEnd(p, exp, log, x) ensures x == FirstEnd(p, log) {
      OtherEndIsUnique(p, exp, log, x, FirstEnd(p, log));
    }
  }

  /**
    Step 5 succeeds iff the search finds the other end of the bracket and the iteration converges
    within its limit: the guard against dividing by zero never fires.  For every tau that the
    calculator accepts the search always succeeds, so only the convergence counts.  The volatility
    is read off the left end of the last bracket.
  */
  method UpdateVolatility(p: Inputs, exp: Fn, log: Fn)
    returns (r: Result<real, GlickoError>, ghost right: real, ghost rounds: nat)
    requires p.Valid() && ExpLog(exp, log)
    ensures r.Ok? <==>
              exists x, n: nat ::
                OtherEnd(p, exp, log, x) && Converges(p, exp, Start(p, log), Initial(p, exp, log, x), n)
    ensures r.Ok? ==>
              OtherEnd(p, exp, log, right)
              && Converges(p, exp, Start(p, log), Initial(p, exp, log, right), rounds)
    ensures r.Ok? ==> r.value == exp(After(p, exp, Start(p, log), Initial(p, exp, log, right), rounds).left / 2.0)
    ensures AcceptsTau(p.tau) ==>
              (r.Ok? <==> exists n: nat :: Converges(p, exp, Start(p, log), Initial(p, exp, log, FirstEnd(p, log)), n))
  {
    if AcceptsTau(p.tau) {
      OnlyConvergenceCounts(p, exp, log);
    }
    var found, bracket := FindBracket(p, exp, log);
    if !found {
      return Err(InvalidInput), 0.0, 0;
    }
    right := bracket;
    ghost var narrow;
    r, narrow, rounds := Iterate(p, exp, log, bracket);
    if r.Err? {
      NoConvergence(p, exp, log, bracket);
    }
  }

  // The loop over the rounds.
  method Iterate(p: Inputs, exp: Fn, log: Fn, right: real)
    returns (r: Result<real, GlickoError>, ghost narrow: Bracket, ghost rounds: nat)
    requires p.Valid() && ExpLog(exp, log) && OtherEnd(p, exp, log, right)
    ensures r.Ok? ==> Converges(p, exp, Start(p, log), Initial(p, exp, log, right), rounds)
    ensures r.Ok? ==>
              narrow == After(p, exp, Start(p, log), Initial(p, exp, log, right), rounds)
              && r.value == exp(narrow.left / 2.0)
    ensures r.Err? ==> WideUntil(p, exp, Start(p, log), Initial(p, exp, log, right), MAX_ITERATIONS + 1)
  {
    var a := Start(p, log);
    var l, u := a, right;
    var fLeft, fRight := Objective(p, exp, a, l), Objective(p, exp, a, u);
    ghost var first := Initial(p, exp, log, right);
    var iteration := 0;
    while Abs(u - l) > CONVERGENCE_TOLERANCE
      invariant 0 <= iteration <= MAX_ITERATIONS
      invariant Bracket(l, u, fLeft, fRight) == After(p, exp, a, first, iteration)
      invariant WideUntil(p, exp, a, first, iteration)
      decreases MAX_ITERATIONS - iteration
    {
      NeverEqual(p, exp, log, right, iteration);
      WideOneMore(p, exp, a, first, iteration);
      if iteration >= MAX_ITERATIONS || fRight == fLeft {
        return Err(InvalidInput), Bracket(l, u, fLeft, fRight), iteration;
      }
      l, u, fLeft, fRight := Round(p, exp, a, l, u, fLeft, fRight, first, iteration);
      iteration := iteration + 1;
    }
    return Ok(exp(l / 2.0)), Bracket(l, u, fLeft, fRight), iteration;
  }

  lemma NoConvergence(p: Inputs, exp: Fn, log: Fn, right: real)
    requires p.Valid() && ExpLog(exp, log) && OtherEnd(p, exp, log, right)
    requires WideUntil(p, exp, Start(p, log), Initial(p, exp, log, right), MAX_ITERATIONS + 1)
    ensures forall x, n: nat :: !(OtherEnd(p, exp, log, x)
                                  && Converges(p, exp, Start(p, log), Initial(p, exp, log, x), n))
  {
    forall x, n: nat | OtherEnd(p, exp, log, x) && Converges(p, exp, Start(p, log), Initial(p, exp, log, x), n)
      ensures false
    {
      OtherEndIsUnique(p, exp, log, x, right);
    }
  }

  lemma WideOneMore(p: Inputs, exp: Fn, a: real, b: Bracket, rounds: nat)
    requires p.Valid() && (forall x :: exp(x) > 0.0) && WideUntil(p, exp, a, b, rounds)
             && After(p, exp, a, b, rounds).Wide()
    ensures WideUntil(p, exp, a, b, rounds + 1)
  {
  }

  method Round(p: Inputs, exp: Fn, a: real, left: real, right: real, fLeft: real, fRight: real, ghost first: Bracket,
               ghost rounds: nat)
    returns (left': real, right': real, fLeft': real, fRight': real)
    requires p.Valid() && (forall x :: exp(x) > 0.0) && left != right && fRight != fLeft
    requires Bracket(left, right, fLeft, fRight) == After(p, exp, a, first, rounds)
    ensures Bracket(left', right', fLeft', fRight') == After(p, exp, a, first, rounds + 1)
  {
    var middle := Middle(left, right, fLeft, fRight);
    var fMiddle := Objective(p, exp, a, middle);
    if fMiddle * fRight <= 0.0 {
      left', fLeft' := right, fRight;
    } else {
      left', fLeft' := left, fLeft / 2.0;
    }
    right', fRight' := middle, fMiddle;
  }

  // A wide bracket has different values at its ends.
  lemma NeverEqual(p: Inputs, exp: Fn, log: Fn, right: real, rounds: nat)
    requires p.Valid() && ExpLog(exp, log) && OtherEnd(p, exp, log, right)
    ensures var b := After(p, exp, Start(p, log), Initial(p, exp, log, right), rounds);
            b.Wide() ==> b.left != b.right && b.fLeft != b.fRight
  {
    BracketInvariant(p, exp, log, right, rounds);
  }

  method FindBracket(p: Inputs, exp: Fn, log: Fn) returns (found: bool, right: real)
    requires p.Valid() && ExpLog(exp, log)
    ensures found <==> exists x :: OtherEnd(p, exp, log, x)
    ensures found ==> OtherEnd(p, exp, log, right)
    ensures AcceptsTau(p.tau) ==> found && right == FirstEnd(p, log)
  {
    if AcceptsTau(p.tau) {
      FirstStepSucceeds(p, exp, log);
    }
    var a := Start(p, log);
    if Square(p.delta) > Square(p.phi) + p.variance {
      right := log(Square(p.delta) - Square(p.phi) - p.variance);
      assert OtherEnd(p, exp, log, right);
      return true, right;
    }
    for k := 1 to MAX_ITERATIONS + 1
      invariant forall j :: 1 <= j < k ==> Objective(p, exp, a, Probe(p, a, j)) < 0.0
    {
      right := Probe(p, a, k);
      if Objective(p, exp, a, right) >= 0.0 {
        assert FirstProbe(p, exp, a, k);
        assert OtherEnd(p, exp, log, right);
        return true, right;
      }
    }
    return false, a;
  }
}
