/** The round-trip estimator and the election timeout of src/adaptive_timeout.c, over real numbers. */
module AdaptiveTimeout {

  datatype Config = Config(alpha: real, beta: real, safetyFactor: real, minTimeout: nat, maxTimeout: nat,
                           initialTimeout: nat) {
    /** What the bounds of the estimator ask of the weights. */
    predicate Weighted() {
      0.0 <= alpha <= 1.0 && 0.0 <= beta <= 1.0
    }

    /** What the bounds of the timeout ask; initialization checks neither. */
    predicate Bounded() {
      minTimeout <= initialTimeout <= maxTimeout
    }
  }

  const DEFAULT: Config := Config(0.125, 0.25, 1.5, 150, 300, 200)

  function Abs(x: real): real {
    if x < 0.0 then -x else x
  }

  function Last(s: seq<real>): real
    requires s != []
  {
    s[|s| - 1]
  }

  function Init(s: seq<real>): seq<real>
    requires s != []
  {
    s[..|s| - 1]
  }

  lemma Split(s: seq<real>)
    requires s != []
    ensures |Init(s)| < |s| && s == Init(s) + [Last(s)] && Last(s) in s && forall r | r in Init(s) :: r in s
    ensures forall r | r in s :: r in Init(s) || r == Last(s)
  {
    assert s == Init(s) + [Last(s)];
  }

  // ----- The recurrences of rule 2.3 in section 2 of RFC 6298, over the samples so far -----

  /** (1 - w) x + w y, as the source writes it. */
  function Blend(w: real, x: real, y: real): (r: real)
    ensures r == (1.0 - w) * x + w * y
  {
    x + w * (y - x)
  }

  function Estimate(c: Config, s: seq<real>): real {
    if s == [] then c.initialTimeout as real
    else Blend(c.alpha, Estimate(c, Init(s)), Last(s))
  }

  /** The deviation uses the estimate from before the sample. */
  function Deviation(c: Config, s: seq<real>): real {
    if s == [] then 0.0
    else Blend(c.beta, Deviation(c, Init(s)), Abs(Last(s) - Estimate(c, Init(s))))
  }

  lemma NoSamples(c: Config)
    ensures Estimate(c, []) == c.initialTimeout as real && Deviation(c, []) == 0.0
  {
  }

  lemma OneMore(c: Config, s: seq<real>)
    requires s != []
    ensures Estimate(c, s) == Blend(c.alpha, Estimate(c, Init(s)), Last(s))
    ensures Deviation(c, s) == Blend(c.beta, Deviation(c, Init(s)), Abs(Last(s) - Estimate(c, Init(s))))
  {
    hide Abs, Blend, Init, Last;
  }

  function Sum(s: seq<real>): real {
    if s == [] then 0.0 else Sum(Init(s)) + Last(s)
  }

  predicate Within(s: seq<real>, lo: real, hi: real) {
    forall r | r in s :: lo <= r <= hi
  }

  lemma Product(x: real, y: real)
    requires x >= 0.0 && y >= 0.0
    ensures x * y >= 0.0
    ensures x > 0.0 && y > 0.0 ==> x * y > 0.0
  {
  }

  lemma Between(w: real, x: real, y: real, lo: real, hi: real)
    requires 0.0 <= w <= 1.0 && lo <= x <= hi && lo <= y <= hi
    ensures lo <= Blend(w, x, y) <= hi
  {
    Product(1.0 - w, x - lo);
    Product(w, y - lo);
    Product(1.0 - w, hi - x);
    Product(w, hi - y);
    assert Blend(w, x, y) - lo == (1.0 - w) * (x - lo) + w * (y - lo);
    assert hi - Blend(w, x, y) == (1.0 - w) * (hi - x) + w * (hi - y);
  }

  /** The estimate never leaves the hull of the initial value and the samples, and the deviation is at least 0 and
      at most the hull's width. */
  lemma {:induction false} EstimateInHull(c: Config, s: seq<real>, lo: real, hi: real)
    requires c.Weighted() && lo <= c.initialTimeout as real <= hi && Within(s, lo, hi)
    ensures lo <= Estimate(c, s) <= hi && 0.0 <= Deviation(c, s) <= hi - lo
    decreases |s|
  {
    hide Estimate, Deviation, Init, Last, Blend;
    if s == [] {
      NoSamples(c);
    } else {
      Split(s);
      EstimateInHull(c, Init(s), lo, hi);
      OneMore(c, s);
      Between(c.alpha, Estimate(c, Init(s)), Last(s), lo, hi);
      Between(c.beta, Deviation(c, Init(s)), Abs(Last(s) - Estimate(c, Init(s))), 0.0, hi - lo);
    }
  }

  /** The sum of samples within bounds, so that their mean is too. */
  lemma {:induction false} SumWithin(s: seq<real>, lo: real, hi: real)
    requires Within(s, lo, hi)
    ensures |s| as real * lo <= Sum(s) <= |s| as real * hi
    decreases |s|
  {
    hide Sum, Init, Last;
    SumUnfold(s);
    if s != [] {
      Split(s);
      SumWithin(Init(s), lo, hi);
      OneMoreTerm(|Init(s)|, Sum(Init(s)), Last(s), lo, hi);
    }
  }

  lemma SumUnfold(s: seq<real>)
    ensures s == [] ==> Sum(s) == 0.0
    ensures s != [] ==> |s| == |Init(s)| + 1 && Sum(s) == Sum(Init(s)) + Last(s)
  {
  }

  lemma OneMoreTerm(n: nat, sum: real, x: real, lo: real, hi: real)
    requires n as real * lo <= sum <= n as real * hi && lo <= x <= hi
    ensures (n + 1) as real * lo <= sum + x <= (n + 1) as real * hi
  {
    TimesNext(n as real, lo);
    TimesNext(n as real, hi);
    assert (n + 1) as real == n as real + 1.0;
  }

  lemma TimesNext(n: real, x: real)
    ensures (n + 1.0) * x == n * x + x
  {
  }

  function Power(x: real, n: nat): real {
    if n == 0 then 1.0 else x * Power(x, n - 1)
  }

  function Constant(r: real, n: nat): (s: seq<real>)
    ensures |s| == n
  {
    seq(n, _ => r)
  }

  lemma ConstantStep(r: real, n: nat)
    requires n > 0
    ensures Last(Constant(r, n)) == r && Init(Constant(r, n)) == Constant(r, n - 1)
  {
  }

  lemma PowerUnfold(x: real, n: nat)
    ensures n == 0 ==> Power(x, n) == 1.0
    ensures n > 0 ==> Power(x, n) == x * Power(x, n - 1)
  {
  }

  lemma AbsTimes(x: real, y: real, xy: real)
    requires xy == x * y
    ensures Abs(xy) == Abs(x) * Abs(y)
  {
  }

  lemma AbsNegated(x: real, y: real)
    requires x == -y
    ensures Abs(x) == Abs(y)
  {
  }

  /** With a constant round trip the error is multiplied by 1 - alpha a sample. */
  lemma {:induction false} ConstantError(c: Config, r: real, n: nat)
    ensures var e, x := c.initialTimeout as real - r, Estimate(c, Constant(r, n));
      x - r == Power(1.0 - c.alpha, n) * e && Abs(r - x) == Power(Abs(1.0 - c.alpha), n) * Abs(e)
  {
    hide Estimate, Deviation, Abs, Constant, Blend, Power;
    var a, e := 1.0 - c.alpha, c.initialTimeout as real - r;
    PowerUnfold(a, n);
    PowerUnfold(Abs(a), n);
    if n == 0 {
      NoSamples(c);
      assert Constant(r, 0) == [];
      AbsNegated(e, r - c.initialTimeout as real);
    } else {
      ConstantError(c, r, n - 1);
      ConstantStep(r, n);
      OneMore(c, Constant(r, n));
      var x := Estimate(c, Constant(r, n - 1));
      ErrorStep(c.alpha, x, r, Power(a, n - 1), Power(a, n), e);
      var next := Blend(c.alpha, x, r);
      ErrorSign(c.alpha, x, r);
      AbsTimes(a, r - x, r - next);
      Associate(Power(Abs(a), n), Abs(a), Power(Abs(a), n - 1), Abs(e), Abs(r - x));
    }
  }

  lemma ErrorStep(alpha: real, x: real, r: real, p: real, pn: real, e: real)
    requires x - r == p * e && pn == (1.0 - alpha) * p
    ensures Blend(alpha, x, r) - r == pn * e
  {
    assert Blend(alpha, x, r) - r == (1.0 - alpha) * (x - r);
  }

  lemma ErrorSign(alpha: real, x: real, r: real)
    ensures r - Blend(alpha, x, r) == (1.0 - alpha) * (r - x)
  {
  }

  lemma Associate(xy: real, x: real, y: real, z: real, yz: real)
    requires xy == x * y && yz == y * z
    ensures xy * z == x * yz
  {
  }

  /** One sample more of a deviation, with what the sample before left of the error. */
  lemma DeviationNext(c: Config, r: real, n: nat)
    requires n > 0
    ensures var x := c.beta * Abs(c.initialTimeout as real - r);
      Deviation(c, Constant(r, n)) ==
      (1.0 - c.beta) * Deviation(c, Constant(r, n - 1)) + x * Power(Abs(1.0 - c.alpha), n - 1)
  {
    hide Estimate, Deviation, Abs, Constant, Power;
    ConstantStep(r, n);
    OneMore(c, Constant(r, n));
    ConstantError(c, r, n - 1);
    var p, e := Power(Abs(1.0 - c.alpha), n - 1), Abs(c.initialTimeout as real - r);
    assert c.beta * (p * e) == c.beta * e * p;
  }

  /** And the deviation is a difference of two geometric sequences, for all weights. */
  lemma {:induction false} ConstantRtt(c: Config, r: real, n: nat)
    ensures var rho, sigma, x := Abs(1.0 - c.alpha), 1.0 - c.beta, c.beta * Abs(c.initialTimeout as real - r);
      (rho - sigma) * Deviation(c, Constant(r, n)) == x * (Power(rho, n) - Power(sigma, n))
  {
    hide Estimate, Deviation, Abs, Constant, Blend, Power;
    var rho, sigma, x := Abs(1.0 - c.alpha), 1.0 - c.beta, c.beta * Abs(c.initialTimeout as real - r);
    PowerUnfold(rho, n);
    PowerUnfold(sigma, n);
    if n == 0 {
      NoSamples(c);
      assert Constant(r, 0) == [];
    } else {
      ConstantRtt(c, r, n - 1);
      DeviationNext(c, r, n);
      GeometricStep(rho, sigma, Deviation(c, Constant(r, n - 1)), x, Power(rho, n - 1), Power(sigma, n - 1));
    }
  }

  lemma GeometricStep(rho: real, sigma: real, d: real, x: real, p: real, q: real)
    requires (rho - sigma) * d == x * (p - q)
    ensures (rho - sigma) * (sigma * d + x * p) == x * (rho * p - sigma * q)
  {
    var a := x * p;
    assert (rho - sigma) * (sigma * d) == sigma * ((rho - sigma) * d);
    assert sigma * (x * (p - q)) == sigma * a - x * (sigma * q);
    assert (rho - sigma) * a == rho * a - sigma * a;
    assert x * (rho * p) == rho * a;
  }

  /** With equal ratios, as with equal weights up to 1, that leaves the deviation open: it is then n times a
      geometric sequence. */
  lemma {:induction false} EqualWeightsRtt(c: Config, r: real, n: nat)
    requires n > 0 && Abs(1.0 - c.alpha) == 1.0 - c.beta
    ensures Deviation(c, Constant(r, n)) ==
            n as real * (c.beta * Abs(c.initialTimeout as real - r) * Power(1.0 - c.beta, n - 1))
  {
    hide Estimate, Deviation, Abs, Constant, Blend, Power;
    var rho, x := 1.0 - c.beta, c.beta * Abs(c.initialTimeout as real - r);
    DeviationNext(c, r, n);
    PowerUnfold(rho, n - 1);
    if n == 1 {
      NoSamples(c);
      assert Constant(r, 0) == [];
    } else {
      EqualWeightsRtt(c, r, n - 1);
      EqualStep(rho, (n - 1) as real, x, Power(rho, n - 2));
      TimesNext((n - 1) as real, x * Power(rho, n - 1));
      assert n as real == (n - 1) as real + 1.0;
    }
  }

  lemma EqualStep(rho: real, n: real, x: real, p: real)
    ensures rho * (n * (x * p)) == n * (x * (rho * p))
  {
    assert x * (rho * p) == rho * (x * p);
  }

  /** The default weights: error (7/8)^n e and deviation 2 |e| ((7/8)^n - (3/4)^n). */
  lemma DefaultConstantRtt(r: real, n: nat)
    ensures var e := 200.0 - r; var s := Constant(r, n);
      && Estimate(DEFAULT, s) - r == Power(0.875, n) * e
      && Deviation(DEFAULT, s) == 2.0 * Abs(e) * (Power(0.875, n) - Power(0.75, n))
  {
    hide Estimate, Deviation, Abs, Constant, Power;
    ConstantError(DEFAULT, r, n);
    ConstantRtt(DEFAULT, r, n);
    assert Abs(0.875) == 0.875 by { AbsPositive(0.875); }
    var e, x := Abs(200.0 - r), Power(0.875, n) - Power(0.75, n);
    assert 0.25 * e * x == 0.125 * (2.0 * e * x);
  }

  lemma AbsPositive(x: real)
    requires x >= 0.0
    ensures Abs(x) == x
  {
  }

  // ----- The least sample, with 0 standing for none -----

  function MinRtt(s: seq<real>): real {
    if s == [] then 0.0
    else
      var m := MinRtt(Init(s));
      if m == 0.0 || Last(s) < m then Last(s) else m
  }

  function MaxRtt(s: seq<real>): real {
    if s == [] then 0.0 else if Last(s) > MaxRtt(Init(s)) then Last(s) else MaxRtt(Init(s))
  }

  predicate Least(s: seq<real>, m: real) {
    m in s && forall r | r in s :: m <= r
  }

  predicate NonNegative(s: seq<real>) {
    forall r | r in s :: r >= 0.0
  }

  /** The field is one of the samples, and 0 exactly when the last one is. */
  lemma {:induction false} MinRttIsSample(s: seq<real>)
    requires s != [] && NonNegative(s)
    ensures MinRtt(s) in s && (MinRtt(s) == 0.0 <==> Last(s) == 0.0)
    ensures 0.0 !in s ==> Least(s, MinRtt(s))
    decreases |s|
  {
    Split(s);
    if |s| > 1 {
      MinRttIsSample(Init(s));
    }
  }

  /** The statistic is the least sample exactly when no sample was 0 or the last one is: a 0 is taken for "none
      yet" and forgotten. */
  lemma MinRttExact(s: seq<real>)
    requires s != [] && NonNegative(s)
    ensures Least(s, MinRtt(s)) <==> 0.0 !in s || Last(s) == 0.0
  {
    MinRttIsSample(s);
    Split(s);
  }

  lemma {:induction false} MaxRttIsGreatest(s: seq<real>)
    requires s != [] && NonNegative(s)
    ensures MaxRtt(s) in s && forall r | r in s :: r <= MaxRtt(s)
    decreases |s|
  {
    Split(s);
    if |s| > 1 {
      MaxRttIsGreatest(Init(s));
    } else {
      assert MaxRtt(Init(s)) == 0.0;
    }
  }

  // ----- The timeout -----

  /** A missed heartbeat: half as much again, rounded down, at most the maximum. */
  function Missed(current: nat, maximum: nat): nat {
    var grown := (current as real * 1.5).Floor;
    if grown > maximum then maximum else grown
  }

  function Misses(current: nat, maximum: nat, k: nat): nat {
    if k == 0 then current else Missed(Misses(current, maximum, k - 1), maximum)
  }

  lemma Grown(c: nat)
    ensures (c as real * 1.5).Floor == c + c / 2
  {
    assert c as real == 2.0 * ((c / 2) as real) + (c % 2) as real;
  }

  lemma {:induction false} MissesBounds(minimum: nat, current: nat, maximum: nat, k: nat)
    requires minimum <= current <= maximum
    ensures minimum <= Misses(current, maximum, k) <= maximum
  {
    if k > 0 {
      MissesBounds(minimum, current, maximum, k - 1);
      Grown(Misses(current, maximum, k - 1));
    }
  }

  /** From a minimum of at least 2, k misses in a row raise the timeout by a third each, up to the maximum. */
  lemma {:induction false} MissesGrow(minimum: nat, current: nat, maximum: nat, k: nat)
    requires 2 <= minimum <= current <= maximum
    ensures Misses(current, maximum, k) == maximum
         || Misses(current, maximum, k) as real >= Power(4.0 / 3.0, k) * (minimum as real)
  {
    hide Power, Misses, Missed;
    if k == 0 {
      PowerUnfold(4.0 / 3.0, 0);
      MissesUnfold(current, maximum, 0);
    } else {
      MissesGrow(minimum, current, maximum, k - 1);
      MissesBounds(minimum, current, maximum, k - 1);
      MissesUnfold(current, maximum, k);
      var c := Misses(current, maximum, k - 1);
      OneMiss(c, maximum);
      PowerUnfold(4.0 / 3.0, k);
      if c != maximum {
        var p, pn := Power(4.0 / 3.0, k - 1), Power(4.0 / 3.0, k);
        ThirdMore(c as real, Missed(c, maximum) as real, p, pn, minimum as real);
      }
    }
  }

  lemma MissesUnfold(current: nat, maximum: nat, k: nat)
    ensures k == 0 ==> Misses(current, maximum, k) == current
    ensures k > 0 ==> Misses(current, maximum, k) == Missed(Misses(current, maximum, k - 1), maximum)
  {
    hide Missed;
  }

  lemma OneMiss(c: nat, maximum: nat)
    requires 2 <= c <= maximum
    ensures c == maximum ==> Missed(c, maximum) == maximum
    ensures Missed(c, maximum) == maximum || Missed(c, maximum) as real >= 4.0 / 3.0 * (c as real)
  {
    Grown(c);
    GrowsByThird(c);
  }

  lemma ThirdMore(c: real, next: real, p: real, pn: real, m: real)
    requires c >= p * m && pn == 4.0 / 3.0 * p
    ensures next >= 4.0 / 3.0 * c ==> next >= pn * m
  {
    assert pn * m == 4.0 / 3.0 * (p * m);
  }

  lemma GrowsByThird(c: nat)
    requires c >= 2
    ensures (c + c / 2) as real >= 4.0 / 3.0 * (c as real)
  {
    assert 3 * (c + c / 2) >= 4 * c;
    assert 3.0 * ((c + c / 2) as real) >= 4.0 * (c as real);
  }

  lemma {:induction false} MissesStep(minimum: nat, maximum: nat, k: nat)
    requires 2 <= minimum <= maximum
    ensures Misses(minimum, maximum, k) == maximum || Misses(minimum, maximum, k) >= minimum + k
  {
    if k > 0 {
      MissesStep(minimum, maximum, k - 1);
      MissesBounds(minimum, minimum, maximum, k - 1);
      Grown(Misses(minimum, maximum, k - 1));
    }
  }

  lemma {:induction false} MissesStuck(minimum: nat, maximum: nat, k: nat)
    requires minimum <= 1 && minimum <= maximum
    ensures Misses(minimum, maximum, k) == minimum
  {
    if k > 0 {
      MissesStuck(minimum, maximum, k - 1);
      Grown(minimum);
    }
  }

  /** After a heartbeat, misses alone bring the timeout to its maximum, within maximum - minimum of them, exactly
      when the minimum is at least 2 or is the maximum: 0 and 1 never grow. */
  lemma ReachesMaximumExactly(minimum: nat, maximum: nat)
    requires minimum <= maximum
    ensures (exists k :: Misses(minimum, maximum, k) == maximum) <==> minimum >= 2 || minimum == maximum
    ensures minimum >= 2 ==> Misses(minimum, maximum, maximum - minimum) == maximum
  {
    if minimum >= 2 {
      MissesStep(minimum, maximum, maximum - minimum);
      MissesBounds(minimum, minimum, maximum, maximum - minimum);
    } else if minimum == maximum {
      assert Misses(minimum, maximum, 0) == maximum;
    } else {
      forall k ensures Misses(minimum, maximum, k) != maximum {
        MissesStuck(minimum, maximum, k);
      }
    }
  }

  function Clamp(c: Config, t: int): int {
    var low := if t < c.minTimeout then c.minTimeout else t;
    if low > c.maxTimeout then c.maxTimeout else low
  }

  /** The estimate plus the safety factor times the deviation, as an integer. */
  function Target(c: Config, estimate: real, deviation: real): int {
    (estimate + c.safetyFactor * deviation).Floor
  }

  /** t is the estimate and its margin rounded down and kept between the bounds; if those are the wrong way round it is
      the maximum. */
  ghost predicate Rounded(c: Config, estimate: real, deviation: real, t: int) {
    var sum := estimate + c.safetyFactor * deviation;
    if sum >= c.maxTimeout as real || c.minTimeout > c.maxTimeout then t == c.maxTimeout
    else if sum < c.minTimeout as real then t == c.minTimeout
    else t as real <= sum < t as real + 1.0
  }

  lemma TargetRounded(c: Config, estimate: real, deviation: real)
    ensures Rounded(c, estimate, deviation, Clamp(c, Target(c, estimate, deviation)))
  {
  }

  /** Between proper bounds the timeout is at the maximum exactly when the sum reaches it, and at the minimum exactly
      when the sum stays below the next integer. */
  lemma RoundedBounds(c: Config, estimate: real, deviation: real, t: int)
    requires Rounded(c, estimate, deviation, t) && c.minTimeout < c.maxTimeout
    ensures t == c.maxTimeout <==> estimate + c.safetyFactor * deviation >= c.maxTimeout as real
    ensures t == c.minTimeout <==> estimate + c.safetyFactor * deviation < c.minTimeout as real + 1.0
  {
  }

  lemma {:induction false} DeviationNonNegative(c: Config, s: seq<real>)
    requires 0.0 <= c.beta <= 1.0
    ensures Deviation(c, s) >= 0.0
    decreases |s|
  {
    hide Estimate, Deviation, Blend, Last;
    if s == [] {
      NoSamples(c);
    } else {
      DeviationNonNegative(c, Init(s));
      OneMore(c, s);
      var e := Abs(Last(s) - Estimate(c, Init(s)));
      var top := if e > Deviation(c, Init(s)) then e else Deviation(c, Init(s));
      Between(c.beta, Deviation(c, Init(s)), e, 0.0, top);
    }
  }

  /** A margin that is not negative never takes the timeout below the estimate rounded down, except at the maximum. */
  lemma NotBelowEstimate(c: Config, estimate: real, deviation: real, t: int)
    requires c.safetyFactor >= 0.0 && deviation >= 0.0 && Rounded(c, estimate, deviation, t)
    ensures t == c.maxTimeout || t as real + 1.0 > estimate
  {
    Product(c.safetyFactor, deviation);
  }

  /** The default configuration with a constant round trip: r + (7/8)^n e + 3 |e| ((7/8)^n - (3/4)^n), rounded down,
      between 150 and 300. */
  lemma DefaultTimeout(r: real, n: nat)
    ensures var s, e, p, q := Constant(r, n), 200.0 - r, Power(0.875, n), Power(0.75, n);
      var sum := r + p * e + 3.0 * Abs(e) * (p - q);
      var t := Clamp(DEFAULT, Target(DEFAULT, Estimate(DEFAULT, s), Deviation(DEFAULT, s)));
      if sum < 150.0 then t == 150 else if sum >= 300.0 then t == 300 else t as real <= sum < t as real + 1.0
  {
    hide Estimate, Deviation, Abs, Constant, Power, Target, Clamp;
    var s, e, p, q := Constant(r, n), 200.0 - r, Power(0.875, n), Power(0.75, n);
    DefaultConstantRtt(r, n);
    TargetRounded(DEFAULT, Estimate(DEFAULT, s), Deviation(DEFAULT, s));
    var d := Deviation(DEFAULT, s);
    assert DEFAULT.safetyFactor * d == 1.5 * d == 3.0 * Abs(e) * (p - q);
    assert Estimate(DEFAULT, s) + DEFAULT.safetyFactor * d == r + p * e + 3.0 * Abs(e) * (p - q);
  }

  /** A first sample of 100 ms gives a timeout of 225 ms. */
  lemma FirstSample()
    ensures Clamp(DEFAULT, Target(DEFAULT, Estimate(DEFAULT, [100.0]), Deviation(DEFAULT, [100.0]))) == 225
  {
    NextSample(DEFAULT, [], 100.0);
    assert [] + [100.0] == [100.0];
  }

  /** One sample more, in the form the update computes. */
  lemma NextSample(c: Config, s: seq<real>, rtt: real)
    ensures var t := s + [rtt]; var e, d, m := Estimate(c, s), Deviation(c, s), MinRtt(s);
      && Estimate(c, t) == Blend(c.alpha, e, rtt)
      && Deviation(c, t) == Blend(c.beta, d, Abs(rtt - e))
      && Sum(t) == Sum(s) + rtt
      && MinRtt(t) == (if m == 0.0 || rtt < m then rtt else m)
      && MaxRtt(t) == (if rtt > MaxRtt(s) then rtt else MaxRtt(s))
  {
    var t := s + [rtt];
    assert Init(t) == s && Last(t) == rtt;
    hide Estimate, Deviation, Blend, Abs;
    OneMore(c, t);
  }

  /** The running mean after sample n. */
  function Mean(mean: real, n: nat, rtt: real): (r: real)
    requires n > 0
    ensures r * n as real == mean * (n - 1) as real + rtt
  {
    (mean * (n - 1) as real + rtt) / n as real
  }

  class Timeout {
    const config: Config
    var estimatedRtt: real
    var rttDev: real
    var currentTimeout: nat
    var totalRpcs: nat
    var missedHeartbeats: nat
    var minRtt: real
    var maxRtt: real
    var avgRtt: real
    ghost var samples: seq<real>

    /** What holds after any sequence of calls: the timeout is within its bounds if it starts there, and the
        estimator is that of the samples since the last reset. */
    ghost predicate Valid()
      reads this
    {
      && (config.Bounded() ==> config.minTimeout <= currentTimeout <= config.maxTimeout)
      && NonNegative(samples) && totalRpcs == |samples|
      && estimatedRtt == Estimate(config, samples) && rttDev == Deviation(config, samples)
      && avgRtt * (totalRpcs as real) == Sum(samples)
      && minRtt == MinRtt(samples) && maxRtt == MaxRtt(samples)
    }

    constructor (c: Config)
      ensures Valid() && config == c && samples == [] && currentTimeout == c.initialTimeout && missedHeartbeats == 0
    {
      config := c;
      estimatedRtt, rttDev, currentTimeout := c.initialTimeout as real, 0.0, c.initialTimeout;
      totalRpcs, missedHeartbeats, minRtt, maxRtt, avgRtt := 0, 0, 0.0, 0.0, 0.0;
      samples := [];
    }

    method Reset()
      requires Valid()
      modifies this
      ensures Valid() && samples == [] && currentTimeout == config.initialTimeout && missedHeartbeats == 0
    {
      estimatedRtt, rttDev, currentTimeout := config.initialTimeout as real, 0.0, config.initialTimeout;
      totalRpcs, missedHeartbeats, minRtt, maxRtt, avgRtt := 0, 0, 0.0, 0.0, 0.0;
      samples := [];
    }

    /** The sample is the time since the call began, on a monotonic clock. */
    method RpcEnd(rtt: real)
      requires Valid() && rtt >= 0.0
      modifies this
      ensures Valid() && samples == old(samples) + [rtt] && missedHeartbeats == old(missedHeartbeats)
      ensures Rounded(config, Estimate(config, samples), Deviation(config, samples), currentTimeout)
      ensures config.Weighted() && config.safetyFactor >= 0.0 ==>
        currentTimeout == config.maxTimeout || currentTimeout as real + 1.0 > Estimate(config, samples)
    {
      hide Estimate, Deviation, Sum, MinRtt, MaxRtt, Abs, Blend, Mean, Target, Rounded;
      NextSample(config, samples, rtt);
      samples := samples + [rtt];
      totalRpcs := totalRpcs + 1;
      if minRtt == 0.0 || rtt < minRtt { minRtt := rtt; }
      if rtt > maxRtt { maxRtt := rtt; }
      avgRtt := Mean(avgRtt, totalRpcs, rtt);
      var err := rtt - estimatedRtt;
      rttDev := Blend(config.beta, rttDev, Abs(err));
      estimatedRtt := Blend(config.alpha, estimatedRtt, rtt);
      var newTimeout := Target(config, estimatedRtt, rttDev);
      if newTimeout < config.minTimeout { newTimeout := config.minTimeout; }
      if newTimeout > config.maxTimeout { newTimeout := config.maxTimeout; }
      currentTimeout := newTimeout;
      TargetRounded(config, estimatedRtt, rttDev);
      if config.Weighted() && config.safetyFactor >= 0.0 {
        DeviationNonNegative(config, samples);
        NotBelowEstimate(config, estimatedRtt, rttDev, currentTimeout);
      }
    }

    method RecordHeartbeat()
      requires Valid()
      modifies this`currentTimeout
      ensures Valid() && currentTimeout == config.minTimeout
    {
      currentTimeout := config.minTimeout;
    }

    method RecordVote()
      requires Valid()
      modifies this`currentTimeout
      ensures Valid() && currentTimeout == config.minTimeout
    {
      currentTimeout := config.minTimeout;
    }

    method CheckMissedHeartbeat()
      requires Valid()
      modifies this`currentTimeout, this`missedHeartbeats
      ensures Valid() && missedHeartbeats == old(missedHeartbeats) + 1
      ensures currentTimeout == Missed(old(currentTimeout), config.maxTimeout)
      ensures var grown := old(currentTimeout) + old(currentTimeout) / 2;
        currentTimeout == if grown > config.maxTimeout then config.maxTimeout else grown
    {
      hide Estimate, Deviation, Sum, MinRtt, MaxRtt;
      missedHeartbeats := missedHeartbeats + 1;
      Grown(currentTimeout);
      currentTimeout := (currentTimeout as real * 1.5).Floor;
      if currentTimeout > config.maxTimeout { currentTimeout := config.maxTimeout; }
    }

    /** The mean is exact; with no sample of 0 the minimum is too, and the mean lies between it and the maximum. */
    method GetStats() returns (total: nat, missed: nat, low: real, high: real, mean: real)
      requires Valid()
      ensures total == |samples| && missed == missedHeartbeats && mean * (total as real) == Sum(samples)
      ensures total > 0 && 0.0 !in samples ==> Least(samples, low) && low <= mean <= high
      ensures total > 0 ==> high in samples && forall r | r in samples :: r <= high
    {
      hide Estimate, Deviation, MinRtt, MaxRtt, Sum;
      total, missed, low, high, mean := totalRpcs, missedHeartbeats, minRtt, maxRtt, avgRtt;
      if samples != [] {
        MaxRttIsGreatest(samples);
        MinRttIsSample(samples);
        if 0.0 !in samples {
          SumWithin(samples, low, high);
          MeanWithin(mean, total as real, low, high);
        }
      }
    }
  }

  lemma MeanWithin(mean: real, n: real, low: real, high: real)
    requires n > 0.0 && n * low <= mean * n <= n * high
    ensures low <= mean <= high
  {
    if mean < low { Product(n, low - mean); }
    if mean > high { Product(n, mean - high); }
  }
}
