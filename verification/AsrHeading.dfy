/**
 * Headings on the circle: everything decided is true, everything spoken is magnetic, vectors come
 * in fives and the final approach course in ones.
 */
module AsrHeading {
  import opened Arith
  import opened Rounding

  const HEADING_STEP_DEG := 5
  const TURN_DEADBAND_DEG := 8.0

  datatype Last = Nothing | Issued(heading: int)

  datatype Turn = Straight | Left | Right

  /** Python's `x % 360` on a real. */
  function Mod360(x: real): (m: real)
    ensures 0.0 <= m < 360.0
  {
    x - 360.0 * (x / 360.0).Floor as real
  }

  function AngleDiff(a: real, b: real): real { Mod360(a - b + 180.0) - 180.0 }

  /** `n % 360 or 360`: north is 360. */
  function Compass(n: int): (h: int)
    ensures 1 <= h <= 360
  {
    if n % 360 == 0 then 360 else n % 360
  }

  function RoundDeg(deg: real, step: int): (h: int)
    requires step > 0
    ensures 1 <= h <= 360
  {
    Compass(RoundHalfEven(deg / step as real) * step)
  }

  /** A published magnetic heading put into the true frame that `Out` expects. */
  function AsFlown(magneticDeg: real, magvar: real): real { Mod360(magneticDeg + magvar) }

  function WantMag(headingTrue: real, magvar: real): real { Mod360(headingTrue - magvar) }

  function StepFor(wantMag: real, finalCrs: real, onApproach: bool): int {
    if Abs(AngleDiff(wantMag, finalCrs)) < 1.0 || onApproach then 1 else HEADING_STEP_DEG
  }

  /** The heading spoken for a true heading wanted. */
  function Out(headingTrue: real, magvar: real, finalCrs: real, onApproach: bool, last: Last): (h: int)
  {
    var want := WantMag(headingTrue, magvar);
    var step := StepFor(want, finalCrs, onApproach);
    var h := RoundDeg(want, step);
    if last.Issued? && step > 1 && Abs(AngleDiff(h as real, last.heading as real)) < step as real
    then Compass(last.heading) else h
  }

  function TurnDirection(from: real, to: real): Turn {
    var delta := AngleDiff(to, from);
    if Abs(delta) < TURN_DEADBAND_DEG then Straight else if delta < 0.0 then Left else Right
  }

  // ---------------------------------------------------------------- the circle

  ghost predicate SameHeading(a: real, b: real) { exists k: int :: Laps(a, b, k) }

  predicate Laps(a: real, b: real, k: int) { a - b == 360.0 * k as real }

  lemma ModLaps(x: real) returns (k: int)
    ensures Laps(x, Mod360(x), k)
  {
    k := (x / 360.0).Floor;
  }

  /** One residue in a full turn. */
  lemma ModUnique(x: real, m: real, k: int)
    requires 0.0 <= m < 360.0 && Laps(x, m, k)
    ensures Mod360(x) == m
  {
    var j := ModLaps(x);
    hide Mod360;
    var d := k - j;
    assert d as real == k as real - j as real;
    assert -1.0 < d as real < 1.0;
    assert d == 0;
  }

  /** `AngleDiff` is the turn from `b` to `a`, the one in [-180, 180). */
  lemma DiffIsTheTurn(a: real, b: real, d: real)
    ensures -180.0 <= AngleDiff(a, b) < 180.0
    ensures SameHeading(b + AngleDiff(a, b), a)
    ensures -180.0 <= d < 180.0 && SameHeading(b + d, a) ==> AngleDiff(a, b) == d
  {
    var k := ModLaps(a - b + 180.0);
    assert Laps(b + AngleDiff(a, b), a, -k) by { assert 360.0 * (-k) as real == -(360.0 * k as real); }
    if -180.0 <= d < 180.0 && SameHeading(b + d, a) {
      var j :| Laps(b + d, a, j);
      assert Laps(a - b + 180.0, d + 180.0, -j) by { assert 360.0 * (-j) as real == -(360.0 * j as real); }
      ModUnique(a - b + 180.0, d + 180.0, -j);
    }
  }

  /** Turning by it is the short way round: no turn that ends on the same heading is shorter. */
  lemma TurnIsTheShortWay(from: real, to: real, other: real)
    requires SameHeading(from + other, to)
    ensures Abs(AngleDiff(to, from)) <= Abs(other)
    ensures TurnDirection(from, to) == Right ==> 8.0 <= AngleDiff(to, from) < 180.0
    ensures TurnDirection(from, to) == Left ==> -180.0 <= AngleDiff(to, from) <= -8.0
    ensures TurnDirection(from, to) == Straight <==> Abs(AngleDiff(to, from)) < 8.0
  {
    DiffIsTheTurn(to, from, other);
  }

  /** Compass numbers a full turn apart are one heading. */
  lemma CompassSame(n: int)
    ensures SameHeading(Compass(n) as real, n as real)
  {
    var k := n / 360;
    var j := if n % 360 == 0 then 1 - k else -k;
    assert Laps(Compass(n) as real, n as real, j);
  }

  lemma SameAdds(a: real, b: real, c: real)
    requires SameHeading(a, b) && SameHeading(b, c)
    ensures SameHeading(a, c)
  {
    var j :| Laps(a, b, j);
    var k :| Laps(b, c, k);
    assert Laps(a, c, j + k) by { assert (j + k) as real == j as real + k as real; }
  }

  lemma SameFlips(a: real, b: real)
    requires SameHeading(a, b)
    ensures SameHeading(b, a)
  {
    var j :| Laps(a, b, j);
    assert Laps(b, a, -j) by { assert (-j) as real == -(j as real); }
  }

  lemma SameShifts(a: real, b: real, d: real)
    requires SameHeading(a, b)
    ensures SameHeading(a + d, b + d)
  {
    var j :| Laps(a, b, j);
    assert Laps(a + d, b + d, j);
  }

  /** A small turn that ends on the heading is the difference. */
  lemma SmallDiff(a: real, b: real, d: real)
    requires SameHeading(b + d, a) && -180.0 <= d < 180.0
    ensures AngleDiff(a, b) == d
  {
    DiffIsTheTurn(a, b, d);
  }

  // ---------------------------------------------------------------- what is spoken

  /** Rounding turns the heading wanted by at most half a step. */
  lemma RoundDegNear(deg: real, step: int)
    requires step == 1 || step == 5
    ensures Abs(AngleDiff(RoundDeg(deg, step) as real, deg)) <= 0.5 * step as real
  {
    var q := RoundHalfEven(deg / step as real);
    var n := q * step;
    var d := n as real - deg;
    assert deg / step as real * step as real == deg;
    assert -0.5 * step as real <= d <= 0.5 * step as real;
    CompassSame(n);
    SameFlips(RoundDeg(deg, step) as real, n as real);
    assert deg + d == n as real;
    SmallDiff(RoundDeg(deg, step) as real, deg, d);
  }

  /** Every heading issued is a compass heading. */
  lemma SpokenInRange(headingTrue: real, magvar: real, finalCrs: real, onApproach: bool, last: Last)
    ensures 1 <= Out(headingTrue, magvar, finalCrs, onApproach, last) <= 360
  {
  }

  /** Differences add up, so nothing is further than the two turns together. */
  lemma DiffTriangle(a: real, b: real, c: real)
    ensures Abs(AngleDiff(a, c)) <= Abs(AngleDiff(a, b)) + Abs(AngleDiff(b, c))
  {
    DiffIsTheTurn(a, b, 0.0);
    DiffIsTheTurn(b, c, 0.0);
    var d := AngleDiff(a, b) + AngleDiff(b, c);
    SameShifts(c + AngleDiff(b, c), b, AngleDiff(a, b));
    SameAdds(c + d, b + AngleDiff(a, b), a);
    TurnIsTheShortWay(c, a, d);
  }

  lemma DiffSymmetric(a: real, b: real)
    ensures Abs(AngleDiff(a, b)) == Abs(AngleDiff(b, a))
  {
    DiffIsTheTurn(a, b, 0.0);
    DiffIsTheTurn(b, a, 0.0);
    SameShifts(b + AngleDiff(a, b), a, -AngleDiff(a, b));
    SameFlips(b, a - AngleDiff(a, b));
    TurnIsTheShortWay(a, b, -AngleDiff(a, b));
    SameShifts(a + AngleDiff(b, a), b, -AngleDiff(b, a));
    SameFlips(a, b - AngleDiff(b, a));
    TurnIsTheShortWay(b, a, -AngleDiff(b, a));
  }

  lemma DiffOfSame(a: real, b: real, c: real)
    requires SameHeading(a, b)
    ensures AngleDiff(a, c) == AngleDiff(b, c) && AngleDiff(c, a) == AngleDiff(c, b)
  {
    DiffIsTheTurn(b, c, 0.0);
    SameFlips(a, b);
    SameAdds(c + AngleDiff(b, c), b, a);
    SmallDiff(a, c, AngleDiff(b, c));
    DiffIsTheTurn(c, b, 0.0);
    SameShifts(a, b, AngleDiff(c, b));
    SameAdds(a + AngleDiff(c, b), b + AngleDiff(c, b), c);
    SmallDiff(c, a, AngleDiff(c, b));
  }

  /** What is spoken is never 7.5 degrees from what is wanted; half a degree on the approach; and a
      five-degree vector repeats the last heading or moves by at least a step. */
  lemma SpokenIsNearWanted(headingTrue: real, magvar: real, finalCrs: real, onApproach: bool, last: Last)
    ensures var want := WantMag(headingTrue, magvar);
            var step := StepFor(want, finalCrs, onApproach);
            var h := Out(headingTrue, magvar, finalCrs, onApproach, last);
            && (step == 1 || last == Nothing ==> Abs(AngleDiff(h as real, want)) <= 0.5 * step as real)
            && Abs(AngleDiff(h as real, want)) < 7.5
            && (step == 5 && last.Issued? ==>
                  h == Compass(last.heading) || Abs(AngleDiff(h as real, last.heading as real)) >= 5.0)
  {
    var want := WantMag(headingTrue, magvar);
    var step := StepFor(want, finalCrs, onApproach);
    var h := RoundDeg(want, step);
    RoundDegNear(want, step);
    if last.Issued? && step > 1 && Abs(AngleDiff(h as real, last.heading as real)) < step as real {
      var l := last.heading as real;
      DiffSymmetric(h as real, l);
      DiffTriangle(l, h as real, want);
      CompassSame(last.heading);
      DiffOfSame(Compass(last.heading) as real, l, want);
    }
  }

  lemma ModSame(x: real)
    ensures SameHeading(Mod360(x), x)
  {
    var k := ModLaps(x);
    hide Mod360;
    assert (-k) as real == -(k as real);
    assert Laps(Mod360(x), x, -k);
  }

  /** Moving both headings by the same variation moves neither from the other. */
  lemma ShiftBoth(a: real, b: real, v: real)
    ensures AngleDiff(a + v, b) == AngleDiff(a, b - v)
  {
    assert a + v - b + 180.0 == a - (b - v) + 180.0;
  }

  /** What is spoken, with the variation put back, is never 7.5 degrees from the true heading decided on;
      two and a half with no last heading to remember, half a degree on the approach. */
  lemma SpokenIsTheTrueHeading(headingTrue: real, magvar: real, finalCrs: real, onApproach: bool, last: Last)
    ensures var h := Out(headingTrue, magvar, finalCrs, onApproach, last);
            var off := Abs(AngleDiff(h as real + magvar, headingTrue));
            off < 7.5 && (last == Nothing ==> off <= 2.5) && (onApproach ==> off <= 0.5)
  {
    var h := Out(headingTrue, magvar, finalCrs, onApproach, last) as real;
    SpokenIsNearWanted(headingTrue, magvar, finalCrs, onApproach, last);
    ShiftBoth(h, headingTrue, magvar);
    ModSame(headingTrue - magvar);
    DiffOfSame(WantMag(headingTrue, magvar), headingTrue - magvar, h);
    hide AngleDiff, RoundDeg;
  }

  /** A charted heading is flown as that heading with the variation added. */
  lemma FlownIsChartedPlusVariation(magneticDeg: real, magvar: real)
    ensures 0.0 <= AsFlown(magneticDeg, magvar) < 360.0
    ensures SameHeading(AsFlown(magneticDeg, magvar), magneticDeg + magvar)
  {
    ModSame(magneticDeg + magvar);
  }

  /** A published heading put in true comes back as the number on the chart, whatever the variation,
      exactly when it is a five or lies along the final approach course. */
  lemma PublishedHeadingComesBack(m: int, magvar: real, finalCrs: real)
    requires 1 <= m <= 360
    ensures Out(AsFlown(m as real, magvar), magvar, finalCrs, false, Nothing) == m
            <==> m % 5 == 0 || Abs(AngleDiff(m as real, finalCrs)) < 1.0
  {
    hide AsFlown, WantMag, RoundDeg, AngleDiff, SameHeading;
    var n := m % 360;
    WantOfPublished(m, magvar);
    SameAsPublished(m);
    DiffOfSame(n as real, m as real, finalCrs);
    RoundOfWhole(n, 1);
    RoundOfWhole(n, 5);
    assert n % 1 == 0 && (n % 5 == 0 <==> m % 5 == 0) && Compass(n) == m;
  }

  lemma SameAsPublished(m: int)
    requires 1 <= m <= 360
    ensures SameHeading((m % 360) as real, m as real)
  {
    if m == 360 { assert Laps(0.0, m as real, -1); } else { assert Laps(m as real, m as real, 0); }
  }

  lemma WantOfPublished(m: int, magvar: real)
    requires 1 <= m <= 360
    ensures WantMag(AsFlown(m as real, magvar), magvar) == (m % 360) as real
  {
    var j := ModLaps(m as real + magvar);
    var x := AsFlown(m as real, magvar) - magvar;
    var k := if m == 360 then 1 - j else -j;
    assert Laps(x, (m % 360) as real, k) by {
      assert k as real == (if m == 360 then 1.0 - j as real else -(j as real));
    }
    ModUnique(x, (m % 360) as real, k);
  }

  /** A whole number of degrees survives rounding to `step` exactly when it is a multiple of it. */
  lemma RoundOfWhole(n: int, step: int)
    requires 0 <= n < 360 && (step == 1 || step == 5)
    ensures RoundDeg(n as real, step) == Compass(n) <==> n % step == 0
  {
    if n % step == 0 {
      var q := n / step;
      assert n as real / step as real == q as real;
      RoundExact(q);
    } else {
      hide RoundHalfEven;
      CompassOfFive(RoundHalfEven(n as real / step as real));
      assert Compass(n) % 5 == n % 5;
    }
  }

  lemma CompassOfFive(q: int)
    ensures Compass(q * 5) % 5 == 0
  {
    var n := q * 5;
    assert n % 5 == 0 && n % 360 == n - 360 * (n / 360);
  }

  /** The memory of the last heading acts exactly when that heading is not itself a five. */
  lemma MemoryActsOnlyOffTheFives(headingTrue: real, magvar: real, finalCrs: real, last: int)
    requires 1 <= last <= 360
    ensures last % 5 == 0 ==>
              Out(headingTrue, magvar, finalCrs, false, Issued(last))
                == Out(headingTrue, magvar, finalCrs, false, Nothing)
    ensures var want := WantMag(headingTrue, magvar);
            var h := RoundDeg(want, 5);
            last % 5 != 0 && StepFor(want, finalCrs, false) == 5 ==>
              (Out(headingTrue, magvar, finalCrs, false, Issued(last)) != h
               <==> Abs(AngleDiff(h as real, last as real)) < 5.0)
  {
    var h := RoundDeg(WantMag(headingTrue, magvar), 5);
    RoundIsAFive(WantMag(headingTrue, magvar));
    if last % 5 == 0 && Abs(AngleDiff(h as real, last as real)) < 5.0 { FivesApart(h, last); }
  }

  lemma RoundIsAFive(deg: real)
    ensures RoundDeg(deg, 5) % 5 == 0
  {
  }

  lemma FivesApart(a: int, b: int)
    requires 1 <= a <= 360 && 1 <= b <= 360 && a % 5 == 0 && b % 5 == 0
    requires Abs(AngleDiff(a as real, b as real)) < 5.0
    ensures a == b
  {
    DiffIsTheTurn(a as real, b as real, 0.0);
    var d := AngleDiff(a as real, b as real);
    var k :| Laps(b as real + d, a as real, k);
    var n := a + 360 * k - b;
    assert d == n as real;
    assert n % 5 == 0 && -5 < n < 5;
    assert n % 5 == 0 ==> n == 0;
  }

  /** A look's question of `Out`: the true heading wanted, and whether it is for the approach itself. */
  datatype Ask = Ask(headingTrue: real, onApproach: bool)

  /** What is spoken at look `n`, each heading remembered by the next. */
  function Spoken(asks: seq<Ask>, magvar: real, finalCrs: real, n: nat): (h: int)
    requires n < |asks|
    ensures 1 <= h <= 360
  {
    Out(asks[n].headingTrue, magvar, finalCrs, asks[n].onApproach,
        if n == 0 then Nothing else Issued(Spoken(asks, magvar, finalCrs, n - 1)))
  }

  function StepAt(asks: seq<Ask>, magvar: real, finalCrs: real, n: nat): int
    requires n < |asks|
  {
    StepFor(WantMag(asks[n].headingTrue, magvar), finalCrs, asks[n].onApproach)
  }

  /** Over any run of vectors the memory never acts: what is spoken at each look is what is wanted at that
      look, rounded. */
  lemma {:induction false} VectorsForgetTheLast(asks: seq<Ask>, magvar: real, finalCrs: real, n: nat)
    requires n < |asks| && forall k :: 0 <= k <= n ==> StepAt(asks, magvar, finalCrs, k) == 5
    ensures Spoken(asks, magvar, finalCrs, n) == RoundDeg(WantMag(asks[n].headingTrue, magvar), 5)
  {
    assert StepAt(asks, magvar, finalCrs, n) == 5;
    hide RoundDeg, WantMag, AngleDiff;
    if n > 0 {
      VectorsForgetTheLast(asks, magvar, finalCrs, n - 1);
      RoundIsAFive(WantMag(asks[n - 1].headingTrue, magvar));
      FiveIsForgotten(asks[n].headingTrue, magvar, finalCrs, asks[n].onApproach, Spoken(asks, magvar, finalCrs, n - 1));
    }
  }

  lemma FiveIsForgotten(headingTrue: real, magvar: real, finalCrs: real, onApproach: bool, last: int)
    requires 1 <= last <= 360 && last % 5 == 0 && StepFor(WantMag(headingTrue, magvar), finalCrs, onApproach) == 5
    ensures Out(headingTrue, magvar, finalCrs, onApproach, Issued(last)) == RoundDeg(WantMag(headingTrue, magvar), 5)
  {
    var h := RoundDeg(WantMag(headingTrue, magvar), 5);
    RoundIsAFive(WantMag(headingTrue, magvar));
    hide RoundDeg, WantMag, AngleDiff;
    if Abs(AngleDiff(h as real, last as real)) < 5.0 { FivesApart(h, last); }
  }

  /** So it does not stop flapping: headings wanted a degree apart, 92 and 93, taken in turn for as long
      as he likes, are spoken five degrees apart at every look. */
  function Flap(looks: nat): (asks: seq<Ask>)
    ensures |asks| == looks
  {
    seq(looks, n => Ask(if n % 2 == 0 then 92.0 else 93.0, false))
  }

  lemma {:induction false} FlapsForEver(looks: nat, n: nat)
    requires n < looks
    ensures Spoken(Flap(looks), 0.0, 180.0, n) == if n % 2 == 0 then 90 else 95
  {
    FlapRounded();
    forall k | 0 <= k <= n
      ensures StepAt(Flap(looks), 0.0, 180.0, k) == 5
    {
      var x := Flap(looks)[k].headingTrue;
      assert x == 92.0 || x == 93.0;
    }
    hide RoundDeg, WantMag, StepAt;
    VectorsForgetTheLast(Flap(looks), 0.0, 180.0, n);
  }

  lemma FlapRounded()
    ensures WantMag(92.0, 0.0) == 92.0 && WantMag(93.0, 0.0) == 93.0
    ensures RoundDeg(92.0, 5) == 90 && RoundDeg(93.0, 5) == 95
    ensures StepFor(92.0, 180.0, false) == 5 && StepFor(93.0, 180.0, false) == 5
  {
    ModUnique(92.0 - 0.0, 92.0, 0);
    ModUnique(93.0 - 0.0, 93.0, 0);
    ModUnique(92.0 - 180.0 + 180.0, 92.0, 0);
    ModUnique(93.0 - 180.0 + 180.0, 93.0, 0);
    assert 92.0 / 5.0 == 18.4 && 93.0 / 5.0 == 18.6;
  }
}
