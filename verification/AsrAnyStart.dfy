/**
 * The whole approach from any start at all, over the field or not, the missed approach flown first if
 * that is where he is: the climb bounds how often he can be sent missed, and between two such looks he
 * is on his way in.
 */
module AsrAnyStart {
  import opened Arith
  import opened AsrArrival
  import opened AsrGuide
  import opened AsrMissed
  import opened AsrPattern
  import opened AsrReturn
  import opened AsrTurnIn

  ghost predicate LatchFedBack(p: Profile, run: seq<Look>) {
    forall i :: 0 <= i < |run| - 1 ==> run[i + 1].onMissed == NextLatch(p, run[i].at, run[i].onMissed)
  }

  /** Still to be got away from the field: the latch set, or over it. */
  predicate Unsettled(p: Profile, l: Look) { l.onMissed || !Clear(p, l.at) }

  /** Altitude, as far as the missed approach is concerned with it. */
  function Capped(p: Profile, altFt: real): real { Min(altFt, p.missedClimbFt) }

  /** From one look to the next, told to go missed he climbs, and until he is settled he does not come
      down below the altitude that ends it. */
  predicate ClimbsOn(p: Profile, climb: real, l: Look, next: Aircraft) {
    && (ToldMissed(p, l) ==> Capped(p, next.altFt) >= Capped(p, l.at.altFt + climb))
    && (Unsettled(p, l) ==> Capped(p, next.altFt) >= Capped(p, l.at.altFt))
  }

  ghost predicate ClimbsAway(p: Profile, climb: real, run: seq<Look>) {
    forall i :: 0 <= i < |run| - 1 ==> ClimbsOn(p, climb, run[i], run[i + 1].at)
  }

  // ---------------------------------------------------------------- how often he can be sent missed

  predicate Safe(p: Profile, l: Look) { !Unsettled(p, l) || l.at.altFt >= p.missedClimbFt }

  lemma SafeIsNotMissed(p: Profile, l: Look)
    requires Safe(p, l)
    ensures !ToldMissed(p, l)
  {
    hide Clear, Guide;
    if Unsettled(p, l) { MissedIsLow(p, l.at, l.onMissed); } else { ClearIsNotMissed(p, l); }
  }

  /** What a look short of the missed approach point hands on. */
  ghost predicate Flies(p: Profile, climb: real, least: real, most: real, l: Look, next: Look) {
    && Flown(p, least, most, l, next.at) && ClimbsOn(p, climb, l, next.at)
    && next.onMissed == NextLatch(p, l.at, l.onMissed) && !Guide(p, l.at, l.onMissed).leg.AtMap?
  }

  lemma SafeStays(p: Profile, climb: real, least: real, most: real, l: Look, next: Look)
    requires p.Valid() && ShortLooks(p, most) && 0.0 < least && Flies(p, climb, least, most, l, next) && Safe(p, l)
    ensures Safe(p, next)
  {
    SafeIsNotMissed(p, l);
    hide Guide, Flown, Clear;
    if !Unsettled(p, l) {
      ClearStep(p, l, least, most, next.at);
      MissedIsLow(p, l.at, l.onMissed);
    }
  }

  /** `k` climbs would take him out of it. */
  predicate Climbs(p: Profile, climb: real, l: Look, k: nat) {
    Safe(p, l) || l.at.altFt + Times(k, climb) >= p.missedClimbFt
  }

  lemma ClimbsStay(p: Profile, climb: real, least: real, most: real, l: Look, next: Look, k: nat)
    requires p.Valid() && ShortLooks(p, most) && 0.0 < least && Flies(p, climb, least, most, l, next)
    requires Climbs(p, climb, l, k) && !ToldMissed(p, l)
    ensures Climbs(p, climb, next, k)
  {
    hide Guide, Flown, Unsettled, Times;
    if Safe(p, l) { SafeStays(p, climb, least, most, l, next); }
  }

  lemma OneClimbFewer(p: Profile, climb: real, least: real, most: real, l: Look, next: Look, k: nat)
    requires Flies(p, climb, least, most, l, next) && Climbs(p, climb, l, k) && ToldMissed(p, l)
    ensures k > 0 && Climbs(p, climb, next, k - 1)
  {
    if Safe(p, l) { SafeIsNotMissed(p, l); }
    hide Guide, Flown, Unsettled;
    MissedIsLow(p, l.at, l.onMissed);
  }

  // ---------------------------------------------------------------- how far off he can be

  predicate InBox(p: Profile, s: Aircraft, r: real) {
    r >= TURN_IN_NM && Abs(s.cross) <= r && -r <= s.along <= BaseLegAt(p) + r + 3.0
  }

  lemma BoxIsWithin(p: Profile, s: Aircraft, r: real)
    requires InBox(p, s, r)
    ensures Within(p, s, r, r + 4.5)
  {
  }

  lemma WithinIsBox(p: Profile, s: Aircraft, r: real)
    requires p.Valid() && Within(p, s, r, r + 4.5) && s.along >= -r
    ensures InBox(p, s, r)
  {
  }

  lemma InwardIsBox(p: Profile, s: Aircraft, next: Aircraft, r: real)
    requires InBox(p, s, r) && Abs(next.cross) <= Abs(s.cross) && -r <= next.along <= s.along
    ensures InBox(p, next, r)
  {
  }

  /** Told to go missed he leaves the box by no more than the look's length. */
  lemma MissedLeavesBox(p: Profile, s: Aircraft, o: Order, fly: real, least: real, most: real, next: Aircraft, r: real)
    requires InBox(p, s, r) && least >= 0.0 && 0.0 < most <= 2.0 && Travelled(s, o, fly, least, most, next)
    ensures InBox(p, next, r + 2.0)
  {
    hide Travelled;
    var u, v := TravelParts(s, o, fly, least, most, next);
  }

  lemma RollOnIsInward(p: Profile, l: Look, least: real, most: real, next: Aircraft)
    requires p.Valid() && ShortLooks(p, most) && least >= 0.0 && Flown(p, least, most, l, next) && !ToldMissed(p, l)
    requires InPosition(p, l.at.along, l.at.cross) && Abs(l.at.cross) <= TURN_IN_NM && !OnTheWayIn(p, l.at)
    ensures Abs(next.cross) <= Abs(l.at.cross) && l.at.along - 2.0 <= next.along <= l.at.along && l.at.along >= 2.0
  {
    var s := l.at;
    if Established(p, s) { EstablishedIsOnTheWayIn(p, s); }
    InWithoutRoom(p, s);
    RollsOnAgain(p, l);
    LookaheadBounds(s.along);
    var o := Order(RollOn, -Lookahead(s.along), -s.cross);
    hide Guide, Established, OnTheWayIn, InPosition, Travelled, Lookahead, ToldMissed;
    AsTravelled(p, l, o, least, most, next);
    var k := RollMoves(s, RollOn, Lookahead(s.along), l.fly, least, most, next);
  }

  lemma InWithoutRoom(p: Profile, s: Aircraft)
    requires p.Valid() && InPosition(p, s.along, s.cross)
    ensures s.along >= 2.0
  {
  }

  /** On any other look he stays in it. */
  lemma StaysInBox(p: Profile, l: Look, least: real, most: real, next: Aircraft, r: real)
    requires p.Valid() && ShortLooks(p, most) && 0.0 < least && Flown(p, least, most, l, next)
    requires !ToldMissed(p, l) && !Guide(p, l.at, l.onMissed).leg.AtMap? && InBox(p, l.at, r)
    ensures InBox(p, next, r)
  {
    var s := l.at;
    hide Guide, Established, OnTheWayIn, InPosition, Travelled, InBox, InPace, Within;
    if OnTheWayIn(p, s) {
      InBoxInward(p, l, least, most, next, r);
    } else if TurnedIn(p, s) {
      if Established(p, s) { EstablishedIsOnTheWayIn(p, s); }
      RollOnIsInward(p, l, least, most, next);
      BoxReach(p, s, r);
      InwardIsBox(p, s, next, r);
    } else {
      PatternInBox(p, l, least, most, next, r);
    }
  }

  lemma BoxReach(p: Profile, s: Aircraft, r: real)
    requires InBox(p, s, r)
    ensures r >= 2.0 && Abs(s.cross) <= r
  {
  }

  lemma InBoxInward(p: Profile, l: Look, least: real, most: real, next: Aircraft, r: real)
    requires p.Valid() && ShortLooks(p, most) && 0.0 < least && Flown(p, least, most, l, next)
    requires !ToldMissed(p, l) && !Guide(p, l.at, l.onMissed).leg.AtMap? && InBox(p, l.at, r) && OnTheWayIn(p, l.at)
    ensures InBox(p, next, r)
  {
    hide Guide, OnTheWayIn, Travelled, InPace;
    InPaceShrinks(least, r, r);
    InboundStep(p, l, least, most, r, next);
    InwardIsBox(p, l.at, next, r);
  }

  lemma PatternInBox(p: Profile, l: Look, least: real, most: real, next: Aircraft, r: real)
    requires p.Valid() && ShortLooks(p, most) && 0.0 < least && Flown(p, least, most, l, next)
    requires Repositioning(p, l.at, l.onMissed) && InBox(p, l.at, r)
    ensures InBox(p, next, r)
  {
    BoxIsWithin(p, l.at, r);
    LongerLook(p, l, least, most, next);
    PatternStep(p, least, l, next, r, r + 4.5);
    NotFurtherBack(p, l, least, most, next);
    BoxBack(p, l.at, next, r);
    WithinIsBox(p, next, r);
  }

  lemma BoxBack(p: Profile, s: Aircraft, next: Aircraft, r: real)
    requires InBox(p, s, r) && (next.along >= s.along || next.along > 0.0)
    ensures next.along >= -r
  {
  }

  lemma LongerLook(p: Profile, l: Look, least: real, most: real, next: Aircraft)
    requires Flown(p, least, most, l, next) && 0.0 < least && 0.0 < most <= 2.0
    ensures Flown(p, least, 2.0, l, next)
  {
    hide Guide;
    SquareMono(most, 2.0);
  }

  lemma NotFurtherBack(p: Profile, l: Look, least: real, most: real, next: Aircraft)
    requires p.Valid() && 0.0 < least && 0.0 < most <= 2.0 && Flown(p, least, most, l, next)
    requires Repositioning(p, l.at, l.onMissed)
    ensures next.along >= l.at.along || next.along > 0.0
  {
    var s := l.at;
    if Rank(p, s) == 3 {
      DownwindOrder(p, s, l.onMissed);
      var side := RepositionSide(p, s.cross);
      hide Guide, Travelled, DownwindJoin, RepositionSide, Rank;
      var u, v := TravelParts(s, Order(Downwind, 3.0, DownwindJoin(side * s.cross) * side), l.fly, least, most, next);
    } else {
      NotEstablished(p, s);
      AheadInPattern(p, s);
      hide Guide, Travelled, Rank;
      TwoMilesAhead(s, Guide(p, s, l.onMissed), l.fly, least, most, next);
    }
  }

  lemma AheadInPattern(p: Profile, s: Aircraft)
    requires p.Valid() && Rank(p, s) != 3 && !TurnedIn(p, s)
    ensures s.along > 2.0
  {
    hide Established;
  }

  // ---------------------------------------------------------------- enough looks from anywhere in it

  predicate EnoughInBox(p: Profile, r: real, least: real, n: nat, b: nat, m: nat)
    requires r >= TURN_IN_NM
  {
    && n as real * Pace(least, 2.0 * r + 6.0) > BaseLegAt(p) + 2.0 * r + 1.5
    && 10.0 + 2.5 * least + 5.0 * Gain(least) <= Times(b, GainUnit(least))
    && m as real * InPace(least, r) > BaseLegAt(p) + 2.0 * r + 6.0 + MAP_OVERSHOOT_NM
  }

  lemma PaceShrinks(least: real, steep: real, less: real)
    requires 0.0 < least && 0.0 < less <= steep
    ensures 0.0 < Pace(least, steep) <= Pace(least, less)
  {
    var q := Pace(least, less);
    assert q * less == 3.0 * least;
    PaceBelow(3.0 * least, 3.0 * least, 1.0);
    if q <= 0.0 { MulNonNeg(-q, less); }
    MulMono(less, steep, q);
    PaceBelow(3.0 * least, q, steep);
  }

  lemma BoxBounds(p: Profile, s: Aircraft, r: real)
    requires p.Valid() && InBox(p, s, r)
    ensures 2.0 <= Wide(s) <= r && 6.5 <= Slope(p, s) <= 2.0 * r + 6.0 && Distance(p, s) <= BaseLegAt(p) + 2.0 * r + 1.5
  {
  }

  lemma Further(n: nat, x: real, y: real, far: real)
    requires n as real * x > far && 0.0 < x <= y
    ensures n as real * y > far
  {
    MorePace(n, n, x, y);
  }

  lemma PatternLooks(p: Profile, s: Aircraft, r: real, least: real, n: nat)
    requires p.Valid() && 0.0 < least && InBox(p, s, r)
    requires n as real * Pace(least, 2.0 * r + 6.0) > BaseLegAt(p) + 2.0 * r + 1.5
    ensures n as real * Pace(least, Slope(p, s)) > Distance(p, s)
  {
    BoxBounds(p, s, r);
    var far, steep, less := Distance(p, s), 2.0 * r + 6.0, Slope(p, s);
    hide *;
    PaceShrinks(least, steep, less);
    Further(n, Pace(least, steep), Pace(least, less), far);
  }

  lemma InLooks(p: Profile, s: Aircraft, r: real, least: real, m: nat)
    requires p.Valid() && 0.0 < least && InBox(p, s, r)
    requires m as real * InPace(least, r) > BaseLegAt(p) + 2.0 * r + 6.0 + MAP_OVERSHOOT_NM
    ensures m as real * InPace(least, Wide(s)) > BaseLegAt(p) + Slope(p, s) + MAP_OVERSHOOT_NM
  {
    BoxBounds(p, s, r);
    var far, wide := BaseLegAt(p) + Slope(p, s) + MAP_OVERSHOOT_NM, Wide(s);
    hide *;
    InPaceShrinks(least, r, wide);
    Further(m, InPace(least, r), InPace(least, wide), far);
  }

  lemma EnoughFromBox(p: Profile, s: Aircraft, r: real, least: real, n: nat, b: nat, m: nat)
    requires p.Valid() && 0.0 < least && InBox(p, s, r) && EnoughInBox(p, r, least, n, b, m)
    ensures Enough(p, s, least, n, b, m)
  {
    hide Pace, InPace, Gain, GainUnit, Times, Slope, Wide, Distance, InBox, BaseLegAt;
    PatternLooks(p, s, r, least, n);
    InLooks(p, s, r, least, m);
  }

  lemma BiggerBox(p: Profile, s: Aircraft, r: real, bigger: real)
    requires InBox(p, s, r) && r <= bigger
    ensures InBox(p, s, bigger)
  {
  }

  // ---------------------------------------------------------------- the whole approach

  /** Looks in all: one stretch for each climb, and one more. */
  function InAll(k: nat, each: nat): nat { if k == 0 then each else each + InAll(k - 1, each) }

  ghost predicate Flight(p: Profile, climb: real, least: real, most: real, run: seq<Look>) {
    forall i :: 0 <= i < |run| - 1 ==> Flies(p, climb, least, most, run[i], run[i + 1])
  }

  ghost predicate NoMissedIn(p: Profile, run: seq<Look>, i: nat, j: nat) {
    forall k :: i <= k < j && k < |run| ==> !ToldMissed(p, run[k])
  }

  lemma {:induction false} OnTheWay(
      p: Profile, climb: real, least: real, most: real, run: seq<Look>, i: nat, j: nat, r: real, k: nat)
    requires p.Valid() && ShortLooks(p, most) && 0.0 < least && Flight(p, climb, least, most, run)
    requires i <= j < |run| && NoMissedIn(p, run, i, j) && InBox(p, run[i].at, r) && Climbs(p, climb, run[i], k)
    ensures InBox(p, run[j].at, r) && Climbs(p, climb, run[j], k)
    decreases j
  {
    hide Flown, ClimbsOn, NextLatch, InBox, Climbs, ToldMissed, Guide;
    if i < j {
      OnTheWay(p, climb, least, most, run, i, j - 1, r, k);
      assert Flies(p, climb, least, most, run[j - 1], run[j - 1 + 1]) && !ToldMissed(p, run[j - 1]);
      StaysInBox(p, run[j - 1], least, most, run[j].at, r);
      ClimbsStay(p, climb, least, most, run[j - 1], run[j], k);
    }
  }

  /** The first look in a stretch that says missed, or its end. */
  lemma FirstMissed(p: Profile, run: seq<Look>, i: nat, end: nat) returns (j: nat)
    requires i <= end <= |run|
    ensures i <= j <= end && NoMissedIn(p, run, i, j) && (j < end ==> ToldMissed(p, run[j]))
  {
    hide ToldMissed;
    j := i;
    while j < end && !ToldMissed(p, run[j])
      invariant i <= j <= end && NoMissedIn(p, run, i, j)
    {
      j := j + 1;
    }
  }

  lemma MissedLook(p: Profile, climb: real, least: real, most: real, l: Look, next: Look, r: real, k: nat)
    requires ShortLooks(p, most) && 0.0 < least && Flies(p, climb, least, most, l, next)
    requires ToldMissed(p, l) && InBox(p, l.at, r) && Climbs(p, climb, l, k)
    ensures k > 0 && InBox(p, next.at, r + 2.0) && Climbs(p, climb, next, k - 1)
  {
    OneClimbFewer(p, climb, least, most, l, next, k);
    hide InBox, Climbs, Guide, Travelled, ClimbsOn;
    MissedLeavesBox(p, l.at, Guide(p, l.at, l.onMissed), l.fly, least, most, next.at, r);
  }

  /** A stretch with no look that says missed, long enough, would get him there. */
  lemma LongStretch(
      p: Profile, climb: real, least: real, most: real, run: seq<Look>, i: nat, r: real, n: nat, b: nat, m: nat)
    requires p.Valid() && ShortLooks(p, most) && 0.0 < least && Flight(p, climb, least, most, run)
    requires i + n + b + m < |run| && NoMissedIn(p, run, i, i + n + b + m + 1)
    requires InBox(p, run[i].at, r) && EnoughInBox(p, r, least, n, b, m)
    ensures exists j :: 0 <= j < |run| && Guide(p, run[j].at, run[j].onMissed).leg.AtMap?
  {
    var stretch := run[i..i + n + b + m + 1];
    EnoughFromBox(p, run[i].at, r, least, n, b, m);
    FlightIsRun(p, climb, least, most, run, i, i + n + b + m + 1);
    hide *;
    assert stretch[0] == run[i];
    ArrivesFromAnywhere(p, least, most, stretch, n, b, m);
    var j :| 0 <= j < |stretch| && Guide(p, stretch[j].at, stretch[j].onMissed).leg.AtMap?;
    assert stretch[j] == run[i + j];
  }

  lemma FlightIsRun(p: Profile, climb: real, least: real, most: real, run: seq<Look>, i: nat, j: nat)
    requires Flight(p, climb, least, most, run) && i <= j <= |run| && NoMissedIn(p, run, i, j)
    ensures IsRun(p, least, most, run[i..j]) && NoMissedLeg(p, run[i..j])
  {
    hide Flown, ClimbsOn, NextLatch, ToldMissed, Guide;
    forall k | 0 <= k < j - i - 1
      ensures Flown(p, least, most, run[i..j][k], run[i..j][k + 1].at)
    {
      assert Flies(p, climb, least, most, run[i + k], run[i + k + 1]);
    }
  }

  lemma {:induction false} ArrivesAfterClimbing(
      p: Profile, climb: real, least: real, most: real, run: seq<Look>, i: nat, r: real, k: nat, n: nat, b: nat, m: nat)
    requires p.Valid() && ShortLooks(p, most) && 0.0 < least && Flight(p, climb, least, most, run)
    requires i + InAll(k, n + b + m + 1) < |run| && r >= TURN_IN_NM
    requires InBox(p, run[i].at, r) && Climbs(p, climb, run[i], k)
    requires EnoughInBox(p, r + 2.0 * k as real, least, n, b, m)
    ensures exists j :: 0 <= j < |run| && Guide(p, run[j].at, run[j].onMissed).leg.AtMap?
    decreases k
  {
    hide Flight, Flies, InBox, Climbs, EnoughInBox, ToldMissed, Guide, NoMissedIn;
    var each := n + b + m + 1;
    var j := FirstMissed(p, run, i, i + each);
    if j == i + each {
      BiggerBox(p, run[i].at, r, r + 2.0 * k as real);
      LongStretch(p, climb, least, most, run, i, r + 2.0 * k as real, n, b, m);
    } else {
      OnTheWay(p, climb, least, most, run, i, j, r, k);
      FliesAt(p, climb, least, most, run, j);
      MissedLook(p, climb, least, most, run[j], run[j + 1], r, k);
      assert r + 2.0 + 2.0 * (k - 1) as real == r + 2.0 * k as real;
      ArrivesAfterClimbing(p, climb, least, most, run, j + 1, r + 2.0, k - 1, n, b, m);
    }
  }

  lemma FliesAt(p: Profile, climb: real, least: real, most: real, run: seq<Look>, j: nat)
    requires Flight(p, climb, least, most, run) && j + 1 < |run|
    ensures Flies(p, climb, least, most, run[j], run[j + 1])
  {
    hide Flies;
  }

  /** How far from the field he starts. */
  function Reach(s: Aircraft): real { Max(TURN_IN_NM, Max(Abs(s.cross), Abs(s.along))) }

  /** From any start at all, the latch handed back at every look, an aircraft that flies what it is told,
      climbs whenever it is told to go missed and does not come down again before it is clear, is at the
      missed approach point within a number of looks fixed by where and how high it starts. */
  lemma ArrivesFromAnyStart(
      p: Profile, climb: real, least: real, most: real, run: seq<Look>, k: nat, n: nat, b: nat, m: nat)
    requires p.Valid() && ShortLooks(p, most) && 0.0 < least
    requires |run| > InAll(k, n + b + m + 1) && IsRun(p, least, most, run)
    requires LatchFedBack(p, run) && ClimbsAway(p, climb, run)
    requires run[0].at.altFt + Times(k, climb) >= p.missedClimbFt
    requires EnoughInBox(p, Reach(run[0].at) + 2.0 * k as real, least, n, b, m)
    ensures exists j :: 0 <= j < |run| && Guide(p, run[j].at, run[j].onMissed).leg.AtMap?
  {
    hide Guide, Flown, ClimbsOn, NextLatch, EnoughInBox;
    if NotYetAtMap(p, run, |run|) {
      assert Flight(p, climb, least, most, run) by { RunIsFlight(p, climb, least, most, run); }
      StartInBox(p, run[0].at);
      ArrivesAfterClimbing(p, climb, least, most, run, 0, Reach(run[0].at), k, n, b, m);
    }
  }

  lemma StartInBox(p: Profile, s: Aircraft)
    requires p.Valid()
    ensures InBox(p, s, Reach(s))
  {
  }

  lemma RunIsFlight(p: Profile, climb: real, least: real, most: real, run: seq<Look>)
    requires IsRun(p, least, most, run) && LatchFedBack(p, run) && ClimbsAway(p, climb, run)
    requires NotYetAtMap(p, run, |run|)
    ensures Flight(p, climb, least, most, run)
  {
    hide Guide, Flown, ClimbsOn, NextLatch;
  }

  /** There always are such numbers. */
  lemma SomeNumberFromBox(p: Profile, r: real, least: real) returns (n: nat, b: nat, m: nat)
    requires p.Valid() && 0.0 < least && r >= TURN_IN_NM
    ensures EnoughInBox(p, r, least, n, b, m)
  {
    hide Pace, InPace, Gain, GainUnit, BaseLegAt;
    PaceShrinks(least, 2.0 * r + 6.0, 2.0 * r + 6.0);
    n := Looks(BaseLegAt(p) + 2.0 * r + 1.5, Pace(least, 2.0 * r + 6.0));
    GainUnitPositive(least);
    b := Looks(10.0 + 2.5 * least + 5.0 * Gain(least), GainUnit(least));
    TimesIsProduct(b, GainUnit(least));
    InPaceShrinks(least, r, r);
    m := Looks(BaseLegAt(p) + 2.0 * r + 6.0 + MAP_OVERSHOOT_NM, InPace(least, r));
  }

  // ---------------------------------------------------------------- why he may not come down again

  const Eleven := Profile(11.0, 0.6, false, 3000.0, 800.0, 1.0, 0.5, 0.3057, 0.0262)

  const Inside := Aircraft(-10.5, 1.6, 500.0, 3.0, 0.0)
  const Outside := Aircraft(-11.5, 1.6, 600.0, -1.0, 0.0)

  /** Eleven miles off the departure end, in and out of the radius in which he can be told to go missed:
      climbing a hundred feet when he is and coming down a hundred when he is not. */
  function Circling(looks: nat): (run: seq<Look>)
    ensures |run| == looks
  {
    seq(looks, i => if i % 2 == 0 then Look(Inside, i > 0, 1.0) else Look(Outside, true, 1.0 / 3.0))
  }

  lemma ToldAtInside(latch: bool)
    ensures Guide(Eleven, Inside, latch) == Order(MissedAhead, -1.0, 0.0) && NextLatch(Eleven, Inside, latch)
    ensures Travelled(Inside, Order(MissedAhead, -1.0, 0.0), 1.0, 1.0, 1.0, Outside)
  {
  }

  lemma ToldAtOutside()
    ensures Guide(Eleven, Outside, true) == Order(Downwind, 3.0, 0.0) && NextLatch(Eleven, Outside, true)
    ensures Travelled(Outside, Order(Downwind, 3.0, 0.0), 1.0 / 3.0, 1.0, 1.0, Inside)
  {
  }

  /** One look of it. */
  lemma CirclingLook(l: Look, next: Look)
    requires (l.at == Inside && l.fly == 1.0 && next.at == Outside && next.onMissed)
             || (l.at == Outside && l.onMissed && l.fly == 1.0 / 3.0 && next.at == Inside && next.onMissed)
    ensures Flown(Eleven, 1.0, 1.0, l, next.at) && next.onMissed == NextLatch(Eleven, l.at, l.onMissed)
    ensures ToldMissed(Eleven, l) ==> next.at.altFt == l.at.altFt + 100.0
  {
    ToldAtInside(l.onMissed);
    ToldAtOutside();
    hide Guide, NextLatch, Travelled;
  }

  lemma NeverAtMap(l: Look)
    requires l.at == Inside || (l.at == Outside && l.onMissed)
    ensures !Guide(Eleven, l.at, l.onMissed).leg.AtMap?
  {
    ToldAtInside(l.onMissed);
    ToldAtOutside();
    hide Guide;
  }

  /** Climbing whenever he is told to go missed is not enough: for ever so many looks he circles, if what
      he climbs there he gives back in between. */
  lemma CirclesForEver(looks: nat)
    ensures Eleven.Valid() && ShortLooks(Eleven, 1.0) && NotYetAtMap(Eleven, Circling(looks), looks)
    ensures IsRun(Eleven, 1.0, 1.0, Circling(looks)) && LatchFedBack(Eleven, Circling(looks))
    ensures forall i :: 0 <= i < looks - 1 && ToldMissed(Eleven, Circling(looks)[i]) ==>
              Circling(looks)[i + 1].at.altFt == Circling(looks)[i].at.altFt + 100.0
  {
    hide Guide, NextLatch, Flown, ToldMissed;
    var run := Circling(looks);
    forall i | 0 <= i < looks
      ensures !Guide(Eleven, run[i].at, run[i].onMissed).leg.AtMap?
    {
      NeverAtMap(run[i]);
    }
    forall i | 0 <= i < looks - 1
      ensures Flown(Eleven, 1.0, 1.0, run[i], run[i + 1].at)
      ensures run[i + 1].onMissed == NextLatch(Eleven, run[i].at, run[i].onMissed)
      ensures ToldMissed(Eleven, run[i]) ==> run[i + 1].at.altFt == run[i].at.altFt + 100.0
    {
      CirclingLook(run[i], run[i + 1]);
    }
  }
}
