/**
 * The repositioning pattern over whole runs: downwind, then base, then the 45-degree cut, never back
 * to an earlier leg, never across the centreline on base or cut, and turned in within a bounded
 * number of looks from anywhere.
 */
module AsrPattern {
  import opened Arith
  import opened AsrGuide

  /** Turned in: on the course already, or in position and inside the turn-in distance. */
  predicate TurnedIn(p: Profile, s: Aircraft) {
    Established(p, s) || (InPosition(p, s.along, s.cross) && Abs(s.cross) <= TURN_IN_NM)
  }

  /** An ordinary repositioning problem: not turned in, and not told to go missed. */
  predicate Repositioning(p: Profile, s: Aircraft, onMissed: bool) {
    !TurnedIn(p, s) && !IsMissedLeg(Guide(p, s, onMissed).leg)
  }

  /** Which leg of the pattern: downwind 3, base 2, cut 1, turned in 0. */
  function Rank(p: Profile, s: Aircraft): (r: nat) {
    if TurnedIn(p, s) then 0
    else if InPosition(p, s.along, s.cross) then 1
    else if s.along - BaseLegAt(p) < -0.5 then 3
    else 2
  }

  /** `Rank` names the leg `guide` issues, at any altitude and whatever the latch says. */
  lemma RankIsLeg(p: Profile, s: Aircraft, onMissed: bool)
    requires Repositioning(p, s, onMissed)
    ensures var leg := Guide(p, s, onMissed).leg;
            && (Rank(p, s) == 3 <==> leg == Downwind)
            && (Rank(p, s) == 2 <==> leg == Base)
            && (Rank(p, s) == 1 <==> leg == Cut)
            && Rank(p, s) > 0
  {
  }

  /** A box around a run: no further off than `wide`, and no steeper join than `slope` allows. */
  predicate Within(p: Profile, s: Aircraft, wide: real, slope: real) {
    && wide >= TURN_IN_NM && Abs(s.cross) <= wide
    && slope >= wide + 4.5
    && slope >= BASE_INTERCEPT_NM + BaseJoin(s.along - BaseLegAt(p))
  }

  /** Miles left before the turn in: downwind distance to the base, then distance off. */
  function Remaining(p: Profile, s: Aircraft, wide: real): real {
    if Rank(p, s) == 3 then BaseLegAt(p) + 1.5 - s.along + wide else Abs(s.cross)
  }

  /** The least progress a look makes when no join is steeper than `slope` allows. */
  function Pace(least: real, slope: real): (r: real)
    requires slope > 0.0
  {
    3.0 * least / slope
  }

  lemma PaceIsMade(fly: real, sum: real, least: real, slope: real)
    requires 0.0 < least <= fly * sum && 0.0 < sum <= slope && fly > 0.0
    ensures 0.0 < Pace(least, slope) <= 3.0 * fly
  {
    MulMono(sum, slope, fly);
    PaceBelow(3.0 * least, 3.0 * fly, slope);
  }

  lemma PaceBelow(num: real, bound: real, slope: real)
    requires slope > 0.0 && 0.0 < num <= bound * slope
    ensures 0.0 < num / slope <= bound
  {
    var q := num / slope;
    assert q * slope == num;
    if q > bound { SlopeStrict(bound, q, slope); }
    if q < 0.0 { SlopeStrict(q, 0.0, slope); }
  }

  lemma SlopeStrict(x: real, y: real, k: real)
    requires x < y && k > 0.0
    ensures x * k < y * k
  {
    MulPos(y - x, k);
    assert (y - x) * k == y * k - x * k;
  }

  lemma DownwindOrder(p: Profile, s: Aircraft, onMissed: bool)
    requires Repositioning(p, s, onMissed) && Rank(p, s) == 3
    ensures var side := RepositionSide(p, s.cross);
            Guide(p, s, onMissed) == Order(Downwind, 3.0, DownwindJoin(side * s.cross) * side)
  {
  }

  /** What one downwind look does: `k` is how far he drifts outward. */
  lemma DownwindMoves(s: Aircraft, side: real, fly: real, least: real, slope: real, next: Aircraft) returns (k: real)
    requires side == 1.0 || side == -1.0
    requires var o := Order(Downwind, 3.0, DownwindJoin(side * s.cross) * side);
             0.0 < least && Travelled(s, o, fly, least, 2.0, next)
    requires slope >= 3.0 + Abs(DownwindJoin(side * s.cross))
    ensures 0.0 < 3.0 * fly <= 2.0 && 0.0 < Pace(least, slope) <= 3.0 * fly
    ensures next.along == s.along + 3.0 * fly
    ensures side * next.cross == side * s.cross + k && k == fly * DownwindJoin(side * s.cross)
    ensures side * s.cross <= 4.5 ==> 0.0 <= k && side * s.cross + k <= Max(side * s.cross, 1.5)
    ensures side * s.cross > 4.5 ==> k <= 0.0 && side * s.cross + k > 4.5
  {
    hide Travelled, DownwindJoin, Pace;
    var out := side * s.cross;
    var off := DownwindJoin(out);
    TravelBounds(s, Order(Downwind, 3.0, off * side), fly, least, 2.0, next);
    SideTwice(side, s.cross, fly, off);
    k := DownwindDrift(out, fly);
    PaceIsMade(fly, 3.0 + Abs(off), least, slope);
  }

  lemma SideTwice(side: real, cross: real, fly: real, off: real)
    requires side == 1.0 || side == -1.0
    ensures side * (cross + fly * (off * side)) == side * cross + fly * off
    ensures Abs(off * side) == Abs(off)
  {
  }

  /** No join in the box is steeper than the box allows. */
  lemma JoinWithin(p: Profile, s: Aircraft, side: real, wide: real, slope: real)
    requires Within(p, s, wide, slope) && (side == 1.0 || side == -1.0)
    ensures slope >= 3.0 + Abs(DownwindJoin(side * s.cross))
  {
    var out := side * s.cross;
    assert out == s.cross || out == -s.cross;
  }

  lemma DownwindStep(p: Profile, least: real, l: Look, next: Aircraft, wide: real, slope: real)
    requires p.Valid() && Repositioning(p, l.at, l.onMissed) && Rank(p, l.at) == 3
    requires 0.0 < least && Flown(p, least, 2.0, l, next)
    requires Within(p, l.at, wide, slope)
    ensures Within(p, next, wide, slope)
    ensures Remaining(p, next, wide) <= Remaining(p, l.at, wide) - Pace(least, slope)
  {
    hide Established, InPosition, Travelled, Pace;
    var side := RepositionSide(p, l.at.cross);
    JoinWithin(p, l.at, side, wide, slope);
    DownwindOrder(p, l.at, l.onMissed);
    var k := DownwindMoves(l.at, side, l.fly, least, slope, next);
    DownwindNumbers(p, l.at, next, side, k, l.fly, wide, slope);
  }

  /** The linear part of the downwind step. */
  lemma DownwindNumbers(
      p: Profile, s: Aircraft, next: Aircraft, side: real, k: real, fly: real, wide: real, slope: real)
    requires Rank(p, s) == 3 && Within(p, s, wide, slope)
    requires side == RepositionSide(p, s.cross)
    requires 0.0 < 3.0 * fly <= 2.0 && next.along == s.along + 3.0 * fly
    requires side * next.cross == side * s.cross + k
    requires side * s.cross <= 4.5 ==> 0.0 <= k && side * s.cross + k <= Max(side * s.cross, 1.5)
    requires side * s.cross > 4.5 ==> k <= 0.0 && side * s.cross + k > 4.5
    ensures Within(p, next, wide, slope)
    ensures Remaining(p, next, wide) <= Remaining(p, s, wide) - 3.0 * fly
  {
  }

  /** The join converges on the downwind band from either side without crossing it. */
  lemma DownwindDrift(out: real, fly: real) returns (k: real)
    requires 0.0 < fly && 3.0 * fly <= 2.0
    ensures k == fly * DownwindJoin(out)
    ensures out <= 4.5 ==> 0.0 <= k && out + k <= Max(out, 1.5)
    ensures out > 4.5 ==> k <= 0.0 && out + k > 4.5
  {
    k := DriftBy(out, DownwindJoin(out), fly);
  }

  lemma DriftBy(out: real, off: real, fly: real) returns (k: real)
    requires 0.0 < fly && 3.0 * fly <= 2.0
    requires off == if out < 1.5 then 1.5 - out else if out > 4.5 then 4.5 - out else 0.0
    ensures k == fly * off
    ensures out <= 4.5 ==> 0.0 <= k && out + k <= Max(out, 1.5)
    ensures out > 4.5 ==> k <= 0.0 && out + k > 4.5
  {
    k := fly * off;
    if off > 0.0 {
      Fraction(fly, off);
    } else if off < 0.0 {
      Fraction(fly, -off);
      assert fly * -off == -k;
    }
  }

  lemma Share(f: real, x: real)
    requires 0.0 < f < 1.0 && x >= 0.0
    ensures 0.0 <= f * x <= x
  {
    if x > 0.0 { Fraction(f, x); }
  }

  lemma Fraction(f: real, x: real)
    requires 0.0 < f < 1.0 && x > 0.0
    ensures 0.0 < f * x < x
  {
    MulPos(f, x);
    SlopeStrict(f, 1.0, x);
  }

  lemma BaseOrder(p: Profile, s: Aircraft, onMissed: bool)
    requires p.Valid() && Repositioning(p, s, onMissed) && Rank(p, s) == 2
    ensures Guide(p, s, onMissed) == Order(Base, -BaseJoin(s.along - BaseLegAt(p)), -3.0 * Sign(s.cross))
  {
    NotYetInPosition(p, s);
  }

  /** What one base look does: `k` is how far he closes on the base line. */
  lemma BaseMoves(s: Aircraft, side: real, off: real, fly: real, least: real, slope: real, next: Aircraft)
    returns (k: real)
    requires (side == 1.0 || side == -1.0) && off >= 0.0 && slope >= 3.0 + off
    requires 0.0 < least && Travelled(s, Order(Base, -off, -3.0 * side), fly, least, 2.0, next)
    ensures 0.0 < 3.0 * fly <= 2.0 && 0.0 < Pace(least, slope) <= 3.0 * fly
    ensures next.along == s.along - k && 0.0 <= k <= off
    ensures next.cross == s.cross - 3.0 * fly * side
  {
    TravelBounds(s, Order(Base, -off, -3.0 * side), fly, least, 2.0, next);
    k := fly * off;
    assert fly * -off == -k;
    assert fly * (-3.0 * side) == -(3.0 * fly * side);
    Share(fly, off);
    PaceIsMade(fly, 3.0 + off, least, slope);
  }

  lemma BaseStep(p: Profile, least: real, l: Look, next: Aircraft, wide: real, slope: real)
    requires p.Valid() && Repositioning(p, l.at, l.onMissed) && Rank(p, l.at) == 2
    requires 0.0 < least && Flown(p, least, 2.0, l, next)
    requires Within(p, l.at, wide, slope)
    ensures Within(p, next, wide, slope)
    ensures Remaining(p, next, wide) <= Remaining(p, l.at, wide) - Pace(least, slope)
    ensures Rank(p, next) <= 2
    ensures l.at.cross > 0.0 ==> next.cross > 0.0
    ensures l.at.cross < 0.0 ==> next.cross < 0.0
  {
    NotYetInPosition(p, l.at);
    hide Established, InPosition, Travelled, Pace;
    var off := BaseJoin(l.at.along - BaseLegAt(p));
    BaseOrder(p, l.at, l.onMissed);
    var k := BaseMoves(l.at, Sign(l.at.cross), off, l.fly, least, slope, next);
    BaseNumbers(p, l.at, next, k, l.fly, wide, slope);
  }

  /** The linear part of the base step. */
  lemma BaseNumbers(p: Profile, s: Aircraft, next: Aircraft, k: real, fly: real, wide: real, slope: real)
    requires Rank(p, s) == 2 && Within(p, s, wide, slope)
    requires Abs(s.cross) > BaseJoin(s.along - BaseLegAt(p)) + 2.9
    requires 0.0 < 3.0 * fly <= 2.0 && next.along == s.along - k
    requires next.cross == s.cross - 3.0 * fly * Sign(s.cross)
    requires 0.0 <= k <= BaseJoin(s.along - BaseLegAt(p))
    ensures Within(p, next, wide, slope)
    ensures Remaining(p, next, wide) <= Remaining(p, s, wide) - 3.0 * fly
    ensures Rank(p, next) <= 2
    ensures s.cross > 0.0 ==> next.cross > 0.0
    ensures s.cross < 0.0 ==> next.cross < 0.0
  {
  }

  /** Beyond the base line an aircraft not in position is wide enough to fly base without crossing. */
  lemma NotYetInPosition(p: Profile, s: Aircraft)
    requires p.Valid() && !InPosition(p, s.along, s.cross)
    requires s.along - BaseLegAt(p) >= -0.5
    ensures Abs(s.cross) > s.along - BaseLegAt(p) + 3.5
    ensures Abs(s.cross) > BaseJoin(s.along - BaseLegAt(p)) + 2.9
  {
  }

  /** The 45-degree cut spends centreline and offset together, so room is never lost on it. */
  lemma CutStep(p: Profile, least: real, l: Look, next: Aircraft)
    requires p.Valid() && Repositioning(p, l.at, l.onMissed) && Rank(p, l.at) == 1
    requires 0.0 < least && Flown(p, least, 2.0, l, next)
    ensures 0.0 < l.fly < 1.5 && least <= 2.0 * l.fly
    ensures Abs(next.cross) == Abs(l.at.cross) - l.fly
    ensures next.along == l.at.along - l.fly
    ensures Rank(p, next) <= 1
    ensures l.at.cross > 0.0 ==> next.cross > 0.0
    ensures l.at.cross < 0.0 ==> next.cross < 0.0
    ensures NearEnough(p, l.at.along, l.at.cross) ==> NearEnough(p, next.along, next.cross)
    ensures HasRoom(p, l.at.along, l.at.cross) ==> HasRoom(p, next.along, next.cross)
  {
    CutOrder(p, l.at, l.onMissed);
    CutMoves(l.at, Sign(l.at.cross), l.fly, least, next);
    CutNumbers(p, l.at, next, l.fly);
  }

  lemma CutOrder(p: Profile, s: Aircraft, onMissed: bool)
    requires Repositioning(p, s, onMissed) && Rank(p, s) == 1
    ensures Guide(p, s, onMissed) == Order(Cut, -1.0, -Sign(s.cross))
  {
  }

  /** Two miles at 45 degrees closes less than a mile and a half. */
  lemma CutMoves(s: Aircraft, side: real, fly: real, least: real, next: Aircraft)
    requires side == 1.0 || side == -1.0
    requires 0.0 < least && Travelled(s, Order(Cut, -1.0, -side), fly, least, 2.0, next)
    ensures 0.0 < fly < 1.5 && least <= 2.0 * fly
    ensures next.along == s.along - fly && next.cross == s.cross - fly * side
  {
    TravelBounds(s, Order(Cut, -1.0, -side), fly, least, 2.0, next);
    assert fly * fly * ((-1.0) * (-1.0) + (-side) * (-side)) == 2.0 * (fly * fly);
    if fly >= 1.5 { MulMono(1.5, fly, fly); MulMono(1.5, fly, 1.5); }
  }

  /** Closing at 45 degrees keeps both ways of being in position. */
  lemma CutNumbers(p: Profile, s: Aircraft, next: Aircraft, fly: real)
    requires p.Valid() && Rank(p, s) == 1 && 0.0 < fly < 1.5
    requires next.along == s.along - fly && next.cross == s.cross - fly * Sign(s.cross)
    ensures Abs(next.cross) == Abs(s.cross) - fly
    ensures Rank(p, next) <= 1
    ensures s.cross > 0.0 ==> next.cross > 0.0
    ensures s.cross < 0.0 ==> next.cross < 0.0
    ensures NearEnough(p, s.along, s.cross) ==> NearEnough(p, next.along, next.cross)
    ensures HasRoom(p, s.along, s.cross) ==> HasRoom(p, next.along, next.cross)
  {
    hide Established;
    CutRatio(p, s.along, Abs(s.cross), fly);
  }

  lemma CutRatio(p: Profile, along: real, off: real, fly: real)
    requires p.Valid() && fly > 0.0
    ensures off <= along * p.steerOn ==> off - fly <= (along - fly) * p.steerOn
  {
    assert (along - fly) * p.steerOn == along * p.steerOn - fly * p.steerOn;
    MulMono(p.steerOn, 1.0, fly);
  }

  /** One look anywhere in the pattern: later or equal leg, same box, and progress. */
  lemma PatternStep(p: Profile, least: real, l: Look, next: Aircraft, wide: real, slope: real)
    requires p.Valid() && Repositioning(p, l.at, l.onMissed)
    requires 0.0 < least && Flown(p, least, 2.0, l, next)
    requires Within(p, l.at, wide, slope)
    ensures Within(p, next, wide, slope)
    ensures Rank(p, next) <= Rank(p, l.at)
    ensures Remaining(p, next, wide) <= Remaining(p, l.at, wide) - Pace(least, slope)
    ensures Rank(p, l.at) <= 2 && l.at.cross > 0.0 ==> next.cross > 0.0
    ensures Rank(p, l.at) <= 2 && l.at.cross < 0.0 ==> next.cross < 0.0
  {
    hide Established, InPosition, Travelled;
    if Rank(p, l.at) == 3 {
      DownwindStep(p, least, l, next, wide, slope);
    } else if Rank(p, l.at) == 2 {
      BaseStep(p, least, l, next, wide, slope);
    } else {
      RankPositive(p, l.at);
      CutStep(p, least, l, next);
      CutPace(l.fly, least, slope);
    }
  }

  lemma RankPositive(p: Profile, s: Aircraft)
    requires !TurnedIn(p, s)
    ensures 1 <= Rank(p, s) <= 3
  {
    hide Established, InPosition;
  }

  lemma CutPace(fly: real, least: real, slope: real)
    requires 0.0 < least <= 2.0 * fly && slope >= 6.5
    ensures Pace(least, slope) <= fly
  {
    MulMono(6.5, slope, fly);
    PaceBelow(3.0 * least, fly, slope);
  }

  /** Every look but the last is at an aircraft still being repositioned. */
  ghost predicate StillRepositioning(p: Profile, run: seq<Look>) {
    forall i :: 0 <= i < |run| - 1 ==> Repositioning(p, run[i].at, run[i].onMissed)
  }

  predicate ToldMissed(p: Profile, l: Look) { IsMissedLeg(Guide(p, l.at, l.onMissed).leg) }

  /** At no look is he told to go missed. */
  ghost predicate NoMissedLeg(p: Profile, run: seq<Look>) {
    forall i :: 0 <= i < |run| ==> !ToldMissed(p, run[i])
  }

  function Wide(s: Aircraft): real { Max(Abs(s.cross), TURN_IN_NM) }

  function Slope(p: Profile, s: Aircraft): (r: real)
    ensures r >= 6.5
  {
    Wide(s) + 4.5 + BaseJoin(s.along - BaseLegAt(p))
  }

  /** Miles to cover before the turn in, from anywhere. */
  function Distance(p: Profile, s: Aircraft): real {
    Max(BaseLegAt(p) + 1.5 - s.along, 0.0) + Wide(s)
  }

  lemma {:induction false} PatternRun(p: Profile, least: real, run: seq<Look>, i: nat, j: nat)
    requires p.Valid() && 0.0 < least
    requires IsRun(p, least, 2.0, run) && StillRepositioning(p, run)
    requires i <= j < |run|
    ensures Rank(p, run[j].at) <= Rank(p, run[i].at)
    ensures Rank(p, run[i].at) <= 2 && run[i].at.cross > 0.0 ==> run[j].at.cross > 0.0
    ensures Rank(p, run[i].at) <= 2 && run[i].at.cross < 0.0 ==> run[j].at.cross < 0.0
    ensures var wide, slope := Wide(run[i].at), Slope(p, run[i].at);
            && Within(p, run[j].at, wide, slope)
            && Remaining(p, run[j].at, wide) + Times(j - i, Pace(least, slope))
               <= Remaining(p, run[i].at, wide)
    decreases j
  {
    hide Established, InPosition, Travelled, Pace, Remaining, Rank;
    var wide, slope := Wide(run[i].at), Slope(p, run[i].at);
    if i < j {
      PatternRun(p, least, run, i, j - 1);
      assert Flown(p, least, 2.0, run[j - 1], run[j - 1 + 1].at);
      PatternStep(p, least, run[j - 1], run[j].at, wide, slope);
    }
  }

  /** `n` looks' worth of `x`, by addition. */
  function Times(n: nat, x: real): real {
    if n == 0 then 0.0 else Times(n - 1, x) + x
  }

  lemma {:induction false} TimesIsProduct(n: nat, x: real)
    ensures Times(n, x) == n as real * x
  {
    if n > 0 {
      TimesIsProduct(n - 1, x);
      var m := (n - 1) as real;
      assert n as real == m + 1.0;
      assert (m + 1.0) * x == m * x + x;
    }
  }

  /** From any start the legs come in order downwind, base, cut, and never back. */
  lemma NeverBackToAnEarlierLeg(p: Profile, least: real, run: seq<Look>)
    requires p.Valid() && 0.0 < least
    requires IsRun(p, least, 2.0, run) && StillRepositioning(p, run)
    ensures forall i, j :: 0 <= i <= j < |run| ==> Rank(p, run[j].at) <= Rank(p, run[i].at)
  {
    forall i, j | 0 <= i <= j < |run|
      ensures Rank(p, run[j].at) <= Rank(p, run[i].at)
    {
      PatternRun(p, least, run, i, j);
    }
  }

  /** On base and on the cut he stays on the side of the centreline he is on, and off it. */
  lemma NeverCrossesOnBaseOrCut(p: Profile, least: real, run: seq<Look>, i: nat, j: nat)
    requires p.Valid() && 0.0 < least
    requires IsRun(p, least, 2.0, run) && StillRepositioning(p, run)
    requires i < j < |run| && Rank(p, run[i].at) <= 2
    ensures run[i].at.cross * run[j].at.cross > 0.0
  {
    hide Established, InPosition, Travelled, Pace, Remaining;
    PatternRun(p, least, run, i, j);
    OffTheCentreline(p, run[i].at);
    if run[i].at.cross > 0.0 {
      MulPos(run[i].at.cross, run[j].at.cross);
    } else {
      MulPos(-run[i].at.cross, -run[j].at.cross);
      assert (-run[i].at.cross) * (-run[j].at.cross) == run[i].at.cross * run[j].at.cross;
    }
  }

  lemma OffTheCentreline(p: Profile, s: Aircraft)
    requires p.Valid() && !TurnedIn(p, s) && Rank(p, s) <= 2
    ensures s.cross != 0.0
  {
    if Rank(p, s) == 2 { NotYetInPosition(p, s); }
  }

  /** From anywhere, flying what he is told, he is turned in within a bounded number of looks. */
  lemma TurnedInWithinBound(p: Profile, least: real, run: seq<Look>)
    requires p.Valid() && 0.0 < least
    requires |run| > 0 && IsRun(p, least, 2.0, run)
    requires NoMissedLeg(p, run)
    requires (|run| - 1) as real * Pace(least, Slope(p, run[0].at)) > Distance(p, run[0].at)
    ensures exists i :: 0 <= i < |run| && TurnedIn(p, run[i].at)
  {
    hide Guide, TurnedIn, Flown, Pace, Slope, Remaining, Rank, Within;
    if forall i :: 0 <= i < |run| ==> !TurnedIn(p, run[i].at) {
      var n := |run| - 1;
      PatternRun(p, least, run, 0, n);
      RemainingBounds(p, run[0].at, run[n].at);
      TimesIsProduct(n, Pace(least, Slope(p, run[0].at)));
    }
  }

  lemma RemainingBounds(p: Profile, s: Aircraft, t: Aircraft)
    ensures Remaining(p, s, Wide(s)) <= Distance(p, s)
    ensures Remaining(p, t, Wide(s)) >= 0.0
  {
  }

  /** The entry gate and every point of a base leg no wider than the downwind have room. */
  lemma GateHasRoom(p: Profile, side: real, off: real)
    requires side == 1.0 || side == -1.0
    ensures var gate := EntryGate(p, side); HasRoom(p, gate.0, gate.1)
    ensures HasRoom(p, BaseLegAt(p), off) <==> Abs(off) <= DOWNWIND_NM + 0.5
  {
  }

  /** The gate is where the downwind meets the base: there he needs no correction to fly either. */
  lemma GateIsTheCorner(p: Profile, side: real)
    requires side == 1.0 || side == -1.0
    ensures var gate := EntryGate(p, side);
            && gate.0 == BaseLegAt(p) && side * gate.1 == DOWNWIND_NM
            && BaseLegOrder(p, gate.0, gate.1, side) == Order(Base, 0.0, -3.0 * side)
            && forall along :: along < gate.0 - 0.5 ==>
                 BaseLegOrder(p, along, gate.1, side) == Order(Downwind, 3.0, 0.0)
  {
  }

  /** How far from the leg itself a join turns him, exactly: the base join stays within 45 degrees up to
      four and a half miles beyond the base line, the downwind join from a mile and a half across the
      centreline to seven and a half miles out. */
  lemma JoinsWithin45Exactly(p: Profile, s: Aircraft, onMissed: bool)
    ensures var o := Guide(p, s, onMissed);
            && (o.leg.Base? ==> (Abs(o.da) <= Abs(o.dc) <==> s.along - BaseLegAt(p) <= 4.5))
            && (o.leg.Downwind? ==> (Abs(o.dc) <= Abs(o.da) <==> -1.5 <= RepositionSide(p, s.cross) * s.cross <= 7.5))
  {
    hide Established, InPosition, WithinFixRadius;
    var side := RepositionSide(p, s.cross);
    assert side == 1.0 || side == -1.0;
    JoinSize(side * s.cross, side);
  }

  lemma JoinSize(out: real, side: real)
    requires side == 1.0 || side == -1.0
    ensures Abs(DownwindJoin(out) * side) == Abs(DownwindJoin(out))
    ensures Abs(DownwindJoin(out)) <= 3.0 <==> -1.5 <= out <= 7.5
    ensures Abs(-3.0 * side) == 3.0
  {
  }

  lemma WideIsOut(p: Profile, s: Aircraft)
    requires p.Valid() && s.headAlong == 1.0 && s.along >= 0.0
    requires s.cross > s.along && s.cross > p.finalInterceptNm
    ensures !Established(p, s) && !WithinFixRadius(p, s) && !InPosition(p, s.along, s.cross)
  {
    SquareGrows(s.cross, p.finalInterceptNm);
    MulNonNeg(s.along, s.along);
    MulNonNeg(0.31 - p.steerOn, s.along);
    assert (0.31 - p.steerOn) * s.along == 0.31 * s.along - s.along * p.steerOn;
  }

  /** Near the centreline, sent downwind, he is taken out on the side of the missed approach until he is a mile
      and a half along it; further off, on the side he is already on, and never in to the centreline. */
  lemma DownwindSide(p: Profile, s: Aircraft, onMissed: bool)
    requires Guide(p, s, onMissed).leg.Downwind?
    ensures var dc := Guide(p, s, onMissed).dc;
            && (Abs(s.cross) <= 2.0 && p.missedLeft ==> (dc < 0.0 <==> s.cross > -1.5) && dc <= 0.0)
            && (Abs(s.cross) <= 2.0 && !p.missedLeft ==> (dc > 0.0 <==> s.cross < 1.5) && dc >= 0.0)
            && (2.0 < Abs(s.cross) <= 4.5 ==> dc == 0.0)
            && (s.cross > 4.5 ==> dc < 0.0) && (s.cross < -4.5 ==> dc > 0.0)
    ensures Guide(p, s, onMissed).da > 0.0
  {
    hide Established, InPosition, WithinFixRadius;
  }

  /** So an aircraft wide enough is turned further than that onto either. */
  lemma SteeperJoins(p: Profile, onMissed: bool)
    requires p.Valid()
    ensures var far := Aircraft(BaseLegAt(p) + 5.0, 2.0 * BaseLegAt(p) + 10.0, 3000.0, 1.0, 0.0);
            var o := Guide(p, far, onMissed);
            o.leg.Base? && Abs(o.da) > Abs(o.dc)
    ensures var wide := Aircraft(1.0, 8.0 + p.finalInterceptNm, 3000.0, 1.0, 0.0);
            var o := Guide(p, wide, onMissed);
            o.leg.Downwind? && Abs(o.dc) > Abs(o.da)
  {
    var far := Aircraft(BaseLegAt(p) + 5.0, 2.0 * BaseLegAt(p) + 10.0, 3000.0, 1.0, 0.0);
    var wide := Aircraft(1.0, 8.0 + p.finalInterceptNm, 3000.0, 1.0, 0.0);
    WideIsOut(p, far);
    WideIsOut(p, wide);
    hide TrackingIn, InPosition, WithinFixRadius, Established;
    JoinsWithin45Exactly(p, far, onMissed);
    JoinsWithin45Exactly(p, wide, onMissed);
  }

}
