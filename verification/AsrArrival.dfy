/** The whole approach: from anywhere to the missed approach point in boundedly many looks. */
module AsrArrival {
  import opened Arith
  import opened AsrGuide
  import opened AsrPattern
  import opened AsrReturn
  import opened AsrTurnIn

  lemma LongerLooks(p: Profile, least: real, most: real, run: seq<Look>)
    requires 0.0 <= most <= 2.0 && IsRun(p, least, most, run)
    ensures IsRun(p, least, 2.0, run)
  {
    hide Guide;
    forall i | 0 <= i < |run| - 1
      ensures Flown(p, least, 2.0, run[i], run[i + 1].at)
    {
      assert Flown(p, least, most, run[i], run[i + 1].at);
      SquareMono(most, 2.0);
    }
  }

  lemma RunSlice(p: Profile, least: real, most: real, run: seq<Look>, i: nat, j: nat)
    requires IsRun(p, least, most, run) && i <= j <= |run|
    ensures IsRun(p, least, most, run[i..j])
  {
    hide Flown;
    forall k | 0 <= k < j - i - 1
      ensures Flown(p, least, most, run[i..j][k], run[i..j][k + 1].at)
    {
      assert Flown(p, least, most, run[i + k], run[i + k + 1].at);
    }
  }

  /** The first look at which he is turned in comes within the bound of the pattern. */
  lemma FirstTurnIn(p: Profile, least: real, run: seq<Look>) returns (i: nat)
    requires p.Valid() && 0.0 < least && |run| > 0 && IsRun(p, least, 2.0, run)
    requires NoMissedLeg(p, run)
    requires (|run| - 1) as real * Pace(least, Slope(p, run[0].at)) > Distance(p, run[0].at)
    ensures i < |run| && TurnedIn(p, run[i].at)
    ensures forall k :: 0 <= k < i ==> !TurnedIn(p, run[k].at)
  {
    TurnedInWithinBound(p, least, run);
    hide TurnedIn, IsRun;
    i := 0;
    while !TurnedIn(p, run[i].at)
      invariant i < |run|
      invariant forall k :: 0 <= k < i ==> !TurnedIn(p, run[k].at)
      invariant exists k :: i <= k < |run| && TurnedIn(p, run[k].at)
      decreases |run| - i
    {
      i := i + 1;
    }
  }

  lemma InPaceShrinks(least: real, wide: real, less: real)
    requires 0.0 < least && 0.0 <= less <= wide
    ensures InPace(least, less) >= InPace(least, wide) > 0.0
  {
    var q := InPace(least, less);
    assert q * (1.0 + less) == least;
    if q <= 0.0 { MulNonNeg(-q, 1.0 + less); }
    MulMono(1.0 + less, 1.0 + wide, q);
    PaceBelow(least, q, 1.0 + wide);
  }

  /** Looks enough: `n` to be turned in, `b` to be in with room, `m` from there to the point. */
  predicate Enough(p: Profile, s: Aircraft, least: real, n: nat, b: nat, m: nat) {
    && n as real * Pace(least, Slope(p, s)) > Distance(p, s)
    && 10.0 + 2.5 * least + 5.0 * Gain(least) <= Times(b, GainUnit(least))
    && m as real * InPace(least, Wide(s)) > BaseLegAt(p) + Slope(p, s) + MAP_OVERSHOOT_NM
  }

  /** Turned in anywhere, he is on the way in within `b` looks. */
  lemma InWithin(p: Profile, least: real, most: real, run: seq<Look>, i: nat, b: nat) returns (k: nat)
    requires p.Valid() && ShortLooks(p, most) && 0.0 < least
    requires IsRun(p, least, most, run) && NoMissedLeg(p, run) && i + b < |run| && TurnedIn(p, run[i].at)
    requires 10.0 + 2.5 * least + 5.0 * Gain(least) <= Times(b, GainUnit(least))
    ensures i <= k <= i + b && OnTheWayIn(p, run[k].at)
    ensures k == i || (Abs(run[k].at.cross) <= 1.5 && run[k].at.along <= 7.0)
  {
    hide Guide, Flown, OnTheWayIn, InPosition, Established, CanRollOut, ToldMissed, Gain, GainUnit;
    var s := run[i].at;
    k := i;
    if Established(p, s) || CanRollOut(s) {
      TurnedInIsOnTheWayIn(p, s);
    } else {
      NoRoomIsReturning(p, s);
      GainIsSmall(least);
      MulNonNeg(Gain(least), s.along - 2.0);
      assert ToGain(8.0, s.along, least) <= 10.0 + 2.5 * least + 5.0 * Gain(least);
      k := ComesBackIn(p, least, most, run, i, 8.0, b);
    }
  }

  /** No wider off than where he started, and no further out than the pattern takes him. */
  predicate InTheBox(p: Profile, start: Aircraft, s: Aircraft) {
    Wide(s) <= Wide(start) && s.along <= BaseLegAt(p) + Slope(p, start)
  }

  lemma TurnsInWithin(p: Profile, least: real, most: real, run: seq<Look>, n: nat) returns (i: nat)
    requires p.Valid() && ShortLooks(p, most) && 0.0 < least && n < |run|
    requires IsRun(p, least, most, run) && NoMissedLeg(p, run)
    requires n as real * Pace(least, Slope(p, run[0].at)) > Distance(p, run[0].at)
    ensures i <= n && TurnedIn(p, run[i].at) && InTheBox(p, run[0].at, run[i].at)
  {
    assert most >= 0.0;
    hide *;
    LongerLooks(p, least, most, run);
    RunSlice(p, least, 2.0, run, 0, n + 1);
    NoMissedSlice(p, run, 0, n + 1);
    var pre := run[0..n + 1];
    assert pre[0] == run[0];
    i := TurnsInBoxed(p, least, pre);
    assert pre[i] == run[i];
  }

  lemma TurnsInBoxed(p: Profile, least: real, run: seq<Look>) returns (i: nat)
    requires p.Valid() && 0.0 < least && |run| > 0 && IsRun(p, least, 2.0, run) && NoMissedLeg(p, run)
    requires (|run| - 1) as real * Pace(least, Slope(p, run[0].at)) > Distance(p, run[0].at)
    ensures i < |run| && TurnedIn(p, run[i].at) && InTheBox(p, run[0].at, run[i].at)
  {
    hide *;
    i := FirstTurnIn(p, least, run);
    TurnInBounds(p, least, run, i);
    Boxed(p, run[0].at, run[i].at);
  }

  lemma Boxed(p: Profile, start: Aircraft, s: Aircraft)
    requires Wide(s) <= Wide(start) && s.along <= BaseLegAt(p) + Slope(p, start)
    ensures InTheBox(p, start, s)
  {
  }

  lemma NoMissedSlice(p: Profile, run: seq<Look>, i: nat, j: nat)
    requires NoMissedLeg(p, run) && i <= j <= |run|
    ensures NoMissedLeg(p, run[i..j])
  {
    hide ToldMissed;
  }

  lemma InWithinTheBox(p: Profile, least: real, most: real, run: seq<Look>, start: Aircraft, i: nat, b: nat)
    returns (k: nat)
    requires p.Valid() && ShortLooks(p, most) && 0.0 < least
    requires IsRun(p, least, most, run) && NoMissedLeg(p, run) && i + b < |run| && TurnedIn(p, run[i].at)
    requires InTheBox(p, start, run[i].at)
    requires 10.0 + 2.5 * least + 5.0 * Gain(least) <= Times(b, GainUnit(least))
    ensures i <= k <= i + b && OnTheWayIn(p, run[k].at) && InTheBox(p, start, run[k].at)
  {
    hide IsRun, TurnedIn, NoMissedLeg, OnTheWayIn, Gain, GainUnit;
    k := InWithin(p, least, most, run, i, b);
    StillInTheBox(p, start, run[i].at, run[k].at);
  }

  /** On the way in at look `k`, with looks enough left, he reaches the point. */
  lemma ArrivesFrom(p: Profile, least: real, most: real, run: seq<Look>, start: Aircraft, k: nat, m: nat)
    requires p.Valid() && ShortLooks(p, most) && 0.0 < least && k + m < |run|
    requires IsRun(p, least, most, run) && NoMissedLeg(p, run)
    requires OnTheWayIn(p, run[k].at) && InTheBox(p, start, run[k].at)
    requires m as real * InPace(least, Wide(start)) > BaseLegAt(p) + Slope(p, start) + MAP_OVERSHOOT_NM
    ensures exists i :: 0 <= i < |run| && Guide(p, run[i].at, run[i].onMissed).leg.AtMap?
  {
    var rest := run[k..|run|];
    hide *;
    RunSlice(p, least, most, run, k, |run|);
    NoMissedSlice(p, run, k, |run|);
    SomeLooks(p, start, m, InPace(least, Wide(start)));
    assert rest[0] == run[k] && |rest| > m;
    AndReaches(p, least, most, rest, start, m);
    var j :| 0 <= j < |rest| && Guide(p, rest[j].at, rest[j].onMissed).leg.AtMap?;
    assert rest[j] == run[k + j];
  }

  lemma AndReaches(p: Profile, least: real, most: real, run: seq<Look>, start: Aircraft, m: nat)
    requires p.Valid() && ShortLooks(p, most) && 0.0 < least && |run| > m > 0
    requires IsRun(p, least, most, run) && NoMissedLeg(p, run)
    requires OnTheWayIn(p, run[0].at) && InTheBox(p, start, run[0].at)
    requires m as real * InPace(least, Wide(start)) > BaseLegAt(p) + Slope(p, start) + MAP_OVERSHOOT_NM
    ensures exists i :: 0 <= i < |run| && Guide(p, run[i].at, run[i].onMissed).leg.AtMap?
  {
    hide Guide, OnTheWayIn, InPace, NoMissedLeg, IsRun, Slope, BaseLegAt, ShortLooks;
    EnoughFromHere(p, least, start, run[0].at, m, |run| - 1);
    ReachesTheMissedApproachPoint(p, least, most, run);
  }

  lemma EnoughFromHere(p: Profile, least: real, start: Aircraft, s: Aircraft, m: nat, k: nat)
    requires 0.0 < least && m <= k && InTheBox(p, start, s)
    requires m as real * InPace(least, Wide(start)) > BaseLegAt(p) + Slope(p, start) + MAP_OVERSHOOT_NM
    ensures k as real * InPace(least, Wide(s)) > s.along + MAP_OVERSHOOT_NM
  {
    hide InPace, Slope, BaseLegAt;
    InPaceShrinks(least, Wide(start), Wide(s));
    MorePace(m, k, InPace(least, Wide(start)), InPace(least, Wide(s)));
  }

  /** From any position and heading, an aircraft that flies what it is told and is never told to go
      missed is at the missed approach point within a bounded number of looks, turned in with room or
      sent back out however often. */
  lemma ArrivesFromAnywhere(p: Profile, least: real, most: real, run: seq<Look>, n: nat, b: nat, m: nat)
    requires p.Valid() && ShortLooks(p, most) && 0.0 < least
    requires |run| > n + b + m && IsRun(p, least, most, run) && NoMissedLeg(p, run)
    requires Enough(p, run[0].at, least, n, b, m)
    ensures exists i :: 0 <= i < |run| && Guide(p, run[i].at, run[i].onMissed).leg.AtMap?
  {
    hide Guide, Flown, OnTheWayIn, TurnedIn, IsRun, NoMissedLeg, InTheBox, Pace, InPace, Gain, GainUnit, Distance;
    var i := TurnsInWithin(p, least, most, run, n);
    var k := InWithinTheBox(p, least, most, run, run[0].at, i, b);
    ArrivesFrom(p, least, most, run, run[0].at, k, m);
  }

  /** Some numbers of looks are always enough. */
  lemma SomeNumberIsEnough(p: Profile, s: Aircraft, least: real) returns (n: nat, b: nat, m: nat)
    requires p.Valid() && 0.0 < least
    ensures Enough(p, s, least, n, b, m)
  {
    hide Pace, InPace, Distance, Gain, GainUnit, Slope, BaseLegAt, Wide;
    n := SlopeLooks(p, s, least);
    GainIsSmall(least);
    GainUnitPositive(least);
    b := Looks(10.0 + 2.5 * least + 5.0 * Gain(least), GainUnit(least));
    TimesIsProduct(b, GainUnit(least));
    WideIsWide(s);
    InPaceShrinks(least, Wide(s), Wide(s));
    m := Looks(BaseLegAt(p) + Slope(p, s) + MAP_OVERSHOOT_NM, InPace(least, Wide(s)));
  }

  lemma WideIsWide(s: Aircraft)
    ensures Wide(s) >= 0.0
  {
  }

  lemma GainUnitPositive(least: real)
    requires 0.0 < least
    ensures GainUnit(least) > 0.0
  {
    GainIsSmall(least);
    MulPos(Gain(least), least / 2.0);
  }

  lemma SlopeLooks(p: Profile, s: Aircraft, least: real) returns (n: nat)
    requires p.Valid() && 0.0 < least
    ensures n as real * Pace(least, Slope(p, s)) > Distance(p, s)
  {
    hide Distance;
    n := Looks(Distance(p, s), Pace(least, Slope(p, s)));
  }

  /** So many steps of `unit` go further than `far`. */
  lemma Looks(far: real, unit: real) returns (n: nat)
    requires unit > 0.0
    ensures n as real * unit > far
  {
    var q := far / unit;
    assert q * unit == far;
    n := if q < 0.0 then 0 else q.Floor + 1;
    MulPos(n as real - q, unit);
    assert (n as real - q) * unit == n as real * unit - q * unit;
  }

  lemma SomeLooks(p: Profile, start: Aircraft, m: nat, pace: real)
    requires p.Valid() && m as real * pace > BaseLegAt(p) + Slope(p, start) + MAP_OVERSHOOT_NM
    ensures m > 0
  {
    if m == 0 { SlopePositive(p, start); }
  }

  lemma StillInTheBox(p: Profile, start: Aircraft, turned: Aircraft, back: Aircraft)
    requires p.Valid() && Wide(turned) <= Wide(start) && turned.along <= BaseLegAt(p) + Slope(p, start)
    requires back == turned || (Abs(back.cross) <= 1.5 && back.along <= 7.0)
    ensures Wide(back) <= Wide(start) && back.along <= BaseLegAt(p) + Slope(p, start)
  {
  }

  lemma SlopePositive(p: Profile, s: Aircraft)
    requires p.Valid()
    ensures BaseLegAt(p) + Slope(p, s) > 0.0
  {
  }

  lemma MorePace(m: nat, k: nat, x: real, y: real)
    requires m <= k && 0.0 < x <= y
    ensures m as real * x <= k as real * y
  {
    var a, b := m as real, k as real;
    MulMono(a, b, x);
    MulMono(x, y, b);
  }

  /** Where the first turn in finds him: no wider than he started, and no further than the box. */
  lemma TurnInBounds(p: Profile, least: real, run: seq<Look>, i: nat)
    requires p.Valid() && 0.0 < least && IsRun(p, least, 2.0, run)
    requires NoMissedLeg(p, run)
    requires i < |run| && forall k :: 0 <= k < i ==> !TurnedIn(p, run[k].at)
    ensures Wide(run[i].at) <= Wide(run[0].at)
    ensures run[i].at.along <= BaseLegAt(p) + Slope(p, run[0].at)
  {
    hide TurnedIn, Flown, Pace, Remaining, Rank;
    RunSlice(p, least, 2.0, run, 0, i + 1);
    PatternRun(p, least, run[..i + 1], 0, i);
  }

  // ---------------------------------------------------------------- nothing assumed but where he starts

  /** Not over the field or on the climb-out: ahead of touchdown, well off the centreline, or
      established. */
  predicate Clear(p: Profile, s: Aircraft) { Established(p, s) || s.along > 0.0 || Abs(s.cross) > TURN_IN_NM }

  /** The latch is set only by being told to go missed. */
  ghost predicate LatchIsTold(p: Profile, run: seq<Look>) {
    forall i :: 0 <= i < |run| && run[i].onMissed ==> exists k :: 0 <= k < i && ToldMissed(p, run[k])
  }

  lemma ClearIsNotMissed(p: Profile, l: Look)
    requires Clear(p, l.at) && !l.onMissed
    ensures !ToldMissed(p, l)
  {
    hide Established, InPosition, WithinFixRadius;
  }

  lemma TwoMilesAhead(s: Aircraft, o: Order, fly: real, least: real, most: real, next: Aircraft)
    requires Travelled(s, o, fly, least, most, next) && least >= 0.0 && 0.0 < most <= 2.0 && s.along > 2.0
    ensures next.along > 0.0
  {
    hide Travelled;
    var u, v := TravelParts(s, o, fly, least, most, next);
  }

  lemma DownwindStaysClear(p: Profile, l: Look, least: real, most: real, next: Aircraft)
    requires p.Valid() && 0.0 < least && 0.0 < most <= 2.0 && Flown(p, least, most, l, next)
    requires Repositioning(p, l.at, l.onMissed) && Rank(p, l.at) == 3 && Clear(p, l.at)
    ensures Clear(p, next)
  {
    var s, side := l.at, RepositionSide(p, l.at.cross);
    DownwindOrder(p, s, l.onMissed);
    assert side == 1.0 || side == -1.0;
    assert Abs(s.cross) > 2.0 ==> side * s.cross > 2.0;
    NotEstablished(p, s);
    hide Guide, Established, InPosition, Travelled, DownwindJoin, Pace, RepositionSide, Rank;
    var o := Order(Downwind, 3.0, DownwindJoin(side * s.cross) * side);
    LeastIsShort(s, o, l.fly, least, most, next);
    var k := DownwindMoves(s, side, l.fly, least, 3.0 + Abs(DownwindJoin(side * s.cross)), next);
    assert side * next.cross > 2.0 ==> Abs(next.cross) > 2.0;
  }

  lemma NotEstablished(p: Profile, s: Aircraft)
    requires !TurnedIn(p, s)
    ensures !Established(p, s)
  {
  }

  lemma AheadUnlessDownwind(p: Profile, s: Aircraft)
    requires p.Valid() && Rank(p, s) != 3 && !Established(p, s)
    ensures s.along > 2.0 || OnTheWayIn(p, s)
  {
    hide Established, TrackingIn, RollOutRoom;
  }

  lemma InIsClear(p: Profile, s: Aircraft)
    requires OnTheWayIn(p, s)
    ensures Clear(p, s)
  {
    if Settled(s) { SettledIsEstablished(p, s); }
    hide Established, Settled;
  }

  /** One look before the missed approach point leaves him clear of the field. */
  lemma ClearStep(p: Profile, l: Look, least: real, most: real, next: Aircraft)
    requires p.Valid() && ShortLooks(p, most) && 0.0 < least && Flown(p, least, most, l, next)
    requires Clear(p, l.at) && !ToldMissed(p, l) && !Guide(p, l.at, l.onMissed).leg.AtMap?
    ensures Clear(p, next)
  {
    var s := l.at;
    if Established(p, s) { EstablishedIsOnTheWayIn(p, s); } else if Rank(p, s) != 3 { AheadUnlessDownwind(p, s); }
    hide Guide, Established, OnTheWayIn, Travelled, Rank, Clear, InPace;
    if OnTheWayIn(p, s) {
      InboundStep(p, l, least, most, Wide(s), next);
      InIsClear(p, next);
    } else if Rank(p, s) == 3 {
      RankThree(p, s);
      DownwindStaysClear(p, l, least, most, next);
    } else {
      TwoMilesAhead(s, Guide(p, s, l.onMissed), l.fly, least, most, next);
      AheadIsClear(p, next);
    }
  }

  lemma RankThree(p: Profile, s: Aircraft)
    requires Rank(p, s) == 3
    ensures !TurnedIn(p, s)
  {
  }

  lemma AheadIsClear(p: Profile, s: Aircraft)
    requires s.along > 0.0
    ensures Clear(p, s)
  {
  }

  lemma {:induction false} StaysClear(p: Profile, least: real, most: real, run: seq<Look>, j: nat)
    requires p.Valid() && ShortLooks(p, most) && 0.0 < least && IsRun(p, least, most, run)
    requires j < |run| && Clear(p, run[0].at) && LatchIsTold(p, run) && NotYetAtMap(p, run, |run|)
    ensures Clear(p, run[j].at) && forall k :: 0 <= k <= j ==> !ToldMissed(p, run[k])
  {
    hide Clear, Guide, Flown, ToldMissed;
    if j > 0 {
      StaysClear(p, least, most, run, j - 1);
      assert Flown(p, least, most, run[j - 1], run[j - 1 + 1].at);
      ClearStep(p, run[j - 1], least, most, run[j].at);
    }
    ClearIsNotMissed(p, run[j]);
  }

  /** The whole approach with nothing assumed of it: from any start clear of the field, at any altitude,
      an aircraft that flies what it is told is at the missed approach point within the bound. */
  lemma ArrivesUnlessOverTheField(p: Profile, least: real, most: real, run: seq<Look>, n: nat, b: nat, m: nat)
    requires p.Valid() && ShortLooks(p, most) && 0.0 < least
    requires |run| > n + b + m && IsRun(p, least, most, run) && LatchIsTold(p, run)
    requires Clear(p, run[0].at) && Enough(p, run[0].at, least, n, b, m)
    ensures exists i :: 0 <= i < |run| && Guide(p, run[i].at, run[i].onMissed).leg.AtMap?
  {
    hide Clear, Guide, IsRun, ToldMissed, LatchIsTold, Enough;
    if NotYetAtMap(p, run, |run|) {
      StaysClear(p, least, most, run, |run| - 1);
      ArrivesFromAnywhere(p, least, most, run, n, b, m);
    }
  }
}
