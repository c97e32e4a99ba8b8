/**
 * One radar look of a surveillance approach: where he is, and the leg he is given.
 *
 * Positions are in the frame of the final approach course: `along` is the distance still to run
 * (positive before touchdown) and `cross` the distance off the centreline (positive right of the
 * inbound course).  A heading is a direction vector in that frame, so a heading given in the source
 * as an arctangent becomes the vector whose slope it is and no trigonometry is needed.
 */
module AsrGuide {
  import opened Arith

  const TURN_IN_NM := 2.0
  const DOWNWIND_NM := 3.0
  const BASE_INTERCEPT_NM := 3.0
  const LEG_TOLERANCE_NM := 1.5
  const MAP_OVERSHOOT_NM := 1.0
  const LOOKAHEAD_NM := 2.0
  const LOOKAHEAD_MIN_NM := 1.0

  /** The published procedure.  `steerOn` and `onCourse` are tan 17 and tan 1.5 degrees. */
  datatype Profile = Profile(
    finalInterceptNm: real,
    mapNm: real,
    missedLeft: bool,
    missedClimbFt: real,
    missedStraightFt: real,
    missedAlong: real,
    missedCross: real,
    steerOn: real,
    onCourse: real)
  {
    /** What every published procedure satisfies: final intercepts at 11 or 12 nm, a missed approach point at
        0.5 or 0.6 nm, and the two tangents to the accuracy the proofs use. */
    predicate Valid() {
      && finalInterceptNm >= 5.0
      && 0.25 <= mapNm <= finalInterceptNm
      && 0.3 <= steerOn <= 0.31
      && 0.0 <= onCourse <= 0.03
    }
  }

  datatype Aircraft = Aircraft(along: real, cross: real, altFt: real, headAlong: real, headCross: real)

  /** The leg `guide` puts him on.  AtMap, Final and OnCourse are the established branch. */
  datatype Leg = AtMap | Final | OnCourse | MissedAhead | MissedOut | Cut | RollOn | Downwind | Base

  datatype Phase = PMap | PFinal | PVector | PMissed

  datatype Order = Order(leg: Leg, da: real, dc: real)

  function PhaseOf(leg: Leg): Phase {
    match leg
    case AtMap => PMap
    case Final => PFinal
    case MissedAhead => PMissed
    case MissedOut => PMissed
    case _ => PVector
  }

  predicate IsEstablishedLeg(leg: Leg) { leg.AtMap? || leg.Final? || leg.OnCourse? }

  predicate IsMissedLeg(leg: Leg) { leg.MissedAhead? || leg.MissedOut? }

  /** Heading within sixty degrees of the final approach course. */
  predicate TrackingIn(s: Aircraft) {
    s.headAlong < 0.0 && s.headCross * s.headCross <= 3.0 * (s.headAlong * s.headAlong)
  }

  /** Off the centreline by no more than the on-course tolerance at his range. */
  predicate WithinTolerance(p: Profile, s: Aircraft) {
    s.cross * s.cross <= p.onCourse * p.onCourse * (s.along * s.along + s.cross * s.cross)
  }

  /** The on-course floor of 0.02 nm lies inside the half mile, so it never decides. */
  predicate OnTheCourse(p: Profile, s: Aircraft) {
    (Abs(s.cross) <= TURN_IN_NM / 4.0 || WithinTolerance(p, s)) && TrackingIn(s)
  }

  predicate Established(p: Profile, s: Aircraft) {
    OnTheCourse(p, s) && s.along > -MAP_OVERSHOOT_NM
  }

  predicate HasRoom(p: Profile, along: real, xtk: real) {
    along >= p.finalInterceptNm + Abs(xtk) + TURN_IN_NM
  }

  /** The angle test together with room to close the offset and roll out. */
  predicate NearEnough(p: Profile, along: real, xtk: real) {
    Abs(xtk) <= along * p.steerOn && along >= Abs(xtk) + TURN_IN_NM
  }

  predicate InPosition(p: Profile, along: real, xtk: real) {
    along > 0.0 && (NearEnough(p, along, xtk) || HasRoom(p, along, xtk))
  }

  predicate WithinFixRadius(p: Profile, s: Aircraft) {
    s.along * s.along + s.cross * s.cross <= p.finalInterceptNm * p.finalInterceptNm
  }

  function BaseLegAt(p: Profile): real { p.finalInterceptNm + DOWNWIND_NM + TURN_IN_NM + 0.5 }

  function EntryGate(p: Profile, side: real): (real, real) {
    (p.finalInterceptNm + DOWNWIND_NM + TURN_IN_NM + 0.5, DOWNWIND_NM * side)
  }

  function Sign(x: real): real { if x > 0.0 then 1.0 else -1.0 }

  /** +1 right of the inbound course, -1 left; near the centreline the missed approach decides. */
  function RepositionSide(p: Profile, xtk: real): real {
    if Abs(xtk) > TURN_IN_NM then Sign(xtk) else if p.missedLeft then -1.0 else 1.0
  }

  function Lookahead(along: real): real {
    Min(LOOKAHEAD_NM, Max(LOOKAHEAD_MIN_NM, along / 2.0))
  }

  /** How far outside the downwind band he is, signed: positive when he must open out. */
  function DownwindJoin(outward: real): real {
    var drift := DOWNWIND_NM - outward;
    if Abs(drift) <= LEG_TOLERANCE_NM then 0.0
    else if drift > 0.0 then drift - LEG_TOLERANCE_NM
    else drift + LEG_TOLERANCE_NM
  }

  /** How far beyond the base band he is. */
  function BaseJoin(beyond: real): real { Max(beyond - LEG_TOLERANCE_NM, 0.0) }

  function BaseLegOrder(p: Profile, along: real, xtk: real, side: real): Order {
    var beyond := along - BaseLegAt(p);
    if beyond < -0.5 then Order(Downwind, BASE_INTERCEPT_NM, DownwindJoin(side * xtk) * side)
    else Order(Base, -BaseJoin(beyond), -BASE_INTERCEPT_NM * side)
  }

  function MissedOrder(p: Profile, s: Aircraft): Order {
    if s.altFt < p.missedStraightFt then Order(MissedAhead, -1.0, 0.0)
    else Order(MissedOut, p.missedAlong, p.missedCross)
  }

  /** One look, one leg, in the order the source asks its questions. */
  function Guide(p: Profile, s: Aircraft, onMissed: bool): Order {
    if Established(p, s) then
      Order(if s.along <= p.mapNm then AtMap
            else if 0.0 < s.along <= p.finalInterceptNm then Final
            else OnCourse,
            -Lookahead(s.along), -s.cross)
    else if onMissed && s.altFt < p.missedClimbFt && WithinFixRadius(p, s) then
      MissedOrder(p, s)
    else if InPosition(p, s.along, s.cross) then
      if Abs(s.cross) > TURN_IN_NM then Order(Cut, -1.0, -Sign(s.cross))
      else Order(RollOn, -Lookahead(s.along), -s.cross)
    else if s.along <= 0.0 && Abs(s.cross) <= TURN_IN_NM && WithinFixRadius(p, s)
            && s.altFt < p.missedClimbFt then
      MissedOrder(p, s)
    else
      BaseLegOrder(p, s.along, s.cross, RepositionSide(p, s.cross))
  }

  /** A look at an aircraft, and how far he then flies along the direction he is given. */
  datatype Look = Look(at: Aircraft, onMissed: bool, fly: real)

  /** Flying `fly` times an order's direction: between `least` and `most` miles of it. */
  predicate Travelled(s: Aircraft, o: Order, fly: real, least: real, most: real, next: Aircraft) {
    && fly > 0.0
    && least * least <= fly * fly * (o.da * o.da + o.dc * o.dc) <= most * most
    && next.along == s.along + fly * o.da
    && next.cross == s.cross + fly * o.dc
    && next.headAlong == o.da
    && next.headCross == o.dc
  }

  /** He turns onto the heading given and flies it until the next look. */
  predicate Flown(p: Profile, least: real, most: real, l: Look, next: Aircraft) {
    Travelled(l.at, Guide(p, l.at, l.onMissed), l.fly, least, most, next)
  }

  predicate IsRun(p: Profile, least: real, most: real, run: seq<Look>) {
    forall i :: 0 <= i < |run| - 1 ==> Flown(p, least, most, run[i], run[i + 1].at)
  }

  lemma SquareOfProduct(fly: real, d: real)
    ensures (fly * Abs(d)) * (fly * Abs(d)) == fly * fly * (d * d)
  {
    assert Abs(d) * Abs(d) == d * d;
    var m := Abs(d);
    assert (fly * m) * (fly * m) == fly * fly * (m * m);
  }

  /** Flying an order for at least `least` miles covers it along the two axes together; flying it
      for at most `most` miles moves him no further than that along either. */
  lemma TravelBounds(s: Aircraft, o: Order, fly: real, least: real, most: real, next: Aircraft)
    requires least >= 0.0 && most >= 0.0 && Travelled(s, o, fly, least, most, next)
    ensures fly > 0.0
    ensures next.along == s.along + fly * o.da
    ensures next.cross == s.cross + fly * o.dc
    ensures next.headAlong == o.da && next.headCross == o.dc
    ensures least <= fly * (Abs(o.da) + Abs(o.dc))
    ensures fly * Abs(o.da) <= most && fly * Abs(o.dc) <= most
  {
    var u, v := fly * Abs(o.da), fly * Abs(o.dc);
    SquareOfProduct(fly, o.da);
    SquareOfProduct(fly, o.dc);
    TravelNumbers(u, v, fly * fly * (o.da * o.da + o.dc * o.dc), least, most);
  }

  /** The same, naming how far he goes along each axis. */
  lemma TravelParts(s: Aircraft, o: Order, fly: real, least: real, most: real, next: Aircraft)
    returns (u: real, v: real)
    requires least >= 0.0 && most >= 0.0 && Travelled(s, o, fly, least, most, next)
    ensures fly > 0.0 && u == fly * o.da && v == fly * o.dc
    ensures next.along == s.along + u && next.cross == s.cross + v
    ensures next.headAlong == o.da && next.headCross == o.dc
    ensures least <= Abs(u) + Abs(v) && Abs(u) <= most && Abs(v) <= most
  {
    hide Travelled;
    u, v := fly * o.da, fly * o.dc;
    TravelBounds(s, o, fly, least, most, next);
    AbsOfProduct(fly, o.da);
    AbsOfProduct(fly, o.dc);
    assert fly * (Abs(o.da) + Abs(o.dc)) == fly * Abs(o.da) + fly * Abs(o.dc);
  }

  lemma AbsOfProduct(fly: real, d: real)
    requires fly > 0.0
    ensures Abs(fly * d) == fly * Abs(d)
  {
    if d < 0.0 {
      MulPos(fly, -d);
      assert fly * d == -(fly * -d);
    } else {
      MulNonNeg(fly, d);
    }
  }

  lemma TravelNumbers(u: real, v: real, square: real, least: real, most: real)
    requires u >= 0.0 && v >= 0.0 && least >= 0.0 && most >= 0.0
    requires square == u * u + v * v && least * least <= square <= most * most
    ensures least <= u + v && u <= most && v <= most
  {
    MulNonNeg(u, v);
    assert (u + v) * (u + v) == u * u + v * v + 2.0 * (u * v);
    SquareOrder(least, u + v);
    SquareOrder(u, most);
    SquareOrder(v, most);
  }
}
