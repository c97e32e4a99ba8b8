/**
 * What happens after the turn in: whether an aircraft flying what it is told is ever sent back out,
 * and that it reaches the missed approach point without jumping it.
 *
 * The answer is exact.  Rolling on, the lookahead is half the distance to run, so distance to run
 * falls like the square root of the offset, and he reaches the half-mile course with the two and a
 * half miles the angle test asks for precisely when along * along >= 12.5 * |cross|.
 */
module AsrTurnIn {
  import opened Arith
  import opened AsrGuide
  import opened AsrPattern

  predicate RollOutRoom(along: real, off: real) { along * along >= 12.5 * off }

  /** Within half a mile of the centreline, pointing down it, not past the missed approach point. */
  predicate Settled(s: Aircraft) {
    Abs(s.cross) <= 0.5 && TrackingIn(s) && s.along > -MAP_OVERSHOOT_NM
  }

  predicate OnTheWayIn(p: Profile, s: Aircraft) {
    Settled(s) || (InPosition(p, s.along, s.cross) && CanRollOut(s))
  }

  /** What a caller can check at the turn in. */
  predicate CanRollOut(s: Aircraft) {
    Abs(s.cross) <= 0.5 || RollOutRoom(s.along, Abs(s.cross))
  }

  predicate IsPatternLeg(leg: Leg) { leg.Downwind? || leg.Base? }

  /** No look is longer than the pattern's two miles, nor than the missed approach point is wide. */
  predicate ShortLooks(p: Profile, most: real) { 0.0 < most <= 2.0 && most <= p.mapNm + MAP_OVERSHOOT_NM }

  // ---------------------------------------------------------------- arithmetic of the roll-on

  /** Distance to run squared falls no faster than the offset, whichever lookahead applies. */
  lemma RollKeepsRoom(along: real, off: real, look: real, fly: real)
    requires RollOutRoom(along, off) && off > 0.5 && along > 0.0
    requires look == Lookahead(along) && 0.0 < fly <= 1.0
    ensures along >= 2.5 && look >= 1.25
    ensures RollOutRoom(along - fly * look, off - fly * off)
  {
    SquareOrder(2.5, along);
    if along >= 4.0 {
      RollFar(along, fly);
    } else {
      RollNear(along, fly);
    }
    var left := along - fly * look;
    assert left * left >= (1.0 - fly) * (along * along);
    ScaleRoom(along * along, off, fly);
  }

  lemma RollFar(along: real, fly: real)
    requires along >= 4.0 && 0.0 < fly <= 1.0
    ensures (along - fly * 2.0) * (along - fly * 2.0) >= (1.0 - fly) * (along * along)
  {
    var k := along * (along - 4.0) + 4.0 * fly;
    MulNonNeg(along, along - 4.0);
    MulNonNeg(fly, k);
    assert (along - fly * 2.0) * (along - fly * 2.0) - (1.0 - fly) * (along * along) == fly * k;
  }

  lemma RollNear(along: real, fly: real)
    ensures (along - fly * (along / 2.0)) * (along - fly * (along / 2.0)) >= (1.0 - fly) * (along * along)
  {
    var h := along * fly / 2.0;
    assert fly * (along / 2.0) == h;
    assert (along - h) * (along - h) == along * along - 2.0 * along * h + h * h;
    assert 2.0 * along * h == fly * (along * along);
    assert (1.0 - fly) * (along * along) == along * along - fly * (along * along);
  }

  lemma ScaleRoom(square: real, off: real, fly: real)
    requires square >= 12.5 * off && fly <= 1.0
    ensures (1.0 - fly) * square >= 12.5 * (off - fly * off)
  {
    MulMono(12.5 * off, square, 1.0 - fly);
    assert (1.0 - fly) * (12.5 * off) == 12.5 * (off - fly * off);
  }

  /** With that room left, the angle test and the run both still hold. */
  lemma RoomIsEnough(along: real, off: real)
    requires RollOutRoom(along, off) && 0.5 < off <= 8.0 && along > 0.0
    ensures along >= off + 2.0 && along > 2.5
  {
    MulNonNeg(off - 0.5, 8.0 - off);
    assert (off - 0.5) * (8.0 - off) == 8.5 * off - off * off - 4.0;
    assert (off + 2.0) * (off + 2.0) == off * off + 4.0 * off + 4.0;
    SquareOrder(off + 2.0, along);
  }

  /** One roll-on look keeps him near enough, as long as he is still outside half a mile. */
  lemma RollStaysNear(p: Profile, along: real, off: real, fly: real, left: real, rest: real)
    requires p.Valid() && 0.0 < fly <= 1.0
    requires along > 0.0 && NearEnough(p, along, off) && RollOutRoom(along, off) && off > 0.5
    requires left == along - fly * Lookahead(along) && rest == off - fly * off
    ensures left > 0.0 && RollOutRoom(left, rest)
    ensures rest > 0.5 ==> NearEnough(p, left, rest)
  {
    hide NearEnough;
    var look := Lookahead(along);
    RollKeepsRoom(along, off, look, fly);
    LeftIsAhead(along, look, fly);
    if rest > 0.5 {
      MulPos(fly, off);
      NearFromParts(p, along, off, left, rest, look, fly);
    }
  }

  lemma LeftIsAhead(along: real, look: real, fly: real)
    requires along >= 2.5 && look == Lookahead(along) && 0.0 < fly <= 1.0
    ensures along - fly * look > 0.0
  {
    MulMono(fly, 1.0, look);
  }

  lemma NearFromParts(p: Profile, along: real, off: real, left: real, rest: real, look: real, fly: real)
    requires p.Valid() && 0.0 < fly <= 1.0 && NearEnough(p, along, off)
    requires off >= 0.0 && look == Lookahead(along)
    requires left == along - fly * look && rest == off - fly * off
    requires left > 0.0 && RollOutRoom(left, rest) && 0.5 < rest <= off
    ensures NearEnough(p, left, rest)
  {
    RestRatio(p.steerOn, along, off, look, fly, left, rest);
    RestRoom(p.steerOn, left, rest);
  }

  lemma RestRatio(t: real, along: real, off: real, look: real, fly: real, left: real, rest: real)
    requires 0.3 <= t <= 0.31 && 0.0 < fly <= 1.0
    requires off <= along * t && look <= 2.0
    requires left == along - fly * look && rest == off - fly * off
    requires left > 0.0 && RollOutRoom(left, rest) && 0.5 < rest <= off
    ensures rest <= left * t
  {
    if off >= look * t {
      MulMono(look * t, off, fly);
      assert left * t == along * t - fly * (look * t);
    } else {
      RestIsClose(t, off, look, fly, rest);
      SquareOrder(2.5, left);
      MulNonNeg(left - 2.5, t);
      assert (left - 2.5) * t == left * t - 2.5 * t;
    }
  }

  lemma RestIsClose(t: real, off: real, look: real, fly: real, rest: real)
    requires 0.3 <= t <= 0.31 && look <= 2.0 && off <= look * t && rest <= off
    ensures rest <= 0.62 <= 2.5 * t
  {
    MulNonNeg(2.0 - look, t);
    assert (2.0 - look) * t == 2.0 * t - look * t;
  }

  lemma RestRoom(t: real, left: real, rest: real)
    requires 0.3 <= t <= 0.31 && left > 0.0 && rest > 0.5
    requires RollOutRoom(left, rest) && rest <= left * t
    ensures left >= rest + 2.0
  {
    if rest <= 8.0 {
      RoomIsEnough(left, rest);
    } else {
      MulNonNeg(0.31 - t, left);
      assert left * t <= 0.31 * left;
    }
  }

  // ---------------------------------------------------------------- one look on the way in

  /** A course kept at long range by tolerance rather than distance is still near enough. */
  lemma ToleranceIsNear(p: Profile, s: Aircraft)
    requires p.Valid() && WithinTolerance(p, s) && s.along > 0.0 && Abs(s.cross) > 0.5
    ensures NearEnough(p, s.along, Abs(s.cross))
  {
    var off, k := Abs(s.cross), p.onCourse;
    assert off * off == s.cross * s.cross;
    var both := s.along * s.along + off * off;
    SquareMono(k, 0.03);
    MulNonNeg(off, off);
    MulNonNeg(s.along, s.along);
    MulNonNeg(0.0009 - k * k, both);
    assert (0.0009 - k * k) * both == 0.0009 * both - k * k * both;
    ToleranceNumbers(s.along, off);
    MulNonNeg(p.steerOn - 0.3, s.along);
    assert s.along * p.steerOn >= 0.3 * s.along;
  }

  lemma ToleranceNumbers(along: real, off: real)
    requires along > 0.0 && off >= 0.0 && off * off <= 0.0009 * (along * along + off * off)
    ensures off <= 0.04 * along
  {
    assert (0.04 * along) * (0.04 * along) == 0.0016 * (along * along);
    MulNonNeg(along, along);
    SquareOrder(off, 0.04 * along);
  }

  /** With the final intercept five miles out, room for a full intercept inside the turn-in distance
      is more than near enough. */
  lemma RollingIsNear(p: Profile, s: Aircraft)
    requires p.Valid() && InPosition(p, s.along, s.cross) && Abs(s.cross) > 0.5
    requires Established(p, s) || Abs(s.cross) <= TURN_IN_NM
    ensures NearEnough(p, s.along, Abs(s.cross))
  {
    if Abs(s.cross) > TURN_IN_NM {
      ToleranceIfWide(p, s);
      ToleranceIsNear(p, s);
    } else if HasRoom(p, s.along, s.cross) {
      SteerReach(s.along, p.steerOn);
    }
  }

  lemma ToleranceIfWide(p: Profile, s: Aircraft)
    requires Established(p, s) && Abs(s.cross) > TURN_IN_NM
    ensures WithinTolerance(p, s)
  {
  }

  lemma SteerReach(along: real, t: real)
    requires along >= 7.0 && t >= 0.3
    ensures along * t >= 2.1
  {
    MulMono(0.3, t, along);
  }

  /** Beyond the turn-in distance being in position is already room to roll out. */
  lemma FarIsRoom(p: Profile, along: real, off: real)
    requires p.Valid() && off > 2.0 && InPosition(p, along, off)
    ensures along >= off + 4.4
  {
    if NearEnough(p, along, off) { MulMono(p.steerOn, 0.31, along); }
  }

  lemma RoomFromMargin(along: real, off: real)
    requires off >= 0.0 && along >= off + 4.4
    ensures RollOutRoom(along, off)
  {
    assert (off + 4.4) * (off + 4.4) == off * off + 8.8 * off + 19.36;
    assert (off - 1.85) * (off - 1.85) == off * off - 3.7 * off + 3.4225;
    MulMono(off + 4.4, along, off + 4.4);
    MulMono(off + 4.4, along, along);
  }

  /** Where the roll-on takes him; `k` is how far down the course. */
  lemma RollMoves(s: Aircraft, leg: Leg, look: real, fly: real, least: real, most: real, next: Aircraft)
    returns (k: real)
    requires least >= 0.0 && 0.0 < most <= 2.0 && look >= 1.0
    requires Travelled(s, Order(leg, -look, -s.cross), fly, least, most, next)
    ensures 0.0 < fly <= k <= most && k == fly * look
    ensures look >= 2.0 ==> fly <= 1.0
    ensures next.along == s.along - k
    ensures Abs(next.cross) <= Abs(s.cross)
    ensures Abs(next.cross)
            == if fly <= 1.0 then Abs(s.cross) - fly * Abs(s.cross) else fly * Abs(s.cross) - Abs(s.cross)
    ensures Abs(next.cross) >= Abs(s.cross) - most
    ensures least <= k + k * Abs(s.cross)
    ensures next.headAlong == -look && next.headCross == -s.cross
  {
    hide *;
    var u, v := TravelParts(s, Order(leg, -look, -s.cross), fly, least, most, next);
    k := RollNumbers(s.cross, look, fly, u, v, least, most);
  }

  lemma RollNumbers(cross: real, look: real, fly: real, u: real, v: real, least: real, most: real) returns (k: real)
    requires fly > 0.0 && look >= 1.0 && most <= 2.0 && u == fly * -look && v == fly * -cross
    requires least <= Abs(u) + Abs(v) && Abs(u) <= most && Abs(v) <= most
    ensures k == fly * look && u == -k && 0.0 < fly <= k <= most
    ensures look >= 2.0 ==> fly <= 1.0
    ensures Abs(cross + v) <= Abs(cross)
    ensures Abs(cross + v) == if fly <= 1.0 then Abs(cross) - fly * Abs(cross) else fly * Abs(cross) - Abs(cross)
    ensures Abs(cross + v) >= Abs(cross) - most
    ensures least <= k + k * Abs(cross)
  {
    k := fly * look;
    assert u == -k;
    var off := Abs(cross);
    RollFraction(fly, look, k);
    assert fly * -cross == -(fly * cross);
    AbsOfProduct(fly, cross);
    OffShrinks(cross, off, fly, fly * off, v);
    MulMono(fly, k, off);
  }

  lemma RollFraction(fly: real, look: real, k: real)
    requires fly > 0.0 && look >= 1.0 && k == fly * look && k <= 2.0
    ensures fly <= k && (look >= 2.0 ==> fly <= 1.0)
  {
    MulNonNeg(look - 1.0, fly);
    assert (look - 1.0) * fly == k - fly;
    if look >= 2.0 {
      MulNonNeg(look - 2.0, fly);
      assert (look - 2.0) * fly == k - 2.0 * fly;
    }
  }

  lemma OffShrinks(cross: real, off: real, fly: real, m: real, step: real)
    requires 0.0 < fly <= 2.0 && off == Abs(cross) && m == fly * off && step == fly * -cross
    ensures Abs(cross + step) <= off
    ensures Abs(cross + step) == if fly <= 1.0 then off - m else m - off
  {
    assert step == if cross < 0.0 then m else -m;
    ShareBounds(fly, off, m);
  }

  lemma ShareBounds(fly: real, off: real, m: real)
    requires 0.0 < fly <= 2.0 && off >= 0.0 && m == fly * off
    ensures 0.0 <= m <= 2.0 * off && (if fly <= 1.0 then m <= off else m >= off)
  {
  }

  lemma RollTracks(s: Aircraft, next: Aircraft)
    requires next.headAlong == -Lookahead(s.along) && next.headCross == -s.cross
    requires 10.0 * Abs(s.cross) <= 17.0 * Lookahead(s.along)
    ensures TrackingIn(next)
  {
    var look := Lookahead(s.along);
    assert look >= 1.0;
    TrackNumbers(look, Abs(s.cross));
    assert s.cross * s.cross == Abs(s.cross) * Abs(s.cross);
    assert (-s.cross) * (-s.cross) == s.cross * s.cross;
    assert (-look) * (-look) == look * look;
  }

  lemma TrackNumbers(look: real, off: real)
    requires look >= 1.0 && off >= 0.0 && 10.0 * off <= 17.0 * look
    ensures off * off <= 3.0 * (look * look)
  {
    SquareMono(off, 1.7 * look);
    assert (1.7 * look) * (1.7 * look) == 2.89 * (look * look);
    MulNonNeg(look, look);
  }

  /** How far along one look brings him, when he is never further off than `wide`. */
  function InPace(least: real, wide: real): real
    requires wide >= 0.0
  {
    least / (1.0 + wide)
  }

  lemma InPaceBelow(least: real, wide: real, k: real, off: real)
    requires 0.0 <= off <= wide && k > 0.0 && least >= 0.0 && least <= k + k * off
    ensures InPace(least, wide) <= k
  {
    MulMono(off, wide, k);
    assert k * (1.0 + wide) == k + k * wide;
    if least > 0.0 { PaceBelow(least, k, 1.0 + wide); }
  }

  /** What every look on the way in gives the next one. */
  ghost predicate StillIn(p: Profile, s: Aircraft, next: Aircraft, pace: real) {
    && OnTheWayIn(p, next)
    && (Settled(s) ==> Settled(next))
    && Abs(next.cross) <= Abs(s.cross)
    && next.along <= s.along - pace
    && next.along > -MAP_OVERSHOOT_NM
  }

  lemma SettledIsEstablished(p: Profile, s: Aircraft)
    requires Settled(s)
    ensures Established(p, s)
  {
  }

  lemma RollOrder(p: Profile, l: Look)
    requires !ToldMissed(p, l) && OnTheWayIn(p, l.at)
    requires Established(p, l.at) || Abs(l.at.cross) <= TURN_IN_NM
    ensures var o := Guide(p, l.at, l.onMissed);
            && (IsEstablishedLeg(o.leg) || o.leg.RollOn?)
            && o == Order(o.leg, -Lookahead(l.at.along), -l.at.cross)
            && (o.leg.AtMap? <==> Established(p, l.at) && l.at.along <= p.mapNm)
            && (o.leg.RollOn? <==> !Established(p, l.at))
  {
    hide WithinFixRadius, RollOutRoom, InPosition, Lookahead, WithinTolerance;
  }

  lemma CutOrderIn(p: Profile, l: Look)
    requires !ToldMissed(p, l) && OnTheWayIn(p, l.at)
    requires !Established(p, l.at) && Abs(l.at.cross) > TURN_IN_NM
    ensures Guide(p, l.at, l.onMissed) == Order(Cut, -1.0, -Sign(l.at.cross))
  {
    hide WithinFixRadius, RollOutRoom, InPosition, WithinTolerance;
  }

  lemma LookaheadBounds(along: real)
    ensures 1.0 <= Lookahead(along) <= 2.0
    ensures along >= 2.5 ==> Lookahead(along) >= 1.25
  {
  }

  /** Close to the centreline he settles, and stays settled. */
  lemma CloseStep(p: Profile, s: Aircraft, leg: Leg, fly: real, least: real, most: real, wide: real, next: Aircraft)
    requires p.Valid() && ShortLooks(p, most) && least >= 0.0
    requires Abs(s.cross) <= 0.5 <= wide && (s.along > p.mapNm || s.along >= 2.0)
    requires Travelled(s, Order(leg, -Lookahead(s.along), -s.cross), fly, least, most, next)
    ensures Settled(next) && StillIn(p, s, next, InPace(least, wide))
  {
    hide Travelled, TrackingIn, InPace, Lookahead, Settled, StillIn;
    LookaheadBounds(s.along);
    var k := RollClose(s, leg, Lookahead(s.along), fly, least, most, wide, next);
    RollTracks(s, next);
    SettlesIn(p, s, next, InPace(least, wide));
  }

  /** What a roll-on look does, without its products. */
  lemma RollClose(s: Aircraft, leg: Leg, look: real, fly: real, least: real, most: real, wide: real, next: Aircraft)
    returns (k: real)
    requires least >= 0.0 && 0.0 < most <= 2.0 && look >= 1.0 && Abs(s.cross) <= wide
    requires Travelled(s, Order(leg, -look, -s.cross), fly, least, most, next)
    ensures 0.0 < k <= most && InPace(least, wide) <= k
    ensures next.along == s.along - k && Abs(next.cross) <= Abs(s.cross)
    ensures next.headAlong == -look && next.headCross == -s.cross
  {
    hide Travelled, InPace;
    k := RollMoves(s, leg, look, fly, least, most, next);
    InPaceBelow(least, wide, k, Abs(s.cross));
  }

  lemma SettlesIn(p: Profile, s: Aircraft, next: Aircraft, pace: real)
    requires Abs(next.cross) <= Abs(s.cross) <= 0.5 && TrackingIn(next)
    requires -MAP_OVERSHOOT_NM < next.along <= s.along - pace
    ensures Settled(next) && StillIn(p, s, next, pace)
  {
    hide TrackingIn;
  }

  lemma CutInStep(p: Profile, l: Look, least: real, most: real, wide: real, next: Aircraft)
    requires p.Valid() && ShortLooks(p, most) && least >= 0.0
    requires !ToldMissed(p, l) && OnTheWayIn(p, l.at) && !Established(p, l.at)
    requires TURN_IN_NM < Abs(l.at.cross) <= wide && Flown(p, least, most, l, next)
    ensures StillIn(p, l.at, next, InPace(least, wide))
  {
    hide Travelled, Established, InPace, Guide, RollOutRoom, InPosition, TrackingIn;
    SettledUnless(p, l.at);
    CutOrderIn(p, l);
    CutInMoves(l.at, Sign(l.at.cross), l.fly, least, most, next);
    CutInNumbers(p, l.at, next, l.fly);
    CutInPace(least, wide, l.fly, Abs(l.at.cross));
  }

  lemma CutInMoves(s: Aircraft, side: real, fly: real, least: real, most: real, next: Aircraft)
    requires (side == 1.0 || side == -1.0) && least >= 0.0 && most >= 0.0
    requires Travelled(s, Order(Cut, -1.0, -side), fly, least, most, next)
    ensures 0.0 < fly <= most && least <= 2.0 * fly
    ensures next.along == s.along - fly && next.cross == s.cross - fly * side
  {
    hide Travelled;
    var u, v := TravelParts(s, Order(Cut, -1.0, -side), fly, least, most, next);
    assert fly * -side == -(fly * side);
  }

  lemma CutInPace(least: real, wide: real, fly: real, off: real)
    requires 0.0 <= least <= 2.0 * fly && 1.0 <= off <= wide && fly > 0.0
    ensures InPace(least, wide) <= fly
  {
    MulMono(1.0, off, fly);
    InPaceBelow(least, wide, fly, off);
  }

  lemma SettledUnless(p: Profile, s: Aircraft)
    requires OnTheWayIn(p, s) && !Established(p, s)
    ensures !Settled(s) && InPosition(p, s.along, s.cross) && CanRollOut(s)
  {
    if Settled(s) { SettledIsEstablished(p, s); }
  }

  lemma CutInNumbers(p: Profile, s: Aircraft, next: Aircraft, fly: real)
    requires p.Valid() && 0.0 < fly <= 2.0 && Abs(s.cross) > 2.0
    requires InPosition(p, s.along, s.cross)
    requires next.along == s.along - fly && next.cross == s.cross - fly * Sign(s.cross)
    ensures Abs(next.cross) == Abs(s.cross) - fly
    ensures InPosition(p, next.along, next.cross) && RollOutRoom(next.along, Abs(next.cross))
    ensures next.along > 0.0
  {
    CutRatio(p, s.along, Abs(s.cross), fly);
    FarIsRoom(p, s.along, Abs(s.cross));
    RoomFromMargin(next.along, Abs(next.cross));
  }

  /** Rolling on from more than half a mile off keeps him in position or settles him. */
  lemma WideStep(p: Profile, s: Aircraft, leg: Leg, fly: real, least: real, most: real, wide: real, next: Aircraft)
    requires p.Valid() && ShortLooks(p, most) && least >= 0.0
    requires 0.5 < Abs(s.cross) <= wide
    requires InPosition(p, s.along, s.cross) && RollOutRoom(s.along, Abs(s.cross))
    requires Established(p, s) || Abs(s.cross) <= TURN_IN_NM
    requires Travelled(s, Order(leg, -Lookahead(s.along), -s.cross), fly, least, most, next)
    ensures StillIn(p, s, next, InPace(least, wide))
  {
    RollingIsNear(p, s);
    WideNumbers(p, s, leg, fly, least, most, wide, next);
  }

  lemma WideNumbers(p: Profile, s: Aircraft, leg: Leg, fly: real, least: real, most: real, wide: real, next: Aircraft)
    requires p.Valid() && ShortLooks(p, most) && least >= 0.0
    requires 0.5 < Abs(s.cross) <= wide && s.along > 0.0
    requires NearEnough(p, s.along, Abs(s.cross)) && RollOutRoom(s.along, Abs(s.cross))
    requires Travelled(s, Order(leg, -Lookahead(s.along), -s.cross), fly, least, most, next)
    ensures StillIn(p, s, next, InPace(least, wide))
  {
    hide Travelled, NearEnough, RollOutRoom, TrackingIn, InPace, Lookahead;
    var look, off := Lookahead(s.along), Abs(s.cross);
    RoomReach(s.along, off);
    LookaheadBounds(s.along);
    NearIsShallow(p, s.along, off);
    var k := RollMoves(s, leg, look, fly, least, most, next);
    if fly <= 1.0 {
      RollStaysNear(p, s.along, off, fly, next.along, Abs(next.cross));
    } else {
      OverCorrects(s.along, off, fly, k, look);
    }
    if Abs(next.cross) <= 0.5 {
      RollTracks(s, next);
    }
    InPaceBelow(least, wide, k, off);
    NearIsSigned(p, next.along, next.cross);
  }

  /** Near enough to be in position is far from abeam. */
  lemma NearIsShallow(p: Profile, along: real, off: real)
    requires p.Valid() && off >= 0.0 && NearEnough(p, along, off)
    ensures along >= 2.0 && 100.0 * off <= 31.0 * along
    ensures off <= 2.5 ==> 10.0 * off <= 17.0 * Lookahead(along)
  {
    MulNonNeg(0.31 - p.steerOn, along);
    assert along * p.steerOn <= 0.31 * along;
  }

  /** A look longer than the lookahead carries him through the centreline, but not half a mile through. */
  lemma OverCorrects(along: real, off: real, fly: real, k: real, look: real)
    requires along >= 2.5 && 0.0 <= off && 100.0 * off <= 31.0 * along
    requires fly > 1.0 && k == fly * look <= 2.0 && look == Lookahead(along)
    ensures along < 4.0 && fly * off - off <= 0.5 && along - k >= 0.5
  {
    MulMono(1.0, fly, look);
    MulNonNeg(0.31 * along - off, fly - 1.0);
    assert (0.31 * along - off) * (fly - 1.0) == 0.31 * (fly * along - along) - (fly * off - off);
    assert look == along / 2.0;
    assert fly * along == 2.0 * k;
  }

  lemma RoomReach(along: real, off: real)
    requires RollOutRoom(along, off) && off > 0.5 && along > 0.0
    ensures along >= 2.5
  {
    SquareOrder(2.5, along);
  }

  lemma NearIsSigned(p: Profile, along: real, cross: real)
    ensures NearEnough(p, along, Abs(cross)) ==> NearEnough(p, along, cross)
  {
  }

  /** One look on the way in: on the course, on the cut or rolling on, closer, and still in. */
  lemma InboundStep(p: Profile, l: Look, least: real, most: real, wide: real, next: Aircraft)
    requires p.Valid() && ShortLooks(p, most) && least >= 0.0
    requires !ToldMissed(p, l) && OnTheWayIn(p, l.at)
    requires !Guide(p, l.at, l.onMissed).leg.AtMap?
    requires Abs(l.at.cross) <= wide && wide >= TURN_IN_NM
    requires Flown(p, least, most, l, next)
    ensures !IsPatternLeg(Guide(p, l.at, l.onMissed).leg) && !IsMissedLeg(Guide(p, l.at, l.onMissed).leg)
    ensures StillIn(p, l.at, next, InPace(least, wide))
  {
    hide Travelled, WithinTolerance, TrackingIn, WithinFixRadius, RollOutRoom, Lookahead, InPace, StillIn, InPosition;
    var s := l.at;
    if Abs(s.cross) > TURN_IN_NM && !Established(p, s) {
      CutOrderIn(p, l);
      CutInStep(p, l, least, most, wide, next);
    } else {
      RollOrder(p, l);
      var leg := Guide(p, s, l.onMissed).leg;
      if Abs(s.cross) <= 0.5 {
        CloseIsOutsideMap(p, l);
        CloseStep(p, s, leg, l.fly, least, most, wide, next);
      } else {
        WideStep(p, s, leg, l.fly, least, most, wide, next);
      }
    }
  }

  lemma CloseIsOutsideMap(p: Profile, l: Look)
    requires p.Valid() && !ToldMissed(p, l) && OnTheWayIn(p, l.at) && Abs(l.at.cross) <= 0.5
    requires !Guide(p, l.at, l.onMissed).leg.AtMap?
    ensures l.at.along > p.mapNm || l.at.along >= 2.0
  {
    RollOrder(p, l);
    hide Guide, WithinTolerance, RollOutRoom;
    if Settled(l.at) {
      SettledIsEstablished(p, l.at);
    }
  }

  // ---------------------------------------------------------------- whole runs

  ghost predicate InboundRun(p: Profile, least: real, most: real, run: seq<Look>) {
    |run| > 0 && IsRun(p, least, most, run) && NoMissedLeg(p, run)
  }

  ghost predicate NotYetAtMap(p: Profile, run: seq<Look>, n: nat) {
    forall i :: 0 <= i < n && i < |run| ==> !Guide(p, run[i].at, run[i].onMissed).leg.AtMap?
  }

  lemma {:induction false} StaysIn(p: Profile, least: real, most: real, run: seq<Look>, j: nat)
    requires p.Valid() && ShortLooks(p, most) && least >= 0.0
    requires InboundRun(p, least, most, run) && OnTheWayIn(p, run[0].at)
    requires j < |run| && NotYetAtMap(p, run, j)
    ensures OnTheWayIn(p, run[j].at) && Abs(run[j].at.cross) <= Wide(run[0].at)
    ensures run[j].at.along + Times(j, InPace(least, Wide(run[0].at))) <= run[0].at.along
    ensures j > 0 ==> run[j].at.along > -MAP_OVERSHOOT_NM
  {
    hide Guide, OnTheWayIn, Flown, InPace, ToldMissed;
    if j > 0 {
      StaysIn(p, least, most, run, j - 1);
      assert Flown(p, least, most, run[j - 1], run[j - 1 + 1].at);
      InboundStep(p, run[j - 1], least, most, Wide(run[0].at), run[j].at);
    }
  }

  /** Once on the way in, no look before the missed approach point sends him back out. */
  lemma NeverSentBackOut(p: Profile, most: real, run: seq<Look>, j: nat)
    requires p.Valid() && ShortLooks(p, most)
    requires InboundRun(p, 0.0, most, run) && OnTheWayIn(p, run[0].at)
    requires j < |run| && NotYetAtMap(p, run, j)
    ensures var leg := Guide(p, run[j].at, run[j].onMissed).leg;
            leg.Cut? || leg.RollOn? || IsEstablishedLeg(leg)
  {
    StaysIn(p, 0.0, most, run, j);
    hide OnTheWayIn, InPosition, WithinTolerance;
    if Established(p, run[j].at) || Abs(run[j].at.cross) <= TURN_IN_NM {
      RollOrder(p, run[j]);
    } else {
      CutOrderIn(p, run[j]);
    }
  }

  /** ... and he reaches the missed approach point: it is never flown past between looks. */
  lemma ReachesTheMissedApproachPoint(p: Profile, least: real, most: real, run: seq<Look>)
    requires p.Valid() && ShortLooks(p, most) && least > 0.0
    requires InboundRun(p, least, most, run) && OnTheWayIn(p, run[0].at)
    requires (|run| - 1) as real * InPace(least, Wide(run[0].at)) > run[0].at.along + MAP_OVERSHOOT_NM
    requires |run| > 1
    ensures exists i :: 0 <= i < |run| && Guide(p, run[i].at, run[i].onMissed).leg.AtMap?
  {
    hide Guide, OnTheWayIn, InPace, InboundRun;
    if forall i :: 0 <= i < |run| ==> !Guide(p, run[i].at, run[i].onMissed).leg.AtMap? {
      var n := |run| - 1;
      StaysIn(p, least, most, run, n);
      TimesIsProduct(n, InPace(least, Wide(run[0].at)));
    }
  }

  /** Every aircraft that flies the 45-degree cut has the room: the cut itself guarantees it. */
  lemma TheCutIsOnTheWayIn(p: Profile, s: Aircraft)
    requires p.Valid() && InPosition(p, s.along, s.cross) && Abs(s.cross) > TURN_IN_NM
    ensures OnTheWayIn(p, s)
  {
    FarIsRoom(p, s.along, Abs(s.cross));
    RoomFromMargin(s.along, Abs(s.cross));
  }

  /** So has everything in position four miles out or more: only a turn in made closer can fail. */
  lemma FourMilesIsOnTheWayIn(p: Profile, s: Aircraft)
    requires p.Valid() && InPosition(p, s.along, s.cross) && s.along >= 4.0
    ensures OnTheWayIn(p, s)
  {
    var off := Abs(s.cross);
    if off > TURN_IN_NM {
      TheCutIsOnTheWayIn(p, s);
    } else {
      if NearEnough(p, s.along, s.cross) {
        FourMileNumbers(s.along, off, p.steerOn);
      } else {
        SquareMono(5.0, s.along);
      }
    }
  }

  lemma FourMileNumbers(along: real, off: real, t: real)
    requires along >= 4.0 && t <= 0.31 && off <= along * t
    ensures along * along >= 12.5 * off
  {
    MulNonNeg(0.31 - t, along);
    MulNonNeg(along - 4.0, along);
  }

  lemma EstablishedIsOnTheWayIn(p: Profile, s: Aircraft)
    requires p.Valid() && Established(p, s)
    ensures OnTheWayIn(p, s)
  {
    if Abs(s.cross) > 0.5 {
      FarOut(p, s);
      ToleranceIsNear(p, s);
      NearIsSigned(p, s.along, s.cross);
      NearNeedsMiles(p, s);
      FourMilesIsOnTheWayIn(p, s);
    }
  }

  lemma FarOut(p: Profile, s: Aircraft)
    requires p.Valid() && WithinTolerance(p, s) && Abs(s.cross) > 0.5 && s.along > -1.0
    ensures s.along >= 4.0
  {
    if s.along < 4.0 { ToleranceTooWide(p.onCourse, s.along, Abs(s.cross)); }
    assert s.cross * s.cross == Abs(s.cross) * Abs(s.cross);
  }

  lemma ToleranceTooWide(k: real, along: real, off: real)
    requires 0.0 <= k <= 0.03 && -1.0 < along < 4.0 && off > 0.5
    ensures off * off > k * k * (along * along + off * off)
  {
    SquareMono(k, 0.03);
    SquareMono(Abs(along), 4.0);
    assert along * along == Abs(along) * Abs(along);
    SquareMono(0.5, off);
    MulNonNeg(0.0009 - k * k, along * along + off * off);
  }

  lemma NearNeedsMiles(p: Profile, s: Aircraft)
    requires NearEnough(p, s.along, s.cross) && s.along >= 4.0
    ensures InPosition(p, s.along, s.cross)
  {
  }

  /** Turned in with room to roll out, or already established, he is on the way in. */
  lemma TurnedInIsOnTheWayIn(p: Profile, s: Aircraft)
    requires p.Valid() && TurnedIn(p, s) && (Established(p, s) || CanRollOut(s))
    ensures OnTheWayIn(p, s)
  {
    hide CanRollOut, InPosition, Established;
    if Established(p, s) { EstablishedIsOnTheWayIn(p, s); }
  }
}
