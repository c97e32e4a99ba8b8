/**
 * What becomes of an aircraft turned in without room to roll out.  It is sent back out and comes in
 * again, and each time with more room: distance to run squared over offset never falls on the way
 * out and grows on the way in, until at twelve and a half it rolls out.
 */
module AsrReturn {
  import opened Arith
  import opened AsrGuide
  import opened AsrPattern
  import opened AsrTurnIn

  /** The side he repositions on when he is near the centreline. */
  function MissedSide(p: Profile): real { if p.missedLeft then -1.0 else 1.0 }

  /** Close in, with `q` times the offset still inside the square of the distance to run; near the
      centreline only on the way across it. */
  predicate Returning(p: Profile, s: Aircraft, q: real) {
    && 8.0 <= q < 13.0 && 2.0 <= s.along <= 7.0 && Abs(s.cross) <= 1.5
    && s.along * s.along >= q * Abs(s.cross)
    && (Abs(s.cross) <= 0.5 ==> MissedSide(p) * s.cross < 0.0)
  }

  /** A turn in without room is one that is returning. */
  lemma NoRoomIsReturning(p: Profile, s: Aircraft)
    requires p.Valid() && InPosition(p, s.along, s.cross) && Abs(s.cross) <= TURN_IN_NM && !CanRollOut(s)
    ensures Returning(p, s, 8.0) && 2.5 <= s.along < 4.0 && 100.0 * Abs(s.cross) <= 31.0 * s.along
  {
    var off := Abs(s.cross);
    if s.along >= 4.0 { FourMilesIsOnTheWayIn(p, s); }
    CloseIsNear(p, s);
    NearIsShallow(p, s.along, off);
    MulNonNeg(s.along - 2.5, s.along);
    assert s.along * s.along >= 2.5 * s.along;
  }

  lemma CloseIsNear(p: Profile, s: Aircraft)
    requires p.Valid() && InPosition(p, s.along, s.cross) && s.along < 4.0
    ensures NearEnough(p, s.along, Abs(s.cross)) && s.along >= Abs(s.cross) + 2.0
  {
  }

  // ---------------------------------------------------------------- rolling on

  /** Rolling on gains room: by the square of the share of the lookahead flown. */
  lemma RollGains(a: real, o: real, q: real, f: real, left: real, rest: real)
    requires o > 0.0 && q >= 8.0 && a * a >= q * o && 0.0 < f <= 1.0
    requires left == a - f * (a / 2.0) && rest == o - f * o && rest >= 0.0
    ensures left * left >= (q + 2.0 * (f * f)) * rest
  {
    var square, ff := a * a, f * f;
    RollSquare(a, f, left);
    MulMono(q * o, square, 1.0 - f);
    assert (1.0 - f) * (q * o) == q * rest;
    MulNonNeg(f, f);
    MulMono(8.0 * o, square, ff);
    GainPart(ff, o, rest, q, square);
    assert (1.0 - f) * square == square - f * square;
  }

  lemma RollSquare(a: real, f: real, left: real)
    requires left == a - f * (a / 2.0)
    ensures left * left == a * a - f * (a * a) + (f * f) * (a * a) / 4.0
  {
    var h := f * a / 2.0;
    assert f * (a / 2.0) == h;
    assert (a - h) * (a - h) == a * a - 2.0 * (a * h) + h * h;
    assert 2.0 * (a * h) == f * (a * a);
    assert h * h == (f * f) * (a * a) / 4.0;
  }

  lemma GainPart(ff: real, o: real, rest: real, q: real, square: real)
    requires ff >= 0.0 && 0.0 <= rest <= o && q >= 8.0 && square >= 8.0 * o
    requires 8.0 * o * ff <= square * ff || ff * (8.0 * o) <= ff * square
    ensures ff * square / 4.0 >= 2.0 * ff * rest
    ensures (q + 2.0 * ff) * rest == q * rest + 2.0 * ff * rest
  {
    MulNonNeg(ff, o - rest);
    assert ff * (o - rest) == ff * o - ff * rest;
    assert ff * (8.0 * o) == 8.0 * (ff * o);
  }

  function Product(x: real, y: real): real { x * y }

  /** The least a roll-on look gains: a share of the square of its length. */
  function Gain(least: real): real { 0.08 * Product(least, least) }

  lemma GainAtLeast(f: real, k: real, o: real, least: real, look: real)
    requires 0.0 < f && k == f * look && 0.0 < look <= 2.0 && 0.0 <= o <= 1.25 && 0.0 < least <= k + k * o
    ensures 2.0 * (f * f) >= Gain(least)
  {
    MulNonNeg(2.0 - look, f);
    assert (2.0 - look) * f == 2.0 * f - k;
    MulNonNeg(1.25 - o, k);
    assert (1.25 - o) * k == 1.25 * k - k * o;
    assert least <= 4.5 * f;
    SquareMono(least, 5.0 * f);
    assert (5.0 * f) * (5.0 * f) == 25.0 * (f * f);
  }

  // ---------------------------------------------------------------- going back out

  /** Outbound on his own side of the centreline he loses no room. */
  lemma OutboundKeepsRoom(a: real, o: real, q: real, g: real)
    requires a >= 2.0 && 0.5 < o <= 1.5 && q >= 0.0 && a * a >= q * o && g >= 0.0
    requires a < o + 2.0 || 10.0 * o > 3.0 * a
    ensures (a + 3.0 * g) * (a + 3.0 * g) >= q * (o + g * (1.5 - o))
  {
    var r := 1.5 - o;
    OutboundRate(a, o, r);
    MulMono(q * o, a * a, r);
    assert (q * o) * r == o * (q * r);
    MulNonNeg(a, 6.0 * o - a * r);
    assert a * (6.0 * o - a * r) == o * (6.0 * a) - (a * a) * r;
    if q * r > 6.0 * a { SlopeStrict(6.0 * a, q * r, o); }
    MulMono(q * r, 6.0 * a, g);
    MulNonNeg(g, g);
    assert (a + 3.0 * g) * (a + 3.0 * g) == a * a + 6.0 * a * g + 9.0 * (g * g);
    assert q * (o + g * r) == q * o + q * r * g;
  }

  lemma OutboundRate(a: real, o: real, r: real)
    requires a >= 2.0 && 0.5 < o <= 1.5 && r == 1.5 - o
    requires a < o + 2.0 || 10.0 * o > 3.0 * a
    ensures 6.0 * o >= a * r
  {
    MulNonNeg(1.0 - r, a);
    assert (1.0 - r) * a == a - a * r;
    if a < o + 2.0 {
      MulNonNeg(o + 2.0 - a, r);
      assert (o + 2.0 - a) * r == (o + 2.0) * r - a * r;
      MulNonNeg(o - 0.5, o + 7.0);
      OutboundSquare(o);
    }
  }

  lemma OutboundSquare(o: real)
    ensures (o + 2.0) * (1.5 - o) == 3.0 - 0.5 * o - o * o
    ensures (o - 0.5) * (o + 7.0) == o * o + 6.5 * o - 3.5
  {
  }

  /** Crossing the centreline from the wrong side he loses none either. */
  lemma CrossingKeepsRoom(a: real, o: real, q: real, g: real)
    requires a >= 2.0 && 0.0 <= o <= 1.5 && 0.0 <= q < 13.0 && 0.0 < g < 1.0
    ensures (a + 3.0 * g) * (a + 3.0 * g) >= q * (g * (1.5 + o) - o)
  {
    MulNonNeg(o, 1.0 - g);
    var out := g * (1.5 + o) - o;
    assert out == 1.5 * g - o * (1.0 - g);
    if out > 0.0 {
      MulMono(q, 13.0, out);
    } else {
      MulNonNeg(q, -out);
    }
    MulNonNeg(a - 2.0, a + 2.0 + 6.0 * g);
    assert (a + 3.0 * g) * (a + 3.0 * g) - (2.0 + 3.0 * g) * (2.0 + 3.0 * g) == (a - 2.0) * (a + 2.0 + 6.0 * g);
    var h := 3.0 * g - 1.25;
    assert (2.0 + 3.0 * g) * (2.0 + 3.0 * g) - 19.5 * g == h * h + 2.4375;
    MulNonNeg(Abs(h), Abs(h));
    assert h * h == Abs(h) * Abs(h);
  }

  /** One look out, in the frame of his side: he is in again with room, or still returning. */
  lemma OutboundNumbers(p: Profile, s: Aircraft, next: Aircraft, q: real, g: real, k: real)
    requires p.Valid() && Returning(p, s, q) && !InPosition(p, s.along, s.cross)
    requires 0.0 < 3.0 * g <= 2.0 && next.along == s.along + 3.0 * g
    requires k == g * (1.5 - MissedSide(p) * s.cross) && MissedSide(p) * next.cross == MissedSide(p) * s.cross + k
    ensures Returning(p, next, q) || (InPosition(p, next.along, next.cross) && Abs(next.cross) <= 0.5)
    ensures Abs(next.cross) <= 1.5 && next.along <= 7.0
  {
    hide InPosition;
    var out, out' := MissedSide(p) * s.cross, MissedSide(p) * next.cross;
    SideOff(p, s.cross);
    SideOff(p, next.cross);
    NotNear(p, s);
    var room := OutwardRoom(s.along, next.along, out, out', q, g, k);
    if !room { InAgain(p, next.along, next.cross); }
  }

  lemma SideOff(p: Profile, cross: real)
    ensures Abs(MissedSide(p) * cross) == Abs(cross)
  {
  }

  /** Whether the look leaves him returning; if not he is near the centreline, on his own side. */
  lemma OutwardRoom(a: real, a': real, out: real, out': real, q: real, g: real, k: real) returns (room: bool)
    requires 2.0 <= a && a' == a + 3.0 * g && 0.0 < 3.0 * g <= 2.0 && 0.0 <= q < 13.0
    requires k == g * (1.5 - out) && out' == out + k
    requires Abs(out) <= 1.5 && a * a >= q * Abs(out) && (Abs(out) <= 0.5 ==> out < 0.0)
    requires a < Abs(out) + 2.0 || 10.0 * Abs(out) > 3.0 * a
    ensures Abs(out') <= 1.5
    ensures if room then a' * a' >= q * Abs(out') && (Abs(out') <= 0.5 ==> out' < 0.0)
            else Abs(out') <= 0.5 && a' >= Abs(out') + 2.0
  {
    room := true;
    if out > 0.5 {
      OutwardShare(g, out, k);
      assert 0.5 < out' <= 1.5 && Abs(out') == out + k;
      OutboundKeepsRoom(a, out, q, g);
    } else {
      var o := -out;
      assert 1.5 - out == 1.5 + o && Abs(out) == o;
      CrossingNumbers(o, g, k, out');
      if out' < 0.0 {
        CloserStill(a, a', o, -out', q);
      } else if out' <= 0.5 {
        room := false;
      } else {
        CrossingKeepsRoom(a, o, q, g);
      }
    }
  }

  lemma OutwardShare(g: real, out: real, k: real)
    requires 0.0 < g < 1.0 && out <= 1.5 && k == g * (1.5 - out)
    ensures 0.0 <= k <= 1.5 - out
  {
    MulNonNeg(g, 1.5 - out);
    MulNonNeg(1.0 - g, 1.5 - out);
    assert (1.0 - g) * (1.5 - out) == 1.5 - out - k;
  }

  lemma NotNear(p: Profile, s: Aircraft)
    requires p.Valid() && 2.0 <= s.along && Abs(s.cross) <= 1.5 && !InPosition(p, s.along, s.cross)
    ensures s.along < 5.0
    ensures s.along < Abs(s.cross) + 2.0 || 10.0 * Abs(s.cross) > 3.0 * s.along
  {
    var off, reach := Abs(s.cross), s.along * p.steerOn;
    MulNonNeg(p.steerOn - 0.3, s.along);
    assert (p.steerOn - 0.3) * s.along == reach - 0.3 * s.along;
    assert off > reach || s.along < off + 2.0;
  }

  lemma CrossingNumbers(o: real, g: real, k: real, out: real)
    requires 0.0 <= o <= 1.5 && 0.0 < 3.0 * g <= 2.0 && k == g * (1.5 + o) && out == k - o
    ensures -o <= out <= 1.5 && out <= 3.0 * g
  {
    MulNonNeg(g, 1.5 + o);
    MulNonNeg(g, 1.5 - o);
    assert g * (1.5 - o) == 3.0 * g - k;
    Share(g, o);
    assert k == 1.5 * g + g * o;
  }

  lemma CloserStill(a: real, a': real, o: real, o': real, q: real)
    requires 0.0 < a <= a' && 0.0 <= o' <= o && q >= 0.0 && a * a >= q * o
    ensures a' * a' >= q * o'
  {
    SquareMono(a, a');
    MulMono(o', o, q);
  }

  lemma InAgain(p: Profile, along: real, cross: real)
    requires p.Valid() && Abs(cross) <= 0.5 && along >= 2.0 && along >= Abs(cross) + 2.0
    ensures InPosition(p, along, cross)
  {
    MulNonNeg(p.steerOn - 0.3, along);
    assert along * p.steerOn >= 0.3 * along;
  }

  // ---------------------------------------------------------------- one look

  /** What the next look finds of an aircraft returning with room `q`. */
  ghost predicate Back(p: Profile, next: Aircraft, q: real) {
    (OnTheWayIn(p, next) || Returning(p, next, q)) && Abs(next.cross) <= 1.5 && next.along <= 7.0
  }

  lemma RollsOnAgain(p: Profile, l: Look)
    requires !ToldMissed(p, l) && !Established(p, l.at) && InPosition(p, l.at.along, l.at.cross)
    requires Abs(l.at.cross) <= TURN_IN_NM
    ensures Guide(p, l.at, l.onMissed) == Order(RollOn, -Lookahead(l.at.along), -l.at.cross)
  {
    hide Established, InPosition, WithinFixRadius, Lookahead;
  }

  lemma LeastIsShort(s: Aircraft, o: Order, fly: real, least: real, most: real, next: Aircraft)
    requires Travelled(s, o, fly, least, most, next) && 0.0 < least && 0.0 < most <= 2.0
    ensures least <= 2.0 && Travelled(s, o, fly, least, 2.0, next)
  {
    SquareOrder(least, most);
    SquareMono(most, 2.0);
  }

  /** Rolling on without the room he gains some, and may settle. */
  lemma RollBackStep(p: Profile, l: Look, q: real, least: real, most: real, next: Aircraft)
    requires p.Valid() && ShortLooks(p, most) && 0.0 < least
    requires Returning(p, l.at, q) && InPosition(p, l.at.along, l.at.cross) && !OnTheWayIn(p, l.at)
    requires !ToldMissed(p, l) && Flown(p, least, most, l, next)
    ensures Back(p, next, q + Gain(least)) && next.along >= l.at.along - 2.0
  {
    hide *;
    var s := l.at;
    NotIn(p, s, q);
    NoRoomIsReturning(p, s);
    RollsOnAgain(p, l);
    AsTravelled(p, l, Order(RollOn, -Lookahead(s.along), -s.cross), least, most, next);
    RollBackTravel(p, s, next, q, l.fly, least, most);
  }

  /** The downwind join when he is near the centreline. */
  function OutwardOrder(p: Profile, cross: real): Order {
    Order(Downwind, 3.0, DownwindJoin(MissedSide(p) * cross) * MissedSide(p))
  }

  lemma AsTravelled(p: Profile, l: Look, o: Order, least: real, most: real, next: Aircraft)
    requires Flown(p, least, most, l, next) && Guide(p, l.at, l.onMissed) == o
    ensures Travelled(l.at, o, l.fly, least, most, next)
  {
    hide Guide, Travelled;
  }

  lemma RollBackTravel(p: Profile, s: Aircraft, next: Aircraft, q: real, fly: real, least: real, most: real)
    requires p.Valid() && ShortLooks(p, most) && 8.0 <= q < 12.5 && 0.0 < least
    requires 2.5 <= s.along < 4.0 && 0.5 < Abs(s.cross) && 100.0 * Abs(s.cross) <= 31.0 * s.along
    requires s.along * s.along >= q * Abs(s.cross)
    requires Travelled(s, Order(RollOn, -Lookahead(s.along), -s.cross), fly, least, most, next)
    ensures Back(p, next, q + Gain(least)) && next.along >= s.along - 2.0
  {
    assert 0.0 < most <= 2.0;
    hide *;
    LookaheadIsHalf(s.along);
    LeastIsShort(s, Order(RollOn, -Lookahead(s.along), -s.cross), fly, least, most, next);
    var k := RollsOver(s, RollOn, Lookahead(s.along), fly, least, most, next);
    RollBackNumbers(p, s, next, q, fly, k, least);
  }

  /** What a roll-on look does: `k` is how far down the course. */
  predicate RolledOn(s: Aircraft, next: Aircraft, look: real, fly: real, k: real, least: real) {
    && 0.0 < fly <= k <= 2.0 && k == fly * look
    && next.along == s.along - k && least <= k + k * Abs(s.cross)
    && (Abs(next.cross) == if fly <= 1.0 then Abs(s.cross) - fly * Abs(s.cross) else fly * Abs(s.cross) - Abs(s.cross))
    && Abs(next.cross) <= Abs(s.cross)
    && next.headAlong == -look && next.headCross == -s.cross
  }

  lemma RollsOver(s: Aircraft, leg: Leg, look: real, fly: real, least: real, most: real, next: Aircraft)
    returns (k: real)
    requires least >= 0.0 && 0.0 < most <= 2.0 && look >= 1.0
    requires Travelled(s, Order(leg, -look, -s.cross), fly, least, most, next)
    ensures RolledOn(s, next, look, fly, k, least)
  {
    hide Travelled;
    k := RollMoves(s, leg, look, fly, least, most, next);
  }

  lemma RollBackNumbers(p: Profile, s: Aircraft, next: Aircraft, q: real, fly: real, k: real, least: real)
    requires 8.0 <= q < 12.5 && 0.0 < least <= 2.0
    requires 2.5 <= s.along < 4.0 && 0.5 < Abs(s.cross) && 100.0 * Abs(s.cross) <= 31.0 * s.along
    requires s.along * s.along >= q * Abs(s.cross) && Lookahead(s.along) == s.along / 2.0
    requires RolledOn(s, next, Lookahead(s.along), fly, k, least)
    ensures Back(p, next, q + Gain(least)) && next.along >= s.along - 2.0
  {
    hide *;
    RolledGains(s, next, q, fly, k, least);
    RolledBounds(s, next, fly, k, least);
    RollBackCases(p, s, next, q, least);
  }

  lemma RolledGains(s: Aircraft, next: Aircraft, q: real, fly: real, k: real, least: real)
    requires 8.0 <= q && 0.0 < least && s.along * s.along >= q * Abs(s.cross)
    requires 2.5 <= s.along < 4.0 && 0.5 < Abs(s.cross) && 100.0 * Abs(s.cross) <= 31.0 * s.along
    requires Lookahead(s.along) == s.along / 2.0 && RolledOn(s, next, Lookahead(s.along), fly, k, least)
    ensures Abs(next.cross) <= 0.5 || next.along * next.along >= (q + Gain(least)) * Abs(next.cross)
  {
    hide Lookahead, Abs, Gain;
    RollBackReals(s.along, Abs(s.cross), q, fly, k, Lookahead(s.along), least, next.along, Abs(next.cross));
  }

  lemma RolledBounds(s: Aircraft, next: Aircraft, fly: real, k: real, least: real)
    requires 2.5 <= s.along < 4.0 && 100.0 * Abs(s.cross) <= 31.0 * s.along
    requires Lookahead(s.along) == s.along / 2.0 && RolledOn(s, next, Lookahead(s.along), fly, k, least)
    ensures 0.5 <= next.along <= 7.0 && next.along >= s.along - 2.0 && Abs(next.cross) <= 1.5
    ensures 10.0 * Abs(s.cross) <= 17.0 * Lookahead(s.along)
    ensures next.headAlong == -Lookahead(s.along) && next.headCross == -s.cross
  {
    hide Lookahead, Abs;
  }

  lemma LookaheadIsHalf(along: real)
    requires 2.5 <= along < 4.0
    ensures Lookahead(along) == along / 2.0
  {
  }

  lemma NotIn(p: Profile, s: Aircraft, q: real)
    requires p.Valid() && Returning(p, s, q) && InPosition(p, s.along, s.cross) && !OnTheWayIn(p, s)
    ensures !Established(p, s) && !CanRollOut(s) && 0.5 < Abs(s.cross) <= TURN_IN_NM && 8.0 <= q < 12.5
    ensures s.along * s.along >= q * Abs(s.cross)
  {
    hide Established, InPosition;
    if Established(p, s) { EstablishedIsOnTheWayIn(p, s); }
    if q >= 12.5 { MulMono(12.5, q, Abs(s.cross)); }
  }

  /** With the look's products named: settled, or further in with more room. */
  lemma RollBackReals(a: real, o: real, q: real, fly: real, k: real, look: real, least: real, left: real, rest: real)
    requires 8.0 <= q && 0.0 < least && a * a >= q * o
    requires 2.5 <= a < 4.0 && 0.5 < o && 100.0 * o <= 31.0 * a && look == a / 2.0 && look == Lookahead(a)
    requires 0.0 < fly && k == fly * look && k <= 2.0 && left == a - k && least <= k + k * o
    requires rest == if fly <= 1.0 then o - fly * o else fly * o - o
    ensures rest <= 0.5 || left * left >= (q + Gain(least)) * rest
  {
    hide Gain, Lookahead;
    if fly > 1.0 {
      OverCorrects(a, o, fly, k, look);
    } else if rest > 0.5 {
      GainedRoom(a, o, q, fly, k, look, least, left, rest);
    }
  }

  lemma RollBackCases(p: Profile, s: Aircraft, next: Aircraft, q: real, least: real)
    requires 8.0 <= q < 12.5 && 0.0 < least <= 2.0
    requires 0.5 <= next.along <= 7.0 && Abs(next.cross) <= 1.5
    requires 10.0 * Abs(s.cross) <= 17.0 * Lookahead(s.along)
    requires next.headAlong == -Lookahead(s.along) && next.headCross == -s.cross
    requires Abs(next.cross) <= 0.5 || next.along * next.along >= (q + Gain(least)) * Abs(next.cross)
    ensures Back(p, next, q + Gain(least))
  {
    hide Lookahead, Back, Gain, TrackingIn;
    if Abs(next.cross) <= 0.5 {
      RollTracks(s, next);
      SettlesBack(p, next, q + Gain(least));
    } else {
      GainedIsBack(p, next, q, least);
    }
  }

  lemma SettlesBack(p: Profile, next: Aircraft, q: real)
    requires Abs(next.cross) <= 0.5 && TrackingIn(next) && -MAP_OVERSHOOT_NM < next.along <= 7.0
    ensures Back(p, next, q)
  {
    hide TrackingIn;
  }

  lemma GainedIsBack(p: Profile, next: Aircraft, q: real, least: real)
    requires 8.0 <= q < 12.5 && 0.0 < least <= 2.0
    requires 0.0 <= next.along <= 7.0 && 0.5 < Abs(next.cross) <= 1.5
    requires next.along * next.along >= (q + Gain(least)) * Abs(next.cross)
    ensures Back(p, next, q + Gain(least))
  {
    GainIsSmall(least);
    hide Gain, OnTheWayIn;
    RoomReaches(next.along, Abs(next.cross), q + Gain(least));
  }

  lemma GainIsSmall(least: real)
    requires 0.0 < least
    ensures 0.0 < Gain(least) && (least <= 2.0 ==> Gain(least) <= 0.4)
  {
    ProductPositive(least, least);
    if least <= 2.0 {
      MulNonNeg(2.0 - least, least);
      assert (2.0 - least) * least == 2.0 * least - Product(least, least);
    }
  }

  lemma ProductPositive(x: real, y: real)
    requires x > 0.0 && y > 0.0
    ensures Product(x, y) > 0.0
  {
    MulPos(x, y);
  }

  lemma GainedRoom(a: real, o: real, q: real, fly: real, k: real, look: real, least: real, left: real, rest: real)
    requires 8.0 <= q && 0.0 < least && 0.5 < rest && a * a >= q * o
    requires 2.5 <= a < 4.0 && 0.5 < o && 100.0 * o <= 31.0 * a && look == a / 2.0
    requires 0.0 < fly <= 1.0 && k == fly * look && left == a - k && rest == o - fly * o && least <= k + k * o
    ensures left * left >= (q + Gain(least)) * rest
  {
    hide Gain;
    RollGains(a, o, q, fly, left, rest);
    GainAtLeast(fly, k, o, least, look);
    MulNonNeg(2.0 * (fly * fly) - Gain(least), rest);
    assert (2.0 * (fly * fly) - Gain(least)) * rest == (q + 2.0 * (fly * fly)) * rest - (q + Gain(least)) * rest;
  }

  lemma RoomReaches(along: real, off: real, q: real)
    requires q >= 8.0 && off > 0.5 && along >= 0.0 && along * along >= q * off
    ensures along >= 2.0
  {
    MulNonNeg(q - 8.0, off);
    assert (q - 8.0) * off == q * off - 8.0 * off;
    SquareOrder(2.0, along);
  }

  /** Sent back out he gains distance and loses no room, until he is in again. */
  lemma OutboundStep(p: Profile, l: Look, q: real, least: real, most: real, next: Aircraft)
    requires p.Valid() && ShortLooks(p, most) && 0.0 < least
    requires Returning(p, l.at, q) && !InPosition(p, l.at.along, l.at.cross) && !OnTheWayIn(p, l.at)
    requires !ToldMissed(p, l) && Flown(p, least, most, l, next)
    ensures Back(p, next, q) && next.along >= l.at.along + least / 2.0
  {
    hide *;
    var s := l.at;
    OutboundState(p, l, q);
    OutboundOrder(p, l);
    AsTravelled(p, l, OutwardOrder(p, s.cross), least, most, next);
    OutboundTravel(p, s, next, q, l.fly, least, most);
  }

  lemma OutboundOrder(p: Profile, l: Look)
    requires Repositioning(p, l.at, l.onMissed) && Rank(p, l.at) == 3 && Abs(l.at.cross) <= 1.5
    ensures Guide(p, l.at, l.onMissed)
            == OutwardOrder(p, l.at.cross)
  {
    DownwindOrder(p, l.at, l.onMissed);
    OutwardJoin(p, l.at);
    hide Guide, Repositioning, Rank;
  }

  lemma OutboundState(p: Profile, l: Look, q: real)
    requires p.Valid() && Returning(p, l.at, q) && !InPosition(p, l.at.along, l.at.cross) && !OnTheWayIn(p, l.at)
    requires !ToldMissed(p, l)
    ensures Repositioning(p, l.at, l.onMissed) && Rank(p, l.at) == 3 && Abs(l.at.cross) <= 1.5
  {
    hide InPosition, Established, Guide;
    if Established(p, l.at) { EstablishedIsOnTheWayIn(p, l.at); }
    NotNear(p, l.at);
  }

  lemma OutboundTravel(p: Profile, s: Aircraft, next: Aircraft, q: real, fly: real, least: real, most: real)
    requires p.Valid() && ShortLooks(p, most) && 0.0 < least
    requires Returning(p, s, q) && !InPosition(p, s.along, s.cross)
    requires Travelled(s, OutwardOrder(p, s.cross), fly, least, most, next)
    ensures Back(p, next, q) && next.along >= s.along + least / 2.0
  {
    hide Travelled, Pace, Returning, InPosition, DownwindJoin;
    ReturningIsClose(p, s, q);
    OutwardJoin(p, s);
    PaceOfSix(least);
    LeastIsShort(s, OutwardOrder(p, s.cross), fly, least, most, next);
    var k := DownwindMoves(s, MissedSide(p), fly, least, 6.0, next);
    OutboundNumbers(p, s, next, q, fly, k);
    BackAfter(p, next, q);
  }

  lemma ReturningIsClose(p: Profile, s: Aircraft, q: real)
    requires Returning(p, s, q)
    ensures Abs(s.cross) <= 1.5
  {
  }

  lemma BackAfter(p: Profile, next: Aircraft, q: real)
    requires Returning(p, next, q) || (InPosition(p, next.along, next.cross) && Abs(next.cross) <= 0.5)
    requires Abs(next.cross) <= 1.5 && next.along <= 7.0
    ensures Back(p, next, q)
  {
    hide Returning, InPosition;
  }

  lemma PaceOfSix(least: real)
    ensures Pace(least, 6.0) == least / 2.0
  {
  }

  /** Near the centreline the join is towards a mile and a half out on the missed approach's side. */
  lemma OutwardJoin(p: Profile, s: Aircraft)
    requires Abs(s.cross) <= 1.5
    ensures RepositionSide(p, s.cross) == MissedSide(p)
    ensures DownwindJoin(MissedSide(p) * s.cross) == 1.5 - MissedSide(p) * s.cross
    ensures Abs(DownwindJoin(MissedSide(p) * s.cross)) <= 3.0
  {
    SideOff(p, s.cross);
  }

  // ---------------------------------------------------------------- whole runs

  /** What is left to gain, in units no look gains less than one of. */
  function ToGain(q: real, along: real, least: real): real {
    (13.0 - q) * (least / 2.0 + 2.0) + Gain(least) * (7.0 - along)
  }

  function GainUnit(least: real): real { Gain(least) * (least / 2.0) }

  lemma LookGains(q: real, along: real, q': real, along': real, least: real)
    requires 0.0 < least
    requires (q' == q + Gain(least) && along' >= along - 2.0) || (q' == q && along' >= along + least / 2.0)
    ensures ToGain(q', along', least) <= ToGain(q, along, least) - GainUnit(least)
  {
    GainIsSmall(least);
    var d, g := least / 2.0, Gain(least);
    if q' == q {
      MulNonNeg(g, along' - along - d);
      assert g * (along' - along - d) == g * (7.0 - along) - g * (7.0 - along') - g * d;
    } else {
      MulNonNeg(g, along' - along + 2.0);
      assert g * (along' - along + 2.0) == g * (7.0 - along) - g * (7.0 - along') + 2.0 * g;
      assert (13.0 - q') * (d + 2.0) == (13.0 - q) * (d + 2.0) - g * (d + 2.0);
    }
  }

  lemma StillToGain(q: real, along: real, least: real)
    requires 0.0 < least && q < 13.0 && along <= 7.0
    ensures ToGain(q, along, least) > 0.0
  {
    GainIsSmall(least);
    MulPos(13.0 - q, least / 2.0 + 2.0);
    MulNonNeg(Gain(least), 7.0 - along);
  }

  /** Returning, he is on the way in within the looks it takes to gain the room. */
  lemma {:induction false} ComesBackIn(p: Profile, least: real, most: real, run: seq<Look>, i: nat, q: real, n: nat)
    returns (k: nat)
    requires p.Valid() && ShortLooks(p, most) && 0.0 < least
    requires IsRun(p, least, most, run) && NoMissedLeg(p, run) && i + n < |run|
    requires Back(p, run[i].at, q) && ToGain(q, run[i].at.along, least) <= Times(n, GainUnit(least))
    ensures i <= k <= i + n && OnTheWayIn(p, run[k].at)
    ensures Abs(run[k].at.cross) <= 1.5 && run[k].at.along <= 7.0
    decreases n
  {
    hide Flown, Guide, OnTheWayIn, ToGain, GainUnit, Gain, InPosition, ToldMissed;
    k := i;
    if !OnTheWayIn(p, run[i].at) {
      StillToGain(q, run[i].at.along, least);
      assert !ToldMissed(p, run[i]) && Flown(p, least, most, run[i], run[i + 1].at);
      var q' := if InPosition(p, run[i].at.along, run[i].at.cross) then q + Gain(least) else q;
      ReturnStep(p, run[i], q, least, most, run[i + 1].at);
      LookGains(q, run[i].at.along, q', run[i + 1].at.along, least);
      k := ComesBackIn(p, least, most, run, i + 1, q', n - 1);
    }
  }

  lemma ReturnStep(p: Profile, l: Look, q: real, least: real, most: real, next: Aircraft)
    requires p.Valid() && ShortLooks(p, most) && 0.0 < least
    requires Returning(p, l.at, q) && !OnTheWayIn(p, l.at) && !ToldMissed(p, l) && Flown(p, least, most, l, next)
    ensures if InPosition(p, l.at.along, l.at.cross)
            then Back(p, next, q + Gain(least)) && next.along >= l.at.along - 2.0
            else Back(p, next, q) && next.along >= l.at.along + least / 2.0
  {
    hide *;
    if InPosition(p, l.at.along, l.at.cross) {
      RollBackStep(p, l, q, least, most, next);
    } else {
      OutboundStep(p, l, q, least, most, next);
    }
  }
}
