/**
 * The room to roll out is not only enough but needed: an aircraft turned in inside the turn-in
 * distance without it is, for some looks short enough, sent back out before it is established.
 */
module AsrTurnInExact {
  import opened Arith
  import opened AsrGuide
  import opened AsrPattern
  import opened AsrTurnIn

  function Pow(x: real, n: nat): real {
    if n == 0 then 1.0 else x * Pow(x, n - 1)
  }

  lemma {:induction false} PowPositive(x: real, n: nat)
    requires x > 0.0
    ensures Pow(x, n) > 0.0
  {
    if n > 0 {
      PowPositive(x, n - 1);
      MulPos(x, Pow(x, n - 1));
    }
  }

  lemma {:induction false} PowOfProduct(x: real, y: real, xy: real, n: nat)
    requires xy == x * y
    ensures Pow(xy, n) == Pow(x, n) * Pow(y, n)
  {
    if n > 0 {
      PowOfProduct(x, y, xy, n - 1);
      Regroup(x, y, Pow(x, n - 1), Pow(y, n - 1));
    }
  }

  lemma Regroup(x: real, y: real, a: real, b: real)
    ensures (x * y) * (a * b) == (x * a) * (y * b)
  {
  }

  /** Bernoulli's inequality. */
  lemma {:induction false} PowAtLeast(z: real, n: nat)
    requires z >= -1.0
    ensures Pow(1.0 + z, n) >= 1.0 + Times(n, z)
  {
    if n > 0 {
      PowAtLeast(z, n - 1);
      var q, t := Pow(1.0 + z, n - 1), Times(n - 1, z);
      MulMono(1.0 + t, q, 1.0 + z);
      BernoulliStep(z, t, n - 1);
      assert (1.0 + z) * (1.0 + t) == 1.0 + t + z + z * t;
    }
  }

  lemma {:induction false} BernoulliStep(z: real, t: real, n: nat)
    requires t == Times(n, z)
    ensures z * t >= 0.0
  {
    TimesIsProduct(n, z);
    var m := n as real;
    MulNonNeg(m, z * z);
    assert z * t == m * (z * z);
  }

  /** The least number of steps that grows one past `bound`. */
  lemma LeastPower(w: real, bound: real) returns (k: nat)
    requires w > 0.0
    ensures Pow(1.0 + w, k) >= bound
    ensures k > 0 ==> Pow(1.0 + w, k - 1) < bound
  {
    k := EnoughPower(w, bound);
    while k > 0 && Pow(1.0 + w, k - 1) >= bound
      invariant Pow(1.0 + w, k) >= bound
    {
      k := k - 1;
    }
  }

  lemma EnoughPower(w: real, bound: real) returns (k: nat)
    requires w > 0.0
    ensures Pow(1.0 + w, k) >= bound
  {
    var q := Max(bound, 0.0) / w;
    assert q * w == Max(bound, 0.0);
    k := q.Floor + 1;
    EnoughNumbers(w, bound, q, k as real);
    TimesIsProduct(k, w);
    assert Times(k, w) >= bound;
    PowAtLeast(w, k);
  }

  lemma EnoughNumbers(w: real, bound: real, q: real, m: real)
    requires w > 0.0 && q * w == Max(bound, 0.0) && m >= q
    ensures m * w >= bound
  {
    MulNonNeg(m - q, w);
    assert m * w == q * w + (m - q) * w;
  }

  /** How small the steps must be, and how many, to spend the centreline before the offset. */
  ghost predicate SpendsTheRoom(along: real, off: real, w: real, k: nat) {
    && 2.5 * Pow(1.0 + w, k) >= along
    && off * Pow(1.0 - w, k) > 0.5 * Pow(1.0 + w, k)
  }

  lemma SmallSteps(along: real, off: real, w: real) returns (k: nat)
    requires 0.0 < along < 4.0 && 0.5 < off <= 2.0
    requires 0.0 < w <= 0.125 && 200.0 * w <= 12.5 * off - along * along
    ensures SpendsTheRoom(along, off, w, k)
  {
    k := LeastPower(w, along / 2.5);
    if k > 0 {
      var g, up, down := Pow(1.0 + w, k - 1), Pow(1.0 + w, k), Pow(1.0 - w, k);
      PowPositive(1.0 + w, k - 1);
      PowPositive(1.0 + w, k);
      PowPositive(1.0 - w, k);
      PowAtLeast(w, k - 1);
      GainAndLoss(w, k);
      assert up == (1.0 + w) * g;
      hide Pow, Times;
      SmallNumbers(along, off, w, g, up, down);
    }
    FirstOfSpends(along, w, k);
  }

  lemma FirstOfSpends(along: real, w: real, k: nat)
    requires Pow(1.0 + w, k) >= along / 2.5
    ensures 2.5 * Pow(1.0 + w, k) >= along
  {
  }

  /** What is grown times what is shrunk loses no more than the small steps waste. */
  lemma GainAndLoss(w: real, k: nat)
    requires k > 0 && 0.0 < w <= 0.125 && Times(k - 1, w) <= 0.6
    ensures Pow(1.0 + w, k) * Pow(1.0 - w, k) >= 1.0 - 0.8 * w
  {
    PowOfProduct(1.0 + w, 1.0 - w, 1.0 + -(w * w), k);
    LossAtMost(w, k);
  }

  lemma LossAtMost(w: real, k: nat)
    requires k > 0 && 0.0 < w <= 0.125 && Times(k - 1, w) <= 0.6
    ensures Pow(1.0 + -(w * w), k) >= 1.0 - 0.8 * w
  {
    SmallSquare(w);
    PowAtLeast(-(w * w), k);
    SpentTimes(w, k, Times(k - 1, w));
  }

  lemma SmallSquare(w: real)
    requires 0.0 < w <= 0.125
    ensures w * w <= 0.125 * w
  {
  }

  lemma SpentTimes(w: real, k: nat, t: real)
    requires k > 0 && 0.0 < w <= 0.125 && t == Times(k - 1, w) <= 0.6
    ensures Times(k, -(w * w)) >= -(0.8 * w)
  {
    TimesIsProduct(k, -(w * w));
    TimesIsProduct(k - 1, w);
    var m := (k - 1) as real;
    assert k as real == m + 1.0;
    assert (m + 1.0) * -(w * w) == -(w * (m * w + w));
    MulNonNeg(w, 0.8 - (t + w));
    assert w * (t + w) <= 0.8 * w;
  }

  lemma SmallNumbers(along: real, off: real, w: real, g: real, up: real, down: real)
    requires 0.0 < along < 4.0 && 0.5 < off <= 2.0
    requires 0.0 < w <= 0.125 && 200.0 * w <= 12.5 * off - along * along
    requires 0.0 < g < along / 2.5 && up == (1.0 + w) * g && down > 0.0 && up > 0.0
    requires up * down >= 1.0 - 0.8 * w
    ensures off * down > 0.5 * up
  {
    SquareOfUp(along, w, g, up);
    ScaledGain(off, w, up * down);
    Outweighs(off * (up * down), up * up, along * along, off, w);
    Cancel(off, up, down);
  }

  lemma Outweighs(gain: real, square: real, alongSquare: real, off: real, w: real)
    requires gain >= off - 1.6 * w && square <= 0.16 * alongSquare + 8.0 * w
    requires 0.0 < 200.0 * w <= 12.5 * off - alongSquare
    ensures gain > 0.5 * square
  {
  }

  lemma ScaledGain(off: real, w: real, gain: real)
    requires 0.5 < off <= 2.0 && 0.0 < w <= 0.125 && gain >= 1.0 - 0.8 * w
    ensures off * gain >= off - 1.6 * w
  {
    MulNonNeg(off, gain - (1.0 - 0.8 * w));
    MulNonNeg(2.0 - off, w);
  }

  lemma SquareOfUp(along: real, w: real, g: real, up: real)
    requires 0.0 < along < 4.0 && 0.0 < w <= 0.125
    requires 0.0 < g < along / 2.5 && up == (1.0 + w) * g
    ensures up * up <= 0.16 * (along * along) + 8.0 * w
  {
    var h := 0.4 * along;
    assert h == along / 2.5;
    var e := 2.0 * w + w * w;
    SmallSquare(w);
    SquareMono(g, h);
    SquareMono(g, 1.6);
    assert h * h == 0.16 * (along * along);
    assert up * up == g * g + e * (g * g);
    Excess(e, w, g * g);
  }

  lemma Excess(e: real, w: real, square: real)
    requires 0.0 <= e <= 2.125 * w && 0.0 <= square <= 2.56 && w > 0.0
    ensures e * square <= 8.0 * w
  {
    MulMono(square, 2.56, e);
  }

  lemma Cancel(off: real, up: real, down: real)
    requires up > 0.0 && off * (up * down) > 0.5 * (up * up)
    ensures off * down > 0.5 * up
  {
    assert up * (off * down) == off * (up * down);
    assert up * (0.5 * up) == 0.5 * (up * up);
    if off * down <= 0.5 * up { MulMono(off * down, 0.5 * up, up); }
  }

  // ---------------------------------------------------------------- the run that is sent back out

  /** Before he was established, some look put him on the pattern again. */
  ghost predicate SentBackOut(p: Profile, run: seq<Look>) {
    exists j :: 0 <= j < |run| && IsPatternLeg(Guide(p, run[j].at, run[j].onMissed).leg)
                && forall i :: 0 <= i < j ==> !Established(p, run[i].at)
  }

  /** Every run a complying aircraft can fly from here, however short its looks. */
  ghost predicate FlownFrom(p: Profile, s: Aircraft, most: real, run: seq<Look>) {
    InboundRun(p, 0.0, most, run) && run[0].at == s
  }

  /** Half a mile off and inside four miles the range tolerance is far smaller than the offset. */
  lemma NotEstablishedWide(p: Profile, s: Aircraft)
    requires p.Valid() && 0.0 < s.along < 4.0 && 0.5 < Abs(s.cross) <= 2.0
    ensures !Established(p, s)
  {
    ToleranceSmall(p.onCourse, s.along, Abs(s.cross));
    assert s.cross * s.cross == Abs(s.cross) * Abs(s.cross);
  }

  lemma ToleranceSmall(k: real, along: real, off: real)
    requires 0.0 <= k <= 0.03 && 0.0 < along < 4.0 && 0.5 < off <= 2.0
    ensures off * off > k * k * (along * along + off * off)
  {
    SquareMono(k, 0.03);
    SquareMono(along, 4.0);
    SquareMono(off, 2.0);
    SquareMono(0.5, off);
    var sum := along * along + off * off;
    MulNonNeg(0.0009 - k * k, sum);
  }

  lemma SentOutHere(p: Profile, s: Aircraft)
    requires p.Valid() && 0.0 < s.along < 4.0 && 0.5 < Abs(s.cross) <= 2.0
    requires !InPosition(p, s.along, s.cross)
    ensures IsPatternLeg(Guide(p, s, false).leg)
  {
    NotEstablishedWide(p, s);
  }

  lemma OutOfRoomHere(p: Profile, s: Aircraft)
    requires p.Valid() && 0.0 < s.along <= 2.5 && 0.5 < Abs(s.cross)
    ensures !InPosition(p, s.along, s.cross)
  {
  }

  /** One small look from a state with lookahead half its distance to run. */
  lemma SmallLook(p: Profile, most: real, s: Aircraft, w: real) returns (fly: real, next: Aircraft)
    requires p.Valid() && 0.0 < w <= 0.125 && 6.0 * w <= most
    requires 2.5 < s.along < 4.0 && 0.5 < Abs(s.cross) <= 2.0 && InPosition(p, s.along, s.cross)
    ensures Flown(p, 0.0, most, Look(s, false, fly), next)
    ensures 0.0 < next.along < s.along && (1.0 + w) * next.along == s.along
    ensures (1.0 + w) * Abs(next.cross) == (1.0 - w) * Abs(s.cross)
  {
    RollsOnHere(p, s);
    fly, next := SmallTravel(s, s.along / 2.0, w, most);
  }

  lemma RollsOnHere(p: Profile, s: Aircraft)
    requires p.Valid() && 2.5 < s.along < 4.0 && 0.5 < Abs(s.cross) <= 2.0
    requires InPosition(p, s.along, s.cross)
    ensures Guide(p, s, false) == Order(RollOn, -(s.along / 2.0), -s.cross)
  {
    NotEstablishedWide(p, s);
  }

  lemma SmallTravel(s: Aircraft, look: real, w: real, most: real) returns (fly: real, next: Aircraft)
    requires 0.0 < w <= 0.125 && 6.0 * w <= most
    requires 2.5 < s.along < 4.0 && look == s.along / 2.0 && Abs(s.cross) <= 2.0
    ensures Travelled(s, Order(RollOn, -look, -s.cross), fly, 0.0, most, next)
    ensures 0.0 < next.along < s.along && (1.0 + w) * next.along == s.along
    ensures (1.0 + w) * Abs(next.cross) == (1.0 - w) * Abs(s.cross)
  {
    var left, rest;
    fly, left, rest := SmallParts(s.along, s.cross, look, w, most);
    next := Aircraft(left, rest, s.altFt, -look, -s.cross);
  }

  lemma SmallParts(along: real, cross: real, look: real, w: real, most: real)
    returns (fly: real, left: real, rest: real)
    requires 0.0 < w <= 0.125 && 6.0 * w <= most
    requires 2.5 < along < 4.0 && look == along / 2.0 && Abs(cross) <= 2.0
    ensures fly > 0.0 && left == along + fly * -look && rest == cross + fly * -cross
    ensures 0.0 <= fly * fly * ((-look) * (-look) + (-cross) * (-cross)) <= most * most
    ensures 0.0 < left < along && (1.0 + w) * left == along
    ensures (1.0 + w) * Abs(rest) == (1.0 - w) * Abs(cross)
  {
    var v := Reciprocal(w);
    fly := FlyOf(w, v);
    left, rest := along + fly * -look, cross + fly * -cross;
    LookLength(fly, w, most, look, cross);
    AlongShare(along, look, w, v, fly, left);
    CrossShare(cross, w, v, fly, rest);
  }

  lemma FlyOf(w: real, v: real) returns (fly: real)
    requires 0.0 < w * v && v * w < w
    ensures fly == 2.0 * (w * v) && 0.0 < fly <= 2.0 * w
  {
    fly := 2.0 * (w * v);
  }

  lemma Reciprocal(w: real) returns (v: real)
    requires 0.0 < w <= 0.125
    ensures v * (1.0 + w) == 1.0 && v + w * v == 1.0
    ensures 0.0 < v < 1.0 && 0.0 < w * v && v * w < w
  {
    v := Inverse(1.0 + w);
    assert v * (1.0 + w) == v + w * v;
    MulPos(w, v);
    assert v < 1.0;
    Fraction(v, w);
    assert v * w < w;
  }

  lemma Inverse(x: real) returns (v: real)
    requires x > 0.0
    ensures v * x == 1.0 && v > 0.0
  {
    v := 1.0 / x;
    if v <= 0.0 { MulNonNeg(-v, x); }
  }

  lemma LookLength(fly: real, w: real, most: real, look: real, cross: real)
    requires 0.0 < fly <= 2.0 * w && 6.0 * w <= most
    requires 1.25 <= look < 2.0 && Abs(cross) <= 2.0
    ensures 0.0 <= fly * fly * ((-look) * (-look) + (-cross) * (-cross)) <= most * most
  {
    var sq := (-look) * (-look) + (-cross) * (-cross);
    SquareMono(look, 2.0);
    SquareMono(Abs(cross), 2.0);
    assert (-look) * (-look) == look * look;
    assert (-cross) * (-cross) == Abs(cross) * Abs(cross);
    SquareMono(3.0 * fly, most);
    assert (3.0 * fly) * (3.0 * fly) == 9.0 * (fly * fly);
    MulNonNeg(fly * fly, 9.0 - sq);
    MulNonNeg(fly * fly, sq);
  }

  lemma AlongShare(along: real, look: real, w: real, v: real, fly: real, next: real)
    requires along > 0.0 && look == along / 2.0 && w > 0.0 && 0.0 < v < 1.0
    requires v * (1.0 + w) == 1.0 && fly == 2.0 * (w * v) && next == along + fly * -look
    ensures 0.0 < next < along && (1.0 + w) * next == along
  {
    assert fly * -look == -(w * v * along);
    assert w * v == 1.0 - v;
    assert next == v * along;
    MulPos(v, along);
    MulPos(1.0 - v, along);
    assert (1.0 + w) * (v * along) == (v * (1.0 + w)) * along;
  }

  lemma CrossShare(cross: real, w: real, v: real, fly: real, next: real)
    requires 0.0 < w <= 0.125 && 0.0 < v < 1.0
    requires v * (1.0 + w) == 1.0 && fly == 2.0 * (w * v) && next == cross + fly * -cross
    ensures (1.0 + w) * Abs(next) == (1.0 - w) * Abs(cross)
  {
    var r := v * (1.0 - w);
    assert w * v == 1.0 - v;
    assert r == 1.0 - fly;
    assert next == r * cross;
    MulPos(v, 1.0 - w);
    AbsOfProduct(r, cross);
    var off := Abs(cross);
    assert (1.0 + w) * (r * off) == (v * (1.0 + w)) * ((1.0 - w) * off);
  }

  /** From a state with the room spent, a run of small looks that is sent back out. */
  lemma {:induction false} SpendIt(p: Profile, most: real, s: Aircraft, w: real, k: nat) returns (run: seq<Look>)
    requires p.Valid() && 0.0 < w <= 0.125 && 6.0 * w <= most
    requires 0.0 < s.along < 4.0 && 0.5 < Abs(s.cross) <= 2.0
    requires SpendsTheRoom(s.along, Abs(s.cross), w, k)
    ensures FlownFrom(p, s, most, run) && SentBackOut(p, run)
    decreases k
  {
    hide Guide, Established, InPosition, Flown, SpendsTheRoom;
    if !InPosition(p, s.along, s.cross) {
      run := [Look(s, false, 1.0)];
      SentOutHere(p, s);
      assert IsPatternLeg(Guide(p, run[0].at, run[0].onMissed).leg);
    } else {
      if s.along <= 2.5 { OutOfRoomHere(p, s); }
      RollsOnHere(p, s);
      var fly, next := SmallLook(p, most, s, w);
      NextSpends(s.along, Abs(s.cross), w, k, next.along, Abs(next.cross));
      var rest := SpendIt(p, most, next, w, k - 1);
      run := [Look(s, false, fly)] + rest;
      NotEstablishedWide(p, s);
      Prepend(p, most, Look(s, false, fly), rest);
    }
  }

  lemma NextSpends(along: real, off: real, w: real, k: nat, left: real, rest: real)
    requires 0.0 < w <= 0.125 && along > 2.5 && off > 0.5 && SpendsTheRoom(along, off, w, k)
    requires (1.0 + w) * left == along && (1.0 + w) * rest == (1.0 - w) * off && rest >= 0.0
    ensures k > 0 && SpendsTheRoom(left, rest, w, k - 1)
    ensures 0.5 < rest <= off
  {
    if k == 0 {
      assert false;
    }
    var up, down := Pow(1.0 + w, k - 1), Pow(1.0 - w, k - 1);
    PowBounds(w, k - 1);
    assert Pow(1.0 + w, k) == (1.0 + w) * up && Pow(1.0 - w, k) == (1.0 - w) * down;
    hide Pow;
    NextNumbers(along, off, w, up, down, left, rest);
  }

  lemma NextNumbers(along: real, off: real, w: real, up: real, down: real, left: real, rest: real)
    requires 0.0 < w <= 0.125 && off > 0.5 && rest >= 0.0
    requires (1.0 + w) * left == along && (1.0 + w) * rest == (1.0 - w) * off
    requires 2.5 * ((1.0 + w) * up) >= along && off * ((1.0 - w) * down) > 0.5 * ((1.0 + w) * up)
    requires up >= 1.0 && 0.0 < down <= 1.0
    ensures 2.5 * up >= left && rest * down > 0.5 * up && 0.5 < rest <= off
  {
    var h := 1.0 + w;
    if left > 2.5 * up { SlopeStrict(2.5 * up, left, h); assert h * left == left * h; }
    assert h * (rest * down) == ((1.0 - w) * off) * down == off * ((1.0 - w) * down);
    if rest * down <= 0.5 * up { MulMono(rest * down, 0.5 * up, h); }
    MulMono(down, 1.0, rest);
    RestBelow(w, rest, off);
  }

  lemma RestBelow(w: real, rest: real, off: real)
    requires w > 0.0 && off > 0.0 && rest >= 0.0 && (1.0 + w) * rest == (1.0 - w) * off
    ensures rest <= off
  {
    MulNonNeg(w, rest);
    MulPos(w, off);
  }

  lemma PowBounds(w: real, k: nat)
    requires 0.0 < w < 1.0
    ensures Pow(1.0 + w, k) >= 1.0 && 0.0 < Pow(1.0 - w, k) <= 1.0
  {
    PowAtLeast(w, k);
    TimesIsProduct(k, w);
    MulNonNeg(k as real, w);
    PowPositive(1.0 - w, k);
    PowAtMostOne(1.0 - w, k);
  }

  lemma {:induction false} PowAtMostOne(x: real, k: nat)
    requires 0.0 < x < 1.0
    ensures Pow(x, k) <= 1.0
  {
    if k > 0 {
      PowAtMostOne(x, k - 1);
      MulMono(Pow(x, k - 1), 1.0, x);
    }
  }

  lemma Prepend(p: Profile, most: real, l: Look, rest: seq<Look>)
    requires !ToldMissed(p, l) && !Established(p, l.at)
    requires InboundRun(p, 0.0, most, rest) && SentBackOut(p, rest)
    requires Flown(p, 0.0, most, l, rest[0].at)
    ensures InboundRun(p, 0.0, most, [l] + rest) && SentBackOut(p, [l] + rest)
  {
    hide Guide, Established, Flown, IsPatternLeg, ToldMissed;
    var run := [l] + rest;
    forall i | 0 <= i < |run| - 1
      ensures Flown(p, 0.0, most, run[i], run[i + 1].at)
    {
      if i > 0 { assert Flown(p, 0.0, most, rest[i - 1], rest[i - 1 + 1].at); }
    }
    var j :| 0 <= j < |rest| && IsPatternLeg(Guide(p, rest[j].at, rest[j].onMissed).leg)
             && forall i :: 0 <= i < j ==> !Established(p, rest[i].at);
    assert run[j + 1] == rest[j];
    forall i | 0 <= i < j + 1
      ensures !Established(p, run[i].at)
    {
      if i > 0 { assert run[i] == rest[i - 1]; }
    }
    assert IsPatternLeg(Guide(p, run[j + 1].at, run[j + 1].onMissed).leg);
    forall i | 0 <= i < |run|
      ensures !ToldMissed(p, run[i])
    {
      if i > 0 { assert run[i] == rest[i - 1]; }
    }
  }

  lemma WithoutRoomSentOut(p: Profile, s: Aircraft, most: real) returns (run: seq<Look>)
    requires p.Valid() && ShortLooks(p, most)
    requires InPosition(p, s.along, s.cross) && Abs(s.cross) <= TURN_IN_NM && !CanRollOut(s)
    ensures FlownFrom(p, s, most, run) && SentBackOut(p, run)
  {
    if s.along >= 4.0 { FourMilesIsOnTheWayIn(p, s); CloseIsFine(s); }
    var off := Abs(s.cross);
    var w := Min(0.125, Min(most / 6.0, (12.5 * off - s.along * s.along) / 200.0));
    var k := SmallSteps(s.along, off, w);
    run := SpendIt(p, most, s, w, k);
  }

  lemma CloseIsFine(s: Aircraft)
    requires Settled(s)
    ensures CanRollOut(s)
  {
  }

  /** The engine's central claim, exactly: at the turn in, no complying run whatever its looks is
      sent back out before it is established if and only if there is room to roll out. */
  lemma TurnInIsFinalExactly(p: Profile, s: Aircraft, most: real)
    requires p.Valid() && ShortLooks(p, most)
    requires InPosition(p, s.along, s.cross) && Abs(s.cross) <= TURN_IN_NM
    ensures CanRollOut(s) <==> forall run :: FlownFrom(p, s, most, run) ==> !SentBackOut(p, run)
  {
    if CanRollOut(s) {
      forall run | FlownFrom(p, s, most, run)
        ensures !SentBackOut(p, run)
      {
        RoomMeansNotSentOut(p, s, most, run);
      }
    } else {
      var run := WithoutRoomSentOut(p, s, most);
      assert FlownFrom(p, s, most, run) && SentBackOut(p, run);
    }
  }

  lemma RoomMeansNotSentOut(p: Profile, s: Aircraft, most: real, run: seq<Look>)
    requires p.Valid() && ShortLooks(p, most)
    requires InPosition(p, s.along, s.cross) && CanRollOut(s) && FlownFrom(p, s, most, run)
    ensures !SentBackOut(p, run)
  {
    hide InPosition, CanRollOut, Established, ToldMissed;
    if SentBackOut(p, run) {
      var j :| 0 <= j < |run| && IsPatternLeg(Guide(p, run[j].at, run[j].onMissed).leg)
               && forall i :: 0 <= i < j ==> !Established(p, run[i].at);
      assert OnTheWayIn(p, run[0].at);
      forall i | 0 <= i < j
        ensures !Guide(p, run[i].at, run[i].onMissed).leg.AtMap?
      {
        AtMapIsEstablished(p, run[i]);
      }
      NeverSentBackOut(p, most, run, j);
    }
  }

  lemma AtMapIsEstablished(p: Profile, l: Look)
    requires !Established(p, l.at)
    ensures !Guide(p, l.at, l.onMissed).leg.AtMap?
  {
    hide Established;
  }

  /** The condition is not idle.  Three miles to run and nine tenths of a mile off, at the published
      eleven-mile procedure: in position, turned in, and on the next look sent back out. */
  lemma TurnedInAndSentBackOut()
    ensures var p := Profile(11.0, 0.6, true, 3000.0, 800.0, 1.0, 0.0, 0.3057, 0.0262);
            var s := Aircraft(3.0, 0.9, 3000.0, -1.0, 0.0);
            var l := Look(s, false, 0.17);
            var o := Guide(p, s, false);
            var next := Aircraft(s.along + l.fly * o.da, s.cross + l.fly * o.dc, 3000.0, o.da, o.dc);
            && p.Valid() && Flown(p, 0.25, 0.3, l, next)
            && o.leg == RollOn && Guide(p, next, false).leg == Downwind
  {
  }
}
