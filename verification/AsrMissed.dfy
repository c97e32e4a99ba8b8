/**
 * The published missed approach over a whole sortie.  `guide` cannot tell that it has begun, so the
 * caller keeps a latch and hands it back on every look.  Nothing here assumes the pilot complies:
 * the path is any sequence of positions.
 */
module AsrMissed {
  import opened Arith
  import opened AsrGuide
  import opened AsrPattern

  /** The caller's latch after one look, as `fly` keeps it. */
  function NextLatch(p: Profile, s: Aircraft, latch: bool): bool {
    if PhaseOf(Guide(p, s, latch).leg) == PMissed then true
    else if s.altFt >= p.missedClimbFt then false
    else latch
  }

  function LatchBefore(p: Profile, path: seq<Aircraft>, n: nat): bool
    requires n <= |path|
  {
    if n == 0 then false else NextLatch(p, path[n - 1], LatchBefore(p, path, n - 1))
  }

  /** What the look at `path[i]` says, with the latch as it stands. */
  function SaysAt(p: Profile, path: seq<Aircraft>, i: nat): Leg
    requires i < |path|
  {
    Guide(p, path[i], LatchBefore(p, path, i)).leg
  }

  predicate BelowClimb(p: Profile, path: seq<Aircraft>, i: nat, j: nat) {
    forall k :: i <= k < j && k < |path| ==> path[k].altFt < p.missedClimbFt
  }

  /** What the latch remembers: a missed approach has begun and no look since was at its end. */
  lemma {:induction false} LatchIsHistory(p: Profile, path: seq<Aircraft>, n: nat)
    requires n <= |path|
    ensures LatchBefore(p, path, n)
            <==> exists i :: 0 <= i < n && IsMissedLeg(SaysAt(p, path, i)) && BelowClimb(p, path, i, n)
  {
    hide Guide;
    if n > 0 {
      LatchIsHistory(p, path, n - 1);
      var last := path[n - 1];
      MissedIsLow(p, last, LatchBefore(p, path, n - 1));
      if LatchBefore(p, path, n) {
        if !IsMissedLeg(SaysAt(p, path, n - 1)) {
          var i :| 0 <= i < n - 1 && IsMissedLeg(SaysAt(p, path, i)) && BelowClimb(p, path, i, n - 1);
          assert BelowClimb(p, path, i, n);
        } else {
          assert BelowClimb(p, path, n - 1, n);
        }
      }
      if exists i :: 0 <= i < n && IsMissedLeg(SaysAt(p, path, i)) && BelowClimb(p, path, i, n) {
        var i :| 0 <= i < n && IsMissedLeg(SaysAt(p, path, i)) && BelowClimb(p, path, i, n);
        if i < n - 1 { assert BelowClimb(p, path, i, n - 1); }
      }
    }
  }

  /** The missed approach is only ever issued below the altitude that ends it. */
  lemma MissedIsLow(p: Profile, s: Aircraft, latch: bool)
    ensures IsMissedLeg(Guide(p, s, latch).leg) ==> s.altFt < p.missedClimbFt
    ensures PhaseOf(Guide(p, s, latch).leg) == PMissed <==> IsMissedLeg(Guide(p, s, latch).leg)
  {
    hide Established, InPosition, WithinFixRadius;
  }

  /** With the latch set, exactly when he is on the missed approach. */
  lemma LatchedExactly(p: Profile, s: Aircraft)
    ensures IsMissedLeg(Guide(p, s, true).leg)
            <==> !Established(p, s) && s.altFt < p.missedClimbFt && WithinFixRadius(p, s)
  {
    hide Established, InPosition, WithinFixRadius;
  }

  lemma EstablishedLeg(p: Profile, s: Aircraft, latch: bool)
    ensures IsEstablishedLeg(Guide(p, s, latch).leg) <==> Established(p, s)
  {
    hide Established, InPosition, WithinFixRadius;
  }

  /** After any look that says missed, every later look says missed, or finds him established on the
      course again, until he reaches the climb altitude or leaves the fix radius. */
  lemma MissedIsNotInterrupted(p: Profile, path: seq<Aircraft>, i: nat, j: nat)
    requires i <= j < |path| && IsMissedLeg(SaysAt(p, path, i))
    requires BelowClimb(p, path, i, j + 1) && WithinFixRadius(p, path[j])
    ensures IsMissedLeg(SaysAt(p, path, j)) || IsEstablishedLeg(SaysAt(p, path, j))
    ensures IsEstablishedLeg(SaysAt(p, path, j)) <==> Established(p, path[j])
  {
    EstablishedLeg(p, path[j], LatchBefore(p, path, j));
    if i < j {
      assert BelowClimb(p, path, i, j);
      LatchIsHistory(p, path, j);
      LatchedExactly(p, path[j]);
    }
  }

  /** Which way he is told to fly it, whatever brought him to it: straight in along the course until the
      altitude to turn, and from there the published heading. */
  lemma MissedAsPublished(p: Profile, s: Aircraft, latch: bool)
    ensures var o := Guide(p, s, latch);
            && (o.leg == MissedOut ==> o.da == p.missedAlong && o.dc == p.missedCross)
            && (o.leg == MissedAhead ==> o.da < 0.0 && o.dc == 0.0)
            && (IsMissedLeg(o.leg) ==> (o.leg == MissedOut <==> s.altFt >= p.missedStraightFt))
  {
    hide Established, InPosition, WithinFixRadius;
  }

  /** How far along a direction the looks of a run are flown. */
  function FlownOver(run: seq<Look>, i: nat, j: nat): real
    requires i <= j <= |run|
  {
    if i == j then 0.0 else FlownOver(run, i, j - 1) + run[j - 1].fly
  }

  /** `t` is at (along, cross) times `far` from `s`. */
  predicate OnTrack(s: Aircraft, t: Aircraft, along: real, cross: real, far: real) {
    t.along == s.along + far * along && t.cross == s.cross + far * cross
  }

  lemma TrackOn(s: Aircraft, t: Aircraft, u: Aircraft, along: real, cross: real, far: real, fly: real)
    requires OnTrack(s, t, along, cross, far) && OnTrack(t, u, along, cross, fly)
    ensures OnTrack(s, u, along, cross, far + fly)
  {
    assert (far + fly) * along == far * along + fly * along;
    assert (far + fly) * cross == far * cross + fly * cross;
  }

  ghost predicate TurnedOutFrom(p: Profile, run: seq<Look>, i: nat, j: nat) {
    forall k :: i <= k < j && k < |run| ==> Guide(p, run[k].at, run[k].onMissed).leg == MissedOut
  }

  /** Through an unbroken stretch of it an aircraft that complies makes good the published track, outward
      and by as far as it has flown; */
  lemma {:induction false} TurnedOutMakesTrack(
      p: Profile, least: real, most: real, run: seq<Look>, i: nat, j: nat)
    requires IsRun(p, least, most, run) && i < j < |run| && TurnedOutFrom(p, run, i, j)
    ensures FlownOver(run, i, j) > 0.0
    ensures OnTrack(run[i].at, run[j].at, p.missedAlong, p.missedCross, FlownOver(run, i, j))
    decreases j
  {
    assert Flown(p, least, most, run[j - 1], run[j - 1 + 1].at);
    LookMakesTrack(p, least, most, run[j - 1], run[j].at);
    hide Guide, Flown, OnTrack;
    if i < j - 1 {
      TurnedOutMakesTrack(p, least, most, run, i, j - 1);
      var far := FlownOver(run, i, j - 1);
      TrackOn(run[i].at, run[j - 1].at, run[j].at, p.missedAlong, p.missedCross, far, run[j - 1].fly);
    } else {
      assert FlownOver(run, i, j - 1) == 0.0;
    }
  }

  lemma LookMakesTrack(p: Profile, least: real, most: real, l: Look, next: Aircraft)
    requires Flown(p, least, most, l, next) && Guide(p, l.at, l.onMissed).leg == MissedOut
    ensures OnTrack(l.at, next, p.missedAlong, p.missedCross, l.fly) && l.fly > 0.0
  {
    hide Guide;
    MissedAsPublished(p, l.at, l.onMissed);
  }

  /** and told to go straight ahead he stays as far off the centreline as he was, going the way he
      landed. */
  lemma {:induction false} AheadKeepsTheCentreline(
      p: Profile, least: real, most: real, run: seq<Look>, i: nat, j: nat)
    requires IsRun(p, least, most, run) && i < j < |run|
    requires forall k :: i <= k < j ==> Guide(p, run[k].at, run[k].onMissed).leg == MissedAhead
    ensures run[j].at.cross == run[i].at.cross && run[j].at.along < run[i].at.along
    decreases j
  {
    hide Guide;
    var l := run[j - 1];
    assert Flown(p, least, most, l, run[j - 1 + 1].at);
    assert Guide(p, l.at, l.onMissed).leg == MissedAhead;
    MissedAsPublished(p, l.at, l.onMissed);
    var o := Guide(p, l.at, l.onMissed);
    MulPos(l.fly, -o.da);
    assert l.fly * -o.da == -(l.fly * o.da);
    if i < j - 1 { AheadKeepsTheCentreline(p, least, most, run, i, j - 1); }
  }

  /** While altitude never falls, the procedure turns from runway course to published heading at
      most once, and never back. */
  lemma TurnsOutOnce(p: Profile, path: seq<Aircraft>, i: nat, j: nat)
    requires i <= j < |path| && path[i].altFt <= path[j].altFt
    requires SaysAt(p, path, i) == MissedOut
    ensures SaysAt(p, path, j) != MissedAhead
  {
    hide Established, InPosition, WithinFixRadius, LatchBefore;
  }

  /** The procedure ends: at the climb altitude the look is an ordinary one and the latch drops. */
  lemma {:induction false} LatchIsReleased(p: Profile, path: seq<Aircraft>, i: nat)
    requires i < |path| && path[i].altFt >= p.missedClimbFt
    ensures !IsMissedLeg(SaysAt(p, path, i)) && !LatchBefore(p, path, i + 1)
  {
    MissedIsLow(p, path[i], LatchBefore(p, path, i));
    hide Guide;
  }

  /** Why the latch exists.  Off the departure end he is told to go missed; turning out over the
      approach side, without the latch he would be given an intercept back towards the field. */
  lemma WithoutTheLatchHeIsTurnedBack()
    ensures var p := Profile(11.0, 0.6, true, 3000.0, 800.0, 1.0, 0.5, 0.3057, 0.0262);
            var path := [Aircraft(-1.5, 0.2, 600.0, -1.0, 0.0), Aircraft(8.0, -1.5, 1800.0, 1.0, 0.5)];
            && p.Valid()
            && SaysAt(p, path, 0) == MissedAhead && SaysAt(p, path, 1) == MissedOut
            && Guide(p, path[1], false).leg == RollOn
  {
    var p := Profile(11.0, 0.6, true, 3000.0, 800.0, 1.0, 0.5, 0.3057, 0.0262);
    var path := [Aircraft(-1.5, 0.2, 600.0, -1.0, 0.0), Aircraft(8.0, -1.5, 1800.0, 1.0, 0.5)];
    assert LatchBefore(p, path, 0) == false;
    assert SaysAt(p, path, 0) == MissedAhead;
    assert LatchBefore(p, path, 1) == true;
  }

  // ---------------------------------------------------------------- the missed approach point

  function PhaseRank(leg: Leg): nat { if leg.OnCourse? then 2 else if leg.Final? then 1 else 0 }

  /** On course at every look, closing by at least `least` and at most the width of the point. */
  ghost predicate OnCourseLooks(p: Profile, path: seq<Aircraft>, least: real) {
    && (forall i :: 0 <= i < |path| ==> OnTheCourse(p, path[i]))
    && (forall i :: 0 <= i < |path| - 1 ==>
          least <= path[i].along - path[i + 1].along <= p.mapNm + MAP_OVERSHOOT_NM)
  }

  lemma EstablishedLegs(p: Profile, s: Aircraft, latch: bool)
    requires Established(p, s)
    ensures var leg := Guide(p, s, latch).leg;
            leg == if s.along <= p.mapNm then AtMap else if 0.0 < s.along <= p.finalInterceptNm then Final else OnCourse
  {
    hide Established;
  }

  /** Every look up to the missed approach point is established, and none jumps it. */
  lemma {:induction false} OnCourseTo(p: Profile, path: seq<Aircraft>, least: real, j: nat)
    requires p.Valid() && least >= 0.0 && OnCourseLooks(p, path, least)
    requires j < |path| && path[0].along > p.mapNm
    requires forall i :: 0 <= i < j ==> SaysAt(p, path, i) != AtMap
    ensures Established(p, path[j])
    ensures path[j].along + Times(j, least) <= path[0].along
  {
    if j > 0 {
      OnCourseTo(p, path, least, j - 1);
      EstablishedLegs(p, path[j - 1], LatchBefore(p, path, j - 1));
      assert least <= path[j - 1].along - path[j - 1 + 1].along <= p.mapNm + MAP_OVERSHOOT_NM;
      hide OnTheCourse, LatchBefore, Guide;
      assert SaysAt(p, path, j - 1) != AtMap;
      assert OnTheCourse(p, path[j]);
    }
  }

  /** No look up to `at` says a phase before an earlier look's. */
  predicate InOrder(p: Profile, path: seq<Aircraft>, at: nat)
    requires at < |path|
  {
    forall i, j :: 0 <= i <= j <= at ==> PhaseRank(SaysAt(p, path, j)) <= PhaseRank(SaysAt(p, path, i))
  }

  lemma StillInOrder(p: Profile, path: seq<Aircraft>, at: nat)
    requires at + 1 < |path| && InOrder(p, path, at)
    requires PhaseRank(SaysAt(p, path, at + 1)) <= PhaseRank(SaysAt(p, path, at))
    ensures InOrder(p, path, at + 1)
  {
    hide SaysAt, PhaseRank;
    forall i, j | 0 <= i <= j <= at + 1
      ensures PhaseRank(SaysAt(p, path, j)) <= PhaseRank(SaysAt(p, path, i))
    {
      assert i <= at ==> PhaseRank(SaysAt(p, path, at)) <= PhaseRank(SaysAt(p, path, i));
    }
  }

  /** The phases come in the order vector, final, missed approach point, and the last is reached. */
  lemma MapCannotBeJumped(p: Profile, path: seq<Aircraft>, least: real) returns (at: nat)
    requires p.Valid() && least > 0.0 && OnCourseLooks(p, path, least)
    requires |path| > 0 && path[0].along > p.mapNm
    requires (|path| - 1) as real * least > path[0].along + MAP_OVERSHOOT_NM
    ensures at < |path| && SaysAt(p, path, at) == AtMap
    ensures forall i :: 0 <= i < at ==> SaysAt(p, path, i) == OnCourse || SaysAt(p, path, i) == Final
    ensures InOrder(p, path, at)
  {
    assert 0.0 <= least;
    hide SaysAt, Established, OnTheCourse, OnCourseLooks, InOrder;
    NothingBefore(p, path);
    at := 0;
    OnCourseTo(p, path, least, 0);
    EstablishedSays(p, path, 0);
    while SaysAt(p, path, at) != AtMap
      invariant at < |path|
      invariant forall i :: 0 <= i < at ==> SaysAt(p, path, i) != AtMap
      invariant IsEstablishedLeg(SaysAt(p, path, at))
      invariant forall i :: 0 <= i < at ==> SaysAt(p, path, i) == OnCourse || SaysAt(p, path, i) == Final
      invariant InOrder(p, path, at)
      decreases |path| - at
    {
      OnCourseTo(p, path, least, at);
      EnoughLooks(p, path, least, at);
      OnCourseTo(p, path, least, at + 1);
      EstablishedSays(p, path, at + 1);
      ClosesUp(p, path, least, at);
      CloserIsLater(p, path, at);
      StillInOrder(p, path, at);
      at := at + 1;
    }
  }

  lemma NothingBefore(p: Profile, path: seq<Aircraft>)
    requires path != []
    ensures InOrder(p, path, 0)
  {
  }

  lemma ClosesUp(p: Profile, path: seq<Aircraft>, least: real, i: nat)
    requires OnCourseLooks(p, path, least) && least >= 0.0 && i + 1 < |path|
    ensures path[i + 1].along <= path[i].along
  {
    assert least <= path[i].along - path[i + 1].along;
  }

  lemma EstablishedSays(p: Profile, path: seq<Aircraft>, i: nat)
    requires i < |path| && Established(p, path[i])
    ensures IsEstablishedLeg(SaysAt(p, path, i))
  {
    hide Established, Guide;
    EstablishedLegs(p, path[i], LatchBefore(p, path, i));
  }

  lemma {:induction false} EnoughLooks(p: Profile, path: seq<Aircraft>, least: real, at: nat)
    requires at < |path| && Established(p, path[at])
    requires path[at].along + Times(at, least) <= path[0].along
    requires (|path| - 1) as real * least > path[0].along + MAP_OVERSHOOT_NM
    ensures at + 1 < |path|
  {
    hide OnTheCourse;
    TimesIsProduct(at, least);
  }

  lemma CloserIsLater(p: Profile, path: seq<Aircraft>, i: nat)
    requires p.Valid() && i + 1 < |path| && Established(p, path[i]) && Established(p, path[i + 1])
    requires path[i + 1].along <= path[i].along
    ensures PhaseRank(SaysAt(p, path, i + 1)) <= PhaseRank(SaysAt(p, path, i))
  {
    hide Established, LatchBefore;
  }
}
