/** The sweep's own flights are runs of looks, so from every start they arrive. */
module AsrSweepArrives {
  import opened Arith
  import opened AsrAnyStart
  import opened AsrArrival
  import opened AsrGuide
  import opened AsrMissed
  import opened AsrPattern
  import opened AsrSweep
  import opened AsrTurnIn

  /** The look the loop takes at step `n`, with the latch it holds. */
  function LookAt(p: Profile, start: Aircraft, told: seq<Told>, n: nat): Look
    requires n < |told|
  {
    var path := Path(p, start, told, n);
    Look(path[n], LatchBefore(p, path, n), told[n].fly)
  }

  function RunOf(p: Profile, start: Aircraft, told: seq<Told>): (run: seq<Look>)
    ensures |run| == |told|
  {
    seq(|told|, n requires 0 <= n < |told| => LookAt(p, start, told, n))
  }

  /** Between this look and the next he flies from `least` to `most` miles. */
  predicate Paced(p: Profile, l: Look, least: real, most: real) {
    var o := Guide(p, l.at, l.onMissed);
    l.fly > 0.0 && least * least <= l.fly * l.fly * (o.da * o.da + o.dc * o.dc) <= most * most
  }

  /** Away from a missed approach, but still with its latch or over the field, he is not ordered below
      where he is, unless that is above the altitude that ends it. */
  predicate NotOrderedDown(p: Profile, l: Look, t: Told) {
    Unsettled(p, l) && !ToldMissed(p, l) && t.altFt != 0.0 ==> Capped(p, t.altFt) >= Capped(p, l.at.altFt)
  }

  lemma NextIsFlown(p: Profile, l: Look, t: Told, least: real, most: real)
    requires Paced(p, l, least, most) && t.fly == l.fly
    ensures Flown(p, least, most, l, NextPos(p, l.at, l.onMissed, t))
  {
    hide Guide;
  }

  lemma NextClimbsOn(p: Profile, l: Look, t: Told)
    requires NotOrderedDown(p, l, t) && p.missedClimbFt != 0.0
    ensures ClimbsOn(p, CLIMB_STEP, l, NextPos(p, l.at, l.onMissed, t))
  {
    MissedIsLow(p, l.at, l.onMissed);
    hide Guide, Unsettled;
  }

  /** Each look hands on the next. */
  lemma LooksFollow(p: Profile, start: Aircraft, told: seq<Told>, n: nat)
    requires n + 1 < |told|
    ensures var l, next := LookAt(p, start, told, n), LookAt(p, start, told, n + 1);
            next.at == NextPos(p, l.at, l.onMissed, told[n]) && next.onMissed == NextLatch(p, l.at, l.onMissed)
    ensures Says(p, start, told, n) == Guide(p, LookAt(p, start, told, n).at, LookAt(p, start, told, n).onMissed).leg
  {
    hide Guide, NextPos, NextLatch, Path, LatchBefore;
    NextLook(p, start, told, n);
  }

  lemma SaysAtLook(p: Profile, start: Aircraft, told: seq<Told>, n: nat)
    requires n < |told|
    ensures Says(p, start, told, n) == Guide(p, LookAt(p, start, told, n).at, LookAt(p, start, told, n).onMissed).leg
  {
    hide Guide, NextPos, NextLatch, Path, LatchBefore;
    NextLook(p, start, told, n);
  }

  lemma StartsAt(p: Profile, start: Aircraft, told: seq<Told>)
    requires told != []
    ensures RunOf(p, start, told)[0].at == start
  {
    AtTheStart(p, start, told);
  }

  /** The flight is a run with its latch handed back, climbing as it must. */
  lemma FlightIsARun(p: Profile, start: Aircraft, told: seq<Told>, least: real, most: real)
    requires p.missedClimbFt != 0.0
    requires forall n :: 0 <= n < |told| ==> Paced(p, LookAt(p, start, told, n), least, most)
    requires forall n :: 0 <= n < |told| ==> NotOrderedDown(p, LookAt(p, start, told, n), told[n])
    ensures var run := RunOf(p, start, told);
            IsRun(p, least, most, run) && LatchFedBack(p, run) && ClimbsAway(p, CLIMB_STEP, run)
  {
    hide LookAt, NextPos, NextLatch, Paced, NotOrderedDown, Flown, ClimbsOn, Guide;
    var run := RunOf(p, start, told);
    forall n | 0 <= n < |told| - 1
      ensures Flown(p, least, most, run[n], run[n + 1].at) && ClimbsOn(p, CLIMB_STEP, run[n], run[n + 1].at)
      ensures run[n + 1].onMissed == NextLatch(p, run[n].at, run[n].onMissed)
    {
      LooksFollow(p, start, told, n);
      FlyIsTold(p, start, told, n);
      NextIsFlown(p, run[n], told[n], least, most);
      NextClimbsOn(p, run[n], told[n]);
    }
  }

  lemma FlyIsTold(p: Profile, start: Aircraft, told: seq<Told>, n: nat)
    requires n < |told|
    ensures LookAt(p, start, told, n).fly == told[n].fly
  {
    hide Path, LatchBefore;
  }

  /** From every start, with looks enough for where and how high it is, the loop calls the missed approach
      point. */
  lemma EveryFlightArrives(
      p: Profile, start: Aircraft, told: seq<Told>, least: real, most: real, k: nat, n: nat, b: nat, m: nat)
    requires p.Valid() && ShortLooks(p, most) && 0.0 < least && p.missedClimbFt != 0.0
    requires forall i :: 0 <= i < |told| ==> Paced(p, LookAt(p, start, told, i), least, most)
    requires forall i :: 0 <= i < |told| ==> NotOrderedDown(p, LookAt(p, start, told, i), told[i])
    requires start.altFt + Times(k, CLIMB_STEP) >= p.missedClimbFt
    requires EnoughInBox(p, Reach(start) + 2.0 * k as real, least, n, b, m) && |told| > InAll(k, n + b + m + 1)
    ensures exists i :: 0 <= i < |told| && Says(p, start, told, i) == AtMap
  {
    var run := RunOf(p, start, told);
    hide LookAt, Says, Paced, NotOrderedDown, IsRun, LatchFedBack, ClimbsAway, EnoughInBox, Guide, Reach;
    StartsAt(p, start, told);
    FlightIsARun(p, start, told, least, most);
    ArrivesFromAnyStart(p, CLIMB_STEP, least, most, run, k, n, b, m);
    var i :| 0 <= i < |run| && Guide(p, run[i].at, run[i].onMissed).leg.AtMap?;
    SaysAtLook(p, start, told, i);
  }
}
