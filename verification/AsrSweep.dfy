/**
 * The sweep's flight of one approach, look after look: the latch handed back, the altitude walked
 * towards what was ordered, the reversals counted, until the missed approach point is called.
 */
module AsrSweep {
  import opened Arith
  import opened AsrGuide
  import opened AsrPattern
  import opened AsrMissed
  import opened AsrHeading

  const CLIMB_STEP := 1000.0 / 12.0
  const DESCEND_STEP := 700.0 / 12.0

  /** Looks between two reversals that still make one argument: thirty seconds at five a look. */
  const DITHER_LOOKS := 6

  /** What else a look gives: an altitude (zero for none) when it is not a missed approach, the way
      to turn, and how far he flies along the heading before the next. */
  datatype Told = Told(altFt: real, turn: Turn, fly: real)

  function Ordered(p: Profile, leg: Leg, t: Told): real { if IsMissedLeg(leg) then p.missedClimbFt else t.altFt }

  /** A look's worth of climb or descent towards an altitude, and never past it. */
  function NextAlt(alt: real, ordered: real): real {
    var want := if ordered == 0.0 then alt else ordered;
    if want > alt then Min(want, alt + CLIMB_STEP) else Max(want, alt - DESCEND_STEP)
  }

  function NextPos(p: Profile, s: Aircraft, latch: bool, t: Told): Aircraft {
    var o := Guide(p, s, latch);
    Aircraft(s.along + t.fly * o.da, s.cross + t.fly * o.dc, NextAlt(s.altFt, Ordered(p, o.leg, t)), o.da, o.dc)
  }

  /** Where he has been when `n` looks have been flown. */
  function Path(p: Profile, start: Aircraft, told: seq<Told>, n: nat): (r: seq<Aircraft>)
    requires n <= |told|
    ensures |r| == n + 1
  {
    if n == 0 then [start]
    else
      var before := Path(p, start, told, n - 1);
      before + [NextPos(p, before[n - 1], LatchBefore(p, before, n - 1), told[n - 1])]
  }

  function Says(p: Profile, start: Aircraft, told: seq<Told>, n: nat): Leg
    requires n < |told|
  {
    SaysAt(p, Path(p, start, told, n), n)
  }

  lemma {:induction false} LatchOfPrefix(p: Profile, path: seq<Aircraft>, longer: seq<Aircraft>, n: nat)
    requires n <= |path| && path <= longer
    ensures LatchBefore(p, longer, n) == LatchBefore(p, path, n)
  {
    if n > 0 {
      hide NextLatch;
      LatchOfPrefix(p, path, longer, n - 1);
    }
  }

  // ---------------------------------------------------------------- reversals

  function LastTurn(told: seq<Told>, n: nat): Turn
    requires n <= |told|
  {
    if n == 0 then Straight else if told[n - 1].turn != Straight then told[n - 1].turn else LastTurn(told, n - 1)
  }

  /** Told to turn the other way from the last time he was told to turn. */
  predicate Reverses(told: seq<Told>, i: nat)
    requires i < |told|
  {
    told[i].turn != Straight && LastTurn(told, i) != Straight && told[i].turn != LastTurn(told, i)
  }

  function Reversals(told: seq<Told>, n: nat): nat
    requires n <= |told|
  {
    if n == 0 then 0 else Reversals(told, n - 1) + if Reverses(told, n - 1) then 1 else 0
  }

  /** The last reversal before look `n`, or -1. */
  function LastReversal(told: seq<Told>, n: nat): (r: int)
    requires n <= |told|
    ensures -1 <= r < n && (r >= 0 ==> Reverses(told, r))
    ensures forall i :: r < i < n ==> !Reverses(told, i)
  {
    if n == 0 then -1 else if Reverses(told, n - 1) then n - 1 else LastReversal(told, n - 1)
  }

  function Dithers(told: seq<Told>, n: nat): nat
    requires n <= |told|
  {
    if n == 0 then 0
    else
      Dithers(told, n - 1)
      + if Reverses(told, n - 1) && LastReversal(told, n - 1) >= 0 && n - 1 - LastReversal(told, n - 1) <= DITHER_LOOKS
        then 1 else 0
  }

  /** He is not argued with exactly when any two reversals are further apart than the window. */
  lemma {:induction false} NoDitherExactly(told: seq<Told>, n: nat)
    requires n <= |told|
    ensures Dithers(told, n) == 0 <==>
              forall i, j :: 0 <= i < j < n && Reverses(told, i) && Reverses(told, j) ==> j - i > DITHER_LOOKS
    ensures Reversals(told, n) > 0 <==> LastReversal(told, n) >= 0
    ensures Reversals(told, n) > 0 ==> Dithers(told, n) < Reversals(told, n)
  {
    if n > 0 {
      hide Reverses;
      NoDitherExactly(told, n - 1);
      var last := LastReversal(told, n - 1);
      if Reverses(told, n - 1) && last >= 0 {
        assert forall i :: 0 <= i < n - 1 && Reverses(told, i) ==> i <= last;
      }
    }
  }

  ghost predicate ToldTurn(told: seq<Told>, i: nat, turn: Turn) { i < |told| && told[i].turn == turn }

  /** The last turn called is that of the last look that called one, and none called is no turn. */
  lemma {:induction false} LastTurnIsTheLast(told: seq<Told>, n: nat)
    requires n <= |told|
    ensures LastTurn(told, n) == Straight <==> forall i :: 0 <= i < n ==> told[i].turn == Straight
    ensures LastTurn(told, n) != Straight ==>
              exists i :: 0 <= i < n && ToldTurn(told, i, LastTurn(told, n))
                && forall j :: i < j < n ==> told[j].turn == Straight
  {
    if n > 0 {
      LastTurnIsTheLast(told, n - 1);
      if told[n - 1].turn != Straight {
        assert ToldTurn(told, n - 1, LastTurn(told, n));
      } else if LastTurn(told, n) != Straight {
        var i :| 0 <= i < n - 1 && ToldTurn(told, i, LastTurn(told, n - 1))
                 && forall j :: i < j < n - 1 ==> told[j].turn == Straight;
        assert ToldTurn(told, i, LastTurn(told, n));
      }
    }
  }

  ghost predicate Argued(told: seq<Told>, i: nat) {
    && i < |told| && Reverses(told, i)
    && exists j :: 0 <= j < i && i - j <= 6 && Reverses(told, j)
  }

  /** Both counters count looks: those that reverse the turn, */
  lemma {:induction false} ReversalsCount(told: seq<Told>, n: nat)
    requires n <= |told|
    ensures Reversals(told, n) == |set i: nat | i < n && i < |told| && Reverses(told, i)|
  {
    hide Reverses;
    var all := set i: nat | i < n && i < |told| && Reverses(told, i);
    if n == 0 {
      assert all == {};
    } else {
      ReversalsCount(told, n - 1);
      var before := set i: nat | i < n - 1 && i < |told| && Reverses(told, i);
      assert all == before + if Reverses(told, n - 1) then {n - 1} else {};
    }
  }

  /** and those that do within six of another. */
  lemma {:induction false} DithersCount(told: seq<Told>, n: nat)
    requires n <= |told|
    ensures Dithers(told, n) == |set i: nat | i < n && Argued(told, i)|
  {
    hide Reverses, Argued;
    var all := set i: nat | i < n && Argued(told, i);
    if n == 0 {
      assert all == {};
    } else {
      DithersCount(told, n - 1);
      ArguedIsDither(told, n - 1);
      var before := set i: nat | i < n - 1 && Argued(told, i);
      assert all == before + if Argued(told, n - 1) then {n - 1} else {};
    }
  }

  lemma {:induction false} ArguedIsDither(told: seq<Told>, i: nat)
    requires i < |told|
    ensures Argued(told, i) <==>
              Reverses(told, i) && LastReversal(told, i) >= 0 && i - LastReversal(told, i) <= DITHER_LOOKS
  {
    hide Reverses;
  }

  // ---------------------------------------------------------------- the flight

  datatype Flight = Flight(arrived: bool, at: nat, established: int, turns: nat, dither: nat)

  predicate OnFinal(leg: Leg) { leg.Final? || leg.AtMap? }

  /** Look `i` is the first on final or at the point, among the first `n`; or there is none. */
  predicate FirstOnFinal(p: Profile, start: Aircraft, told: seq<Told>, n: nat, i: int)
    requires n <= |told|
  {
    && -1 <= i < n && (i >= 0 ==> OnFinal(Says(p, start, told, i)))
    && forall k :: 0 <= k < (if i < 0 then n else i) ==> !OnFinal(Says(p, start, told, k))
  }

  /** Fly what is told until the missed approach point is called or the looks run out. */
  method Fly(p: Profile, start: Aircraft, told: seq<Told>) returns (f: Flight)
    ensures f.at <= |told| && (f.arrived <==> exists n :: 0 <= n < |told| && Says(p, start, told, n) == AtMap)
    ensures f.arrived ==> f.at < |told| && Says(p, start, told, f.at) == AtMap
    ensures forall n :: 0 <= n < f.at ==> Says(p, start, told, n) != AtMap
    ensures f.arrived ==> f.established >= 0 && FirstOnFinal(p, start, told, f.at + 1, f.established)
    ensures !f.arrived ==> f.at == |told| && f.established == -1
    ensures var looks := if f.arrived then f.at + 1 else |told|;
            f.turns == Reversals(told, looks) && f.dither == Dithers(told, looks)
  {
    hide Guide, NextPos, LatchBefore, Reverses, NextLatch, PhaseOf, Path;
    var pos, onMissed := start, false;
    var lastTurn, lastTurnStep: int, turns, dither := Straight, -1, 0, 0;
    var established: int := -1;
    var n := 0;
    AtTheStart(p, start, told);
    while n < |told|
      invariant 0 <= n <= |told|
      invariant pos == Path(p, start, told, n)[n] && onMissed == LatchBefore(p, Path(p, start, told, n), n)
      invariant lastTurn == LastTurn(told, n) && lastTurnStep == LastReversal(told, n)
      invariant turns == Reversals(told, n) && dither == Dithers(told, n)
      invariant FirstOnFinal(p, start, told, n, established)
      invariant forall i :: 0 <= i < n ==> Says(p, start, told, i) != AtMap
    {
      var g := Guide(p, pos, onMissed);
      var was := onMissed;
      assert g.leg == Says(p, start, told, n);
      NextLook(p, start, told, n);
      if PhaseOf(g.leg) == PMissed {
        onMissed := true;
      } else if pos.altFt >= p.missedClimbFt {
        onMissed := false;
      }
      LatchStep(p, pos, was, onMissed);
      var turn := told[n].turn;
      Counted(told, n);
      if turn != Straight {
        if lastTurn != Straight && turn != lastTurn {
          turns := turns + 1;
          if lastTurnStep >= 0 && n - lastTurnStep <= DITHER_LOOKS {
            dither := dither + 1;
          }
          lastTurnStep := n;
        }
        lastTurn := turn;
      }
      if established < 0 && OnFinal(g.leg) {
        established := n;
      }
      if g.leg.AtMap? {
        return Flight(true, n, established, turns, dither);
      }
      pos := NextPos(p, pos, was, told[n]);
      n := n + 1;
    }
    return Flight(false, n, -1, turns, dither);
  }

  lemma {:induction false} AtTheStart(p: Profile, start: Aircraft, told: seq<Told>)
    ensures Path(p, start, told, 0) == [start] && LatchBefore(p, [start], 0) == false
  {
  }

  lemma LatchStep(p: Profile, pos: Aircraft, was: bool, now: bool)
    requires now == if PhaseOf(Guide(p, pos, was).leg) == PMissed then true
                    else if pos.altFt >= p.missedClimbFt then false else was
    ensures now == NextLatch(p, pos, was)
  {
    hide Guide;
  }

  lemma NextLook(p: Profile, start: Aircraft, told: seq<Told>, n: nat)
    requires n < |told|
    ensures var path, next := Path(p, start, told, n), Path(p, start, told, n + 1);
            && next[n + 1] == NextPos(p, path[n], LatchBefore(p, path, n), told[n]) && path <= next
            && LatchBefore(p, next, n + 1) == NextLatch(p, path[n], LatchBefore(p, path, n))
            && Says(p, start, told, n) == Guide(p, path[n], LatchBefore(p, path, n)).leg
  {
    hide Guide, NextPos, NextLatch;
    var path, next := Path(p, start, told, n), Path(p, start, told, n + 1);
    LatchOfPrefix(p, path, next, n);
  }

  lemma Counted(told: seq<Told>, n: nat)
    requires n < |told|
    ensures Reverses(told, n) <==>
              told[n].turn != Straight && LastTurn(told, n) != Straight && told[n].turn != LastTurn(told, n)
    ensures LastTurn(told, n + 1) == if told[n].turn != Straight then told[n].turn else LastTurn(told, n)
    ensures LastReversal(told, n + 1) == if Reverses(told, n) then n else LastReversal(told, n)
  {
  }

  // ---------------------------------------------------------------- the climb that ends the procedure

  /** Ordered nothing he holds his altitude; ordered one, he goes the way to it by a look's climb or
      descent, or to it if that is nearer. */
  lemma OneLookTowards(alt: real, ordered: real)
    ensures var next := NextAlt(alt, ordered);
            && (ordered == 0.0 || ordered == alt ==> next == alt)
            && (ordered != 0.0 && ordered > alt ==>
                  alt < next <= ordered && (next == ordered || 12.0 * (next - alt) == 1000.0))
            && (ordered != 0.0 && ordered < alt ==>
                  ordered <= next < alt && (next == ordered || 12.0 * (alt - next) == 700.0))
  {
  }

  /** Ordered one altitude above him at every look, he climbs straight to it and stops there. */
  lemma {:induction false} ClimbsStraightTo(p: Profile, start: Aircraft, told: seq<Told>, i: nat, k: nat, want: real)
    requires i + k <= |told| && want != 0.0 && Path(p, start, told, i)[i].altFt <= want
    requires forall j :: i <= j < i + k ==> Ordered(p, Says(p, start, told, j), told[j]) == want
    ensures Path(p, start, told, i + k)[i + k].altFt
            == Min(want, Path(p, start, told, i)[i].altFt + Times(k, CLIMB_STEP))
  {
    hide Guide, LatchBefore, Says, Path;
    if k > 0 {
      ClimbsStraightTo(p, start, told, i, k - 1, want);
      var n := i + k - 1;
      NextLook(p, start, told, n);
      OneClimb(p, Path(p, start, told, n)[n], LatchBefore(p, Path(p, start, told, n), n), told[n], want);
      TimesNotNegative(k - 1);
    }
  }

  lemma OneClimb(p: Profile, s: Aircraft, latch: bool, t: Told, want: real)
    requires want != 0.0 && s.altFt <= want && Ordered(p, Guide(p, s, latch).leg, t) == want
    ensures NextPos(p, s, latch, t).altFt == Min(want, s.altFt + CLIMB_STEP)
  {
    hide Guide;
  }

  lemma {:induction false} TimesNotNegative(k: nat)
    ensures Times(k, CLIMB_STEP) >= 0.0
  {
    if k > 0 { TimesNotNegative(k - 1); }
  }

  /** The missed approach does not last: within the looks the climb takes, one of them is not a missed
      approach, or he is at the altitude that ends it and the latch has dropped. */
  lemma MissedApproachEnds(p: Profile, start: Aircraft, told: seq<Told>, i: nat, k: nat)
    requires i + k < |told| && p.missedClimbFt != 0.0
    requires Path(p, start, told, i)[i].altFt + Times(k, CLIMB_STEP) >= p.missedClimbFt
    requires Path(p, start, told, i)[i].altFt <= p.missedClimbFt
    ensures (exists j :: i <= j < i + k && !IsMissedLeg(Says(p, start, told, j)))
            || (Path(p, start, told, i + k)[i + k].altFt == p.missedClimbFt && !IsMissedLeg(Says(p, start, told, i + k))
                && !LatchBefore(p, Path(p, start, told, i + k), i + k + 1))
  {
    hide Guide, LatchBefore, Path;
    if forall j :: i <= j < i + k ==> IsMissedLeg(Says(p, start, told, j)) {
      hide Says;
      ClimbsStraightTo(p, start, told, i, k, p.missedClimbFt);
      LatchIsReleased(p, Path(p, start, told, i + k), i + k);
      NextLook(p, start, told, i + k);
      SaysIs(p, start, told, i + k);
    }
  }

  lemma {:induction false} SaysIs(p: Profile, start: Aircraft, told: seq<Told>, n: nat)
    requires n < |told|
    ensures Says(p, start, told, n) == SaysAt(p, Path(p, start, told, n), n)
  {
  }
}
