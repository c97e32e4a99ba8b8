/**
 * Whether the handoffs of a sortie ran down the ladder of stations and never back, found greedily:
 * each handoff is matched to the first rung at or after the last one.
 */
module Ladder {
  import opened Picks

  /** The handoffs to stations the ladder has. */
  function OnLadder(order: seq<string>, seen: seq<string>): (r: seq<string>)
    ensures forall i :: 0 <= i < |r| ==> r[i] in order
  {
    if seen == [] then []
    else
      var rest := OnLadder(order, seen[..|seen| - 1]);
      if seen[|seen| - 1] in order then rest + [seen[|seen| - 1]] else rest
  }

  /** One rung for each handoff, never an earlier one than the last. */
  predicate Assigns(order: seq<string>, stations: seq<string>, rungs: seq<nat>) {
    && |rungs| == |stations|
    && (forall i :: 0 <= i < |rungs| ==> rungs[i] < |order| && order[rungs[i]] == stations[i])
    && (forall i :: 0 < i < |rungs| ==> rungs[i - 1] <= rungs[i])
  }

  ghost predicate RanForwards(order: seq<string>, stations: seq<string>) {
    exists rungs :: Assigns(order, stations, rungs)
  }

  /** No assignment is anywhere earlier than this one. */
  ghost predicate Earliest(order: seq<string>, stations: seq<string>, rungs: seq<nat>) {
    && Assigns(order, stations, rungs)
    && forall other, i :: Assigns(order, stations, other) && 0 <= i < |rungs| ==> rungs[i] <= other[i]
  }

  function Repeats(rungs: seq<nat>): nat {
    if |rungs| < 2 then 0
    else Repeats(rungs[..|rungs| - 1]) + (if rungs[|rungs| - 1] == rungs[|rungs| - 2] then 1 else 0)
  }

  /** The repeats are those of the earliest rungs. */
  ghost predicate Counted(order: seq<string>, stations: seq<string>, repeats: nat) {
    exists rungs :: Earliest(order, stations, rungs) && repeats == Repeats(rungs)
  }

  function Missing(order: seq<string>, seen: seq<string>): seq<string> {
    if order == [] then [] else (if order[0] in seen then [] else [order[0]]) + Missing(order[1..], seen)
  }

  /** The first rung at or after `from` that is this station's, or -1. */
  function FirstAt(order: seq<string>, station: string, from: nat): (r: int)
    ensures r == -1 || (from <= r < |order| && order[r] == station)
    ensures forall i :: from <= i < |order| && order[i] == station ==> 0 <= r <= i
    decreases |order| - from
  {
    if from >= |order| then -1 else if order[from] == station then from else FirstAt(order, station, from + 1)
  }

  datatype Verdict = NothingHandedOver | Backwards(station: string) | Forwards(missing: seq<string>, repeats: nat)

  lemma {:induction false} OnLadderPrefix(order: seq<string>, seen: seq<string>, n: nat)
    requires n <= |seen|
    ensures OnLadder(order, seen[..n]) <= OnLadder(order, seen)
  {
    if n == |seen| {
      assert seen[..n] == seen;
    } else {
      OnLadderPrefix(order, seen[..|seen| - 1], n);
      assert seen[..|seen| - 1][..n] == seen[..n];
    }
  }

  lemma {:induction false} OnLadderNext(order: seq<string>, seen: seq<string>, n: nat)
    requires n < |seen|
    ensures OnLadder(order, seen[..n + 1]) ==
            if seen[n] in order then OnLadder(order, seen[..n]) + [seen[n]] else OnLadder(order, seen[..n])
  {
    assert seen[..n + 1][..n] == seen[..n];
  }

  /** The handoffs judged are exactly those to stations of the ladder, in the order they were made. */
  lemma {:induction false} OnLadderExactly(order: seq<string>, seen: seq<string>) returns (at: seq<nat>)
    ensures PicksOut(seen, OnLadder(order, seen), at, (x: string) => x in order)
  {
    hide PicksOut;
    if seen == [] {
      at := [];
      NothingPicked((x: string) => x in order);
    } else {
      var n := |seen| - 1;
      assert seen == seen[..n] + [seen[n]];
      at := OnLadderExactly(order, seen[..n]);
      at := PickLast(seen[..n], seen[n], OnLadder(order, seen[..n]), at, (x: string) => x in order);
    }
  }

  predicate Repeated(rungs: seq<nat>, i: nat) { 0 < i < |rungs| && rungs[i] == rungs[i - 1] }

  /** The repeats are the handoffs given the rung of the one before. */
  lemma {:induction false} RepeatsCount(rungs: seq<nat>)
    ensures Repeats(rungs) == |set i: nat | i < |rungs| && Repeated(rungs, i)|
  {
    var all := set i: nat | i < |rungs| && Repeated(rungs, i);
    if |rungs| >= 2 {
      var n := |rungs| - 1;
      RepeatsCount(rungs[..n]);
      var before := set i: nat | i < n && Repeated(rungs[..n], i);
      assert forall i: nat :: i < n ==> (Repeated(rungs, i) <==> Repeated(rungs[..n], i));
      assert all == before + (if Repeated(rungs, n) then {n} else {});
    } else {
      assert all == {};
    }
  }

  /** An assignment of all the handoffs assigns the first of them. */
  lemma AssignsPrefix(order: seq<string>, stations: seq<string>, rungs: seq<nat>, n: nat)
    requires Assigns(order, stations, rungs) && n <= |stations|
    ensures Assigns(order, stations[..n], rungs[..n])
  {
  }

  function From(rungs: seq<nat>): nat { if rungs == [] then 0 else rungs[|rungs| - 1] }

  /** Any assignment of one handoff more puts it at or after where the earliest one stands. */
  lemma NoEarlier(order: seq<string>, stations: seq<string>, rungs: seq<nat>, station: string, other: seq<nat>)
    requires Earliest(order, stations, rungs) && Assigns(order, stations + [station], other)
    ensures |other| == |stations| + 1 && Assigns(order, stations, other[..|stations|])
    ensures From(rungs) <= other[|stations|] < |order| && order[other[|stations|]] == station
  {
    var longer, n := stations + [station], |stations|;
    AssignsPrefix(order, longer, other, n);
    assert longer[..n] == stations && longer[n] == station;
    if rungs != [] { assert rungs[n - 1] <= other[..n][n - 1]; }
  }

  /** Taking the first rung that fits keeps every rung as early as it can be. */
  lemma {:induction false} FirstIsEarliest(
      order: seq<string>, stations: seq<string>, rungs: seq<nat>, station: string, nxt: nat)
    requires Earliest(order, stations, rungs) && FirstAt(order, station, From(rungs)) == nxt
    ensures Earliest(order, stations + [station], rungs + [nxt])
  {
    var more, longer := rungs + [nxt], stations + [station];
    assert Assigns(order, longer, more);
    hide FirstAt;
    forall other, i | Assigns(order, longer, other) && 0 <= i < |more|
      ensures more[i] <= other[i]
    {
      NoEarlier(order, stations, rungs, station, other);
      if i < |rungs| { assert rungs[i] <= other[..|stations|][i]; }
    }
  }

  /** A handoff that ran forwards has a rung left for it. */
  lemma {:induction false} RungLeft(order: seq<string>, stations: seq<string>, rungs: seq<nat>, station: string)
    requires Earliest(order, stations, rungs)
    ensures RanForwards(order, stations + [station]) ==> FirstAt(order, station, From(rungs)) != -1
  {
    if other :| Assigns(order, stations + [station], other) { NoEarlier(order, stations, rungs, station, other); }
  }

  lemma PrefixRanForwards(order: seq<string>, stations: seq<string>, n: nat)
    requires RanForwards(order, stations) && n <= |stations|
    ensures RanForwards(order, stations[..n])
  {
    var rungs :| Assigns(order, stations, rungs);
    AssignsPrefix(order, stations, rungs, n);
  }

  /** Match each handoff to the first rung at or after the last; stop at one that has none. */
  method Climb(order: seq<string>, seen: seq<string>) returns (stuck: int, repeats: nat)
    ensures -1 <= stuck < |seen| && (stuck == -1 <==> RanForwards(order, OnLadder(order, seen)))
    ensures stuck == -1 ==> Counted(order, OnLadder(order, seen), repeats)
    ensures stuck >= 0 ==> seen[stuck] in order && !RanForwards(order, OnLadder(order, seen[..stuck + 1]))
  {
    hide *;
    stuck, repeats := -1, 0;
    var at: int := -1;
    ghost var rungs: seq<nat> := [];
    Start(order, seen);
    for n := 0 to |seen|
      invariant Earliest(order, OnLadder(order, seen[..n]), rungs) && repeats == Repeats(rungs)
      invariant at == if rungs == [] then -1 else From(rungs)
    {
      OnLadderNext(order, seen, n);
      if seen[n] in order {
        ghost var stations := OnLadder(order, seen[..n]);
        var nxt := FirstAt(order, seen[n], if at < 0 then 0 else at);
        FromNext(rungs, if nxt < 0 then 0 else nxt);
        RungLeft(order, stations, rungs, seen[n]);
        if nxt == -1 {
          OnLadderPrefix(order, seen, n + 1);
          ForwardsBefore(order, OnLadder(order, seen), OnLadder(order, seen[..n + 1]));
          stuck := n;
          return;
        }
        FirstIsEarliest(order, stations, rungs, seen[n], nxt);
        RepeatsNext(rungs, nxt);
        repeats := repeats + if nxt == at then 1 else 0;
        at := nxt;
        rungs := rungs + [nxt];
      }
    }
    assert seen[..|seen|] == seen;
    Ran(order, OnLadder(order, seen), rungs);
  }

  /** Forwards exactly when the handoffs can be given rungs that never go back. */
  method TheLadderRanForwards(order: seq<string>, seen: seq<string>) returns (verdict: Verdict)
    ensures verdict.NothingHandedOver? <==> seen == []
    ensures verdict.Forwards? <==> seen != [] && RanForwards(order, OnLadder(order, seen))
    ensures verdict.Forwards? ==>
              verdict.missing == Missing(order, seen) && Counted(order, OnLadder(order, seen), verdict.repeats)
    ensures verdict.Backwards? ==> verdict.station in order && verdict.station in seen
  {
    hide *;
    if seen == [] {
      return NothingHandedOver;
    }
    var stuck, repeats := Climb(order, seen);
    if stuck >= 0 {
      return Backwards(seen[stuck]);
    }
    return Forwards(Missing(order, seen), repeats);
  }

  lemma {:induction false} Start(order: seq<string>, seen: seq<string>)
    ensures Earliest(order, OnLadder(order, seen[..0]), []) && Repeats([]) == 0 && From([]) == 0
  {
  }

  lemma {:induction false} Ran(order: seq<string>, stations: seq<string>, rungs: seq<nat>)
    requires Earliest(order, stations, rungs)
    ensures RanForwards(order, stations) && Counted(order, stations, Repeats(rungs))
  {
  }

  lemma ForwardsBefore(order: seq<string>, stations: seq<string>, first: seq<string>)
    requires first <= stations
    ensures RanForwards(order, stations) ==> RanForwards(order, first)
  {
    if RanForwards(order, stations) {
      PrefixRanForwards(order, stations, |first|);
      assert stations[..|first|] == first;
    }
  }

  lemma FromNext(rungs: seq<nat>, nxt: nat)
    ensures From(rungs + [nxt]) == nxt && (rungs == [] ==> From(rungs) == 0)
  {
  }

  lemma {:induction false} RepeatsNext(rungs: seq<nat>, nxt: nat)
    ensures Repeats(rungs + [nxt]) == Repeats(rungs) + if rungs != [] && From(rungs) == nxt then 1 else 0
  {
    assert (rungs + [nxt])[..|rungs|] == rungs;
  }

  /** The stations said never to have fired are exactly the rungs no handoff named, in ladder order. */
  lemma {:induction false} MissingExactly(order: seq<string>, seen: seq<string>) returns (at: seq<nat>)
    ensures PicksOut(order, Missing(order, seen), at, (x: string) => x !in seen)
    decreases |order|
  {
    hide PicksOut;
    if order == [] {
      at := [];
      NothingPicked((x: string) => x !in seen);
    } else {
      var rest := Missing(order[1..], seen);
      assert order == [order[0]] + order[1..] && [] + rest == rest;
      at := MissingExactly(order[1..], seen);
      at := PickFirst(order[0], order[1..], rest, at, (x: string) => x !in seen);
    }
  }

  /** In any handoffs that ran forwards, going back to a station after another is going to a later rung
      of it. */
  lemma RevisitsALaterRung(order: seq<string>, stations: seq<string>, x: nat, y: nat, z: nat)
    requires RanForwards(order, stations) && x < y < z < |stations| && stations[x] == stations[z] != stations[y]
    ensures exists i, j, k :: 0 <= i < j < k < |order|
              && order[i] == stations[x] && order[j] == stations[y] && order[k] == stations[z]
  {
    var r :| Assigns(order, stations, r);
    NeverDown(order, stations, r, x, y);
    NeverDown(order, stations, r, y, z);
    assert order[r[x]] == stations[x] && order[r[y]] == stations[y] && order[r[z]] == stations[z];
  }

  lemma {:induction false} NeverDown(order: seq<string>, stations: seq<string>, rungs: seq<nat>, i: nat, j: nat)
    requires Assigns(order, stations, rungs) && i <= j < |rungs|
    ensures rungs[i] <= rungs[j]
    decreases j
  {
    if i < j { NeverDown(order, stations, rungs, i, j - 1); }
  }

  /** The handoffs with the same man twice running counted once. */
  function Squeezed(stations: seq<string>): (r: seq<string>)
    ensures stations != [] ==> r != [] && r[|r| - 1] == stations[|stations| - 1]
    ensures stations == [] ==> r == []
  {
    if stations == [] then []
    else
      var rest, last := stations[..|stations| - 1], stations[|stations| - 1];
      if rest != [] && rest[|rest| - 1] == last then Squeezed(rest) else Squeezed(rest) + [last]
  }

  /** Rungs strictly down the ladder, one for each. */
  predicate Descends(order: seq<string>, stations: seq<string>, rungs: seq<nat>) {
    Assigns(order, stations, rungs) && forall i :: 0 < i < |rungs| ==> rungs[i - 1] < rungs[i]
  }

  lemma DescendsNext(order: seq<string>, stations: seq<string>, rungs: seq<nat>, station: string, r: nat)
    requires Descends(order, stations, rungs) && r < |order| && order[r] == station && (rungs != [] ==> From(rungs) < r)
    ensures Descends(order, stations + [station], rungs + [r])
  {
  }

  lemma DescendsLater(order: seq<string>, stations: seq<string>, rungs: seq<nat>, r: nat)
    requires Descends(order, stations, rungs) && rungs != [] && From(rungs) <= r < |order|
    requires order[r] == stations[|stations| - 1]
    ensures Descends(order, stations, rungs[..|rungs| - 1] + [r])
  {
  }

  lemma AssignsNext(order: seq<string>, stations: seq<string>, rungs: seq<nat>, station: string, r: nat)
    requires Assigns(order, stations, rungs) && r < |order| && order[r] == station && (rungs != [] ==> From(rungs) <= r)
    ensures Assigns(order, stations + [station], rungs + [r])
  {
  }

  /** An assignment squeezed with its handoffs, each man at the last of his rungs. */
  lemma {:induction false} SqueezeRungs(order: seq<string>, stations: seq<string>, rungs: seq<nat>)
    returns (e: seq<nat>)
    requires Assigns(order, stations, rungs)
    ensures Descends(order, Squeezed(stations), e) && From(e) == From(rungs)
  {
    if stations == [] {
      e := [];
    } else {
      var n := |stations| - 1;
      var rest, r := stations[..n], rungs[n];
      AssignsPrefix(order, stations, rungs, n);
      e := SqueezeRungs(order, rest, rungs[..n]);
      assert n > 0 ==> rungs[n - 1] <= r && order[rungs[n - 1]] == rest[n - 1];
      hide Descends;
      if n > 0 && rest[n - 1] == stations[n] {
        DescendsSome(order, Squeezed(rest), e);
        DescendsLater(order, Squeezed(rest), e, r);
        e := e[..|e| - 1] + [r];
      } else {
        DescendsNext(order, Squeezed(rest), e, stations[n], r);
        e := e + [r];
      }
    }
  }

  lemma DescendsSome(order: seq<string>, stations: seq<string>, rungs: seq<nat>)
    requires Descends(order, stations, rungs)
    ensures |rungs| == |stations|
  {
  }

  lemma {:induction false} SpreadRungs(order: seq<string>, stations: seq<string>, e: seq<nat>) returns (rungs: seq<nat>)
    requires Descends(order, Squeezed(stations), e)
    ensures Assigns(order, stations, rungs) && From(rungs) == From(e)
  {
    if stations == [] {
      rungs := [];
    } else {
      var n := |stations| - 1;
      var rest, last := stations[..n], stations[n];
      assert e[|e| - 1] < |order| && order[e[|e| - 1]] == last;
      assert stations == rest + [last];
      if n > 0 && rest[n - 1] == last {
        rungs := SpreadRungs(order, rest, e);
        AssignsNext(order, rest, rungs, last, From(e));
        rungs := rungs + [From(e)];
      } else {
        assert Squeezed(stations)[..|e| - 1] == Squeezed(rest);
        rungs := SpreadRungs(order, rest, e[..|e| - 1]);
        AssignsNext(order, rest, rungs, last, From(e));
        rungs := rungs + [From(e)];
      }
    }
  }

  /** The handoffs ran forwards exactly when, the same man twice running counted once, they are found in
      order down the ladder, no rung used twice. */
  lemma {:induction false} ForwardsExactly(order: seq<string>, stations: seq<string>)
    ensures RanForwards(order, stations) <==> exists e :: Descends(order, Squeezed(stations), e)
  {
    hide Assigns, Descends;
    if rungs :| Assigns(order, stations, rungs) {
      var e := SqueezeRungs(order, stations, rungs);
    }
    if e :| Descends(order, Squeezed(stations), e) {
      var rungs := SpreadRungs(order, stations, e);
    }
  }

  /** Named twice on the ladder, a station may be handed to either side of another; named once, it may
      not. */
  lemma BackIsOnlyForwardsOnALaterRung(a: string, b: string, order: seq<string>)
    requires a != b && a in order && b in order
    ensures RanForwards(order, [a, b, a]) <==>
              exists i, j, k :: 0 <= i < j < k < |order| && order[i] == a && order[j] == b && order[k] == a
  {
    if RanForwards(order, [a, b, a]) {
      var r :| Assigns(order, [a, b, a], r);
      assert order[r[0]] == a && order[r[1]] == b && order[r[2]] == a && r[0] <= r[1] && r[1] <= r[2];
    }
    if i, j, k :| 0 <= i < j < k < |order| && order[i] == a && order[j] == b && order[k] == a {
      assert Assigns(order, [a, b, a], [i, j, k]);
    }
  }
}
