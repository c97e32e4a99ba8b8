/** Picking out of a sequence everything a predicate is true of, in order and nothing twice. */
module Picks {

  predicate Rising(at: seq<nat>) { forall i, j :: 0 <= i < j < |at| ==> at[i] < at[j] }

  /** `some` is what of `all` the predicate is true of, each at its place in `at`. */
  ghost predicate PicksOut<T(!new)>(all: seq<T>, some: seq<T>, at: seq<nat>, P: T -> bool) {
    && |at| == |some| && Rising(at)
    && (forall i :: 0 <= i < |at| ==> at[i] < |all| && some[i] == all[at[i]])
    && (forall i :: 0 <= i < |all| ==> (i in at <==> P(all[i])))
  }

  lemma NothingPicked<T(!new)>(P: T -> bool)
    ensures PicksOut([], [], [], P)
  {
  }

  lemma OneMorePicked<T(!new)>(all: seq<T>, x: T, some: seq<T>, was: seq<nat>, P: T -> bool)
    requires PicksOut(all, some, was, P) && P(x)
    ensures PicksOut(all + [x], some + [x], was + [|all|], P)
  {
    var at, more := was + [|all|], all + [x];
    forall i, j | 0 <= i < j < |at|
      ensures at[i] < at[j]
    {
    }
    forall i | 0 <= i < |all|
      ensures i in at <==> P(more[i])
    {
      assert i in at <==> i in was;
    }
    assert at[|was|] == |all|;
  }

  lemma OneMorePassed<T(!new)>(all: seq<T>, x: T, some: seq<T>, was: seq<nat>, P: T -> bool)
    requires PicksOut(all, some, was, P) && !P(x)
    ensures PicksOut(all + [x], some, was, P)
  {
    var more := all + [x];
    forall i | 0 <= i < |more|
      ensures i in was <==> P(more[i])
    {
      if i < |all| { assert more[i] == all[i]; }
    }
  }

  lemma PickLast<T(!new)>(all: seq<T>, x: T, some: seq<T>, was: seq<nat>, P: T -> bool) returns (at: seq<nat>)
    requires PicksOut(all, some, was, P)
    ensures PicksOut(all + [x], if P(x) then some + [x] else some, at, P)
  {
    hide PicksOut;
    if P(x) {
      OneMorePicked(all, x, some, was, P);
      at := was + [|all|];
    } else {
      OneMorePassed(all, x, some, was, P);
      at := was;
    }
  }

  /** Every place a step further down. */
  predicate Lowered(rest: seq<nat>, up: seq<nat>) {
    |up| == |rest| && forall i :: 0 <= i < |rest| ==> up[i] == rest[i] + 1
  }

  lemma InLowered(rest: seq<nat>, up: seq<nat>, n: nat)
    requires Lowered(rest, up)
    ensures n in up <==> n > 0 && n - 1 in rest
  {
    if n in up {
      var i :| 0 <= i < |up| && up[i] == n;
      assert rest[i] == n - 1;
    }
    if n > 0 && n - 1 in rest {
      var i :| 0 <= i < |rest| && rest[i] == n - 1;
      assert up[i] == n;
    }
  }

  /** The same of all but the first. */
  ghost predicate PicksBelow<T(!new)>(all: seq<T>, some: seq<T>, up: seq<nat>, P: T -> bool) {
    && |up| == |some| && Rising(up) && 0 !in up
    && (forall i :: 0 <= i < |up| ==> 0 < up[i] < |all| && some[i] == all[up[i]])
    && (forall i :: 0 < i < |all| ==> (i in up <==> P(all[i])))
  }

  lemma PutBelow<T(!new)>(x: T, all: seq<T>, some: seq<T>, rest: seq<nat>, up: seq<nat>, P: T -> bool)
    requires PicksOut(all, some, rest, P) && Lowered(rest, up)
    ensures PicksBelow([x] + all, some, up, P)
  {
    var more := [x] + all;
    forall i | 0 < i < |more|
      ensures i in up <==> P(more[i])
    {
      InLowered(rest, up, i);
      assert more[i] == all[i - 1];
    }
    InLowered(rest, up, 0);
    forall i | 0 <= i < |up|
      ensures 0 < up[i] < |more| && some[i] == more[up[i]]
    {
      assert more[up[i]] == all[rest[i]];
    }
  }

  lemma WithFirst<T(!new)>(all: seq<T>, some: seq<T>, up: seq<nat>, P: T -> bool)
    requires all != [] && PicksBelow(all, some, up, P)
    ensures if P(all[0]) then PicksOut(all, [all[0]] + some, [0] + up, P) else PicksOut(all, some, up, P)
  {
    assert forall i :: 0 < i < |all| ==> (i in [0] + up <==> i in up);
  }

  lemma PickFirst<T(!new)>(x: T, all: seq<T>, some: seq<T>, rest: seq<nat>, P: T -> bool) returns (at: seq<nat>)
    requires PicksOut(all, some, rest, P)
    ensures PicksOut([x] + all, if P(x) then [x] + some else some, at, P)
  {
    hide PicksOut, PicksBelow;
    var up := seq(|rest|, i requires 0 <= i < |rest| => rest[i] + 1);
    PutBelow(x, all, some, rest, up, P);
    WithFirst([x] + all, some, up, P);
    at := if P(x) then [0] + up else up;
  }
}
