/** The checks a rehearsal makes of the holding stack, and exactly what each one catches. */
module Stack {
  import opened Option
  import opened Picks

  datatype Phase = Holding | Cleared | Other
  datatype Row = Row(callsign: string, level: Maybe<int>, phase: Phase, inLetdown: bool)

  type Board = seq<Row>

  /** Given a level: not nothing, and not zero. */
  predicate Given(a: Row) { a.level.Some? && a.level.value != 0 }

  /** Everybody on the board it is true of, in board order. */
  function Who(board: Board, P: Row -> bool): (r: seq<Row>)
    ensures forall a :: a in r <==> a in board && P(a)
  {
    if board == [] then []
    else
      var a, rest := board[|board| - 1], Who(board[..|board| - 1], P);
      assert board == board[..|board| - 1] + [a];
      if P(a) then rest + [a] else rest
  }

  /** Nobody twice, and in board order. */
  lemma {:induction false} WhoExactly(board: Board, P: Row -> bool) returns (at: seq<nat>)
    ensures PicksOut(board, Who(board, P), at, P)
  {
    hide PicksOut;
    if board == [] {
      at := [];
      NothingPicked(P);
    } else {
      var n := |board| - 1;
      assert board == board[..n] + [board[n]];
      at := WhoExactly(board[..n], P);
      at := PickLast(board[..n], board[n], Who(board[..n], P), at, P);
    }
  }

  ghost predicate Two(board: Board, P: Row -> bool) {
    exists i, j :: 0 <= i < j < |board| && P(board[i]) && P(board[j])
  }

  ghost predicate One(board: Board, P: Row -> bool) { exists i :: 0 <= i < |board| && P(board[i]) }

  lemma OneMore(board: Board, P: Row -> bool)
    requires board != []
    ensures var n := |board| - 1;
            && (One(board, P) <==> One(board[..n], P) || P(board[n]))
            && (Two(board, P) <==> Two(board[..n], P) || (One(board[..n], P) && P(board[n])))
  {
    var n := |board| - 1;
    var rest := board[..n];
    assert forall i :: 0 <= i < n ==> rest[i] == board[i];
    if i :| 0 <= i < n && P(rest[i]) { assert P(board[i]); }
    if i, j :| 0 <= i < j < n && P(rest[i]) && P(rest[j]) { assert P(board[i]) && P(board[j]); }
    if Two(board, P) {
      var i, j :| 0 <= i < j < |board| && P(board[i]) && P(board[j]);
      assert P(rest[i]);
      if j < n { assert P(rest[j]); }
    }
    if One(board, P) {
      var i :| 0 <= i < |board| && P(board[i]);
      if i < n { assert P(rest[i]); }
    }
  }

  lemma {:induction false} CountsExactly(board: Board, P: Row -> bool)
    ensures (|Who(board, P)| >= 1 <==> One(board, P)) && (|Who(board, P)| >= 2 <==> Two(board, P))
  {
    if board != [] {
      hide One, Two;
      CountsExactly(board[..|board| - 1], P);
      OneMore(board, P);
    } else {
      assert !One(board, P) && !Two(board, P);
    }
  }

  predicate Increasing(s: seq<int>) { forall i, j :: 0 <= i < j < |s| ==> s[i] < s[j] }

  /** A level put where it belongs among sorted ones, once. */
  function InsertLevel(ft: int, s: seq<int>): (r: seq<int>)
    requires Increasing(s)
    ensures Increasing(r) && forall x :: x in r <==> x == ft || x in s
  {
    if s == [] || s[|s| - 1] < ft then s + [ft]
    else if s[|s| - 1] == ft then s
    else
      var last, r := s[|s| - 1], InsertLevel(ft, s[..|s| - 1]);
      assert s == s[..|s| - 1] + [last];
      assert forall i :: 0 <= i < |r| ==> r[i] in r;
      r + [last]
  }

  // ---------------------------------------------------------------- a hole in the stack

  predicate Holds(a: Row, stack: seq<int>) { a.phase.Holding? && a.level.Some? && a.level.value in stack }

  /** The stack levels with somebody holding at them, lowest first. */
  function Used(board: Board, stack: seq<int>): (r: seq<int>)
    ensures Increasing(r) && forall ft :: ft in r <==> HeldAt(board, stack, ft)
  {
    if board == [] then []
    else
      var a, rest := board[|board| - 1], Used(board[..|board| - 1], stack);
      assert board == board[..|board| - 1] + [a];
      if Holds(a, stack) then InsertLevel(a.level.value, rest) else rest
  }

  predicate HeldAt(board: Board, stack: seq<int>, ft: int) {
    exists a :: a in board && Holds(a, stack) && a.level.value == ft
  }

  /** Assigned to anybody at all. */
  predicate Taken(board: Board, ft: int) { exists a :: a in board && Given(a) && a.level.value == ft }

  function Below(stack: seq<int>, lo: int): (r: seq<int>)
    ensures (forall ft :: ft in r ==> ft in stack && ft < lo) && (forall ft :: ft in stack && ft < lo ==> ft in r)
  {
    if stack == [] then [] else (if stack[0] < lo then [stack[0]] else []) + Below(stack[1..], lo)
  }

  function Empty(board: Board, levels: seq<int>): (r: seq<int>)
    ensures (forall ft :: ft in r ==> ft in levels && !Taken(board, ft))
            && (forall ft :: ft in levels && !Taken(board, ft) ==> ft in r)
  {
    if levels == [] then [] else (if Taken(board, levels[0]) then [] else [levels[0]]) + Empty(board, levels[1..])
  }

  function From(stack: seq<int>, lo: int): seq<int> {
    if stack == [] then [] else (if stack[0] >= lo then [stack[0]] else []) + From(stack[1..], lo)
  }

  function Take(s: seq<int>, n: nat): seq<int> { if n <= |s| then s[..n] else s }

  datatype Hole = EmptyBeneath(used: seq<int>, empty: seq<int>) | Gaps(used: seq<int>, want: seq<int>)

  function AHoleInTheStack(board: Board, stack: seq<int>): seq<Hole> {
    var used := Used(board, stack);
    if |used| < 2 then []
    else
      var empty := Empty(board, Below(stack, used[0]));
      var want := Take(From(stack, used[0]), |used|);
      if empty != [] then [EmptyBeneath(used, empty)]
      else if used != want then [Gaps(used, want)]
      else []
  }

  lemma {:induction false} FromIndex(stack: seq<int>, p: nat)
    requires Increasing(stack) && p < |stack|
    ensures From(stack, stack[p]) == stack[p..]
    decreases |stack|
  {
    if p == 0 {
      AllFrom(stack, stack[0]);
      assert stack[0..] == stack;
    } else {
      FromIndex(stack[1..], p - 1);
      assert stack[1..][p - 1..] == stack[p..] && stack[0] < stack[p];
    }
  }

  lemma {:induction false} AllFrom(stack: seq<int>, lo: int)
    requires forall i :: 0 <= i < |stack| ==> lo <= stack[i]
    ensures From(stack, lo) == stack
    decreases |stack|
  {
    if stack != [] {
      AllFrom(stack[1..], lo);
      assert stack == [stack[0]] + stack[1..];
    }
  }

  lemma LastIsMost(s: seq<int>, x: int)
    requires Increasing(s) && x in s
    ensures x <= s[|s| - 1]
  {
    var i :| 0 <= i < |s| && s[i] == x;
  }

  lemma SomeLevel(a: seq<int>, b: seq<int>)
    requires forall x :: x in a ==> x in b
    ensures a != [] ==> b != []
  {
    if a != [] {
      var x := a[0];
      assert x in a;
      assert x in b;
    }
  }

  /** Two increasing sequences of the same levels are one. */
  lemma {:induction false} SameLevels(a: seq<int>, b: seq<int>)
    requires Increasing(a) && Increasing(b) && forall x :: x in a <==> x in b
    ensures a == b
    decreases |a|
  {
    SomeLevel(a, b);
    SomeLevel(b, a);
    if a != [] {
      assert a[|a| - 1] in a && b[|b| - 1] in b;
      var x, y := a[|a| - 1], b[|b| - 1];
      LastIsMost(a, y);
      LastIsMost(b, x);
      var a', b' := a[..|a| - 1], b[..|b| - 1];
      assert a == a' + [x] && b == b' + [y];
      forall z
        ensures z in a' <==> z in b'
      {
        assert z in a' <==> z in a && z != x;
        assert z in b' <==> z in b && z != y;
      }
      SameLevels(a', b');
    }
  }

  /** Levels taken from the stack run on without a break exactly when none between them is missed. */
  lemma RunsOn(stack: seq<int>, used: seq<int>, p: nat, q: nat)
    requires Increasing(stack) && Increasing(used) && used != [] && p < |stack| && q < |stack|
    requires stack[p] == used[0] && stack[q] == used[|used| - 1]
    requires forall ft :: ft in used ==> ft in stack
    ensures used == Take(stack[p..], |used|) <==> forall i :: p <= i <= q ==> stack[i] in used
  {
    if used == Take(stack[p..], |used|) { RunsOnGives(stack, used, p, q); }
    if forall i :: p <= i <= q ==> stack[i] in used { GivesRunsOn(stack, used, p, q); }
  }

  lemma RunsOnGives(stack: seq<int>, used: seq<int>, p: nat, q: nat)
    requires Increasing(stack) && used != [] && p < |stack| && q < |stack|
    requires stack[q] == used[|used| - 1] && used == Take(stack[p..], |used|)
    ensures forall i :: p <= i <= q ==> stack[i] in used
  {
    assert stack[q] == stack[p + |used| - 1];
    forall i | p <= i <= q
      ensures stack[i] in used
    {
      assert stack[i] == used[i - p];
    }
  }

  lemma GivesRunsOn(stack: seq<int>, used: seq<int>, p: nat, q: nat)
    requires Increasing(stack) && Increasing(used) && used != [] && p < |stack| && q < |stack|
    requires stack[p] == used[0] && stack[q] == used[|used| - 1]
    requires (forall ft :: ft in used ==> ft in stack) && forall i :: p <= i <= q ==> stack[i] in used
    ensures used == Take(stack[p..], |used|)
  {
    assert used[0] <= used[|used| - 1];
    assert p <= q;
    var run := stack[p..q + 1];
    forall ft
      ensures ft in run <==> ft in used
    {
      Between(stack, used, p, q, ft);
    }
    SameLevels(used, run);
  }

  lemma Between(stack: seq<int>, used: seq<int>, p: nat, q: nat, ft: int)
    requires Increasing(stack) && Increasing(used) && used != [] && p <= q < |stack|
    requires stack[p] == used[0] && stack[q] == used[|used| - 1]
    requires (forall x :: x in used ==> x in stack) && (forall i :: p <= i <= q ==> stack[i] in used)
    ensures ft in stack[p..q + 1] <==> ft in used
  {
    var run := stack[p..q + 1];
    if ft in run {
      var i :| 0 <= i < |run| && run[i] == ft;
      assert stack[p + i] in used;
    }
    if ft in used {
      var j :| 0 <= j < |used| && used[j] == ft;
      var i :| 0 <= i < |stack| && stack[i] == ft;
      assert used[0] <= ft <= used[|used| - 1];
      assert p <= i <= q;
      assert run[i - p] == ft;
    }
  }

  predicate NoneEmptyUnder(board: Board, stack: seq<int>, lo: int) {
    forall ft :: ft in stack && ft < lo ==> Taken(board, ft)
  }

  /** Every stack level under the lowest holder belongs to somebody, and none between the lowest and
      the highest is without a holder. */
  ghost predicate Packed(board: Board, stack: seq<int>, lo: int, hi: int) {
    && NoneEmptyUnder(board, stack, lo)
    && (forall ft :: ft in stack && lo <= ft <= hi ==> HeldAt(board, stack, ft))
  }

  lemma {:induction false} LowestAndHighest(board: Board, stack: seq<int>)
    requires Used(board, stack) != []
    ensures var used := Used(board, stack);
            && HeldAt(board, stack, used[0]) && HeldAt(board, stack, used[|used| - 1])
            && forall ft :: HeldAt(board, stack, ft) ==> used[0] <= ft <= used[|used| - 1]
  {
    var used := Used(board, stack);
    assert used[0] in used && used[|used| - 1] in used;
    forall ft | HeldAt(board, stack, ft)
      ensures used[0] <= ft <= used[|used| - 1]
    {
      assert ft in used;
      var j :| 0 <= j < |used| && used[j] == ft;
    }
  }

  /** The check is silent exactly when fewer than two levels are held, or the stack is packed. */
  lemma {:induction false} AHoleIsExact(board: Board, stack: seq<int>)
    requires Increasing(stack)
    ensures var used := Used(board, stack);
            AHoleInTheStack(board, stack) == [] <==> |used| < 2 || Packed(board, stack, used[0], used[|used| - 1])
  {
    hide *;
    var used := Used(board, stack);
    SilentWhen(board, stack);
    if |used| >= 2 {
      UsedIsIncreasing(board, stack);
      NoneMissedIsHeld(board, stack);
      EmptyExactly(board, stack, used[0]);
      RunExactly(stack, used);
      PackedWhen(board, stack, used);
    }
  }

  /** `some` is the levels of the stack it is true of, lowest first. */
  ghost predicate AreThose(some: seq<int>, stack: seq<int>, P: int -> bool) {
    Increasing(some) && forall ft :: ft in some <==> ft in stack && P(ft)
  }

  /** What the complaint carries.  Either way, the levels held; beneath them, the stack levels under the
      lowest holder that belong to nobody; or, there being none of those, the levels they would be at with
      no gap, as many of the stack as are held from the lowest holder up. */
  lemma {:induction false} AHoleSays(board: Board, stack: seq<int>)
    requires Increasing(stack) && AHoleInTheStack(board, stack) != []
    ensures var used := Used(board, stack);
            var hole := AHoleInTheStack(board, stack)[0];
            && |AHoleInTheStack(board, stack)| == 1 && |used| >= 2 && hole.used == used
            && AreThose(used, stack, ft => HeldAt(board, stack, ft))
            && (hole.EmptyBeneath? ==>
                  hole.empty != [] && AreThose(hole.empty, stack, ft => ft < used[0] && !Taken(board, ft)))
            && (hole.Gaps? ==>
                  && NoneEmptyUnder(board, stack, used[0]) && hole.want != used
                  && |hole.want| <= |used| && Increasing(hole.want)
                  && (forall ft :: ft in hole.want ==> ft in stack && used[0] <= ft)
                  && (forall ft :: ft in stack && used[0] <= ft && ft !in hole.want ==>
                        |hole.want| == |used| && forall x :: x in hole.want ==> x < ft))
  {
    var used := Used(board, stack);
    UsedIsIncreasing(board, stack);
    EmptyRises(board, stack, used[0]);
    EmptyExactly(board, stack, used[0]);
    TakenFrom(stack, used[0], |used|);
    hide Taken, HeldAt, Below, From, Take;
  }

  lemma {:induction false} BelowRises(stack: seq<int>, lo: int)
    requires Increasing(stack)
    ensures Increasing(Below(stack, lo))
    decreases |stack|
  {
    if stack != [] {
      BelowRises(stack[1..], lo);
      HeadIsLeast(stack, Below(stack[1..], lo));
    }
  }

  lemma HeadIsLeast(stack: seq<int>, some: seq<int>)
    requires Increasing(stack) && stack != [] && Increasing(some) && forall ft :: ft in some ==> ft in stack[1..]
    ensures Increasing([stack[0]] + some)
  {
    forall j | 0 <= j < |some|
      ensures stack[0] < some[j]
    {
      assert some[j] in some && some[j] in stack[1..];
      var i :| 0 <= i < |stack[1..]| && stack[1..][i] == some[j];
      assert stack[i + 1] == some[j];
    }
  }

  lemma {:induction false} EmptyIncreases(board: Board, levels: seq<int>)
    requires Increasing(levels)
    ensures Increasing(Empty(board, levels))
    decreases |levels|
  {
    hide Taken;
    if levels != [] {
      EmptyIncreases(board, levels[1..]);
      HeadIsLeast(levels, Empty(board, levels[1..]));
    }
  }

  lemma {:induction false} EmptyRises(board: Board, stack: seq<int>, lo: int)
    requires Increasing(stack)
    ensures AreThose(Empty(board, Below(stack, lo)), stack, ft => ft < lo && !Taken(board, ft))
  {
    hide Taken;
    BelowRises(stack, lo);
    EmptyIncreases(board, Below(stack, lo));
  }

  lemma {:induction false} FromRises(stack: seq<int>, lo: int)
    requires Increasing(stack)
    ensures Increasing(From(stack, lo)) && forall ft :: ft in From(stack, lo) <==> ft in stack && lo <= ft
    decreases |stack|
  {
    if stack != [] {
      FromRises(stack[1..], lo);
      assert stack == [stack[0]] + stack[1..];
      HeadIsLeast(stack, From(stack[1..], lo));
    }
  }

  lemma {:induction false} TakenFrom(stack: seq<int>, lo: int, n: nat)
    requires Increasing(stack)
    ensures var want := Take(From(stack, lo), n);
            && |want| <= n && Increasing(want)
            && (forall ft :: ft in want ==> ft in stack && lo <= ft)
            && (forall ft :: ft in stack && lo <= ft && ft !in want ==> |want| == n && forall x :: x in want ==> x < ft)
  {
    FromRises(stack, lo);
    var all, want := From(stack, lo), Take(From(stack, lo), n);
    hide From;
    forall ft | ft in stack && lo <= ft && ft !in want
      ensures |want| == n && forall x :: x in want ==> x < ft
    {
      assert ft in all;
      var j :| 0 <= j < |all| && all[j] == ft;
      assert n <= j;
    }
  }

  lemma {:induction false} UsedIsIncreasing(board: Board, stack: seq<int>)
    ensures Increasing(Used(board, stack)) && forall ft :: ft in Used(board, stack) ==> ft in stack
  {
  }

  lemma {:induction false} SilentWhen(board: Board, stack: seq<int>)
    ensures var used := Used(board, stack);
            if |used| < 2 then AHoleInTheStack(board, stack) == []
            else AHoleInTheStack(board, stack) == [] <==>
                   Empty(board, Below(stack, used[0])) == [] && used == Take(From(stack, used[0]), |used|)
  {
    hide Used, Empty, Below, Take, From;
  }

  lemma PackedWhen(board: Board, stack: seq<int>, used: seq<int>)
    requires used != []
    requires NoneMissed(stack, used) <==>
               forall ft :: ft in stack && used[0] <= ft <= used[|used| - 1] ==> HeldAt(board, stack, ft)
    ensures Packed(board, stack, used[0], used[|used| - 1]) <==>
              NoneEmptyUnder(board, stack, used[0]) && NoneMissed(stack, used)
  {
    hide HeldAt, NoneMissed, NoneEmptyUnder;
  }

  predicate NoneMissed(stack: seq<int>, used: seq<int>)
    requires used != []
  {
    forall ft :: ft in stack && used[0] <= ft <= used[|used| - 1] ==> ft in used
  }

  lemma {:induction false} NoneMissedIsHeld(board: Board, stack: seq<int>)
    requires Used(board, stack) != []
    ensures var used := Used(board, stack);
            NoneMissed(stack, used) <==>
                forall ft :: ft in stack && used[0] <= ft <= used[|used| - 1] ==> HeldAt(board, stack, ft)
  {
    hide HeldAt;
  }

  lemma {:induction false} RunExactly(stack: seq<int>, used: seq<int>)
    requires Increasing(stack) && Increasing(used) && used != [] && forall ft :: ft in used ==> ft in stack
    ensures used == Take(From(stack, used[0]), |used|) <==> NoneMissed(stack, used)
  {
    assert used[0] in used && used[|used| - 1] in used;
    var p :| 0 <= p < |stack| && stack[p] == used[0];
    var q :| 0 <= q < |stack| && stack[q] == used[|used| - 1];
    hide *;
    FromIndex(stack, p);
    RunsOn(stack, used, p, q);
    BetweenIsIndex(stack, used, p, q);
  }

  lemma {:induction false} EmptyExactly(board: Board, stack: seq<int>, lo: int)
    ensures Empty(board, Below(stack, lo)) == [] <==> NoneEmptyUnder(board, stack, lo)
  {
    hide Taken;
    var below := Below(stack, lo);
    var empty := Empty(board, below);
    if empty != [] {
      assert empty[0] in empty && empty[0] in below;
      assert empty[0] in stack && empty[0] < lo && !Taken(board, empty[0]);
    }
    forall ft | ft in stack && ft < lo
      ensures Taken(board, ft) || ft in empty
    {
      assert ft in below;
    }
  }

  lemma BetweenIsIndex(stack: seq<int>, used: seq<int>, p: nat, q: nat)
    requires Increasing(stack) && p < |stack| && q < |stack|
    requires used != [] && stack[p] == used[0] && stack[q] == used[|used| - 1]
    ensures (forall i :: p <= i <= q ==> stack[i] in used) <==> NoneMissed(stack, used)
  {
    if forall i :: p <= i <= q ==> stack[i] in used {
      forall ft | ft in stack && stack[p] <= ft <= stack[q]
        ensures ft in used
      {
        var i :| 0 <= i < |stack| && stack[i] == ft;
        assert p <= i <= q;
      }
    }
  }

  // ---------------------------------------------------------------- two at one level

  predicate IsAt(a: Row, ft: int) { Given(a) && a.level.value == ft }

  function Level(ft: int): Row -> bool { (a: Row) => IsAt(a, ft) }

  /** Everybody given this level, in board order. */
  function At(board: Board, ft: int): seq<Row> { Who(board, Level(ft)) }

  function Levels(board: Board): (r: seq<int>)
    ensures Increasing(r) && forall ft :: ft in r <==> Taken(board, ft)
  {
    if board == [] then []
    else
      var a, rest := board[|board| - 1], Levels(board[..|board| - 1]);
      assert board == board[..|board| - 1] + [a];
      if Given(a) then InsertLevel(a.level.value, rest) else rest
  }

  datatype Clash =
    | BothHolding(at: seq<Row>, ft: int)
    | UnderTheLetdown(at: seq<Row>, ft: int)
    | BothAssigned(at: seq<Row>, ft: int)

  predicate IsHolding(a: Row) { a.phase.Holding? }

  function Holders(at: seq<Row>): seq<Row> { Who(at, IsHolding) }

  predicate SomeLeaving(at: seq<Row>) { exists a :: a in at && (a.inLetdown || a.phase.Cleared?) }

  function Judge(at: seq<Row>, ft: int): Clash {
    if |Holders(at)| > 1 then BothHolding(at, ft)
    else if Holders(at) != [] && SomeLeaving(at) then UnderTheLetdown(at, ft)
    else BothAssigned(at, ft)
  }

  function Clashes(board: Board, levels: seq<int>): seq<Clash> {
    if levels == [] then []
    else
      var ft := levels[|levels| - 1];
      Clashes(board, levels[..|levels| - 1]) + (if |At(board, ft)| < 2 then [] else [Judge(At(board, ft), ft)])
  }

  /** A dictionary of who is at each level, then each level with two or more, lowest first. */
  method TwoAtOneLevel(board: Board) returns (bad: seq<Clash>)
    ensures bad == Clashes(board, Levels(board))
  {
    hide At, Clashes, Levels, Taken;
    bad := [];
    var byLevel: map<int, seq<Row>> := map[];
    Nobody(board);
    for n := 0 to |board|
      invariant forall ft :: ft in byLevel <==> ft in Levels(board[..n])
      invariant forall ft :: ft in byLevel ==> byLevel[ft] == At(board[..n], ft)
    {
      OneMoreRow(board, n);
      var a := board[n];
      if Given(a) {
        var ft := a.level.value;
        byLevel := byLevel[ft := (if ft in byLevel then byLevel[ft] else []) + [a]];
      }
    }
    assert board[..|board|] == board;
    var levels := Levels(board);
    NoClashes(board);
    for n := 0 to |levels|
      invariant bad == Clashes(board, levels[..n])
    {
      var at := byLevel[levels[n]];
      NextLevel(board, levels, n);
      if |at| >= 2 {
        bad := bad + [Judge(at, levels[n])];
      }
    }
    assert levels[..|levels|] == levels;
  }

  ghost predicate TwoHolding(at: seq<Row>) {
    exists i, j :: 0 <= i < j < |at| && at[i].phase.Holding? && at[j].phase.Holding?
  }

  ghost predicate HolderAndLeaver(at: seq<Row>) {
    (exists a :: a in at && a.phase.Holding?) && exists a :: a in at && (a.inLetdown || a.phase.Cleared?)
  }

  /** Which of the three a level's complaint is: two of them holding there, or a holder put on the level of
      one leaving, or neither; and it carries all of them. */
  lemma JudgeSays(at: seq<Row>, ft: int)
    ensures Judge(at, ft).at == at && Judge(at, ft).ft == ft
    ensures Judge(at, ft).BothHolding? <==> TwoHolding(at)
    ensures Judge(at, ft).UnderTheLetdown? <==> !TwoHolding(at) && HolderAndLeaver(at)
  {
    CountsExactly(at, IsHolding);
    if i, j :| 0 <= i < j < |at| && at[i].phase.Holding? && at[j].phase.Holding? {
      assert IsHolding(at[i]) && IsHolding(at[j]);
    }
    if Two(at, IsHolding) {
      var i, j :| 0 <= i < j < |at| && IsHolding(at[i]) && IsHolding(at[j]);
      assert at[i].phase.Holding? && at[j].phase.Holding?;
    }
    if Holders(at) != [] { assert Holders(at)[0] in at && Holders(at)[0].phase.Holding?; }
    if a :| a in at && a.phase.Holding? { assert IsHolding(a) && a in Holders(at); }
  }

  lemma Nobody(board: Board)
    ensures Levels(board[..0]) == []
  {
  }

  lemma {:induction false} NoClashes(board: Board)
    ensures Clashes(board, Levels(board)[..0]) == []
  {
  }

  lemma {:induction false} NextLevel(board: Board, levels: seq<int>, n: nat)
    requires n < |levels|
    ensures Clashes(board, levels[..n + 1]) ==
            Clashes(board, levels[..n])
              + if |At(board, levels[n])| < 2 then [] else [Judge(At(board, levels[n]), levels[n])]
  {
    assert levels[..n + 1][..n] == levels[..n];
  }

  lemma OneMoreRow(board: Board, n: nat)
    requires n < |board|
    ensures var a, was := board[n], board[..n];
            && (forall ft :: ft in Levels(board[..n + 1]) <==> ft in Levels(was) || (Given(a) && ft == a.level.value))
            && (forall ft ::
                  At(board[..n + 1], ft) == if Given(a) && ft == a.level.value then At(was, ft) + [a] else At(was, ft))
            && (forall ft :: ft !in Levels(was) ==> At(was, ft) == [])
  {
    var was := board[..n];
    assert board[..n + 1] == was + [board[n]];
    LevelsNext(was, board[n]);
    hide At, Levels;
    forall ft
      ensures At(board[..n + 1], ft)
              == if Given(board[n]) && ft == board[n].level.value then At(was, ft) + [board[n]] else At(was, ft)
      ensures ft !in Levels(was) ==> At(was, ft) == []
    {
      AtNext(was, board[n], ft);
      SomebodyAt(was, ft);
    }
  }

  lemma {:induction false} LevelsNext(board: Board, a: Row)
    ensures forall ft :: ft in Levels(board + [a]) <==> ft in Levels(board) || (Given(a) && ft == a.level.value)
  {
    assert (board + [a])[..|board|] == board;
  }

  lemma AtNext(board: Board, a: Row, ft: int)
    ensures At(board + [a], ft) == if Given(a) && ft == a.level.value then At(board, ft) + [a] else At(board, ft)
  {
    assert (board + [a])[..|board|] == board;
  }

  lemma {:induction false} SomebodyAt(board: Board, ft: int)
    ensures At(board, ft) != [] ==> ft in Levels(board)
  {
    if At(board, ft) != [] { assert At(board, ft)[0] in At(board, ft); }
  }

  ghost predicate LevelsDistinct(board: Board) {
    forall i, j :: 0 <= i < j < |board| && Given(board[i]) && Given(board[j]) ==>
        board[i].level.value != board[j].level.value
  }

  lemma {:induction false} ClashesExactly(board: Board, levels: seq<int>)
    ensures Clashes(board, levels) == [] <==> forall ft :: ft in levels ==> |At(board, ft)| < 2
  {
    if levels != [] {
      hide At, Judge;
      var rest, last := levels[..|levels| - 1], levels[|levels| - 1];
      assert levels == rest + [last];
      ClashesExactly(board, rest);
      if Clashes(board, levels) == [] {
        forall ft | ft in levels
          ensures |At(board, ft)| < 2
        {
          if ft != last { assert ft in rest; }
        }
      }
      if forall ft :: ft in levels ==> |At(board, ft)| < 2 {
        assert last in levels && forall ft :: ft in rest ==> ft in levels;
      }
    }
  }

  /** The check is silent exactly when no two of those given a level have the same one. */
  lemma {:induction false} TwoAtOneLevelIsExact(board: Board)
    ensures Clashes(board, Levels(board)) == [] <==> LevelsDistinct(board)
  {
    ClashesExactly(board, Levels(board));
    if LevelsDistinct(board) {
      forall ft | ft in Levels(board)
        ensures |At(board, ft)| < 2
      {
        CountsExactly(board, Level(ft));
      }
    }
    if !LevelsDistinct(board) {
      var i, j :| 0 <= i < j < |board| && Given(board[i]) && Given(board[j])
        && board[i].level.value == board[j].level.value;
      var ft := board[i].level.value;
      assert board[i] in board && Taken(board, ft);
      assert Level(ft)(board[i]) && Level(ft)(board[j]);
      CountsExactly(board, Level(ft));
      assert ft in Levels(board) && |At(board, ft)| >= 2;
    }
  }

  /** There is one complaint for each level that two are given, lowest first, and it carries everybody given
      it. */
  lemma {:induction false} ClashesSay(board: Board, levels: seq<int>)
    requires Increasing(levels)
    ensures var bad := Clashes(board, levels);
            && (forall i, j :: 0 <= i < j < |bad| ==> bad[i].ft < bad[j].ft)
            && (forall c :: c in bad ==>
                  c.ft in levels && c.ft != 0 && Two(board, Level(c.ft)) && c.at == At(board, c.ft))
            && (forall ft :: ft in levels && Two(board, Level(ft)) ==> exists i :: 0 <= i < |bad| && bad[i].ft == ft)
  {
    hide Two, At, Judge, One;
    if levels != [] {
      var n := |levels| - 1;
      var ft, before := levels[n], Clashes(board, levels[..n]);
      ClashesSay(board, levels[..n]);
      CountsExactly(board, Level(ft));
      AtIsWho(board, ft);
      NobodyAtZero(board, ft);
      JudgeSays(At(board, ft), ft);
      assert levels == levels[..n] + [ft];
      forall i | 0 <= i < |before|
        ensures before[i].ft < ft
      {
        assert before[i] in before && before[i].ft in levels[..n];
      }
      var bad := Clashes(board, levels);
      assert forall i :: 0 <= i < |before| ==> bad[i] == before[i];
      if |At(board, ft)| >= 2 { assert bad[|before|].ft == ft; }
    }
  }

  lemma NobodyAtZero(board: Board, ft: int)
    ensures Two(board, Level(ft)) ==> ft != 0
  {
  }

  lemma {:induction false} AtIsWho(board: Board, ft: int)
    ensures At(board, ft) == Who(board, Level(ft))
  {
  }

  // ---------------------------------------------------------------- two in the letdown

  predicate Down(a: Row) { a.inLetdown }

  predicate IsCleared(a: Row) { a.phase.Cleared? }

  datatype Crowd = AllInLetdown(who: seq<Row>) | AllCleared(who: seq<Row>)

  function TwoInTheLetdown(board: Board): seq<Crowd> {
    if |Who(board, Down)| > 1 then [AllInLetdown(Who(board, Down))]
    else if |Who(board, IsCleared)| > 1 then [AllCleared(Who(board, IsCleared))]
    else []
  }

  /** The check is silent exactly when no two are in the letdown and no two are cleared for it. */
  lemma TwoInTheLetdownIsExact(board: Board)
    ensures TwoInTheLetdown(board) == [] <==> !Two(board, Down) && !Two(board, IsCleared)
  {
    CountsExactly(board, Down);
    CountsExactly(board, IsCleared);
  }

  /** The complaint names everybody in the letdown, when there are two, and failing that everybody cleared
      for it. */
  lemma TwoInTheLetdownSays(board: Board)
    requires TwoInTheLetdown(board) != []
    ensures var bad := TwoInTheLetdown(board);
            && |bad| == 1 && (bad[0].AllInLetdown? <==> Two(board, Down))
            && forall a :: a in bad[0].who <==>
                             a in board && if bad[0].AllInLetdown? then a.inLetdown else a.phase.Cleared?
  {
    CountsExactly(board, Down);
    CountsExactly(board, IsCleared);
  }
}
