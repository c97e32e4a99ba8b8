/**
 * Agent runs on stored sessions under an advisory lock keyed on a hash of the session name.  A run
 * takes its next message id from what it loaded, not from the table, so two runs on one session
 * must never overlap.
 */
module Messages {
  import opened Ids

  type Tid = nat

  /** `Running` has loaded its session and counts from there. */
  datatype Pc =
    | Idle
    | Waiting(session: string)
    | Locked(session: string)
    | Running(session: string, next: nat)
    | Over(ok: bool)
  {
    predicate Inside() { Locked? || Running? }
  }

  datatype State = State(pcs: map<Tid, Pc>, holder: map<int, Tid>, rows: RowMap, violated: bool)

  /** `SkipLock` is a caller that was given no lock to hold; `Leave` is the end of a run, however it ends. */
  datatype Step =
    | Ask(t: Tid, session: string)
    | TakeLock(t: Tid)
    | SkipLock(t: Tid)
    | Load(t: Tid)
    | Insert(t: Tid)
    | Leave(t: Tid, ok: bool)

  type Hash = string -> int

  const Init := State(map[], map[], map[], false)

  function PcOf(s: State, t: Tid): Pc { if t in s.pcs then s.pcs[t] else Idle }

  function Moved(s: State, t: Tid, pc: Pc): State { s.(pcs := s.pcs[t := pc]) }

  /** The lock is the connection's: whoever leaves gives back what he holds and nothing else. */
  function Unlocked(s: State, t: Tid, h: int): map<int, Tid> {
    if h in s.holder && s.holder[h] == t then s.holder - {h} else s.holder
  }

  function DoInsert(s: State, t: Tid, x: string, n: nat): State {
    if n in RowsIn(s.rows, x) then s.(violated := true)
    else Moved(s, t, Running(x, n + 1)).(rows := s.rows[x := RowsIn(s.rows, x) + {n}])
  }

  function Do(hash: Hash, s: State, step: Step): State {
    match (step, PcOf(s, step.t))
    case (Ask(t, x), Idle) => Moved(s, t, Waiting(x))
    case (TakeLock(t), Waiting(x)) =>
      if hash(x) in s.holder then s else Moved(s, t, Locked(x)).(holder := s.holder[hash(x) := t])
    case (SkipLock(t), Waiting(x)) => Moved(s, t, Locked(x))
    case (Load(t), Locked(x)) => Moved(s, t, Running(x, |RowsIn(s.rows, x)|))
    case (Insert(t), Running(x, n)) => DoInsert(s, t, x, n)
    case (Leave(t, ok), Locked(x)) => Moved(s, t, Over(ok)).(holder := Unlocked(s, t, hash(x)))
    case (Leave(t, ok), Running(x, n)) => Moved(s, t, Over(ok)).(holder := Unlocked(s, t, hash(x)))
    case _ => s
  }

  function After(hash: Hash, steps: seq<Step>): State {
    if steps == [] then Init else Do(hash, After(hash, steps[..|steps| - 1]), steps[|steps| - 1])
  }

  predicate EveryRunLocks(steps: seq<Step>) { forall i :: 0 <= i < |steps| ==> !steps[i].SkipLock? }

  ghost predicate HoldsIt(hash: Hash, holder: map<int, Tid>, t: Tid, pc: Pc) {
    pc.Inside() ==> hash(pc.session) in holder && holder[hash(pc.session)] == t
  }

  /** A run's own count is the number of messages its session has. */
  predicate CountsRight(rows: RowMap, pc: Pc) { pc.Running? ==> pc.next == |RowsIn(rows, pc.session)| }

  ghost predicate Inv(hash: Hash, s: State) {
    && !s.violated && AllContiguous(s.rows)
    && (forall t :: t in s.pcs ==> HoldsIt(hash, s.holder, t, s.pcs[t]))
    && (forall t :: t in s.pcs ==> CountsRight(s.rows, s.pcs[t]))
  }

  lemma InsertKeeps(hash: Hash, s: State, t: Tid, x: string, n: nat)
    requires Inv(hash, s) && PcOf(s, t) == Running(x, n)
    ensures Inv(hash, DoInsert(s, t, x, n))
  {
    var ids := RowsIn(s.rows, x);
    assert HoldsIt(hash, s.holder, t, s.pcs[t]) && CountsRight(s.rows, s.pcs[t]);
    assert Contiguous(ids);
    ContiguousGrows(ids);
    AllContiguousGrows(s.rows, x);
    var s' := DoInsert(s, t, x, n);
    forall u | u in s'.pcs
      ensures CountsRight(s'.rows, s'.pcs[u])
    {
      if u != t { assert CountsRight(s.rows, s.pcs[u]) && HoldsIt(hash, s.holder, u, s.pcs[u]); }
    }
  }

  lemma LeaveKeeps(hash: Hash, s: State, t: Tid, ok: bool)
    requires Inv(hash, s)
    ensures Inv(hash, Do(hash, s, Leave(t, ok)))
  {
    hide AllContiguous;
    var s' := Do(hash, s, Leave(t, ok));
    forall u | u in s'.pcs
      ensures HoldsIt(hash, s'.holder, u, s'.pcs[u]) && CountsRight(s'.rows, s'.pcs[u])
    {
      if u != t { assert HoldsIt(hash, s.holder, u, s.pcs[u]) && CountsRight(s.rows, s.pcs[u]); }
    }
  }

  lemma StepKeeps(hash: Hash, s: State, step: Step)
    requires Inv(hash, s) && !step.SkipLock?
    ensures Inv(hash, Do(hash, s, step))
  {
    hide AllContiguous;
    if step.Leave? {
      LeaveKeeps(hash, s, step.t, step.ok);
    } else if step.Insert? && PcOf(s, step.t).Running? {
      InsertKeeps(hash, s, step.t, PcOf(s, step.t).session, PcOf(s, step.t).next);
    }
  }

  lemma {:induction false} Reachable(hash: Hash, steps: seq<Step>)
    requires EveryRunLocks(steps)
    ensures Inv(hash, After(hash, steps))
  {
    if steps != [] {
      hide Inv, Do;
      var before := steps[..|steps| - 1];
      Reachable(hash, before);
      StepKeeps(hash, After(hash, before), steps[|steps| - 1]);
    } else {
      assert forall store :: RowsIn(map[], store) == {};
    }
  }

  /** Whatever the hash does, every session holds ids 0..n-1 and no insert is ever refused. */
  lemma {:induction false} EverySessionIsContiguous(hash: Hash, steps: seq<Step>, session: string)
    requires EveryRunLocks(steps)
    ensures !After(hash, steps).violated && Contiguous(RowsIn(After(hash, steps).rows, session))
  {
    hide After;
    Reachable(hash, steps);
  }

  /** Two runs are never inside at once when their sessions hash alike, the same session included. */
  lemma {:induction false} OneRunPerHash(hash: Hash, steps: seq<Step>, t: Tid, u: Tid)
    requires EveryRunLocks(steps)
    requires var s := After(hash, steps);
             PcOf(s, t).Inside() && PcOf(s, u).Inside() && hash(PcOf(s, t).session) == hash(PcOf(s, u).session)
    ensures t == u
  {
    hide After;
    Reachable(hash, steps);
    var s := After(hash, steps);
    assert HoldsIt(hash, s.holder, t, s.pcs[t]) && HoldsIt(hash, s.holder, u, s.pcs[u]);
  }

  /** A run that has ended, crashed or not, leaves its lock for the next: nobody waits on it. */
  lemma {:induction false} EndedRunsHoldNothing(hash: Hash, steps: seq<Step>, h: int)
    requires EveryRunLocks(steps) && h in After(hash, steps).holder
    ensures var s := After(hash, steps);
            PcOf(s, s.holder[h]).Inside() && hash(PcOf(s, s.holder[h]).session) == h
  {
    hide After;
    Reachable(hash, steps);
    HoldersAreInside(hash, steps);
  }

  ghost predicate HolderInside(hash: Hash, s: State) {
    forall h :: h in s.holder ==> PcOf(s, s.holder[h]).Inside() && hash(PcOf(s, s.holder[h]).session) == h
  }

  lemma {:induction false} HoldersAreInside(hash: Hash, steps: seq<Step>)
    requires EveryRunLocks(steps)
    ensures HolderInside(hash, After(hash, steps))
  {
    if steps != [] {
      hide Do, Inv;
      var before := steps[..|steps| - 1];
      HoldersAreInside(hash, before);
      Reachable(hash, before);
      HolderStep(hash, After(hash, before), steps[|steps| - 1]);
    }
  }

  lemma HolderStep(hash: Hash, s: State, step: Step)
    requires HolderInside(hash, s) && Inv(hash, s) && !step.SkipLock?
    ensures HolderInside(hash, Do(hash, s, step))
  {
    hide AllContiguous, RowsIn;
    var pc := PcOf(s, step.t);
    assert pc.Inside() ==> HoldsIt(hash, s.holder, step.t, pc);
    var s' := Do(hash, s, step);
    forall h | h in s'.holder
      ensures PcOf(s', s'.holder[h]).Inside() && hash(PcOf(s', s'.holder[h]).session) == h
    {
      if h in s.holder { assert PcOf(s, s.holder[h]).Inside(); }
    }
  }

  /** Two runs on one session that hold no lock, each loading before either has written. */
  function Raced(x: string): seq<Step> {
    [Ask(0, x), Ask(1, x), SkipLock(0), SkipLock(1), Load(0), Load(1), Insert(0), Insert(1)]
  }

  lemma {:induction false} Then(hash: Hash, steps: seq<Step>, step: Step)
    ensures After(hash, steps + [step]) == Do(hash, After(hash, steps), step)
  {
    assert (steps + [step])[..|steps|] == steps;
  }

  /** The session holds the ids 0 to n - 1. */
  ghost predicate HasFirst(rows: RowMap, x: string, n: nat) {
    Contiguous(RowsIn(rows, x)) && |RowsIn(rows, x)| == n
  }

  /** The run is inside with its lock and next to store message `n`; its session holds those before. */
  ghost predicate Storing(hash: Hash, s: State, t: Tid, x: string, n: nat) {
    && PcOf(s, t) == Running(x, n) && hash(x) in s.holder && s.holder[hash(x)] == t
    && HasFirst(s.rows, x, n)
  }

  lemma StoresOne(hash: Hash, s: State, t: Tid, x: string, n: nat)
    requires Storing(hash, s, t, x, n)
    ensures Storing(hash, Do(hash, s, Insert(t)), t, x, n + 1)
  {
    ContiguousGrows(RowsIn(s.rows, x));
    assert Do(hash, s, Insert(t)) == DoInsert(s, t, x, n);
  }

  function Inserts(t: Tid, count: nat): seq<Step> { seq(count, _ => Insert(t)) }

  lemma {:induction false} StoresAll(hash: Hash, before: seq<Step>, t: Tid, x: string, n: nat, count: nat)
    requires Storing(hash, After(hash, before), t, x, n)
    ensures Storing(hash, After(hash, before + Inserts(t, count)), t, x, n + count)
  {
    hide After, Do, Storing;
    if count == 0 {
      assert before + Inserts(t, 0) == before;
    } else {
      StoresAll(hash, before, t, x, n, count - 1);
      Then(hash, before + Inserts(t, count - 1), Insert(t));
      StoresOne(hash, After(hash, before + Inserts(t, count - 1)), t, x, n + count - 1);
      assert before + Inserts(t, count - 1) + [Insert(t)] == before + Inserts(t, count);
    }
  }

  function Opening(t: Tid, x: string): seq<Step> { [Ask(t, x), TakeLock(t), Load(t)] }

  lemma {:induction false} Opens(hash: Hash, before: seq<Step>, t: Tid, x: string)
    requires EveryRunLocks(before) && PcOf(After(hash, before), t).Idle? && hash(x) !in After(hash, before).holder
    ensures Storing(hash, After(hash, before + Opening(t, x)), t, x, |RowsIn(After(hash, before).rows, x)|)
  {
    var s := After(hash, before);
    var n := |RowsIn(s.rows, x)|;
    Reachable(hash, before);
    assert HasFirst(s.rows, x, n);
    hide After;
    Then(hash, before, Ask(t, x));
    Then(hash, before + [Ask(t, x)], TakeLock(t));
    Then(hash, before + [Ask(t, x)] + [TakeLock(t)], Load(t));
    assert before + [Ask(t, x)] + [TakeLock(t)] + [Load(t)] == before + Opening(t, x);
    OpensTo(hash, s, t, x);
  }

  lemma OpensTo(hash: Hash, s: State, t: Tid, x: string)
    requires PcOf(s, t).Idle? && hash(x) !in s.holder
    ensures var s' := Do(hash, Do(hash, Do(hash, s, Ask(t, x)), TakeLock(t)), Load(t));
            && PcOf(s', t) == Running(x, |RowsIn(s.rows, x)|) && s'.rows == s.rows
            && hash(x) in s'.holder && s'.holder[hash(x)] == t
  {
    var s1 := Do(hash, s, Ask(t, x));
    assert PcOf(s1, t) == Waiting(x) && s1.holder == s.holder;
    var s2 := Do(hash, s1, TakeLock(t));
    assert PcOf(s2, t) == Locked(x);
  }

  /** A run whose lock is free, left to itself, takes it, stores its messages after those there and gives it
      back. */
  lemma {:induction false} ARunStoresItsMessages(hash: Hash, before: seq<Step>, t: Tid, x: string, count: nat, ok: bool)
    requires EveryRunLocks(before) && PcOf(After(hash, before), t).Idle? && hash(x) !in After(hash, before).holder
    ensures var s := After(hash, before);
            var s' := After(hash, before + Opening(t, x) + Inserts(t, count) + [Leave(t, ok)]);
            && HasFirst(s'.rows, x, |RowsIn(s.rows, x)| + count)
            && PcOf(s', t) == Over(ok) && hash(x) !in s'.holder
  {
    var n := |RowsIn(After(hash, before).rows, x)|;
    hide After, Do, Storing;
    Opens(hash, before, t, x);
    StoresAll(hash, before + Opening(t, x), t, x, n, count);
    Then(hash, before + Opening(t, x) + Inserts(t, count), Leave(t, ok));
    GivesItBack(hash, After(hash, before + Opening(t, x) + Inserts(t, count)), t, x, n + count, ok);
  }

  lemma GivesItBack(hash: Hash, s: State, t: Tid, x: string, n: nat, ok: bool)
    requires Storing(hash, s, t, x, n)
    ensures var s' := Do(hash, s, Leave(t, ok));
            HasFirst(s'.rows, x, n) && PcOf(s', t) == Over(ok) && hash(x) !in s'.holder
  {
  }

  /** Without the lock every session can lose an insert to the unique constraint. */
  lemma RacedRunsCollide(hash: Hash, x: string)
    ensures After(hash, Raced(x)).violated
  {
    hide After, Do;
    var steps := Raced(x);
    assert After(hash, steps[..6]).pcs == map[0 := Running(x, 0), 1 := Running(x, 0)]
      && After(hash, steps[..6]).rows == map[] by {
      BothLoad(hash, x);
    }
    Then(hash, steps[..6], Insert(0));
    Then(hash, steps[..7], Insert(1));
    assert steps[..6] + [Insert(0)] == steps[..7] && steps[..7] + [Insert(1)] == steps;
    SecondIsRefused(hash, After(hash, steps[..6]), x);
  }

  lemma SecondIsRefused(hash: Hash, s: State, x: string)
    requires s.pcs == map[0 := Running(x, 0), 1 := Running(x, 0)] && s.rows == map[]
    ensures Do(hash, Do(hash, s, Insert(0)), Insert(1)).violated
  {
    var s1 := Do(hash, s, Insert(0));
    assert 0 in RowsIn(s1.rows, x) && PcOf(s1, 1) == Running(x, 0);
  }

  lemma Next(hash: Hash, steps: seq<Step>, i: nat)
    requires i < |steps|
    ensures After(hash, steps[..i + 1]) == Do(hash, After(hash, steps[..i]), steps[i])
  {
    Then(hash, steps[..i], steps[i]);
    assert steps[..i] + [steps[i]] == steps[..i + 1];
  }

  lemma BothAsk(hash: Hash, x: string)
    ensures After(hash, Raced(x)[..2]) == State(map[0 := Waiting(x), 1 := Waiting(x)], map[], map[], false)
  {
    assert After(hash, []) == Init;
    hide After, RowsIn;
    var steps := Raced(x);
    assert steps[..0] == [];
    Next(hash, steps, 0);
    assert After(hash, steps[..1]) == State(map[0 := Waiting(x)], map[], map[], false);
    Next(hash, steps, 1);
  }

  lemma BothGetIn(hash: Hash, x: string)
    ensures After(hash, Raced(x)[..4]) == State(map[0 := Locked(x), 1 := Locked(x)], map[], map[], false)
  {
    hide After, RowsIn;
    var steps := Raced(x);
    BothAsk(hash, x);
    Next(hash, steps, 2);
    assert After(hash, steps[..3]) == State(map[0 := Locked(x), 1 := Waiting(x)], map[], map[], false);
    Next(hash, steps, 3);
  }

  lemma BothLoad(hash: Hash, x: string)
    ensures var s := After(hash, Raced(x)[..6]);
            s.pcs == map[0 := Running(x, 0), 1 := Running(x, 0)] && s.rows == map[]
  {
    hide After;
    var steps := Raced(x);
    BothGetIn(hash, x);
    Next(hash, steps, 4);
    assert After(hash, steps[..5]).pcs == map[0 := Running(x, 0), 1 := Locked(x)];
    Next(hash, steps, 5);
  }
}
