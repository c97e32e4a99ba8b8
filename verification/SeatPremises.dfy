/**
 * Why the premises are there: for every seat, and every pair of seats sharing a store, a run that
 * breaks just one of them breaks what it was protecting.
 */
module SeatPremises {
  import opened Ids
  import opened StoreId
  import opened Seats
  import opened SeatRows

  lemma {:induction false} Then(steps: seq<Step>, step: Step)
    ensures After(steps + [step]) == Do(After(steps), step)
  {
    assert (steps + [step])[..|steps|] == steps;
  }

  /** Taken one after another, these put a request for a seat nobody has cached into a call. */
  function Serving(t: Tid, key: Key): seq<Step> {
    [Fetch(t, key), Acquire(t), Lookup(t, false), Build(t), Store(t), Call(t)]
  }

  lemma {:induction false} Runs(before: seq<Step>, a: Step, b: Step, c: Step)
    ensures After(before + [a, b, c]) == Do(Do(Do(After(before), a), b), c)
  {
    hide After, Do;
    Then(before, a);
    Then(before + [a], b);
    Then(before + [a, b], c);
    assert before + [a] + [b] == before + [a, b] && before + [a, b] + [c] == before + [a, b, c];
  }

  /** A request number nobody has. */
  lemma Nobody(pcs: Pcs) returns (u: Tid)
    ensures u !in pcs
  {
    u := Above(pcs.Keys);
    assert u !in pcs.Keys;
  }

  lemma Above(ts: set<Tid>) returns (u: Tid)
    ensures forall t :: t in ts ==> t < u
  {
    if ts == {} {
      u := 0;
    } else {
      var t :| t in ts;
      u := Above(ts - {t});
      assert forall v :: v in ts ==> v == t || v in ts - {t};
      if u <= t { u := t + 1; }
    }
  }

  /** The request is in a call, with a new agent that counts the rows its seat has. */
  ghost predicate NewlyServing(s: State, t: Tid, key: Key, s': State) {
    && s'.next == s.next[s.newAgent := |Rows(s, StoreOf(key))|]
    && s'.pcs == s.pcs[t := In(Calling(s.newAgent), key, s.newLock)]
    && s'.cache == s.cache[key := s.newAgent] && s'.locks == s.locks[key := s.newLock]
    && s'.holder == s.holder[s.newLock := t]
    && s'.newAgent == s.newAgent + 1 && s'.newLock == s.newLock + 1
    && s'.rows == s.rows && s'.violated == s.violated
  }

  ghost predicate Untouched(s: State, t: Tid, key: Key) {
    t !in s.pcs && key !in s.locks && key !in s.cache && s.newLock !in s.holder
  }

  lemma ServingFetches(s: State, t: Tid, key: Key)
    requires Untouched(s, t, key)
    ensures var s' := Do(Do(Do(s, Fetch(t, key)), Acquire(t)), Lookup(t, false));
            s' == s.(pcs := s.pcs[t := In(Building, key, s.newLock)], locks := s.locks[key := s.newLock],
                     newLock := s.newLock + 1, holder := s.holder[s.newLock := t])
  {
    hide StoreOf, Rows;
    var s1 := s.(pcs := s.pcs[t := In(Fetched, key, s.newLock)], locks := s.locks[key := s.newLock],
      newLock := s.newLock + 1);
    assert Do(s, Fetch(t, key)) == s1;
    TakesAndLooks(s1, t, key, s.newLock);
    assert s1.pcs[t := In(Building, key, s.newLock)] == s.pcs[t := In(Building, key, s.newLock)];
  }

  lemma TakesAndLooks(s: State, t: Tid, key: Key, l: LockId)
    requires PcOf(s, t) == In(Fetched, key, l) && l !in s.holder && key !in s.cache
    ensures Do(Do(s, Acquire(t)), Lookup(t, false))
            == s.(pcs := s.pcs[t := In(Building, key, l)], holder := s.holder[l := t])
  {
    hide StoreOf, Rows;
    var s1 := s.(pcs := s.pcs[t := In(Acquired, key, l)], holder := s.holder[l := t]);
    assert Do(s, Acquire(t)) == s1;
    assert s1.pcs[t := In(Building, key, l)] == s.pcs[t := In(Building, key, l)];
  }

  lemma ServingBuilds(s: State, t: Tid, key: Key, l: LockId)
    requires PcOf(s, t) == In(Building, key, l)
    ensures var s' := Do(Do(Do(s, Build(t)), Store(t)), Call(t));
            && s'.next == s.next[s.newAgent := |Rows(s, StoreOf(key))|]
            && s'.pcs == s.pcs[t := In(Calling(s.newAgent), key, l)]
            && s'.cache == s.cache[key := s.newAgent] && s'.newAgent == s.newAgent + 1
            && s'.locks == s.locks && s'.holder == s.holder && s'.newLock == s.newLock
            && s'.rows == s.rows && s'.violated == s.violated
  {
    hide StoreOf, Rows;
    var s1 := Do(s, Build(t));
    assert s1.pcs == s.pcs[t := In(Built(s.newAgent), key, l)];
    var s2 := Do(s1, Store(t));
    assert s2.pcs == s.pcs[t := In(Ready(s.newAgent), key, l)];
    var s3 := Do(s2, Call(t));
    assert s3.pcs == s.pcs[t := In(Calling(s.newAgent), key, l)];
  }

  lemma {:induction false} ServingServes(before: seq<Step>, t: Tid, key: Key)
    requires Untouched(After(before), t, key)
    ensures NewlyServing(After(before), t, key, After(before + Serving(t, key)))
  {
    hide After, Do, Rows, StoreOf;
    var s := After(before);
    var half := before + [Fetch(t, key), Acquire(t), Lookup(t, false)];
    Runs(before, Fetch(t, key), Acquire(t), Lookup(t, false));
    ServingFetches(s, t, key);
    Runs(half, Build(t), Store(t), Call(t));
    ServingBuilds(After(half), t, key, s.newLock);
    assert half + [Build(t), Store(t), Call(t)] == before + Serving(t, key);
    RowsOnly(s, After(half), StoreOf(key));
  }

  lemma RowsOnly(s: State, s': State, store: string)
    requires s.rows == s'.rows
    ensures Rows(s, store) == Rows(s', store)
  {
  }

  /** Two requests for one seat, the second one's lock made after a wipe that overlapped the first. */
  function Overlapped(key: Key): seq<Step> {
    [Fetch(0, key), WipeLocks] + Serving(1, key) + [Acquire(0), Lookup(0, false), Call(0)]
  }

  /** For any seat, a wipe of the locks while a request is between fetch and acquire lets two calls
      into one agent. */
  lemma WipedLocksLetTwoIn(key: Key)
    ensures var s := After(Overlapped(key));
            InCall(s, 0) && InCall(s, 1) && PcOf(s, 0).stage.agent == PcOf(s, 1).stage.agent
  {
    var start := [Fetch(0, key), WipeLocks];
    Then([], Fetch(0, key));
    Then([Fetch(0, key)], WipeLocks);
    assert [Fetch(0, key)] + [WipeLocks] == start && [] + [Fetch(0, key)] == [Fetch(0, key)];
    var s := After(start);
    assert s.pcs == map[0 := In(Fetched, key, 0)] && s.holder == map[] && s.cache == map[] && s.locks == map[];
    ServingServes(start, 1, key);
    var served := start + Serving(1, key);
    assert s.newLock == 1;
    Runs(served, Acquire(0), Lookup(0, false), Call(0));
    SecondCallIn(After(served), key, 1);
  }

  lemma SecondCallIn(s: State, key: Key, l: LockId)
    requires PcOf(s, 0) == In(Fetched, key, 0) && 0 !in s.holder && key in s.cache
    requires PcOf(s, 1) == In(Calling(s.cache[key]), key, l)
    ensures var s' := Do(Do(Do(s, Acquire(0)), Lookup(0, false)), Call(0));
            PcOf(s', 0) == In(Calling(s.cache[key]), key, 0) && PcOf(s', 1) == PcOf(s, 1)
  {
    hide StoreOf, Rows;
    var s1 := Do(s, Acquire(0));
    assert PcOf(s1, 0) == In(Acquired, key, 0) && s1.cache == s.cache;
    var s2 := Do(s1, Lookup(0, false));
    assert PcOf(s2, 0) == In(Ready(s.cache[key]), key, 0);
  }

  /** Calls for two seats in flight at once, each then writing its first message. */
  function TwoSeats(j: Key, k: Key): seq<Step> { Serving(0, j) + Serving(1, k) + [Insert(0), Insert(1)] }

  lemma FirstServes(j: Key)
    ensures var s := After(Serving(0, j));
            && s.pcs == map[0 := In(Calling(0), j, 0)] && s.next == map[0 := 0] && s.rows == map[]
            && s.cache == map[j := 0] && s.locks == map[j := 0] && s.holder == map[0 := 0]
            && s.newAgent == 1 && s.newLock == 1
  {
    hide StoreOf, Do, Serving;
    assert [] + Serving(0, j) == Serving(0, j);
    assert After([]) == Init;
    ServingServes([], 0, j);
  }

  lemma BothServe(j: Key, k: Key)
    requires j != k
    ensures var s := After(Serving(0, j) + Serving(1, k));
            && s.pcs == map[0 := In(Calling(0), j, 0), 1 := In(Calling(1), k, 1)]
            && s.next == map[0 := 0, 1 := 0] && s.rows == map[]
  {
    hide StoreOf, Do, After, Serving;
    FirstServes(j);
    ServingServes(Serving(0, j), 1, k);
  }

  /** Any two seats that share a store, both answering at once, have an insert refused. */
  lemma OneStoreForTwoSeatsCollides(j: Key, k: Key)
    requires j != k && StoreOf(j) == StoreOf(k)
    ensures WipesAreQuiet(TwoSeats(j, k)) && After(TwoSeats(j, k)).violated
  {
    hide StoreOf, Do, After;
    BothServe(j, k);
    var both := Serving(0, j) + Serving(1, k);
    Then(both, Insert(0));
    Then(both + [Insert(0)], Insert(1));
    assert both + [Insert(0)] + [Insert(1)] == TwoSeats(j, k);
    SecondInsertCollides(After(both), j, k);
  }

  lemma SecondInsertCollides(s: State, j: Key, k: Key)
    requires StoreOf(j) == StoreOf(k) && s.next == map[0 := 0, 1 := 0] && s.rows == map[]
    requires s.pcs == map[0 := In(Calling(0), j, 0), 1 := In(Calling(1), k, 1)]
    ensures Do(Do(s, Insert(0)), Insert(1)).violated
  {
    hide StoreOf;
    var s1 := Do(s, Insert(0));
    assert s1.pcs == s.pcs && s1.next == map[0 := 1, 1 := 0] && 0 in Rows(s1, StoreOf(k));
  }

  /** A conversation forgotten in the middle of a call. */
  function Forgotten(key: Key): seq<Step> { Serving(0, key) + [Insert(0), DeleteRows(StoreOf(key)), Insert(0)] }

  /** For any seat, rows deleted while it is answering leave a conversation that starts at id 1. */
  lemma ForgettingMidCallLeavesAHole(key: Key)
    ensures WipesAreQuiet(Forgotten(key)) && Rows(After(Forgotten(key)), StoreOf(key)) == {1}
  {
    hide StoreOf, Do, After;
    FirstServes(key);
    Runs(Serving(0, key), Insert(0), DeleteRows(StoreOf(key)), Insert(0));
    var s := After(Serving(0, key));
    ForgottenRows(s, key);
  }

  lemma ForgottenRows(s: State, key: Key)
    requires s.pcs == map[0 := In(Calling(0), key, 0)] && s.next == map[0 := 0] && s.rows == map[]
    ensures Rows(Do(Do(Do(s, Insert(0)), DeleteRows(StoreOf(key))), Insert(0)), StoreOf(key)) == {1}
  {
    hide StoreOf;
    var s1 := Do(s, Insert(0));
    assert Rows(s, StoreOf(key)) + {0} == {0};
    assert s1.pcs == s.pcs && s1.next == map[0 := 1] && s1.rows == map[StoreOf(key) := {0}];
    var s2 := Do(s1, DeleteRows(StoreOf(key)));
    assert s2.pcs == s.pcs && s2.next == s1.next && s2.rows == map[];
  }
}
