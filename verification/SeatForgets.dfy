/**
 * When rows may be deleted under the director's feet.  It is safe exactly where nothing is stored, or
 * where no agent has counted what is.
 */
module SeatForgets {
  import opened Ids
  import opened StoreId
  import opened Seats
  import opened SeatRows
  import opened SeatPremises

  /** Each step careful where it is taken. */
  ghost predicate CarefulAfter(before: seq<Step>, more: seq<Step>) {
    forall n :: 0 <= n < |more| ==> Careful(After(before + more[..n]), more[n])
  }

  ghost predicate Sound(s: State) { !s.violated && AllContiguous(s.rows) }

  // ---------------------------------------------------------------- careful runs, put together

  lemma {:induction false} OneMore(before: seq<Step>, more: seq<Step>, step: Step)
    requires CarefulAfter(before, more) && Careful(After(before + more), step)
    ensures CarefulAfter(before, more + [step])
  {
    hide Careful, After;
    var all := more + [step];
    forall n | 0 <= n < |all|
      ensures Careful(After(before + all[..n]), all[n])
    {
      assert all[..n] == more[..n];
      if n == |more| { assert more[..n] == more; }
    }
  }

  lemma Joined(before: seq<Step>, one: seq<Step>, two: seq<Step>)
    requires CarefulAfter(before, one) && CarefulAfter(before + one, two)
    ensures CarefulAfter(before, one + two)
  {
    hide Careful, After;
    var all := one + two;
    forall n | 0 <= n < |all|
      ensures Careful(After(before + all[..n]), all[n])
    {
      if n < |one| {
        assert all[..n] == one[..n];
      } else {
        assert before + all[..n] == before + one + two[..n - |one|];
      }
    }
  }

  /** Going on carefully from a careful run is a careful run. */
  lemma GoesOn(steps: seq<Step>, more: seq<Step>)
    requires CarefulRun(steps) && CarefulAfter(steps, more)
    ensures CarefulRun(steps + more)
  {
    hide Careful, After;
    var all := steps + more;
    forall n | 0 <= n < |all|
      ensures Careful(After(all[..n]), all[n])
    {
      if n < |steps| {
        assert all[..n] == steps[..n];
      } else {
        assert all[..n] == steps + more[..n - |steps|];
      }
    }
  }

  // ---------------------------------------------------------------- seats in use

  ghost predicate NoNewSeat(s: State, s': State) {
    forall k :: Live(s'.pcs, s'.cache, k) ==> Live(s.pcs, s.cache, k)
  }

  lemma StillDistinct(s: State, s': State)
    requires LiveStoresDistinct(s) && NoNewSeat(s, s')
    ensures LiveStoresDistinct(s')
  {
    hide StoreOf, Live;
  }

  /** A request that moves on, at most caching for the seat it is inside for. */
  lemma MovesOn(s: State, s': State, t: Tid, pc: Pc)
    requires s'.pcs == s.pcs[t := pc] && (pc.Inside() ==> PcOf(s, t).Inside() && PcOf(s, t).key == pc.key)
    requires forall k :: k in s'.cache ==> k in s.cache || (PcOf(s, t).Inside() && PcOf(s, t).key == k)
    ensures NoNewSeat(s, s')
  {
    forall k | Live(s'.pcs, s'.cache, k)
      ensures Live(s.pcs, s.cache, k)
    {
      if k !in s'.cache {
        var u :| u in s'.pcs && s'.pcs[u].Inside() && s'.pcs[u].key == k;
        assert u in s.pcs && s.pcs[u].Inside() && s.pcs[u].key == k;
      }
    }
  }

  lemma StaysInside(s: State, step: Step)
    requires TakenInside(step) && PcOf(s, step.t).Inside()
    ensures NoNewSeat(s, Do(s, step))
  {
    var pc := PcOf(s, step.t);
    assert Do(s, step) == DoInside(s, step);
    hide Do, StoreOf, Rows, Collides, NextCounters, NextRows, NextStage, NoNewSeat;
    MovesOn(s, DoInside(s, step), step.t, In(NextStage(s, pc, step), pc.key, pc.lock));
  }

  lemma SamePlace(s: State, s': State)
    requires s'.pcs == s.pcs && forall k :: k in s'.cache ==> k in s.cache
    ensures NoNewSeat(s, s')
  {
  }

  /** Only taking a lock brings a seat into use. */
  lemma NobodyNew(s: State, step: Step)
    requires !step.Acquire?
    ensures NoNewSeat(s, Do(s, step))
  {
    hide NoNewSeat, DoInside, DoRelease, DoFetch;
    match step
    case Fetch(t, key) => FetchesOnly(s, t, key);
    case Release(t) => ReleasesOnly(s, t);
    case Evict(key) => SamePlace(s, Do(s, step));
    case DeleteRows(store) => SamePlace(s, Do(s, step));
    case WipeAgents => SamePlace(s, Do(s, step));
    case WipeLocks => SamePlace(s, Do(s, step));
    case _ => InsideOnly(s, step);
  }

  lemma FetchesOnly(s: State, t: Tid, key: Key)
    ensures NoNewSeat(s, DoFetch(s, t, key))
  {
    if PcOf(s, t).Idle? {
      var pc := In(Fetched, key, if key in s.locks then s.locks[key] else s.newLock);
      assert DoFetch(s, t, key).pcs == s.pcs[t := pc] && DoFetch(s, t, key).cache == s.cache && !pc.Inside();
      hide *;
      MovesOn(s, DoFetch(s, t, key), t, pc);
    } else {
      SamePlace(s, s);
    }
  }

  lemma ReleasesOnly(s: State, t: Tid)
    ensures NoNewSeat(s, DoRelease(s, t))
  {
    hide NoNewSeat;
    if DoRelease(s, t) != s { MovesOn(s, DoRelease(s, t), t, DoRelease(s, t).pcs[t]); } else { SamePlace(s, s); }
  }

  lemma InsideOnly(s: State, step: Step)
    requires TakenInside(step)
    ensures NoNewSeat(s, Do(s, step))
  {
    hide NoNewSeat;
    if PcOf(s, step.t).Inside() { StaysInside(s, step); } else { SamePlace(s, s); }
  }

  lemma TakingItsLock(s: State, u: Tid, k: Key)
    requires PcOf(s, u).In? && PcOf(s, u).key == k && k in s.cache
    ensures NoNewSeat(s, Do(s, Acquire(u)))
  {
    var s' := Do(s, Acquire(u));
    forall j | Live(s'.pcs, s'.cache, j)
      ensures Live(s.pcs, s.cache, j)
    {
      if j !in s.cache {
        var t :| t in s'.pcs && s'.pcs[t].Inside() && s'.pcs[t].key == j;
        assert t != u ==> t in s.pcs && s.pcs[t].Inside() && s.pcs[t].key == j;
      }
    }
  }

  predicate Gentle(more: seq<Step>) {
    forall i :: 0 <= i < |more| ==> !more[i].Acquire? && !more[i].WipeLocks? && !more[i].DeleteRows?
  }

  /** Steps that neither take locks nor wipe nor delete are careful anywhere. */
  lemma {:induction false} GentleIsCareful(before: seq<Step>, more: seq<Step>)
    requires LiveStoresDistinct(After(before)) && Protocol(After(before)) && Gentle(more)
    ensures CarefulAfter(before, more) && LiveStoresDistinct(After(before + more)) && Protocol(After(before + more))
    decreases |more|
  {
    hide LiveStoresDistinct, NoNewSeat, Protocol, After, Do, CarefulAfter;
    if more == [] {
      assert before + more == before;
      assert CarefulAfter(before, []) by { Nothing(before); }
    } else {
      var n := |more| - 1;
      GentleIsCareful(before, more[..n]);
      var s := After(before + more[..n]);
      OneMore(before, more[..n], more[n]);
      Then(before + more[..n], more[n]);
      assert more[..n] + [more[n]] == more && before + more[..n] + [more[n]] == before + more;
      NobodyNew(s, more[n]);
      StillDistinct(s, Do(s, more[n]));
      ProtocolStep(s, more[n]);
    }
  }

  lemma Nothing(before: seq<Step>)
    ensures CarefulAfter(before, [])
  {
  }

  // ---------------------------------------------------------------- where somebody has counted

  /** An agent at work for the seat counts more rows than there are. */
  ghost predicate CountsTooMany(s: State, t: Tid) {
    && PcOf(s, t).In? && PcOf(s, t).stage.HasAgent() && PcOf(s, t).stage.agent in s.next
    && s.next[PcOf(s, t).stage.agent] > 0 && Rows(s, StoreOf(PcOf(s, t).key)) == {}
  }

  lemma PassesOn(s: State, t: Tid, step: Step)
    requires step == Store(t) || step == Call(t)
    requires CountsTooMany(s, t)
    ensures var s' := Do(s, step);
            && CountsTooMany(s', t) && PcOf(s', t).key == PcOf(s, t).key
            && (step.Store? ==> !PcOf(s', t).stage.Built?)
            && (step.Call? && !PcOf(s, t).stage.Built? ==> PcOf(s', t).stage.Calling?)
  {
    hide StoreOf;
  }

  lemma WritesAHole(s: State, t: Tid)
    requires CountsTooMany(s, t) && PcOf(s, t).stage.Calling?
    ensures !Contiguous(Rows(Do(s, Insert(t)), StoreOf(PcOf(s, t).key)))
  {
    hide StoreOf;
    var n := s.next[PcOf(s, t).stage.agent];
    assert Rows(Do(s, Insert(t)), StoreOf(PcOf(s, t).key)) == {n};
    assert |{n}| == 1;
  }

  /** Let it answer, and the conversation has a hole at the start. */
  lemma Late(before: seq<Step>, t: Tid) returns (more: seq<Step>)
    requires LiveStoresDistinct(After(before)) && Protocol(After(before)) && CountsTooMany(After(before), t)
    ensures CarefulAfter(before, more) && !Sound(After(before + more))
  {
    var s := After(before);
    more := [Store(t), Call(t), Insert(t)];
    GentleIsCareful(before, more);
    hide After, Do, CountsTooMany, Protocol, LiveStoresDistinct, CarefulAfter, Rows, StoreOf;
    Runs(before, Store(t), Call(t), Insert(t));
    PassesOn(s, t, Store(t));
    var s1 := Do(s, Store(t));
    PassesOn(s1, t, Call(t));
    WritesAHole(Do(s1, Call(t)), t);
    HoleIsUnsound(After(before + more), StoreOf(PcOf(Do(s1, Call(t)), t).key));
  }

  lemma HoleIsUnsound(s: State, store: string)
    requires !Contiguous(Rows(s, store))
    ensures !Sound(s)
  {
  }

  // ---------------------------------------------------------------- where one is cached

  ghost predicate Vacant(s: State, k: Key) { forall t :: PcOf(s, t).Inside() ==> PcOf(s, t).key != k }

  /** The same talk: nothing counted, stored or cached differently. */
  ghost predicate SameTalk(s: State, s': State) { s'.cache == s.cache && s'.next == s.next && s'.rows == s.rows }

  ghost predicate OthersStay(s: State, s': State, v: Tid) { forall t :: t != v ==> PcOf(s', t) == PcOf(s, t) }

  /** Looking and failing leave the talk as it is. */
  lemma LooksOrFails(s: State, step: Step)
    requires (step.Lookup? || step.BuildFails?) && PcOf(s, step.t).Inside()
    ensures var pc, s' := PcOf(s, step.t), Do(s, step);
            SameTalk(s, s') && OthersStay(s, s', step.t)
              && PcOf(s', step.t) == In(NextStage(s, pc, step), pc.key, pc.lock)
  {
    hide StoreOf, Rows, Collides, NextStage;
    assert Do(s, step) == DoInside(s, step);
  }

  lemma LetsGoOf(s: State, v: Tid)
    requires PcOf(s, v).In? && PcOf(s, v).stage.Leaving?
    ensures SameTalk(s, Do(s, Release(v))) && OthersStay(s, Do(s, Release(v)), v) && PcOf(Do(s, Release(v)), v).Done?
  {
  }

  lemma Leaves(s: State, v: Tid)
    requires PcOf(s, v).Inside() && !PcOf(s, v).stage.HasAgent()
    ensures var s' := Do(Do(Do(s, Lookup(v, true)), BuildFails(v)), Release(v));
            SameTalk(s, s') && OthersStay(s, s', v) && PcOf(s', v).Done?
  {
    hide Do, StoreOf, Rows, Collides;
    var s1 := Do(s, Lookup(v, true));
    LooksOrFails(s, Lookup(v, true));
    var s2 := Do(s1, BuildFails(v));
    LooksOrFails(s1, BuildFails(v));
    LetsGoOf(s2, v);
  }

  lemma LeavesVacant(s: State, v: Tid, k: Key)
    requires Protocol(s) && PcOf(s, v).Inside() && PcOf(s, v).key == k && !PcOf(s, v).stage.HasAgent()
    ensures var s' := Do(Do(Do(s, Lookup(v, true)), BuildFails(v)), Release(v)); SameTalk(s, s') && Vacant(s', k)
  {
    hide Protocol, Do;
    Leaves(s, v);
    forall t | t != v && PcOf(s, t).Inside()
      ensures PcOf(s, t).key != k
    {
      if PcOf(s, t).key == k { OneInside(s, t, v); }
    }
  }

  /** Whoever is inside for the seat without an agent gives up. */
  lemma Vacates(before: seq<Step>, k: Key) returns (more: seq<Step>)
    requires LiveStoresDistinct(After(before)) && Protocol(After(before))
    requires forall t :: PcOf(After(before), t).Inside() && PcOf(After(before), t).key == k ==>
               !PcOf(After(before), t).stage.HasAgent()
    ensures Gentle(more) && SameTalk(After(before), After(before + more)) && Vacant(After(before + more), k)
  {
    var s := After(before);
    hide After, Protocol, LiveStoresDistinct;
    if v :| PcOf(s, v).Inside() && PcOf(s, v).key == k {
      more := [Lookup(v, true), BuildFails(v), Release(v)];
      hide Do, SameTalk, Vacant;
      Runs(before, Lookup(v, true), BuildFails(v), Release(v));
      LeavesVacant(s, v, k);
    } else {
      more := [];
      assert before + more == before;
    }
  }

  /** What fetching a lock does, to a request number nobody has. */
  lemma Fetches(s: State, u: Tid, k: Key)
    requires u !in s.pcs
    ensures var s' := DoFetch(s, u, k);
            && SameTalk(s, s') && OthersStay(s, s', u) && k in s'.locks && PcOf(s', u) == In(Fetched, k, s'.locks[k])
  {
    hide OthersStay;
    var s' := DoFetch(s, u, k);
    var l := if k in s.locks then s.locks[k] else s.newLock;
    assert s'.pcs == s.pcs[u := In(Fetched, k, l)];
    PutsIn(s, s', u, In(Fetched, k, l));
  }

  lemma IsFetch(s: State, u: Tid, k: Key)
    ensures Do(s, Fetch(u, k)) == DoFetch(s, u, k)
  {
    hide DoFetch;
  }

  lemma PutsIn(s: State, s': State, u: Tid, pc: Pc)
    requires s'.pcs == s.pcs[u := pc]
    ensures OthersStay(s, s', u) && PcOf(s', u) == pc
  {
  }

  lemma FetchesFree(s: State, u: Tid, k: Key)
    requires Protocol(s) && Vacant(s, k) && u !in s.pcs
    ensures var s' := Do(s, Fetch(u, k));
            && SameTalk(s, s') && PcOf(s', u).In? && PcOf(s', u).key == k && PcOf(s', u).stage.Fetched?
            && PcOf(s', u).lock !in s'.holder
  {
    hide Do, DoFetch, Protocol;
    IsFetch(s, u, k);
    Fetches(s, u, k);
    ProtocolStep(s, Fetch(u, k));
    VacantIsFree(Do(s, Fetch(u, k)), k);
  }

  lemma VacantIsFree(s: State, k: Key)
    requires Protocol(s) && k in s.locks && Vacant(s, k)
    ensures s.locks[k] !in s.holder
  {
    hide AgentsInv;
    forall l | l in s.holder
      ensures l != s.locks[k]
    {
      var w := s.holder[l];
      assert Holds(s.pcs, w, l);
      assert PcOf(s, w).Inside() && s.locks[PcOf(s, w).key] == l;
    }
  }

  lemma TakesAgent(s: State, u: Tid, k: Key)
    requires PcOf(s, u).In? && PcOf(s, u).key == k && PcOf(s, u).stage.Fetched? && PcOf(s, u).lock !in s.holder
    requires k in s.cache
    ensures var s1 := Do(s, Acquire(u));
            var s2 := Do(s1, Lookup(u, false));
            && SameTalk(s, s1) && SameTalk(s, s2)
            && PcOf(s2, u).In? && PcOf(s2, u).key == k && PcOf(s2, u).stage == Ready(s.cache[k])
  {
    hide StoreOf, Rows, Collides;
    var s1 := Do(s, Acquire(u));
    assert PcOf(s1, u) == In(Acquired, k, PcOf(s, u).lock);
  }

  predicate FreeToTake(s: State, u: Tid, k: Key) {
    && PcOf(s, u).In? && PcOf(s, u).key == k && PcOf(s, u).stage.Fetched? && PcOf(s, u).lock !in s.holder
      && k in s.cache
  }

  ghost predicate InOrder(s: State) { LiveStoresDistinct(s) && Protocol(s) }

  lemma {:induction false} ComesFor(before: seq<Step>, k: Key, u: Tid)
    requires InOrder(After(before)) && Vacant(After(before), k) && k in After(before).cache && u !in After(before).pcs
    ensures var s' := After(before + [Fetch(u, k)]);
            SameTalk(After(before), s') && InOrder(s') && FreeToTake(s', u, k)
    ensures CarefulAfter(before, [Fetch(u, k)])
  {
    hide After, Do, Protocol, LiveStoresDistinct, CarefulAfter, Vacant;
    GentleIsCareful(before, [Fetch(u, k)]);
    Then(before, Fetch(u, k));
    FetchesFree(After(before), u, k);
  }

  lemma {:induction false} TakesLock(before: seq<Step>, k: Key, u: Tid)
    requires InOrder(After(before)) && FreeToTake(After(before), u, k)
    ensures After(before + [Acquire(u)]) == Do(After(before), Acquire(u)) && InOrder(After(before + [Acquire(u)]))
    ensures CarefulAfter(before, [Acquire(u)])
  {
    hide After, Do, Protocol, LiveStoresDistinct, CarefulAfter, NoNewSeat;
    var s := After(before);
    Then(before, Acquire(u));
    TakingItsLock(s, u, k);
    StillDistinct(s, Do(s, Acquire(u)));
    ProtocolStep(s, Acquire(u));
    Nothing(before);
    assert before + [] == before && [] + [Acquire(u)] == [Acquire(u)];
    OneMore(before, [], Acquire(u));
  }

  lemma {:induction false} TakesAgentAt(before: seq<Step>, k: Key, u: Tid)
    requires InOrder(After(before)) && FreeToTake(After(before), u, k)
    ensures var s' := After(before + ([Acquire(u)] + [Lookup(u, false)]));
            && SameTalk(After(before), s') && InOrder(s')
            && PcOf(s', u).In? && PcOf(s', u).key == k && PcOf(s', u).stage == Ready(After(before).cache[k])
    ensures CarefulAfter(before, [Acquire(u)] + [Lookup(u, false)])
  {
    var taken := before + [Acquire(u)];
    TakesLock(before, k, u);
    TakesAgent(After(before), u, k);
    hide After, Do, Protocol, LiveStoresDistinct, CarefulAfter, FreeToTake;
    GentleIsCareful(taken, [Lookup(u, false)]);
    Then(taken, Lookup(u, false));
    Joined(before, [Acquire(u)], [Lookup(u, false)]);
    assert taken + [Lookup(u, false)] == before + ([Acquire(u)] + [Lookup(u, false)]);
  }

  /** With the seat free somebody comes and is given the agent cached. */
  lemma Comes(before: seq<Step>, k: Key) returns (u: Tid, more: seq<Step>)
    requires InOrder(After(before)) && Vacant(After(before), k) && k in After(before).cache
    ensures CarefulAfter(before, more) && SameTalk(After(before), After(before + more)) && InOrder(After(before + more))
    ensures var pc := PcOf(After(before + more), u);
            pc.In? && pc.key == k && pc.stage == Ready(After(before).cache[k])
  {
    u := Nobody(After(before).pcs);
    hide After, InOrder, CarefulAfter, Vacant, FreeToTake;
    ComesFor(before, k, u);
    TakesAgentAt(before + [Fetch(u, k)], k, u);
    var second := [Acquire(u)] + [Lookup(u, false)];
    Joined(before, [Fetch(u, k)], second);
    more := [Fetch(u, k)] + second;
    assert before + [Fetch(u, k)] + second == before + more;
  }

  // ---------------------------------------------------------------- exactly

  /** The rows gone, somebody who counted them answers. */
  lemma Needed(before: seq<Step>, k: Key) returns (more: seq<Step>)
    requires LiveStoresDistinct(After(before)) && Protocol(After(before))
    requires var s := After(before);
             && CountedSome(s, k) && Counted(s.pcs, s.cache, k) && Rows(s, StoreOf(k)) == {}
    ensures CarefulAfter(before, more) && !Sound(After(before + more))
  {
    var s := After(before);
    if t, a :| Works(s.pcs, t, k, a) {
      assert CountsTooMany(s, t);
      hide *;
      more := Late(before, t);
    } else {
      NoneWorks(s, k);
      hide *;
      more := NeededCached(before, k);
    }
  }

  lemma NeededCached(before: seq<Step>, k: Key) returns (more: seq<Step>)
    requires LiveStoresDistinct(After(before)) && Protocol(After(before))
    requires var s := After(before); CountedSome(s, k) && k in s.cache && Rows(s, StoreOf(k)) == {}
    requires forall t :: PcOf(After(before), t).Inside() && PcOf(After(before), t).key == k ==>
               !PcOf(After(before), t).stage.HasAgent()
    ensures CarefulAfter(before, more) && !Sound(After(before + more))
  {
    var s := After(before);
    hide After, Do, Protocol, LiveStoresDistinct, CarefulAfter, Vacant, CountedSome, Rows, StoreOf, Gentle, Sound;
    var first := Vacates(before, k);
    GentleIsCareful(before, first);
    var u, second := Comes(before + first, k);
    var third := Late2(s, before + first + second, u, k);
    Joined(before + first, second, third);
    Joined(before, first, second + third);
    more := first + (second + third);
    assert before + first + second + third == before + more;
  }

  /** Whatever agent the seat has counts something. */
  ghost predicate CountedSome(s: State, k: Key) {
    && (k in s.cache ==> s.cache[k] in s.next && s.next[s.cache[k]] > 0)
    && (forall t, a :: Works(s.pcs, t, k, a) ==> a in s.next && s.next[a] > 0)
  }

  lemma NoneWorks(s: State, k: Key)
    requires Counted(s.pcs, s.cache, k) && forall t, a :: !Works(s.pcs, t, k, a)
    ensures k in s.cache
    ensures forall t :: PcOf(s, t).Inside() && PcOf(s, t).key == k ==> !PcOf(s, t).stage.HasAgent()
  {
    forall t | PcOf(s, t).Inside() && PcOf(s, t).key == k
      ensures !PcOf(s, t).stage.HasAgent()
    {
      if PcOf(s, t).stage.HasAgent() { assert Works(s.pcs, t, k, PcOf(s, t).stage.agent); }
    }
  }

  lemma Late2(s: State, before: seq<Step>, u: Tid, k: Key) returns (more: seq<Step>)
    requires LiveStoresDistinct(After(before)) && Protocol(After(before)) && SameTalk(s, After(before))
    requires k in s.cache && CountedSome(s, k) && Rows(s, StoreOf(k)) == {}
    requires var pc := PcOf(After(before), u); pc.In? && pc.key == k && pc.stage == Ready(s.cache[k])
    ensures CarefulAfter(before, more) && !Sound(After(before + more))
  {
    assert Rows(After(before), StoreOf(k)) == {};
    assert CountsTooMany(After(before), u);
    hide *;
    more := Late(before, u);
  }

  /** What the invariant says of a store with rows in it: whoever counts it counts some. */
  lemma CountsSome(s: State, k: Key)
    requires IdsInv(s) && Rows(s, StoreOf(k)) != {}
    ensures CountedSome(s.(rows := s.rows - {StoreOf(k)}), k)
  {
    hide StoreOf, AllContiguous, ServesCached;
    assert |RowsIn(s.rows, StoreOf(k))| > 0;
    if k in s.cache { assert Counts(s.next, s.rows, k, s.cache[k]); }
    forall t, a | Works(s.pcs, t, k, a)
      ensures a in s.next && s.next[a] > 0
    {
      assert Counts(s.next, s.rows, k, a);
    }
  }

  lemma {:induction false} Deleted(steps: seq<Step>, store: string)
    requires LiveStoresDistinct(After(steps)) && Protocol(After(steps))
    ensures var s, s' := After(steps), After(steps + [DeleteRows(store)]);
            s' == s.(rows := s.rows - {store}) && Rows(s', store) == {} && LiveStoresDistinct(s') && Protocol(s')
  {
    hide After, StoreOf;
    Then(steps, DeleteRows(store));
  }

  /** After any careful run, deleting a conversation's rows is safe, however carefully the run goes on,
      exactly when it has none, or no agent counts them: none cached for a seat that stores there, and no
      request with one. */
  lemma {:induction false} ForgetIsSafeExactly(steps: seq<Step>, store: string)
    requires CarefulRun(steps) && LiveStoresDistinct(After(steps))
    ensures var gone := steps + [DeleteRows(store)];
            (forall more :: CarefulAfter(gone, more) ==> Sound(After(gone + more))) <==> Unneeded(After(steps), store)
  {
    var gone := steps + [DeleteRows(store)];
    ReachableIds(steps);
    var s := After(steps);
    if Unneeded(s, store) {
      forall more | CarefulAfter(gone, more)
        ensures Sound(After(gone + more))
      {
        SafeOn(steps, store, more);
      }
    } else {
      var k :| Counted(s.pcs, s.cache, k) && StoreOf(k) == store;
      hide After, Protocol, IdsInv, LiveStoresDistinct, CarefulAfter, CountedSome, CarefulRun, Rows, StoreOf, Counted,
        Sound;
      Deleted(steps, store);
      CountsSome(s, k);
      SameCounted(s, After(gone), k);
      var more := Needed(gone, k);
    }
  }

  lemma SameCounted(s: State, s': State, k: Key)
    requires s'.pcs == s.pcs && s'.cache == s.cache && Counted(s.pcs, s.cache, k)
    ensures Counted(s'.pcs, s'.cache, k)
  {
  }

  lemma {:induction false} SafeOn(steps: seq<Step>, store: string, more: seq<Step>)
    requires CarefulRun(steps) && LiveStoresDistinct(After(steps)) && Unneeded(After(steps), store)
    requires CarefulAfter(steps + [DeleteRows(store)], more)
    ensures Sound(After(steps + [DeleteRows(store)] + more))
  {
    hide After, LiveStoresDistinct, Unneeded, CarefulRun, CarefulAfter, Protocol;
    assert CarefulAfter(steps, []) by { Nothing(steps); }
    assert steps + [] == steps && [] + [DeleteRows(store)] == [DeleteRows(store)];
    OneMore(steps, [], DeleteRows(store));
    GoesOn(steps, [DeleteRows(store)]);
    GoesOn(steps + [DeleteRows(store)], more);
    ReachableIds(steps + [DeleteRows(store)] + more);
  }
}
