/**
 * When the locks may be wiped.  Nobody in is enough; what is needed is exactly that no request past
 * `lock_for` has yet to take its agent, or has one that a later request would be given too.
 */
module SeatWipes {
  import opened Seats
  import opened SeatPremises

  /** A request the table of locks is still needed for. */
  predicate Stray(s: State, t: Tid) {
    var pc := PcOf(s, t);
    && pc.In?
    && match pc.stage
       case Ready(a) => pc.key in s.cache && s.cache[pc.key] == a
       case Calling(a) => pc.key in s.cache && s.cache[pc.key] == a
       case Leaving(answer) => false
       case _ => true
  }

  ghost predicate TwoCalls(s: State) {
    exists t, u :: t != u && InCall(s, t) && InCall(s, u) && PcOf(s, t).stage.agent == PcOf(s, u).stage.agent
  }

  predicate NoWipes(steps: seq<Step>) { forall i :: 0 <= i < |steps| ==> !steps[i].WipeLocks? }

  ghost predicate NoneAstray(s: State) { forall t :: !Stray(s, t) }

  /** The locks are only wiped with none astray. */
  ghost predicate WipesAreSafe(steps: seq<Step>) {
    forall n :: 0 <= n < |steps| && steps[n].WipeLocks? ==> NoneAstray(After(steps[..n]))
  }

  // ---------------------------------------------------------------- with none astray

  /** A request from before the wipe that nobody can meet: on its way out, or alone with its agent. */
  ghost predicate Alone(s: State, t: Tid) {
    var pc := PcOf(s, t);
    pc.In? ==>
      && pc.lock < s.newLock && pc.lock !in s.locks.Values
      && (pc.stage.Ready? || pc.stage.Calling? || pc.stage.Leaving?)
      && (pc.stage.HasAgent() ==>
            && pc.stage.agent !in s.cache.Values && pc.stage.agent < s.newAgent
            && forall u :: u != t && PcOf(s, u).In? && PcOf(s, u).stage.HasAgent() ==>
                PcOf(s, u).stage.agent != pc.stage.agent)
  }

  /** The protocol for everybody but those from before the wipe. */
  ghost predicate ProtocolBut(s: State, early: set<Tid>) {
    && TableInv(s.pcs - early, s.locks, s.newLock)
    && HolderInv(s.pcs, s.holder)
    && AgentsInv(s.pcs, s.cache, s.born, s.newAgent)
    && AllAlone(s, early)
  }

  ghost predicate AllAlone(s: State, early: set<Tid>) {
    forall t :: t in early ==> t in s.pcs && !s.pcs[t].Idle? && Alone(s, t)
  }

  function AllIn(s: State): set<Tid> { set t | t in s.pcs && s.pcs[t].In? }

  /** A wipe with none astray leaves everybody who is in alone. */
  lemma WipeBut(s: State, early: set<Tid>)
    requires ProtocolBut(s, early) && NoneAstray(s)
    ensures ProtocolBut(Do(s, WipeLocks), early + AllIn(s))
  {
    var s' := Do(s, WipeLocks);
    forall t | t in early + AllIn(s)
      ensures t in s'.pcs && !s'.pcs[t].Idle? && Alone(s', t)
    {
      AloneAtOnce(s, t, early);
    }
    hide HolderInv, AgentsInv, Alone, Stray;
  }

  lemma AloneAtOnce(s: State, t: Tid, early: set<Tid>)
    requires ProtocolBut(s, early) && t in s.pcs && (t in early || s.pcs[t].In?) && NoneAstray(s)
    ensures Alone(Do(s, WipeLocks), t)
  {
    var pc, s' := s.pcs[t], Do(s, WipeLocks);
    assert forall u :: PcOf(s', u) == PcOf(s, u);
    assert !Stray(s, t);
    if t !in early {
      assert t in s.pcs - early;
      if pc.stage.HasAgent() { OnlyHis(s, t, early); }
    }
  }

  lemma OnlyHis(s: State, t: Tid, early: set<Tid>)
    requires ProtocolBut(s, early) && t in s.pcs - early && s.pcs[t].In? && s.pcs[t].stage.HasAgent() && !Stray(s, t)
    ensures var a := s.pcs[t].stage.agent;
            && a !in s.cache.Values && a < s.newAgent
            && forall u :: u != t && PcOf(s, u).In? && PcOf(s, u).stage.HasAgent() ==> PcOf(s, u).stage.agent != a
  {
    var pc := s.pcs[t];
    var a := pc.stage.agent;
    assert Works(s.pcs, t, pc.key, a) && Holds(s.pcs, t, pc.lock);
    assert forall k :: k in s.cache && s.cache[k] == a ==> k == pc.key;
    forall u | u != t && PcOf(s, u).In? && PcOf(s, u).stage.HasAgent()
      ensures PcOf(s, u).stage.agent != a
    {
      var other := s.pcs[u];
      if u in early {
        assert Alone(s, u);
      } else if other.stage.agent == a {
        assert u in s.pcs - early;
        assert Works(s.pcs, u, other.key, a) && Holds(s.pcs, u, other.lock);
      }
    }
  }

  lemma TakeOut(pcs: Pcs, t: Tid, pc: Pc, early: set<Tid>)
    ensures pcs[t := pc] - early == if t in early then pcs - early else (pcs - early)[t := pc]
  {
  }

  predicate Has(pc: Pc, a: AgentId) { pc.In? && pc.stage.HasAgent() && pc.stage.agent == a }

  /** What a step by `t` may do without disturbing anybody alone. */
  ghost predicate Minds(s: State, s': State, t: Tid) {
    && s.newLock <= s'.newLock && s.newAgent <= s'.newAgent
    && (forall v :: v != t ==> PcOf(s', v) == PcOf(s, v) && (v in s.pcs ==> v in s'.pcs))
    && (forall l: LockId :: l in s'.locks.Values ==> l in s.locks.Values || l >= s.newLock)
    && (forall a: AgentId :: a in s'.cache.Values ==> a in s.cache.Values || Has(PcOf(s, t), a))
    && (forall a: AgentId :: Has(PcOf(s', t), a) ==> Has(PcOf(s, t), a) || a in s.cache.Values || a >= s.newAgent)
  }

  lemma StillAlone(s: State, s': State, t: Tid, u: Tid)
    requires Alone(s, u) && t != u && Minds(s, s', t)
    ensures Alone(s', u)
  {
    var pc := PcOf(s, u);
    if pc.In? && pc.stage.HasAgent() {
      var a := pc.stage.agent;
      assert !Has(PcOf(s, t), a);
      assert !Has(PcOf(s', t), a);
      assert a !in s'.cache.Values;
    }
  }

  lemma AllStillAlone(s: State, s': State, t: Tid, early: set<Tid>)
    requires AllAlone(s, early) && Minds(s, s', t)
    requires t in early ==> t in s'.pcs && !s'.pcs[t].Idle? && Alone(s', t)
    ensures AllAlone(s', early)
  {
    forall u | u in early
      ensures u in s'.pcs && !s'.pcs[u].Idle? && Alone(s', u)
    {
      if u != t {
        StillAlone(s, s', t, u);
        assert PcOf(s', u) == PcOf(s, u);
      }
    }
  }

  // ---------------------------------------------------------------- every step but a wipe

  lemma FetchBut(s: State, t: Tid, key: Key, early: set<Tid>)
    requires ProtocolBut(s, early)
    ensures ProtocolBut(DoFetch(s, t, key), early)
  {
    hide TableInv, HolderInv, AgentsInv, Alone;
    if PcOf(s, t).Idle? {
      var l := if key in s.locks then s.locks[key] else s.newLock;
      var pc := In(Fetched, key, l);
      assert t !in early;
      TakeOut(s.pcs, t, pc, early);
      if key in s.locks { TableFetchOld(s.pcs - early, s.locks, s.newLock, t, key); }
      else { TableFetchNew(s.pcs - early, s.locks, s.newLock, t, key); }
      HolderOutside(s.pcs, s.holder, t, pc);
      AgentsMove(s.pcs, s.cache, s.born, s.newAgent, t, pc);
      FetchMinds(s, t, key);
      AllStillAlone(s, DoFetch(s, t, key), t, early);
    }
  }

  /** A move that takes no agent. */
  lemma MoveMinds(s: State, s': State, t: Tid, pc: Pc)
    requires s'.pcs == s.pcs[t := pc] && s'.cache == s.cache && s'.newAgent == s.newAgent
    requires !(pc.In? && pc.stage.HasAgent())
    requires s.newLock <= s'.newLock && forall l: LockId :: l in s'.locks.Values ==>
               l in s.locks.Values || l >= s.newLock
    ensures Minds(s, s', t)
  {
    assert forall v :: v != t ==> PcOf(s', v) == PcOf(s, v);
    assert PcOf(s', t) == pc;
  }

  lemma NewLockIsNew(locks: map<Key, LockId>, key: Key, l: LockId)
    ensures forall m: LockId :: m in locks[key := l].Values ==> m in locks.Values || m == l
  {
    var more := locks[key := l];
    forall m: LockId | m in more.Values
      ensures m in locks.Values || m == l
    {
      var k :| k in more && more[k] == m;
      if k != key { assert locks[k] == m; }
    }
  }

  lemma FetchMinds(s: State, t: Tid, key: Key)
    requires PcOf(s, t).Idle?
    ensures Minds(s, DoFetch(s, t, key), t)
  {
    hide Minds;
    var s' := DoFetch(s, t, key);
    var pc := In(Fetched, key, if key in s.locks then s.locks[key] else s.newLock);
    if key !in s.locks { NewLockIsNew(s.locks, key, s.newLock); }
    assert s'.pcs == s.pcs[t := pc];
    MoveMinds(s, s', t, pc);
  }

  lemma FetchedIsLate(s: State, t: Tid, early: set<Tid>)
    requires AllAlone(s, early) && PcOf(s, t).In? && PcOf(s, t).stage.Fetched?
    ensures t !in early
  {
  }

  lemma AcquireBut(s: State, t: Tid, early: set<Tid>)
    requires ProtocolBut(s, early)
    ensures ProtocolBut(DoAcquire(s, t), early)
  {
    hide ProtocolBut;
    var pc := PcOf(s, t);
    if pc.In? && pc.stage.Fetched? {
      if pc.lock in s.holder { AcquireMoves(s, t, pc, Done(Busy), s.holder, early); }
      else { AcquireMoves(s, t, pc, In(Acquired, pc.key, pc.lock), s.holder[pc.lock := t], early); }
    }
  }

  lemma AcquireMoves(s: State, t: Tid, pc: Pc, pc': Pc, holder: map<LockId, Tid>, early: set<Tid>)
    requires ProtocolBut(s, early) && t in s.pcs && pc == s.pcs[t] && pc.In? && pc.stage.Fetched?
    requires if pc.lock in s.holder then pc' == Done(Busy) && holder == s.holder
             else pc' == In(Acquired, pc.key, pc.lock) && holder == s.holder[pc.lock := t]
    ensures ProtocolBut(Moved(s, t, pc').(holder := holder), early)
  {
    hide TableInv, HolderInv, AgentsInv, AllAlone, Minds;
    var s' := Moved(s, t, pc').(holder := holder);
    FetchedIsLate(s, t, early);
    TakeOut(s.pcs, t, pc', early);
    TableMove(s.pcs - early, s.locks, s.newLock, t, pc');
    AgentsMove(s.pcs, s.cache, s.born, s.newAgent, t, pc');
    if pc.lock in s.holder { HolderOutside(s.pcs, s.holder, t, pc'); } else { HolderTake(s.pcs, s.holder, t, pc'); }
    MoveMinds(s, s', t, pc');
    AllStillAlone(s, s', t, early);
  }

  lemma ReleaseBut(s: State, t: Tid, early: set<Tid>)
    requires ProtocolBut(s, early)
    ensures ProtocolBut(DoRelease(s, t), early)
  {
    hide TableInv, HolderInv, AgentsInv, AllAlone, Minds, Alone;
    var s' := DoRelease(s, t);
    if s' != s {
      var pc := s'.pcs[t];
      TakeOut(s.pcs, t, pc, early);
      if t !in early { TableMove(s.pcs - early, s.locks, s.newLock, t, pc); }
      HolderDrop(s.pcs, s.holder, t, pc);
      AgentsMove(s.pcs, s.cache, s.born, s.newAgent, t, pc);
      MoveMinds(s, s', t, pc);
      OutIsAlone(s', t);
      AllStillAlone(s, s', t, early);
    }
  }

  lemma OutIsAlone(s: State, t: Tid)
    requires !PcOf(s, t).In?
    ensures Alone(s, t)
  {
  }

  lemma InsideBut(s: State, step: Step, early: set<Tid>)
    requires ProtocolBut(s, early) && TakenInside(step)
    ensures ProtocolBut(DoInside(s, step), early)
  {
    hide TableInv, HolderInv, AgentsInv, AllAlone, Minds, NextStage, NextCache, NextCounters, NextRows;
    var t, pc := step.t, PcOf(s, step.t);
    if pc.Inside() {
      var s' := DoInside(s, step);
      var pc' := In(NextStage(s, pc, step), pc.key, pc.lock);
      TakeOut(s.pcs, t, pc', early);
      if t !in early { TableMove(s.pcs - early, s.locks, s.newLock, t, pc'); }
      HolderMove(s.pcs, s.holder, t, pc');
      StageAgents(s, step, pc, pc');
      InsideMinds(s, step);
      if t in early { AloneInside(s, step, early); }
      AllStillAlone(s, s', t, early);
    }
  }

  lemma InsideMinds(s: State, step: Step)
    requires TakenInside(step)
    ensures Minds(s, DoInside(s, step), step.t)
  {
    var pc, s' := PcOf(s, step.t), DoInside(s, step);
    if pc.Inside() {
      var pc' := In(NextStage(s, pc, step), pc.key, pc.lock);
      assert s'.pcs == s.pcs[step.t := pc'];
      hide Minds, DoInside, NextCounters, NextRows, Collides, StoreOf, Rows;
      InsideAgents(s, pc, step);
      AgentMinds(s, s', step.t, pc');
    }
  }

  /** Where a request inside gets its agent, and what it puts in the cache. */
  lemma InsideAgents(s: State, pc: Pc, step: Step)
    requires pc.Inside()
    ensures forall a: AgentId :: a in NextCache(s, pc, step).Values ==> a in s.cache.Values || Has(pc, a)
    ensures var pc' := In(NextStage(s, pc, step), pc.key, pc.lock);
            forall a: AgentId :: Has(pc', a) ==> Has(pc, a) || a in s.cache.Values || a >= s.newAgent
  {
    hide Collides, StoreOf, Rows;
  }

  lemma AgentMinds(s: State, s': State, t: Tid, pc: Pc)
    requires s'.pcs == s.pcs[t := pc] && s'.locks == s.locks && s'.newLock == s.newLock && s.newAgent <= s'.newAgent
    requires forall a: AgentId :: a in s'.cache.Values ==> a in s.cache.Values || Has(PcOf(s, t), a)
    requires forall a: AgentId :: Has(pc, a) ==> Has(PcOf(s, t), a) || a in s.cache.Values || a >= s.newAgent
    ensures Minds(s, s', t)
  {
    hide Has;
    assert forall v :: v != t ==> PcOf(s', v) == PcOf(s, v);
    assert PcOf(s', t) == pc;
  }

  lemma AloneInside(s: State, step: Step, early: set<Tid>)
    requires TakenInside(step) && AllAlone(s, early) && step.t in early && PcOf(s, step.t).Inside()
    ensures Alone(DoInside(s, step), step.t)
  {
    hide StoreOf, Rows, Collides, NextCounters, NextRows;
    var pc, s' := PcOf(s, step.t), DoInside(s, step);
    assert Alone(s, step.t);
    assert forall u :: u != step.t ==> PcOf(s', u) == PcOf(s, u);
  }

  lemma ButStep(s: State, step: Step, early: set<Tid>)
    requires ProtocolBut(s, early) && !step.WipeLocks?
    ensures ProtocolBut(Do(s, step), early)
  {
    hide DoFetch, DoAcquire, DoRelease, DoInside, HolderInv, AgentsInv, TableInv, AllAlone;
    match step
    case Fetch(t, key) => FetchBut(s, t, key, early);
    case Acquire(t) => AcquireBut(s, t, early);
    case Release(t) => ReleaseBut(s, t, early);
    case Evict(key) => ForgottenBut(s, {key}, early);
    case DeleteRows(store) => SameAlone(s, Do(s, step), early);
    case WipeAgents =>
      ForgottenBut(s, s.cache.Keys, early);
      assert s.cache - s.cache.Keys == map[];
    case _ => InsideBut(s, step, early);
  }

  lemma SameAlone(s: State, s': State, early: set<Tid>)
    requires AllAlone(s, early) && s'.pcs == s.pcs && s'.locks == s.locks && s'.newLock == s.newLock
    requires s'.newAgent == s.newAgent && s'.cache.Values <= s.cache.Values
    ensures AllAlone(s', early)
  {
    forall t | t in early
      ensures Alone(s', t)
    {
      assert Alone(s, t);
      assert forall u :: PcOf(s', u) == PcOf(s, u);
    }
  }

  lemma ForgottenBut(s: State, gone: set<Key>, early: set<Tid>)
    requires ProtocolBut(s, early)
    ensures ProtocolBut(s.(cache := s.cache - gone), early)
  {
    hide AgentsInv, HolderInv, TableInv, AllAlone;
    AgentsForgotten(s.pcs, s.cache, s.born, s.newAgent, gone);
    SameAlone(s, s.(cache := s.cache - gone), early);
  }

  lemma OneCallBut(s: State, early: set<Tid>)
    requires ProtocolBut(s, early)
    ensures !TwoCalls(s)
  {
    forall t, u | InCall(s, t) && InCall(s, u) && PcOf(s, t).stage.agent == PcOf(s, u).stage.agent
      ensures t == u
    {
      var a, pt, pu := PcOf(s, t).stage.agent, PcOf(s, t), PcOf(s, u);
      assert Works(s.pcs, t, pt.key, a) && Works(s.pcs, u, pu.key, a);
      assert t in early ==> Alone(s, t);
      assert u in early ==> Alone(s, u);
      if t !in early && u !in early {
        assert t in s.pcs - early && u in s.pcs - early;
        assert Holds(s.pcs, t, pt.lock) && Holds(s.pcs, u, pt.lock);
      }
    }
  }

  lemma {:induction false} StaysApart(before: seq<Step>, more: seq<Step>, early: set<Tid>)
    requires ProtocolBut(After(before), early) && NoWipes(more)
    ensures ProtocolBut(After(before + more), early)
  {
    hide ProtocolBut, Do;
    if more == [] {
      assert before + more == before;
    } else {
      var n := |more| - 1;
      StaysApart(before, more[..n], early);
      Then(before + more[..n], more[n]);
      assert before + more[..n] + [more[n]] == before + more;
      ButStep(After(before + more[..n]), more[n], early);
    }
  }

  // ---------------------------------------------------------------- with one astray

  /** What takes whatever is astray to its call, once it has the lock. */
  function Onward(t: Tid): seq<Step> { [Lookup(t, true), Build(t), Store(t), Call(t)] }

  function Joining(u: Tid, key: Key): seq<Step> { [Fetch(u, key), Acquire(u), Lookup(u, false), Call(u)] }

  /** Steps inside change only these. */
  ghost predicate OnlyInside(s: State, s': State, t: Tid) {
    && s'.locks == s.locks && s'.newLock == s.newLock && s'.holder == s.holder && s'.pcs.Keys == s.pcs.Keys + {t}
  }

  predicate CallsCached(s: State, t: Tid, key: Key) {
    && PcOf(s, t).In? && PcOf(s, t).key == key && PcOf(s, t).stage.Calling?
    && key in s.cache && s.cache[key] == PcOf(s, t).stage.agent
  }

  /** One step inside, by its stage and the cache alone. */
  lemma OneInside(s: State, step: Step)
    requires TakenInside(step) && PcOf(s, step.t).Inside()
    ensures var pc, s' := PcOf(s, step.t), Do(s, step);
            && OnlyInside(s, s', step.t) && PcOf(s', step.t) == In(NextStage(s, pc, step), pc.key, pc.lock)
            && s'.cache == NextCache(s, pc, step)
  {
    hide StoreOf, Rows, Collides, NextCounters, NextRows, NextStage, NextCache;
    assert Do(s, step) == DoInside(s, step);
  }

  lemma GoesOnward(s: State, t: Tid)
    requires Stray(s, t) && !PcOf(s, t).stage.Fetched?
    ensures var s' := Do(Do(Do(Do(s, Lookup(t, true)), Build(t)), Store(t)), Call(t));
            CallsCached(s', t, PcOf(s, t).key) && OnlyInside(s, s', t)
  {
    hide Do, StoreOf, Rows, Collides;
    var s1 := Do(s, Lookup(t, true));
    OneInside(s, Lookup(t, true));
    var s2 := Do(s1, Build(t));
    OneInside(s1, Build(t));
    var s3 := Do(s2, Store(t));
    OneInside(s2, Store(t));
    OneInside(s3, Call(t));
  }

  lemma Joins(s: State, t: Tid, u: Tid, key: Key)
    requires CallsCached(s, t, key) && Room(s, u, key)
    ensures TwoCalls(Do(Do(Do(Do(s, Fetch(u, key)), Acquire(u)), Lookup(u, false)), Call(u)))
  {
    var a, s2 := s.cache[key], Do(Do(s, Fetch(u, key)), Acquire(u));
    GetsLock(s, t, u, key);
    hide Do, StoreOf, Rows, Collides, Room;
    OneInside(s2, Lookup(u, false));
    var s3 := Do(s2, Lookup(u, false));
    assert PcOf(s3, u).stage == Ready(a);
    OneInside(s3, Call(u));
    OthersKept(s2, Lookup(u, false), t);
    OthersKept(s3, Call(u), t);
  }

  lemma GetsLock(s: State, t: Tid, u: Tid, key: Key)
    requires Room(s, u, key) && PcOf(s, t).In?
    ensures var s2 := Do(Do(s, Fetch(u, key)), Acquire(u));
            PcOf(s2, u) == In(Acquired, key, s.newLock) && PcOf(s2, t) == PcOf(s, t) && s2.cache == s.cache && t != u
  {
    var s1 := Do(s, Fetch(u, key));
    assert PcOf(s1, u) == In(Fetched, key, s.newLock) && PcOf(s1, t) == PcOf(s, t) && s1.cache == s.cache;
  }

  lemma OthersKept(s: State, step: Step, t: Tid)
    requires TakenInside(step) && PcOf(s, step.t).Inside() && t != step.t
    ensures PcOf(Do(s, step), t) == PcOf(s, t)
  {
    hide StoreOf, Rows, Collides, NextCounters, NextRows, NextStage, NextCache;
    assert Do(s, step) == DoInside(s, step);
  }

  lemma {:induction false} RunsFour(before: seq<Step>, a: Step, b: Step, c: Step, d: Step)
    ensures After(before + [a, b, c, d]) == Do(Do(Do(Do(After(before), a), b), c), d)
  {
    hide After, Do;
    Runs(before, a, b, c);
    Then(before + [a, b, c], d);
    assert before + [a, b, c] + [d] == before + [a, b, c, d];
  }

  /** With the lock of its own, somebody astray can be joined in its call. */
  lemma {:induction false} JoinedInside(before: seq<Step>, t: Tid, u: Tid)
    requires Stray(After(before), t) && !PcOf(After(before), t).stage.Fetched?
    requires Room(After(before), u, PcOf(After(before), t).key) && u != t
    ensures TwoCalls(After(before + (Onward(t) + Joining(u, PcOf(After(before), t).key))))
  {
    var key, there := PcOf(After(before), t).key, before + Onward(t);
    assert there + Joining(u, key) == before + (Onward(t) + Joining(u, key));
    hide After, Do, Stray, TwoCalls, Room, OnlyInside;
    RunsFour(before, Lookup(t, true), Build(t), Store(t), Call(t));
    GoesOnward(After(before), t);
    StillRoom(After(before), After(there), t, u, key);
    RunsFour(there, Fetch(u, key), Acquire(u), Lookup(u, false), Call(u));
    Joins(After(there), t, u, key);
  }

  /** For request `u` to come for the seat and find its lock free. */
  predicate Room(s: State, u: Tid, key: Key) { u !in s.pcs && key !in s.locks && s.newLock !in s.holder }

  lemma StillRoom(s: State, s': State, t: Tid, u: Tid, key: Key)
    requires Room(s, u, key) && u != t && OnlyInside(s, s', t)
    ensures Room(s', u, key)
  {
    assert u !in s'.pcs.Keys;
  }

  /** Whoever holds the lock and is past taking an agent lets it go. */
  lemma LetsGo(s: State, v: Tid)
    requires var pc := PcOf(s, v); pc.In? && (pc.stage.Ready? || pc.stage.Calling? || pc.stage.Leaving?)
    ensures var s' := Do(Do(Do(s, Call(v)), Return(v, true)), Release(v));
            && s'.locks == s.locks && s'.newLock == s.newLock && s'.pcs.Keys == s.pcs.Keys
            && s'.holder == s.holder - {PcOf(s, v).lock} && forall t :: t != v ==> PcOf(s', t) == PcOf(s, t)
  {
    hide StoreOf, Rows, Collides, NextCounters, NextRows, NextCache;
    var l := PcOf(s, v).lock;
    var s1 := Do(s, Call(v));
    assert PcOf(s1, v).In? && PcOf(s1, v).lock == l && OnlyInside(s, s1, v);
    assert PcOf(s1, v).stage.Calling? || PcOf(s1, v).stage.Leaving?;
    var s2 := Do(s1, Return(v, true));
    assert PcOf(s2, v).In? && PcOf(s2, v).stage.Leaving? && PcOf(s2, v).lock == l && OnlyInside(s, s2, v);
  }

  /** ... and the one waiting takes it. */
  lemma TakesOver(s: State, v: Tid, t: Tid)
    requires PcOf(s, t).In? && PcOf(s, t).stage.Fetched?
    requires var pc := PcOf(s, v); pc.In? && (pc.stage.Ready? || pc.stage.Calling? || pc.stage.Leaving?)
    requires PcOf(s, v).lock == PcOf(s, t).lock
    ensures var s' := Do(Do(Do(Do(s, Call(v)), Return(v, true)), Release(v)), Acquire(t));
            && PcOf(s', t) == In(Acquired, PcOf(s, t).key, PcOf(s, t).lock)
            && s'.locks == s.locks && s'.newLock == s.newLock && s'.pcs.Keys == s.pcs.Keys
            && s'.holder.Keys <= s.holder.Keys + {PcOf(s, t).lock}
  {
    LetsGo(s, v);
    hide DoInside, DoRelease, DoFetch;
    var s3 := Do(Do(Do(s, Call(v)), Return(v, true)), Release(v));
    assert PcOf(s3, t) == PcOf(s, t);
    var s4 := Do(s3, Acquire(t));
    assert s4.holder == s3.holder[PcOf(s, t).lock := t];
  }

  lemma Wiped(s: State, early: set<Tid>)
    requires ProtocolBut(s, early)
    ensures var s' := Do(s, WipeLocks);
            && s' == s.(locks := map[])
            && (forall t :: PcOf(s, t).In? ==> PcOf(s, t).lock < s.newLock)
              && (forall l :: l in s.holder ==> l < s.newLock)
  {
    forall t | PcOf(s, t).In?
      ensures PcOf(s, t).lock < s.newLock
    {
      if t in early { assert Alone(s, t); } else { assert t in s.pcs - early; }
    }
    forall l | l in s.holder
      ensures l < s.newLock
    {
      var u := s.holder[l];
      assert Holds(s.pcs, u, l);
      assert PcOf(s, u).In? && PcOf(s, u).lock == l;
    }
  }

  /** Before the wipe `s`, and what is left of it after: astray with a lock, it can be joined. */
  lemma UnsafeInside(steps: seq<Step>, early: set<Tid>, t: Tid) returns (more: seq<Step>)
    requires ProtocolBut(After(steps), early) && Stray(After(steps), t) && !PcOf(After(steps), t).stage.Fetched?
    ensures NoWipes(more) && TwoCalls(After(steps + [WipeLocks] + more))
  {
    var s, wiped := After(steps), steps + [WipeLocks];
    Then(steps, WipeLocks);
    Wiped(s, early);
    assert Stray(After(wiped), t);
    var u := Nobody(s.pcs);
    hide After, TwoCalls, ProtocolBut, Stray;
    more := Onward(t) + Joining(u, PcOf(s, t).key);
    assert Room(After(wiped), u, PcOf(s, t).key);
    JoinedInside(wiped, t, u);
  }

  /** Waiting for a lock that is free, or that its holder will let go. */
  lemma UnsafeWaiting(steps: seq<Step>, early: set<Tid>, t: Tid, first: seq<Step>) returns (more: seq<Step>)
    requires ProtocolBut(After(steps), early) && PcOf(After(steps), t).In? && NoWipes(first)
    requires TakenOver(After(steps), After(steps + [WipeLocks] + first), t)
    ensures NoWipes(more) && TwoCalls(After(steps + [WipeLocks] + more))
  {
    var s, on, key := After(steps), steps + [WipeLocks] + first, PcOf(After(steps), t).key;
    hide *;
    Wiped(s, early);
    var u := Nobody(s.pcs);
    StrayAndRoom(s, After(on), t, u);
    var rest := Onward(t) + Joining(u, key);
    JoinedInside(on, t, u);
    more := first + rest;
    assert on + rest == steps + [WipeLocks] + more;
    NoneWipe(first, t, u, key);
  }

  lemma NoneWipe(first: seq<Step>, t: Tid, u: Tid, key: Key)
    requires NoWipes(first)
    ensures NoWipes(first + (Onward(t) + Joining(u, key)))
  {
  }

  /** With the table wiped, the lock that was waited for is taken. */
  ghost predicate TakenOver(s: State, s': State, t: Tid)
    requires PcOf(s, t).In?
  {
    && PcOf(s', t) == In(Acquired, PcOf(s, t).key, PcOf(s, t).lock)
    && s'.locks == map[] && s'.newLock == s.newLock && s'.pcs.Keys == s.pcs.Keys
    && s'.holder.Keys <= s.holder.Keys + {PcOf(s, t).lock}
  }

  lemma StrayAndRoom(s: State, s': State, t: Tid, u: Tid)
    requires PcOf(s, t).In? && TakenOver(s, s', t) && u !in s.pcs
    requires PcOf(s, t).lock < s.newLock && forall l :: l in s.holder ==> l < s.newLock
    ensures PcOf(s', t).In? && PcOf(s', t).key == PcOf(s, t).key && !PcOf(s', t).stage.Fetched?
    ensures Stray(s', t) && Room(s', u, PcOf(s, t).key) && u != t
  {
    assert u !in s'.pcs.Keys && t in s.pcs.Keys && s.newLock !in s'.holder.Keys;
  }

  lemma {:induction false} AfterWipe(steps: seq<Step>)
    ensures After(steps + [WipeLocks]) == After(steps).(locks := map[])
  {
    hide After;
    Then(steps, WipeLocks);
  }

  lemma UnsafeFree(steps: seq<Step>, early: set<Tid>, t: Tid) returns (more: seq<Step>)
    requires ProtocolBut(After(steps), early) && PcOf(After(steps), t).In? && PcOf(After(steps), t).stage.Fetched?
    requires PcOf(After(steps), t).lock !in After(steps).holder
    ensures NoWipes(more) && TwoCalls(After(steps + [WipeLocks] + more))
  {
    hide After, TwoCalls, ProtocolBut;
    AfterWipe(steps);
    Then(steps + [WipeLocks], Acquire(t));
    more := UnsafeWaiting(steps, early, t, [Acquire(t)]);
  }

  lemma UnsafeHeld(steps: seq<Step>, early: set<Tid>, t: Tid, v: Tid) returns (more: seq<Step>)
    requires ProtocolBut(After(steps), early) && PcOf(After(steps), t).In? && PcOf(After(steps), t).stage.Fetched?
    requires PcOf(After(steps), v).Inside() && !Stray(After(steps), v)
    requires PcOf(After(steps), v).lock == PcOf(After(steps), t).lock
    ensures NoWipes(more) && TwoCalls(After(steps + [WipeLocks] + more))
  {
    hide After, TwoCalls, ProtocolBut, Do;
    AfterWipe(steps);
    TakesOver(After(steps + [WipeLocks]), v, t);
    RunsFour(steps + [WipeLocks], Call(v), Return(v, true), Release(v), Acquire(t));
    more := UnsafeWaiting(steps, early, t, [Call(v), Return(v, true), Release(v), Acquire(t)]);
  }

  lemma Unsafe(steps: seq<Step>, early: set<Tid>, t: Tid) returns (more: seq<Step>)
    requires ProtocolBut(After(steps), early) && Stray(After(steps), t)
    ensures NoWipes(more) && TwoCalls(After(steps + [WipeLocks] + more))
  {
    var s, pc := After(steps), PcOf(After(steps), t);
    hide After, TwoCalls, NoWipes, TableInv, AgentsInv;
    if !pc.stage.Fetched? {
      more := UnsafeInside(steps, early, t);
    } else if pc.lock !in s.holder {
      more := UnsafeFree(steps, early, t);
    } else {
      var v := s.holder[pc.lock];
      assert Holds(s.pcs, v, pc.lock);
      if Stray(s, v) { more := UnsafeInside(steps, early, v); } else { more := UnsafeHeld(steps, early, t, v); }
    }
  }

  // ---------------------------------------------------------------- exactly

  lemma {:induction false} ReachedSafely(steps: seq<Step>) returns (early: set<Tid>)
    requires WipesAreSafe(steps)
    ensures ProtocolBut(After(steps), early)
  {
    early := {};
    if steps != [] {
      var n := |steps| - 1;
      var before := steps[..n];
      forall m | 0 <= m < n && before[m].WipeLocks?
        ensures NoneAstray(After(before[..m]))
      {
        assert steps[m].WipeLocks? && before[..m] == steps[..m];
      }
      early := ReachedSafely(before);
      hide ProtocolBut, NoneAstray, Do;
      if steps[n].WipeLocks? {
        WipeBut(After(before), early);
        early := early + AllIn(After(before));
      } else {
        ButStep(After(before), steps[n], early);
      }
    }
  }

  /** No agent has two calls in flight if the locks are only wiped with none astray. */
  lemma {:induction false} NoTwoCallsSafely(steps: seq<Step>)
    requires WipesAreSafe(steps)
    ensures !TwoCalls(After(steps))
  {
    hide ProtocolBut, TwoCalls, After, WipesAreSafe;
    var early := ReachedSafely(steps);
    OneCallBut(After(steps), early);
  }

  /** After any history of such wipes one more is safe, whatever follows, exactly when no request past
      `lock_for` has yet to take its agent or has the one cached for its seat. */
  lemma {:induction false} WipeIsSafeExactly(steps: seq<Step>)
    requires WipesAreSafe(steps)
    ensures (forall more :: NoWipes(more) ==> !TwoCalls(After(steps + [WipeLocks] + more))) <==>
              NoneAstray(After(steps))
  {
    hide After, TwoCalls, Stray, WipesAreSafe, ProtocolBut, NoWipes, Do;
    var early := ReachedSafely(steps);
    if t :| Stray(After(steps), t) {
      var more := Unsafe(steps, early, t);
    } else {
      WipeBut(After(steps), early);
      Then(steps, WipeLocks);
      forall more | NoWipes(more)
        ensures !TwoCalls(After(steps + [WipeLocks] + more))
      {
        StaysApart(steps + [WipeLocks], more, early + AllIn(After(steps)));
        OneCallBut(After(steps + [WipeLocks] + more), early + AllIn(After(steps)));
      }
    }
  }

  /** A request past `lock_for` that has yet to take an agent or put the one it made in the cache. */
  predicate OnTheWay(s: State, t: Tid) {
    var pc := PcOf(s, t);
    pc.In? && (pc.stage.Fetched? || pc.stage.Acquired? || pc.stage.Building? || pc.stage.Built?)
  }

  /** Restarting the world, which drops every agent and then every lock, is safe exactly when no request
      is on the way to its agent; those already talking to one do not matter. */
  lemma {:induction false} RestartIsSafeExactly(steps: seq<Step>)
    requires WipesAreSafe(steps)
    ensures (forall more :: NoWipes(more) ==> !TwoCalls(After(steps + [WipeAgents, WipeLocks] + more)))
            <==> forall t :: !OnTheWay(After(steps), t)
  {
    hide After, TwoCalls, NoWipes, NoneAstray;
    var dropped := steps + [WipeAgents];
    forall n | 0 <= n < |dropped| && dropped[n].WipeLocks?
      ensures NoneAstray(After(dropped[..n]))
    {
      assert n < |steps| && dropped[..n] == steps[..n];
    }
    Then(steps, WipeAgents);
    assert dropped + [WipeLocks] == steps + [WipeAgents, WipeLocks];
    hide WipesAreSafe;
    WipeIsSafeExactly(dropped);
    AstrayWithNoCache(After(steps));
  }

  lemma AstrayWithNoCache(s: State)
    ensures NoneAstray(Do(s, WipeAgents)) <==> forall t :: !OnTheWay(s, t)
  {
    forall t
      ensures Stray(Do(s, WipeAgents), t) <==> OnTheWay(s, t)
    {
    }
  }

  /** With nobody in there is none astray; the converse fails for whoever is on the way out. */
  lemma QuietIsSafe(steps: seq<Step>)
    requires WipesAreQuiet(steps)
    ensures WipesAreSafe(steps)
  {
    hide After;
    forall n | 0 <= n < |steps| && steps[n].WipeLocks?
      ensures NoneAstray(After(steps[..n]))
    {
      assert NobodyIn(After(steps[..n]));
    }
  }
}
