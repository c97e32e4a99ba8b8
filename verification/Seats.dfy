/**
 * Concurrent /atc requests as threads taking atomic steps: a lock table made on demand, an agent
 * cache keyed alike, rebuilds, failures, evictions, and the rows each conversation is stored in.
 */
module Seats {
  import opened Ids
  import opened StoreId

  datatype Key = Key(session: string, station: string, role: string, also: seq<string>, mission: string)

  type Tid = nat
  type LockId = nat
  type AgentId = nat

  datatype Answer = Busy | Failed | Said

  /** How far one request has got with its lock.  `Built` has an agent not in the cache yet. */
  datatype Stage =
    | Fetched
    | Acquired
    | Building
    | Built(agent: AgentId)
    | Ready(agent: AgentId)
    | Calling(agent: AgentId)
    | Leaving(answer: Answer)
  {
    predicate HasAgent() { Built? || Ready? || Calling? }
  }

  /** `In` is a request past `lock_for` and not yet out. */
  datatype Pc = Idle | In(stage: Stage, key: Key, lock: LockId) | Done(answer: Answer)
  {
    /** Between acquire and release. */
    predicate Inside() { In? && !stage.Fetched? }
  }

  /** `next` is each agent's own count of messages; `rows` the message ids stored for each store. */
  datatype State = State(
    pcs: map<Tid, Pc>,
    locks: map<Key, LockId>,
    holder: map<LockId, Tid>,
    cache: map<Key, AgentId>,
    born: map<AgentId, Key>,
    next: map<AgentId, nat>,
    rows: RowMap,
    newLock: LockId,
    newAgent: AgentId,
    violated: bool)

  datatype Step =
    | Fetch(t: Tid, key: Key)
    | Acquire(t: Tid)
    | Lookup(t: Tid, stale: bool)
    | Build(t: Tid)
    | BuildFails(t: Tid)
    | Store(t: Tid)
    | Call(t: Tid)
    | Insert(t: Tid)
    | Return(t: Tid, ok: bool)
    | Release(t: Tid)
    | Evict(key: Key)
    | DeleteRows(store: string)
    | WipeAgents
    | WipeLocks

  function StoreOf(key: Key): string { StoreId.StoreId(key.session, key.role, key.station) }

  function PcOf(s: State, t: Tid): Pc { if t in s.pcs then s.pcs[t] else Idle }

  function Rows(s: State, store: string): set<nat> { RowsIn(s.rows, store) }

  function Moved(s: State, t: Tid, pc: Pc): State { s.(pcs := s.pcs[t := pc]) }

  const Init := State(map[], map[], map[], map[], map[], map[], map[], 0, 0, false)

  function DoFetch(s: State, t: Tid, key: Key): State {
    if !PcOf(s, t).Idle? then s
    else if key in s.locks then Moved(s, t, In(Fetched, key, s.locks[key]))
    else Moved(s, t, In(Fetched, key, s.newLock)).(locks := s.locks[key := s.newLock], newLock := s.newLock + 1)
  }

  /** Non-blocking: taken, or answered busy. */
  function DoAcquire(s: State, t: Tid): State {
    match PcOf(s, t)
    case In(Fetched, key, l) =>
      if l in s.holder then Moved(s, t, Done(Busy))
      else Moved(s, t, In(Acquired, key, l)).(holder := s.holder[l := t])
    case _ => s
  }

  function DoRelease(s: State, t: Tid): State {
    match PcOf(s, t)
    case In(Leaving(answer), key, l) => Moved(s, t, Done(answer)).(holder := s.holder - {l})
    case _ => s
  }

  /** Where a request inside goes next, when the step is the one it is ready for. */
  function NextStage(s: State, pc: Pc, step: Step): (r: Stage)
    requires pc.Inside()
    ensures !r.Fetched?
  {
    match (step, pc.stage)
    case (Lookup(t, stale), Acquired) =>
      if pc.key in s.cache && !stale then Ready(s.cache[pc.key]) else Building
    case (Build(t), Building) => Built(s.newAgent)
    case (BuildFails(t), Building) => Leaving(Failed)
    case (Store(t), Built(a)) => Ready(a)
    case (Call(t), Ready(a)) => Calling(a)
    case (Insert(t), Calling(a)) => if Collides(s, pc.key, a) then Leaving(Failed) else Calling(a)
    case (Return(t, ok), Calling(a)) => Leaving(if ok then Said else Failed)
    case (_, stage) => stage
  }

  /** The unique constraint: the id this agent computed is already stored. */
  predicate Collides(s: State, key: Key, a: AgentId) {
    a in s.next && s.next[a] in Rows(s, StoreOf(key))
  }

  predicate TakenInside(step: Step) {
    step.Lookup? || step.Build? || step.BuildFails? || step.Store? || step.Call? || step.Insert? || step.Return?
  }

  function NextCache(s: State, pc: Pc, step: Step): map<Key, AgentId>
    requires pc.Inside()
  {
    if step.Store? && pc.stage.Built? then s.cache[pc.key := pc.stage.agent] else s.cache
  }

  predicate Builds(pc: Pc, step: Step)
    requires pc.Inside()
  {
    step.Build? && pc.stage.Building?
  }

  /** Inserting a row: refused by the constraint, or stored under the id the agent computed. */
  predicate Inserts(s: State, pc: Pc, step: Step)
    requires pc.Inside()
  {
    step.Insert? && pc.stage.Calling? && pc.stage.agent in s.next && !Collides(s, pc.key, pc.stage.agent)
  }

  function NextCounters(s: State, pc: Pc, step: Step): map<AgentId, nat>
    requires pc.Inside()
  {
    if Builds(pc, step) then s.next[s.newAgent := |Rows(s, StoreOf(pc.key))|]
    else if Inserts(s, pc, step) then s.next[pc.stage.agent := s.next[pc.stage.agent] + 1]
    else s.next
  }

  function NextRows(s: State, pc: Pc, step: Step): RowMap
    requires pc.Inside()
  {
    if Inserts(s, pc, step) then
      s.rows[StoreOf(pc.key) := Rows(s, StoreOf(pc.key)) + {s.next[pc.stage.agent]}]
    else s.rows
  }

  function DoInside(s: State, step: Step): State
    requires TakenInside(step)
  {
    var pc := PcOf(s, step.t);
    if !pc.Inside() then s
    else
      s.(pcs := s.pcs[step.t := In(NextStage(s, pc, step), pc.key, pc.lock)],
         cache := NextCache(s, pc, step),
         born := if Builds(pc, step) then s.born[s.newAgent := pc.key] else s.born,
         newAgent := if Builds(pc, step) then s.newAgent + 1 else s.newAgent,
         next := NextCounters(s, pc, step),
         rows := NextRows(s, pc, step),
         violated := s.violated || (step.Insert? && pc.stage.Calling? && Collides(s, pc.key, pc.stage.agent)))
  }

  /** One atomic step; a step that is not enabled changes nothing. */
  function Do(s: State, step: Step): State {
    match step
    case Fetch(t, key) => DoFetch(s, t, key)
    case Acquire(t) => DoAcquire(s, t)
    case Release(t) => DoRelease(s, t)
    case Evict(key) => s.(cache := s.cache - {key})
    case DeleteRows(store) => s.(rows := s.rows - {store})
    case WipeAgents => s.(cache := map[])
    case WipeLocks => s.(locks := map[])
    case _ => DoInside(s, step)
  }

  function After(steps: seq<Step>): State {
    if steps == [] then Init else Do(After(steps[..|steps| - 1]), steps[|steps| - 1])
  }

  /** What a request inside is answered: said, by a call that returned; failed, by one that did not, or whose
      row was refused, or for want of an agent.  Nothing else ends it. */
  lemma AnsweredBy(s: State, pc: Pc, step: Step)
    requires pc.Inside() && !pc.stage.Leaving?
    ensures NextStage(s, pc, step) == Leaving(Said) <==> pc.stage.Calling? && step.Return? && step.ok
    ensures NextStage(s, pc, step) == Leaving(Failed) <==>
              || (pc.stage.Calling? && step.Return? && !step.ok)
              || (pc.stage.Calling? && step.Insert? && Collides(s, pc.key, pc.stage.agent))
              || (pc.stage.Building? && step.BuildFails?)
    ensures NextStage(s, pc, step) != Leaving(Busy)
  {
    hide Collides;
  }

  /** What it leaves with is what it is answered. */
  lemma LeavesWithItsAnswer(s: State, t: Tid)
    requires PcOf(s, t).In? && PcOf(s, t).stage.Leaving?
    ensures PcOf(Do(s, Release(t)), t) == Done(PcOf(s, t).stage.answer)
  {
  }

  // ---------------------------------------------------------------- premises

  predicate NobodyIn(s: State) { forall t :: t in s.pcs ==> !s.pcs[t].In? }

  /** The locks are only wiped when no request is past `lock_for`. */
  ghost predicate WipesAreQuiet(steps: seq<Step>) {
    forall n :: 0 <= n < |steps| && steps[n].WipeLocks? ==> NobodyIn(After(steps[..n]))
  }

  // ---------------------------------------------------------------- the lock protocol

  type Pcs = map<Tid, Pc>

  /** Every request past `lock_for` has the lock the table gives its key, and no two keys share one. */
  ghost predicate TableInv(pcs: Pcs, locks: map<Key, LockId>, newLock: LockId) {
    && (forall k :: k in locks ==> locks[k] < newLock)
    && (forall j, k :: j in locks && k in locks && locks[j] == locks[k] ==> j == k)
    && (forall t :: t in pcs && pcs[t].In? ==> pcs[t].key in locks && locks[pcs[t].key] == pcs[t].lock)
  }

  predicate Holds(pcs: Pcs, t: Tid, l: LockId) { t in pcs && pcs[t].Inside() && pcs[t].lock == l }

  /** A lock's holder is the one request inside with it. */
  ghost predicate HolderInv(pcs: Pcs, holder: map<LockId, Tid>) {
    && (forall l :: l in holder ==> Holds(pcs, holder[l], l))
    && (forall t, l :: Holds(pcs, t, l) ==> l in holder && holder[l] == t)
  }

  predicate Works(pcs: Pcs, t: Tid, key: Key, a: AgentId) {
    t in pcs && pcs[t].In? && pcs[t].stage.HasAgent() && pcs[t].key == key && pcs[t].stage.agent == a
  }

  /** Every agent cached for a key, or worked by a request for it, was built for that key. */
  ghost predicate AgentsInv(pcs: Pcs, cache: map<Key, AgentId>, born: map<AgentId, Key>, newAgent: AgentId) {
    && (forall a :: a in born ==> a < newAgent)
    && (forall k :: k in cache ==> cache[k] in born && born[cache[k]] == k)
    && (forall t, k, a :: Works(pcs, t, k, a) ==> a in born && born[a] == k)
  }

  ghost predicate Protocol(s: State) {
    && TableInv(s.pcs, s.locks, s.newLock)
    && HolderInv(s.pcs, s.holder)
    && AgentsInv(s.pcs, s.cache, s.born, s.newAgent)
  }

  // ---------------------------------------------------------------- the steps, table by table

  lemma TableFetchOld(pcs: Pcs, locks: map<Key, LockId>, newLock: LockId, t: Tid, key: Key)
    requires TableInv(pcs, locks, newLock) && key in locks
    ensures TableInv(pcs[t := In(Fetched, key, locks[key])], locks, newLock)
  {
  }

  lemma TableFetchNew(pcs: Pcs, locks: map<Key, LockId>, newLock: LockId, t: Tid, key: Key)
    requires TableInv(pcs, locks, newLock) && key !in locks
    ensures TableInv(pcs[t := In(Fetched, key, newLock)], locks[key := newLock], newLock + 1)
  {
  }

  lemma TableMove(pcs: Pcs, locks: map<Key, LockId>, newLock: LockId, t: Tid, pc: Pc)
    requires TableInv(pcs, locks, newLock)
    requires pc.In? ==> t in pcs && pcs[t].In? && pc.key == pcs[t].key && pc.lock == pcs[t].lock
    ensures TableInv(pcs[t := pc], locks, newLock)
  {
  }

  lemma HolderOutside(pcs: Pcs, holder: map<LockId, Tid>, t: Tid, pc: Pc)
    requires HolderInv(pcs, holder) && (t in pcs ==> !pcs[t].Inside()) && !pc.Inside()
    ensures HolderInv(pcs[t := pc], holder)
  {
    var pcs' := pcs[t := pc];
    assert forall u, l :: Holds(pcs', u, l) <==> Holds(pcs, u, l);
  }

  lemma HolderTake(pcs: Pcs, holder: map<LockId, Tid>, t: Tid, pc: Pc)
    requires HolderInv(pcs, holder) && (t in pcs ==> !pcs[t].Inside())
    requires pc.Inside() && pc.lock !in holder
    ensures HolderInv(pcs[t := pc], holder[pc.lock := t])
  {
    var pcs' := pcs[t := pc];
    assert forall u, l :: Holds(pcs', u, l) <==> if u == t then l == pc.lock else Holds(pcs, u, l);
  }

  lemma HolderDrop(pcs: Pcs, holder: map<LockId, Tid>, t: Tid, pc: Pc)
    requires HolderInv(pcs, holder) && t in pcs && pcs[t].Inside() && !pc.Inside()
    ensures HolderInv(pcs[t := pc], holder - {pcs[t].lock})
  {
    var pcs' := pcs[t := pc];
    assert Holds(pcs, t, pcs[t].lock);
    assert forall u, l :: Holds(pcs', u, l) <==> u != t && Holds(pcs, u, l);
  }

  lemma HolderMove(pcs: Pcs, holder: map<LockId, Tid>, t: Tid, pc: Pc)
    requires HolderInv(pcs, holder) && t in pcs && pcs[t].Inside() && pc.Inside() && pc.lock == pcs[t].lock
    ensures HolderInv(pcs[t := pc], holder)
  {
    var pcs' := pcs[t := pc];
    assert forall u, l :: Holds(pcs', u, l) <==> Holds(pcs, u, l);
  }

  lemma AgentsMove(pcs: Pcs, cache: map<Key, AgentId>, born: map<AgentId, Key>, newAgent: AgentId, t: Tid, pc: Pc)
    requires AgentsInv(pcs, cache, born, newAgent)
    requires pc.In? && pc.stage.HasAgent() ==> pc.stage.agent in born && born[pc.stage.agent] == pc.key
    ensures AgentsInv(pcs[t := pc], cache, born, newAgent)
  {
    var pcs' := pcs[t := pc];
    assert forall u, k, a :: Works(pcs', u, k, a) && u != t ==> Works(pcs, u, k, a);
  }

  lemma AgentsBorn(pcs: Pcs, cache: map<Key, AgentId>, born: map<AgentId, Key>, newAgent: AgentId, key: Key)
    requires AgentsInv(pcs, cache, born, newAgent)
    ensures AgentsInv(pcs, cache, born[newAgent := key], newAgent + 1)
  {
  }

  lemma AgentsCached(
      pcs: Pcs, cache: map<Key, AgentId>, born: map<AgentId, Key>, newAgent: AgentId, key: Key, a: AgentId)
    requires AgentsInv(pcs, cache, born, newAgent) && a in born && born[a] == key
    ensures AgentsInv(pcs, cache[key := a], born, newAgent)
  {
  }

  lemma AgentsForgotten(pcs: Pcs, cache: map<Key, AgentId>, born: map<AgentId, Key>, newAgent: AgentId, gone: set<Key>)
    requires AgentsInv(pcs, cache, born, newAgent)
    ensures AgentsInv(pcs, cache - gone, born, newAgent)
  {
  }

  // ---------------------------------------------------------------- every step

  lemma FetchStep(s: State, t: Tid, key: Key)
    requires Protocol(s)
    ensures Protocol(DoFetch(s, t, key))
  {
    hide TableInv, HolderInv, AgentsInv;
    if PcOf(s, t).Idle? {
      var l := if key in s.locks then s.locks[key] else s.newLock;
      var pc := In(Fetched, key, l);
      if key in s.locks { TableFetchOld(s.pcs, s.locks, s.newLock, t, key); }
      else { TableFetchNew(s.pcs, s.locks, s.newLock, t, key); }
      HolderOutside(s.pcs, s.holder, t, pc);
      AgentsMove(s.pcs, s.cache, s.born, s.newAgent, t, pc);
    }
  }

  lemma AcquireStep(s: State, t: Tid)
    requires Protocol(s)
    ensures Protocol(DoAcquire(s, t))
  {
    hide TableInv, HolderInv, AgentsInv;
    var pc := PcOf(s, t);
    if pc.In? && pc.stage.Fetched? {
      if pc.lock in s.holder { AcquireMove(s, t, pc, Done(Busy), s.holder); }
      else { AcquireMove(s, t, pc, In(Acquired, pc.key, pc.lock), s.holder[pc.lock := t]); }
    }
  }

  lemma AcquireMove(s: State, t: Tid, pc: Pc, pc': Pc, holder: map<LockId, Tid>)
    requires Protocol(s) && t in s.pcs && pc == s.pcs[t] && pc.In? && pc.stage.Fetched?
    requires if pc.lock in s.holder then pc' == Done(Busy) && holder == s.holder
             else pc' == In(Acquired, pc.key, pc.lock) && holder == s.holder[pc.lock := t]
    ensures Protocol(Moved(s, t, pc').(holder := holder))
  {
    hide TableInv, HolderInv, AgentsInv;
    TableMove(s.pcs, s.locks, s.newLock, t, pc');
    AgentsMove(s.pcs, s.cache, s.born, s.newAgent, t, pc');
    if pc.lock in s.holder { HolderOutside(s.pcs, s.holder, t, pc'); } else { HolderTake(s.pcs, s.holder, t, pc'); }
  }

  lemma ReleaseStep(s: State, t: Tid)
    requires Protocol(s)
    ensures Protocol(DoRelease(s, t))
  {
    hide TableInv, HolderInv, AgentsInv;
    var s' := DoRelease(s, t);
    if s' != s {
      var pc := s'.pcs[t];
      TableMove(s.pcs, s.locks, s.newLock, t, pc);
      HolderDrop(s.pcs, s.holder, t, pc);
      AgentsMove(s.pcs, s.cache, s.born, s.newAgent, t, pc);
    }
  }

  lemma InsideStep(s: State, step: Step)
    requires Protocol(s) && TakenInside(step)
    ensures Protocol(DoInside(s, step))
  {
    hide TableInv, HolderInv, AgentsInv, StoreOf, Rows, Collides, NextStage, NextCache, NextCounters, NextRows;
    var t, pc := step.t, PcOf(s, step.t);
    if pc.Inside() {
      var pc' := In(NextStage(s, pc, step), pc.key, pc.lock);
      TableMove(s.pcs, s.locks, s.newLock, t, pc');
      HolderMove(s.pcs, s.holder, t, pc');
      StageAgents(s, step, pc, pc');
    }
  }

  /** What a step inside does to the agents. */
  lemma StageAgents(s: State, step: Step, pc: Pc, pc': Pc)
    requires AgentsInv(s.pcs, s.cache, s.born, s.newAgent)
    requires TakenInside(step) && pc == PcOf(s, step.t) && pc.Inside()
    requires pc' == In(NextStage(s, pc, step), pc.key, pc.lock)
    ensures AgentsInv(s.pcs[step.t := pc'], NextCache(s, pc, step),
                      if Builds(pc, step) then s.born[s.newAgent := pc.key] else s.born,
                      if Builds(pc, step) then s.newAgent + 1 else s.newAgent)
  {
    hide StoreOf, Rows, Collides, AgentsInv;
    AgentsKnown(s, step.t);
    if Builds(pc, step) {
      AgentsBorn(s.pcs, s.cache, s.born, s.newAgent, pc.key);
      AgentsMove(s.pcs, s.cache, s.born[s.newAgent := pc.key], s.newAgent + 1, step.t, pc');
    } else if step.Store? && pc.stage.Built? {
      AgentsCached(s.pcs, s.cache, s.born, s.newAgent, pc.key, pc.stage.agent);
      AgentsMove(s.pcs, s.cache[pc.key := pc.stage.agent], s.born, s.newAgent, step.t, pc');
    } else {
      AgentsMove(s.pcs, s.cache, s.born, s.newAgent, step.t, pc');
    }
  }

  lemma AgentsKnown(s: State, t: Tid)
    requires AgentsInv(s.pcs, s.cache, s.born, s.newAgent)
    ensures var pc := PcOf(s, t);
            && (pc.In? && pc.stage.HasAgent() ==> pc.stage.agent in s.born && s.born[pc.stage.agent] == pc.key)
            && (pc.In? && pc.key in s.cache ==> s.cache[pc.key] in s.born && s.born[s.cache[pc.key]] == pc.key)
  {
    var pc := PcOf(s, t);
    if pc.In? && pc.stage.HasAgent() { assert Works(s.pcs, t, pc.key, pc.stage.agent); }
  }

  lemma ProtocolStep(s: State, step: Step)
    requires Protocol(s) && (step.WipeLocks? ==> NobodyIn(s))
    ensures Protocol(Do(s, step))
  {
    hide DoFetch, DoAcquire, DoRelease, DoInside, HolderInv, AgentsInv;
    match step
    case Fetch(t, key) => FetchStep(s, t, key);
    case Acquire(t) => AcquireStep(s, t);
    case Release(t) => ReleaseStep(s, t);
    case Evict(key) => AgentsForgotten(s.pcs, s.cache, s.born, s.newAgent, {key});
    case DeleteRows(store) =>
    case WipeAgents =>
      AgentsForgotten(s.pcs, s.cache, s.born, s.newAgent, s.cache.Keys);
      assert s.cache - s.cache.Keys == map[];
    case WipeLocks =>
    case _ => InsideStep(s, step);
  }

  lemma {:induction false} Reachable(steps: seq<Step>)
    requires WipesAreQuiet(steps)
    ensures Protocol(After(steps))
  {
    if steps != [] {
      var n := |steps| - 1;
      var before := steps[..n];
      forall m | 0 <= m < n && before[m].WipeLocks?
        ensures NobodyIn(After(before[..m]))
      {
        assert steps[m].WipeLocks? && before[..m] == steps[..m];
      }
      Reachable(before);
      ProtocolStep(After(before), steps[n]);
    }
  }

  predicate InCall(s: State, t: Tid) { PcOf(s, t).In? && PcOf(s, t).stage.Calling? }

  lemma OneCallPerAgent(s: State, t: Tid, u: Tid)
    requires Protocol(s) && InCall(s, t) && InCall(s, u)
    requires PcOf(s, t).stage.agent == PcOf(s, u).stage.agent
    ensures t == u
  {
    var a, pt, pu := PcOf(s, t).stage.agent, PcOf(s, t), PcOf(s, u);
    assert Works(s.pcs, t, pt.key, a) && Works(s.pcs, u, pu.key, a);
    assert Holds(s.pcs, t, pt.lock) && Holds(s.pcs, u, pt.lock);
  }

  /** No agent ever has two calls in flight, in any interleaving of calls, rebuilds, failures and
      evictions. */
  lemma {:induction false} NoAgentTakesTwoCalls(steps: seq<Step>, t: Tid, u: Tid)
    requires WipesAreQuiet(steps)
    requires InCall(After(steps), t) && InCall(After(steps), u)
    requires PcOf(After(steps), t).stage.agent == PcOf(After(steps), u).stage.agent
    ensures t == u
  {
    hide Protocol, After, WipesAreQuiet;
    Reachable(steps);
    OneCallPerAgent(After(steps), t, u);
  }

  ghost predicate HeldByOne(s: State, l: LockId) {
    && (l in s.holder <==> exists t :: Holds(s.pcs, t, l))
    && (forall t, u :: Holds(s.pcs, t, l) && Holds(s.pcs, u, l) ==> t == u)
  }

  /** A lock is held exactly when one request is between acquire and release on it; so a request
      that is out, on success or failure, holds nothing. */
  lemma {:induction false} HeldByExactlyOne(steps: seq<Step>, l: LockId)
    requires WipesAreQuiet(steps)
    ensures HeldByOne(After(steps), l)
  {
    hide After, WipesAreQuiet, TableInv, AgentsInv;
    Reachable(steps);
  }

  lemma BusyExactly(s: State, t: Tid)
    requires Protocol(s) && PcOf(s, t).In? && PcOf(s, t).stage.Fetched?
    ensures PcOf(Do(s, Acquire(t)), t) == Done(Busy) <==> OtherInside(s, t)
  {
    hide AgentsInv;
    var l, key := PcOf(s, t).lock, PcOf(s, t).key;
    if l in s.holder {
      assert Holds(s.pcs, s.holder[l], l);
    }
    if OtherInside(s, t) {
      var u :| u != t && u in s.pcs && s.pcs[u].Inside() && s.pcs[u].key == key;
      assert Holds(s.pcs, u, l);
    }
  }

  ghost predicate OtherInside(s: State, t: Tid) {
    PcOf(s, t).In? && exists u :: u != t && u in s.pcs && s.pcs[u].Inside() && s.pcs[u].key == PcOf(s, t).key
  }

  /** A request is answered busy exactly when another request with the same full key is inside. */
  lemma {:induction false} BusyOnlyForYourOwnSeat(steps: seq<Step>, t: Tid)
    requires WipesAreQuiet(steps) && PcOf(After(steps), t).In? && PcOf(After(steps), t).stage.Fetched?
    ensures PcOf(Do(After(steps), Acquire(t)), t) == Done(Busy) <==> OtherInside(After(steps), t)
  {
    hide Protocol, After, WipesAreQuiet, Do, OtherInside;
    Reachable(steps);
    BusyExactly(After(steps), t);
  }
}
