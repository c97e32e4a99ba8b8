/**
 * The rows of the conversations under the seat locks: every store holds ids 0..n-1 and no insert is
 * refused, as long as live seats have distinct stores and no forget takes rows an agent counts.
 */
module SeatRows {
  import opened Ids
  import opened StoreId
  import opened Seats

  /** A key with a cached agent or a request inside. */
  ghost predicate Live(pcs: Pcs, cache: map<Key, AgentId>, k: Key) {
    k in cache || exists t :: t in pcs && pcs[t].Inside() && pcs[t].key == k
  }

  ghost predicate LiveStoresDistinct(s: State) {
    forall j, k :: Live(s.pcs, s.cache, j) && Live(s.pcs, s.cache, k) && StoreOf(j) == StoreOf(k) ==> j == k
  }

  /** A key some agent counts the rows of: cached, or with a request that has its agent. */
  ghost predicate Counted(pcs: Pcs, cache: map<Key, AgentId>, k: Key) {
    k in cache || exists t, a :: Works(pcs, t, k, a)
  }

  /** Nothing is stored there, or nobody has counted it. */
  ghost predicate Unneeded(s: State, store: string) {
    Rows(s, store) == {} || forall k :: Counted(s.pcs, s.cache, k) ==> StoreOf(k) != store
  }

  /** What the deployment promises at each step: quiet wipes, and rows deleted only where they are not
      needed. */
  ghost predicate Careful(s: State, step: Step) {
    && LiveStoresDistinct(s)
    && (step.WipeLocks? ==> NobodyIn(s))
    && (step.DeleteRows? ==> Unneeded(s, step.store))
  }

  ghost predicate CarefulRun(steps: seq<Step>) {
    forall n :: 0 <= n < |steps| ==> Careful(After(steps[..n]), steps[n])
  }

  // ---------------------------------------------------------------- the invariant

  /** An agent's own count is the number of rows its seat has stored. */
  ghost predicate Counts(next: map<AgentId, nat>, rows: RowMap, k: Key, a: AgentId) {
    a in next && next[a] == |RowsIn(rows, StoreOf(k))|
  }

  ghost predicate CacheCounts(cache: map<Key, AgentId>, next: map<AgentId, nat>, rows: RowMap) {
    forall k :: k in cache ==> Counts(next, rows, k, cache[k])
  }

  ghost predicate WorkCounts(pcs: Pcs, next: map<AgentId, nat>, rows: RowMap) {
    forall t, k, a :: Works(pcs, t, k, a) ==> Counts(next, rows, k, a)
  }

  predicate Serves(pcs: Pcs, t: Tid, k: Key, a: AgentId) { Works(pcs, t, k, a) && !pcs[t].stage.Built? }

  /** The agent a request is serving with is the one its seat has cached, if it has one. */
  ghost predicate ServesCached(pcs: Pcs, cache: map<Key, AgentId>) {
    forall t, k, a :: Serves(pcs, t, k, a) && k in cache ==> cache[k] == a
  }

  ghost predicate IdsInv(s: State) {
    && !s.violated
    && AllContiguous(s.rows)
    && CacheCounts(s.cache, s.next, s.rows)
    && WorkCounts(s.pcs, s.next, s.rows)
    && ServesCached(s.pcs, s.cache)
  }

  // ---------------------------------------------------------------- table by table

  lemma OneInside(s: State, t: Tid, u: Tid)
    requires Protocol(s) && t in s.pcs && u in s.pcs && s.pcs[t].Inside() && s.pcs[u].Inside()
    requires s.pcs[t].key == s.pcs[u].key
    ensures t == u
  {
    hide AgentsInv;
    assert Holds(s.pcs, t, s.pcs[t].lock) && Holds(s.pcs, u, s.pcs[t].lock);
  }

  /** A request that moves without an agent, or keeps or takes one that counts. */
  lemma WorkMoves(pcs: Pcs, next: map<AgentId, nat>, rows: RowMap, t: Tid, pc: Pc)
    requires WorkCounts(pcs, next, rows)
    requires pc.In? && pc.stage.HasAgent() ==> Counts(next, rows, pc.key, pc.stage.agent)
    ensures WorkCounts(pcs[t := pc], next, rows)
  {
    hide Counts;
    var pcs' := pcs[t := pc];
    forall u, k, a | Works(pcs', u, k, a)
      ensures Counts(next, rows, k, a)
    {
      if u != t { assert Works(pcs, u, k, a); }
    }
  }

  lemma ServeMoves(pcs: Pcs, cache: map<Key, AgentId>, t: Tid, pc: Pc)
    requires ServesCached(pcs, cache)
    requires pc.In? && pc.stage.HasAgent() && !pc.stage.Built? && pc.key in cache ==> cache[pc.key] == pc.stage.agent
    ensures ServesCached(pcs[t := pc], cache)
  {
    var pcs' := pcs[t := pc];
    forall u, k, a | Serves(pcs', u, k, a) && k in cache
      ensures cache[k] == a
    {
      if u != t { assert Serves(pcs, u, k, a); }
    }
  }

  /** A step that moves one request and changes neither cache, counts nor rows. */
  lemma PlainMove(s: State, t: Tid, pc: Pc, s': State)
    requires IdsInv(s) && s'.pcs == s.pcs[t := pc] && s'.cache == s.cache
    requires s'.next == s.next && s'.rows == s.rows && s'.violated == s.violated
    requires pc.In? && pc.stage.HasAgent() ==> Counts(s.next, s.rows, pc.key, pc.stage.agent)
    requires pc.In? && pc.stage.HasAgent() && !pc.stage.Built? && pc.key in s.cache ==>
               s.cache[pc.key] == pc.stage.agent
    ensures IdsInv(s')
  {
    hide Counts, WorkCounts, ServesCached;
    WorkMoves(s.pcs, s.next, s.rows, t, pc);
    ServeMoves(s.pcs, s.cache, t, pc);
  }

  /** Evictions and wipes of the cache. */
  lemma CacheShrinks(s: State, s': State)
    requires IdsInv(s) && s'.pcs == s.pcs && s'.next == s.next && s'.rows == s.rows && s'.violated == s.violated
    requires forall k :: k in s'.cache ==> k in s.cache && s'.cache[k] == s.cache[k]
    ensures IdsInv(s')
  {
    hide Counts, WorkCounts;
  }

  lemma RowsGo(s: State, store: string)
    requires IdsInv(s) && Unneeded(s, store)
    ensures IdsInv(s.(rows := s.rows - {store}))
  {
    hide StoreOf;
    var rows' := s.rows - {store};
    assert forall other :: RowsIn(rows', other) == if other == store then {} else RowsIn(s.rows, other);
    forall k | k in s.cache
      ensures Counts(s.next, rows', k, s.cache[k])
    {
      assert Counted(s.pcs, s.cache, k) && Counts(s.next, s.rows, k, s.cache[k]);
    }
    forall t, k, a | Works(s.pcs, t, k, a)
      ensures Counts(s.next, rows', k, a)
    {
      assert Counted(s.pcs, s.cache, k) && Counts(s.next, s.rows, k, a);
    }
  }

  lemma WorksIsLive(pcs: Pcs, cache: map<Key, AgentId>, t: Tid, k: Key, a: AgentId)
    requires Works(pcs, t, k, a)
    ensures Live(pcs, cache, k)
  {
    assert t in pcs && pcs[t].Inside() && pcs[t].key == k;
  }

  /** A new agent counts the rows its seat has, and is nobody else's. */
  lemma CountsBorn(s: State, key: Key)
    requires Protocol(s) && IdsInv(s)
    ensures var next' := s.next[s.newAgent := |Rows(s, StoreOf(key))|];
            && CacheCounts(s.cache, next', s.rows) && WorkCounts(s.pcs, next', s.rows)
            && Counts(next', s.rows, key, s.newAgent)
  {
    hide StoreOf, TableInv, HolderInv, AllContiguous, ServesCached;
    var next' := s.next[s.newAgent := |Rows(s, StoreOf(key))|];
    forall k | k in s.cache
      ensures Counts(next', s.rows, k, s.cache[k])
    {
      assert s.cache[k] in s.born && s.cache[k] != s.newAgent;
      assert Counts(s.next, s.rows, k, s.cache[k]);
    }
    forall t, k, a | Works(s.pcs, t, k, a)
      ensures Counts(next', s.rows, k, a)
    {
      assert a in s.born && a != s.newAgent;
      assert Counts(s.next, s.rows, k, a);
    }
  }

  lemma BuildIds(s: State, t: Tid)
    requires Protocol(s) && IdsInv(s) && PcOf(s, t).Inside() && PcOf(s, t).stage.Building?
    ensures IdsInv(DoInside(s, Build(t)))
  {
    var pc := PcOf(s, t);
    CountsBorn(s, pc.key);
    hide Protocol, StoreOf, Counts, WorkCounts, CacheCounts, AllContiguous, ServesCached, Rows;
    var next' := s.next[s.newAgent := |Rows(s, StoreOf(pc.key))|];
    var pc' := In(Built(s.newAgent), pc.key, pc.lock);
    WorkMoves(s.pcs, next', s.rows, t, pc');
    ServeMoves(s.pcs, s.cache, t, pc');
  }

  lemma StoreIds(s: State, t: Tid)
    requires Protocol(s) && IdsInv(s) && PcOf(s, t).Inside() && PcOf(s, t).stage.Built?
    ensures IdsInv(DoInside(s, Store(t)))
  {
    var pc := PcOf(s, t);
    var key, a := pc.key, pc.stage.agent;
    var pc' := In(Ready(a), key, pc.lock);
    assert Works(s.pcs, t, key, a);
    forall u, k, b | Serves(s.pcs, u, k, b) && k in s.cache[key := a] && u != t
      ensures s.cache[key := a][k] == b
    {
      if k == key { OneInside(s, t, u); }
    }
    hide Protocol, StoreOf, Counts, AllContiguous, Rows;
    WorkMoves(s.pcs, s.next, s.rows, t, pc');
    var pcs' := s.pcs[t := pc'];
    forall u, k, b | Serves(pcs', u, k, b) && k in s.cache[key := a]
      ensures s.cache[key := a][k] == b
    {
      if u != t { assert Serves(s.pcs, u, k, b); }
    }
  }

  /** One more row for one seat, counted by its own agent, moves nobody else's count. */
  lemma InsertIds(s: State, t: Tid)
    requires Protocol(s) && IdsInv(s) && LiveStoresDistinct(s)
    requires PcOf(s, t).Inside() && PcOf(s, t).stage.Calling?
    ensures IdsInv(DoInside(s, Insert(t)))
  {
    var pc := PcOf(s, t);
    var key, a := pc.key, pc.stage.agent;
    var store := StoreOf(key);
    assert Works(s.pcs, t, key, a) && Serves(s.pcs, t, key, a);
    var ids := RowsIn(s.rows, store);
    assert ids == Rows(s, store);
    assert Contiguous(ids) && s.next[a] == |ids|;
    ContiguousGrows(ids);
    var s' := DoInside(s, Insert(t));
    InsertEffect(s, t, pc, key, a, ids, s');
    InsertCounts(s, t, key, a, s'.rows, s'.next);
    assert s'.pcs == s.pcs;
  }

  lemma InsertEffect(s: State, t: Tid, pc: Pc, key: Key, a: AgentId, ids: set<nat>, s': State)
    requires t in s.pcs && pc == s.pcs[t] && pc.Inside() && key == pc.key && pc.stage == Calling(a)
    requires ids == Rows(s, StoreOf(key)) && a in s.next && s.next[a] == |ids| && |ids| !in ids
    requires s' == DoInside(s, Insert(t))
    ensures s'.pcs == s.pcs && s'.cache == s.cache && s'.violated == s.violated
    ensures s'.rows == s.rows[StoreOf(key) := ids + {|ids|}] && s'.next == s.next[a := |ids| + 1]
  {
    hide StoreOf;
  }

  lemma InsertCounts(s: State, t: Tid, key: Key, a: AgentId, rows': RowMap, next': map<AgentId, nat>)
    requires Protocol(s) && IdsInv(s) && LiveStoresDistinct(s) && Serves(s.pcs, t, key, a)
    requires var ids := RowsIn(s.rows, StoreOf(key));
             && rows' == s.rows[StoreOf(key) := ids + {|ids|}] && next' == s.next[a := |ids| + 1]
    ensures AllContiguous(rows') && CacheCounts(s.cache, next', rows') && WorkCounts(s.pcs, next', rows')
  {
    var store := StoreOf(key);
    var ids := RowsIn(s.rows, store);
    assert Contiguous(ids);
    ContiguousGrows(ids);
    WorksIsLive(s.pcs, s.cache, t, key, a);
    AllContiguousGrows(s.rows, store);
    forall k | k in s.cache
      ensures Counts(next', rows', k, s.cache[k])
    {
      assert Live(s.pcs, s.cache, k);
      OtherCounts(s, key, a, k, s.cache[k], rows', next');
    }
    forall u, k, b | Works(s.pcs, u, k, b)
      ensures Counts(next', rows', k, b)
    {
      WorksIsLive(s.pcs, s.cache, u, k, b);
      if k == key { OneInside(s, t, u); }
      OtherCounts(s, key, a, k, b, rows', next');
    }
  }

  lemma OtherCounts(s: State, key: Key, a: AgentId, k: Key, b: AgentId, rows': RowMap, next': map<AgentId, nat>)
    requires LiveStoresDistinct(s) && Live(s.pcs, s.cache, key) && Live(s.pcs, s.cache, k)
    requires a in s.born && s.born[a] == key && b in s.born && s.born[b] == k
    requires k == key ==> b == a
    requires Counts(s.next, s.rows, k, b)
    requires var ids := RowsIn(s.rows, StoreOf(key));
             && rows' == s.rows[StoreOf(key) := ids + {|ids|}] && next' == s.next[a := |ids| + 1]
             && |ids + {|ids|}| == |ids| + 1
    ensures Counts(next', rows', k, b)
  {
  }

  // ---------------------------------------------------------------- every step

  lemma InsideIds(s: State, step: Step)
    requires Protocol(s) && IdsInv(s) && LiveStoresDistinct(s) && TakenInside(step)
    ensures IdsInv(DoInside(s, step))
  {
    var pc := PcOf(s, step.t);
    if pc.Inside() {
      if step.Build? && pc.stage.Building? {
        BuildIds(s, step.t);
      } else if step.Store? && pc.stage.Built? {
        StoreIds(s, step.t);
      } else if step.Insert? && pc.stage.Calling? {
        InsertIds(s, step.t);
      } else {
        MoveIds(s, step);
      }
    }
  }

  /** A step inside that builds nothing, caches nothing and stores nothing. */
  predicate Plainly(s: State, step: Step) {
    && TakenInside(step) && PcOf(s, step.t).Inside()
    && var pc := PcOf(s, step.t);
    && !(step.Build? && pc.stage.Building?) && !(step.Store? && pc.stage.Built?)
    && !(step.Insert? && pc.stage.Calling?)
  }

  lemma MovesPlainly(s: State, step: Step)
    requires Plainly(s, step)
    ensures var pc, s' := PcOf(s, step.t), DoInside(s, step);
            && s'.pcs == s.pcs[step.t := In(NextStage(s, pc, step), pc.key, pc.lock)] && s'.cache == s.cache
            && s'.next == s.next && s'.rows == s.rows && s'.violated == s.violated
  {
    hide NextStage, StoreOf, Rows, Collides;
  }

  /** Its agent, if it has one, is the one it had or the one cached, and counts. */
  lemma CountsOn(s: State, step: Step)
    requires IdsInv(s) && Plainly(s, step)
    ensures var pc := PcOf(s, step.t);
            var stage := NextStage(s, pc, step);
            && (stage.HasAgent() ==> Counts(s.next, s.rows, pc.key, stage.agent))
            && (stage.HasAgent() && !stage.Built? && pc.key in s.cache ==> s.cache[pc.key] == stage.agent)
  {
    var pc := PcOf(s, step.t);
    if pc.stage.HasAgent() {
      assert Works(s.pcs, step.t, pc.key, pc.stage.agent);
      if !pc.stage.Built? { assert Serves(s.pcs, step.t, pc.key, pc.stage.agent); }
    }
    hide Counts, AllContiguous, Collides;
  }

  lemma MoveIds(s: State, step: Step)
    requires IdsInv(s) && Plainly(s, step)
    ensures IdsInv(DoInside(s, step))
  {
    var pc := PcOf(s, step.t);
    hide *;
    MovesPlainly(s, step);
    CountsOn(s, step);
    PlainMove(s, step.t, In(NextStage(s, pc, step), pc.key, pc.lock), DoInside(s, step));
  }

  lemma FetchIds(s: State, t: Tid, key: Key)
    requires IdsInv(s)
    ensures IdsInv(DoFetch(s, t, key))
  {
    hide IdsInv, Counts, StoreOf;
    if PcOf(s, t).Idle? {
      var pc, s' := In(Fetched, key, if key in s.locks then s.locks[key] else s.newLock), DoFetch(s, t, key);
      assert s'.pcs == s.pcs[t := pc] && s'.cache == s.cache && s'.next == s.next && s'.rows == s.rows;
      assert s'.violated == s.violated;
      hide *;
      PlainMove(s, t, pc, s');
    }
  }

  lemma AcquireIds(s: State, t: Tid)
    requires IdsInv(s)
    ensures IdsInv(DoAcquire(s, t))
  {
    hide IdsInv, Counts;
    var pc := PcOf(s, t);
    if pc.In? && pc.stage.Fetched? {
      if pc.lock in s.holder {
        PlainMove(s, t, Done(Busy), DoAcquire(s, t));
      } else {
        PlainMove(s, t, In(Acquired, pc.key, pc.lock), DoAcquire(s, t));
      }
    }
  }

  lemma ReleaseIds(s: State, t: Tid)
    requires IdsInv(s)
    ensures IdsInv(DoRelease(s, t))
  {
    hide IdsInv, Counts;
    if PcOf(s, t).In? && PcOf(s, t).stage.Leaving? { PlainMove(s, t, DoRelease(s, t).pcs[t], DoRelease(s, t)); }
  }

  lemma IdsStep(s: State, step: Step)
    requires Protocol(s) && IdsInv(s) && Careful(s, step)
    ensures IdsInv(Do(s, step))
  {
    hide DoFetch, DoAcquire, DoRelease, DoInside, Protocol, IdsInv, LiveStoresDistinct, Unneeded;
    match step
    case Fetch(t, key) => FetchIds(s, t, key);
    case Acquire(t) => AcquireIds(s, t);
    case Release(t) => ReleaseIds(s, t);
    case Evict(key) => CacheShrinks(s, s.(cache := s.cache - {key}));
    case DeleteRows(store) => RowsGo(s, store);
    case WipeAgents => CacheShrinks(s, s.(cache := map[]));
    case WipeLocks => CacheShrinks(s, s.(locks := map[]));
    case _ => InsideIds(s, step);
  }

  lemma {:induction false} ReachableIds(steps: seq<Step>)
    requires CarefulRun(steps)
    ensures Protocol(After(steps)) && IdsInv(After(steps))
  {
    if steps != [] {
      var n := |steps| - 1;
      var before := steps[..n];
      forall m | 0 <= m < n
        ensures Careful(After(before[..m]), before[m])
      {
        assert before[..m] == steps[..m];
      }
      hide IdsInv, Protocol;
      ReachableIds(before);
      assert Careful(After(before), steps[n]);
      ProtocolStep(After(before), steps[n]);
      IdsStep(After(before), steps[n]);
    }
  }

  /** In every such run each conversation holds ids 0..n-1 and no insert is ever refused. */
  lemma {:induction false} EveryConversationIsContiguous(steps: seq<Step>, store: string)
    requires CarefulRun(steps)
    ensures !After(steps).violated && Contiguous(Rows(After(steps), store))
  {
    hide Protocol, CarefulRun;
    ReachableIds(steps);
    assert Contiguous(RowsIn(After(steps).rows, store));
  }
}
