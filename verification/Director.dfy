/** The process that holds the live agents, and the three endpoints that touch a conversation. */
module Director {
  import opened Seats
  import opened StoreId
  import opened Text
  import opened Transcript

  lemma OneMore(agents: map<Key, Talk>, dropped: set<Key>, key: Key)
    ensures agents - dropped - {key} == agents - (dropped + {key})
    ensures StoresOf(dropped + {key}) == StoresOf(dropped) + {StoreOf(key)}
  {
    hide StoreOf;
  }

  /** Of the keys matched these have been dropped; the rest are among those left. */
  predicate Halfway(matched: set<Key>, dropped: set<Key>, left: set<Key>) {
    dropped <= matched <= dropped + left && dropped !! left
  }

  lemma NextKey(matched: set<Key>, dropped: set<Key>, left: set<Key>, key: Key)
    requires Halfway(matched, dropped, left) && key in left
    ensures if key in matched then Halfway(matched, dropped + {key}, left - {key}) && |dropped + {key}| == |dropped| + 1
            else Halfway(matched, dropped, left - {key})
  {
  }

  class Director {
    var agents: map<Key, Talk>
    var rows: map<string, Talk>

    ghost function Now(): Memory
      reads this
    {
      Memory(agents, rows)
    }

    constructor ()
      ensures Now() == Transcript.After([])
    {
      agents, rows := map[], map[];
    }

    /** One completed call: the cached agent if its prompt is current, else one restored from the rows. */
    method Atc(key: Key, stale: bool, removed: nat, added: Talk, drop: nat)
      modifies this
      ensures Now() == Transcript.Call(old(Now()), key, stale, removed, added, drop)
    {
      var store := StoreOf(key);
      var stored := Stored(rows, store);
      var live: Talk;
      if key in agents && !stale {
        live := agents[key];
      } else {
        live := Scrub(Windowed(stored, removed));
        agents := agents[key := live];
      }
      rows := rows[store := stored + added];
      agents := agents[key := Windowed(Scrub(live + added), drop)];
    }

    /** Correct the last reply in both copies to what was transmitted. */
    method Transmitted(key: Key, text: string, up: bool) returns (answer: Outcome)
      modifies this
      ensures answer == CorrectOutcome(old(Now()), key, text, up)
      ensures Now() == Correct(old(Now()), key, text, up)
    {
      if key.session == "" || text == "" {
        return Refused;
      }
      if key !in agents {
        return Unknown;
      }
      var i := LastReply(agents[key]);
      if i < 0 {
        return NothingSaid;
      }
      if Strip(Join(agents[key][i].content)) == Strip(text) {
        return AlreadySo;
      }
      agents := agents[key := agents[key][i := OnAir(text)]];
      if !up {
        return Corrected(false);
      }
      var store := StoreOf(key);
      var j := LastReply(Stored(rows, store));
      if j >= 0 {
        rows := rows[store := rows[store][j := OnAir(text)]];
      }
      assert store in old(rows) ==> rows == old(rows)[store := Reworded(old(rows)[store], text)];
      return Corrected(true);
    }

    /** Drop every cached agent the request names, and say which stores they wrote. */
    method Evict(session: string, station: string, role: string) returns (seats: set<string>, evicted: nat)
      modifies this`agents
      ensures var matched := Matched(old(Now()), session, station, role);
              && agents == old(agents) - matched && evicted == |matched|
              && seats == StoresOf(matched)
    {
      assert StoresOf({}) == {};
      hide StoreOf, Matches, StoresOf;
      seats, evicted := {}, 0;
      var left := agents.Keys;
      ghost var matched := Matched(Now(), session, station, role);
      ghost var dropped: set<Key> := {};
      while left != {}
        invariant left <= old(agents).Keys && Halfway(matched, dropped, left)
        invariant agents == old(agents) - dropped
        invariant seats == StoresOf(dropped)
        invariant evicted == |dropped|
        decreases left
      {
        var key :| key in left;
        assert key in matched <==> Matches(key, session, station, role);
        NextKey(matched, dropped, left, key);
        hide Halfway, Matched;
        left := left - {key};
        if Matches(key, session, station, role) {
          OneMore(old(agents), dropped, key);
          seats := seats + {StoreOf(key)};
          agents := agents - {key};
          evicted := evicted + 1;
          dropped := dropped + {key};
        }
      }
      assert dropped == matched;
    }

    /** Both copies, or it is not forgetting: the live agents first, then the rows behind them. */
    method Forget(session: string, station: string, role: string, up: bool) returns (evicted: nat)
      modifies this
      ensures Now() == Transcript.Forget(old(Now()), session, station, role, up)
      ensures session != "" ==> evicted == |Matched(old(Now()), session, station, role)|
    {
      hide StoreOf, Matches, Deletes, StoreId.StoreId;
      evicted := 0;
      if session == "" {
        return;
      }
      var seats;
      seats, evicted := Evict(session, station, role);
      if seats == {} && (station != "" || role != "") {
        seats := {StoreId.StoreId(session, role, station)};
      }
      if up {
        rows := map s | s in rows && !Deletes(seats, session, s) :: rows[s];
      }
    }
  }
}
