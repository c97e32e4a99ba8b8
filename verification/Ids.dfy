/** Message ids stored per conversation, and the shape the session repository expects of them. */
module Ids {
  type RowMap = map<string, set<nat>>

  function RowsIn(rows: RowMap, store: string): set<nat> { if store in rows then rows[store] else {} }

  /** Ids 0..n-1 and nothing else. */
  ghost predicate Contiguous(ids: set<nat>) { forall i: nat :: i in ids <==> i < |ids| }

  ghost predicate AllContiguous(rows: RowMap) { forall store :: Contiguous(RowsIn(rows, store)) }

  lemma ContiguousGrows(ids: set<nat>)
    requires Contiguous(ids)
    ensures |ids| !in ids && Contiguous(ids + {|ids|}) && |ids + {|ids|}| == |ids| + 1
  {
  }

  /** Storing the next id of one conversation leaves every conversation contiguous. */
  lemma AllContiguousGrows(rows: RowMap, store: string)
    requires AllContiguous(rows)
    ensures AllContiguous(rows[store := RowsIn(rows, store) + {|RowsIn(rows, store)|}])
  {
    var ids := RowsIn(rows, store);
    assert Contiguous(ids);
    ContiguousGrows(ids);
    var rows' := rows[store := ids + {|ids|}];
    forall other
      ensures Contiguous(RowsIn(rows', other))
    {
      assert RowsIn(rows', other) == if other == store then ids + {|ids|} else RowsIn(rows, other);
      assert Contiguous(RowsIn(rows, other));
    }
  }
}
