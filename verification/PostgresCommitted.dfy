/** The table holds exactly what was committed, as it was asked for. */
module PostgresCommitted {
  import opened Wrappers
  import opened PostgresPage
  import opened PostgresStore

  // ----- what was asked for ---------------------------------------------------------------------

  /** The events of every append begun, in order. */
  ghost function Asked(steps: seq<Step>): seq<seq<Event>> {
    if steps == [] then []
    else
      var n := |steps| - 1;
      Asked(steps[..n]) + if steps[n].Begin? then [steps[n].events] else []
  }

  /** A transaction works on the events its append was called with, to the end. */
  lemma {:induction false} WorksOnAsked(steps: seq<Step>, t: nat)
    requires Ran(steps).Some?
    ensures |Ran(steps).value.txs| == |Asked(steps)|
    ensures t < |Asked(steps)| ==> Ran(steps).value.txs[t].events == Asked(steps)[t]
    decreases |steps|
  {
    if steps != [] {
      WorksOnAsked(steps[..|steps| - 1], t);
    }
  }

  // ----- what a transaction has written --------------------------------------------------------

  /** The row of an event: the event itself, all of it, at its transaction. */
  ghost predicate Written(rows: map<Key, Row>, xid: nat, event: Event) {
    event.key in rows && rows[event.key].event == event && rows[event.key].pos.txid == xid
  }

  ghost predicate InTurn(rows: map<Key, Row>, a: Event, b: Event) {
    a.key in rows && b.key in rows && rows[a.key].pos.number < rows[b.key].pos.number
  }

  /** The staged rows are those of the first `count` events, numbered in their order. */
  ghost predicate Stages(events: seq<Event>, xid: nat, count: nat, staged: map<Key, Row>) {
    && count <= |events|
    && (forall i :: 0 <= i < count ==> Written(staged, xid, events[i]))
    && (forall i, j :: 0 <= i < j < count ==> InTurn(staged, events[i], events[j]))
    && (forall k :: k in staged ==> exists i :: 0 <= i < count && events[i].key == k)
  }

  /** A committed transaction has written everything, and it is in the table. */
  ghost predicate Stands(db: Db, tx: Tx) {
    && tx.count == |tx.events|
    && (forall k :: k in tx.staged ==> k in db.table && db.table[k] == tx.staged[k])
  }

  ghost predicate TxHolds(db: Db, tx: Tx) {
    && (tx.phase.Writing? || tx.phase.Committed? ==> Stages(tx.events, tx.xid, tx.count, tx.staged))
    && (tx.phase.Committed? ==> Stands(db, tx))
  }

  /** The transaction committed the key. */
  ghost predicate Brought(db: Db, t: nat, k: Key) {
    t < |db.txs| && db.txs[t].phase.Committed? && k in db.txs[t].staged
  }

  ghost predicate Holds(db: Db) {
    && (forall t :: 0 <= t < |db.txs| ==> TxHolds(db, db.txs[t]))
    && (forall k :: k in db.table ==> exists t: nat :: Brought(db, t, k))
    && (forall t: nat, u: nat, k :: Brought(db, t, k) && Brought(db, u, k) ==> t == u)
  }

  lemma StagesNext(events: seq<Event>, xid: nat, count: nat, staged: map<Key, Row>, number: nat)
    requires Stages(events, xid, count, staged) && count < |events| && events[count].key !in staged
    requires forall k :: k in staged ==> staged[k].pos.number < number
    ensures Stages(events, xid, count + 1, staged[events[count].key := Row(Pos(xid, number), events[count])])
  {
    var event := events[count];
    var next := staged[event.key := Row(Pos(xid, number), event)];
    forall i | 0 <= i < count + 1
      ensures Written(next, xid, events[i])
    {
      assert i < count ==> Written(staged, xid, events[i]);
    }
    forall i, j | 0 <= i < j < count + 1
      ensures InTurn(next, events[i], events[j])
    {
      assert Written(staged, xid, events[i]);
      assert j < count ==> InTurn(staged, events[i], events[j]);
    }
    forall k | k in next
      ensures exists i :: 0 <= i < count + 1 && events[i].key == k
    {
      if k != event.key {
        var i :| 0 <= i < count && events[i].key == k;
      }
    }
  }

  /** The next event's key is not among the staged ones, and their numbers are lower. */
  lemma NewKey(db: Db, tx: Tx)
    requires StagedInv(db, tx) && tx.count < |tx.events|
    ensures tx.events[tx.count].key !in tx.staged
    ensures forall k :: k in tx.staged ==> tx.staged[k].pos.number < db.nextNumber
  {
    hide Ordered;
    forall k | k in tx.staged
      ensures k != tx.events[tx.count].key && tx.staged[k].pos.number < db.nextNumber
    {
      assert StagedRow(db, tx, k);
    }
  }

  lemma InsertHolds(db: Db, t: nat)
    requires Inv(db) && Enabled(db, Insert(t)) && TxHolds(db, db.txs[t])
    ensures TxHolds(After(db, Insert(t)), After(db, Insert(t)).txs[t])
  {
    hide Stages, StagedInv, ReadInv, Sequential, Free, TableInv;
    var tx := db.txs[t];
    assert TxInv(db, tx);
    NewKey(db, tx);
    StagesNext(tx.events, tx.xid, tx.count, tx.staged, db.nextNumber);
  }

  lemma TakeXidHolds(db: Db, t: nat)
    requires Inv(db) && Enabled(db, TakeXid(t))
    ensures TxHolds(After(db, TakeXid(t)), After(db, TakeXid(t)).txs[t])
  {
    hide StagedInv, ReadInv, Sequential, TableInv;
    assert TxInv(db, db.txs[t]);
  }

  lemma CommitHolds(db: Db, t: nat)
    requires Inv(db) && Enabled(db, Commit(t)) && Holds(db)
    ensures Holds(After(db, Commit(t)))
  {
    hide Stages, TableInv, StagedInv, ReadInv, Sequential, Apart;
    assert TxInv(db, db.txs[t]);
    StagedIsNew(db, db.txs[t]);
    hide Inv, TxInv, TxHolds;
    var next := After(db, Commit(t));
    forall u | 0 <= u < |next.txs| {
      CommitTxHolds(db, t, u);
    }
    forall k | k in next.table {
      CommitBrings(db, t, k);
    }
    forall u: nat, w: nat, k | Brought(next, u, k) && Brought(next, w, k)
      ensures u == w
    {
      BroughtBefore(db, t, u, k);
      BroughtBefore(db, t, w, k);
    }
  }

  lemma CommitTxHolds(db: Db, t: nat, u: nat)
    requires Enabled(db, Commit(t)) && Holds(db) && u < |db.txs|
    requires forall k :: k in db.txs[t].staged ==> k !in db.table
    ensures TxHolds(After(db, Commit(t)), After(db, Commit(t)).txs[u])
  {
    hide Stages;
    assert TxHolds(db, db.txs[u]) && TxHolds(db, db.txs[t]);
  }

  lemma CommitBrings(db: Db, t: nat, k: Key)
    requires Enabled(db, Commit(t)) && Holds(db) && k in After(db, Commit(t)).table
    ensures exists u: nat :: Brought(After(db, Commit(t)), u, k)
  {
    hide TxHolds;
    var next := After(db, Commit(t));
    if k in db.txs[t].staged {
      assert Brought(next, t, k);
    } else {
      var u: nat :| Brought(db, u, k);
      assert Brought(next, u, k);
    }
  }

  lemma BroughtBefore(db: Db, t: nat, u: nat, k: Key)
    requires Holds(db) && Enabled(db, Commit(t)) && Brought(After(db, Commit(t)), u, k)
    ensures u != t ==> Brought(db, u, k) && k in db.table
  {
    hide Stages;
    if u != t {
      assert TxHolds(db, db.txs[u]);
    }
  }

  /** A change of transactions that are not committed. */
  lemma UncommittedHolds(db: Db, next: Db)
    requires Holds(db) && next.table == db.table && |db.txs| <= |next.txs|
    requires forall u :: 0 <= u < |next.txs| ==> TxHolds(next, next.txs[u])
    requires forall u :: 0 <= u < |next.txs| && next.txs[u].phase.Committed? ==> u < |db.txs| && next.txs[u] == db.txs[u]
    requires forall u :: 0 <= u < |db.txs| && db.txs[u].phase.Committed? ==> next.txs[u] == db.txs[u]
    ensures Holds(next)
  {
    hide TxHolds;
    forall k | k in next.table
      ensures exists u: nat :: Brought(next, u, k)
    {
      var u: nat :| Brought(db, u, k);
      assert Brought(next, u, k);
    }
    forall u: nat, k
      ensures Brought(next, u, k) ==> Brought(db, u, k)
    {
    }
  }

  lemma OthersHold(db: Db, step: Step)
    requires Inv(db) && Enabled(db, step) && !step.Commit? && Holds(db)
    ensures Holds(After(db, step))
  {
    hide Inv, Sequential, IsHead, Free, Stages;
    var next := After(db, step);
    forall u | 0 <= u < |next.txs|
      ensures TxHolds(next, next.txs[u])
    {
      assert u < |db.txs| ==> TxHolds(db, db.txs[u]);
      if step.Insert? && u == step.tx {
        InsertHolds(db, u);
      } else if step.TakeXid? && u == step.tx {
        TakeXidHolds(db, u);
      }
    }
    UncommittedHolds(db, next);
  }

  lemma {:induction false} RunHolds(steps: seq<Step>)
    requires Ran(steps).Some?
    ensures Holds(Ran(steps).value)
  {
    hide Inv, Holds, Enabled, After;
    if steps == [] {
      EmptyHolds();
    } else {
      var n := |steps| - 1;
      var db := Ran(steps[..n]).value;
      RunKeeps(steps[..n]);
      RunHolds(steps[..n]);
      if steps[n].Commit? {
        CommitHolds(db, steps[n].tx);
      } else {
        OthersHold(db, steps[n]);
      }
    }
  }

  lemma EmptyHolds()
    ensures Holds(EMPTY)
  {
  }

  // ----- the table and the commits ------------------------------------------------------------------

  /** In every run, every event of a committed append is in the table as it was given to
      the append, at the transaction's id, and in the order given. */
  lemma CommittedIsStored(steps: seq<Step>, t: nat, i: nat, j: nat)
    requires Ran(steps).Some? && t < |Ran(steps).value.txs| && Ran(steps).value.txs[t].phase.Committed?
    requires i < |Ran(steps).value.txs[t].events|
    ensures var db := Ran(steps).value;
            var tx := db.txs[t];
            && t < |Asked(steps)| && tx.events == Asked(steps)[t]
            && Written(db.table, tx.xid, tx.events[i])
            && (i < j < |tx.events| ==> InTurn(db.table, tx.events[i], tx.events[j]))
  {
    hide Inv, Ran, Asked;
    WorksOnAsked(steps, t);
    RunHolds(steps);
    var db := Ran(steps).value;
    var tx := db.txs[t];
    assert TxHolds(db, tx);
    assert Written(tx.staged, tx.xid, tx.events[i]);
    if i < j < |tx.events| {
      assert InTurn(tx.staged, tx.events[i], tx.events[j]);
    }
  }

  /** And every row of the table is one of those: an event of exactly one committed
      append. What an aborted or an open one was called with is in no row that no
      committed one brought. */
  lemma StoredIsCommitted(steps: seq<Step>, k: Key) returns (t: nat, i: nat)
    requires Ran(steps).Some? && k in Ran(steps).value.table
    ensures var db := Ran(steps).value;
            && t < |db.txs| == |Asked(steps)|
            && db.txs[t].phase.Committed?
            && i < |Asked(steps)[t]|
            && Asked(steps)[t][i].key == k
            && db.table[k].event == Asked(steps)[t][i]
            && db.table[k].pos.txid == db.txs[t].xid
    ensures var db := Ran(steps).value;
            forall u: nat :: u < |db.txs| && Commits(db, u, k) ==> u == t
  {
    hide Inv, Ran, Asked;
    RunHolds(steps);
    var db := Ran(steps).value;
    t :| Brought(db, t, k);
    WorksOnAsked(steps, t);
    var tx := db.txs[t];
    assert TxHolds(db, tx);
    i :| 0 <= i < tx.count && tx.events[i].key == k;
    assert Written(tx.staged, tx.xid, tx.events[i]);
    forall u: nat | u < |db.txs| && Commits(db, u, k)
      ensures u == t
    {
      assert TxHolds(db, db.txs[u]);
      var j :| 0 <= j < |db.txs[u].events| && db.txs[u].events[j].key == k;
      assert Written(db.txs[u].staged, db.txs[u].xid, db.txs[u].events[j]);
      assert Brought(db, u, k);
    }
  }

  /** The transaction is committed and was called with an event of that key. */
  ghost predicate Commits(db: Db, u: nat, k: Key)
    requires u < |db.txs|
  {
    db.txs[u].phase.Committed? && exists j :: 0 <= j < |db.txs[u].events| && db.txs[u].events[j].key == k
  }
}
