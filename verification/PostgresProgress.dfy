/** Appends succeed and consumers catch up: from every state of every run there is a way. */
module PostgresProgress {
  import opened Wrappers
  import opened Ordering
  import opened PostgresPage
  import opened PostgresStore
  import Scans = PostgresScan

  // ----- an append that nobody contends with commits ------------------------------------------------

  lemma RunGrows(steps: seq<Step>, step: Step)
    requires Ran(steps).Some? && Enabled(Ran(steps).value, step)
    ensures Ran(steps + [step]) == Some(After(Ran(steps).value, step))
  {
    assert (steps + [step])[..|steps|] == steps;
  }

  /** No other transaction is writing. */
  ghost predicate Alone(db: Db, t: nat) {
    forall u :: 0 <= u < |db.txs| && u != t ==> !db.txs[u].phase.Writing?
  }

  /** The request expects the heads there are. */
  ghost predicate Current(table: map<Key, Row>, expected: map<Stream, nat>) {
    forall stream :: stream in expected ==> IsHead(table, stream, expected[stream])
  }

  /** Only one transaction changed, and the table did not. */
  ghost predicate Beside(db: Db, next: Db, t: nat) {
    && next.table == db.table
    && next.nextNumber >= db.nextNumber
    && |next.txs| == |db.txs|
    && (forall u :: 0 <= u < |db.txs| && u != t ==> next.txs[u] == db.txs[u])
  }

  lemma {:induction false} HeadsAreRead(steps: seq<Step>, t: nat, rest: set<Stream>) returns (more: seq<Step>)
    requires Ran(steps).Some? && t < |Ran(steps).value.txs|
    requires var db := Ran(steps).value;
             && db.txs[t].phase.Reading? && Current(db.table, db.txs[t].expected)
             && rest <= db.txs[t].expected.Keys && db.txs[t].read + rest == db.txs[t].expected.Keys
    ensures Ran(steps + more).Some?
    ensures var db, next := Ran(steps).value, Ran(steps + more).value;
            && Beside(db, next, t) && next.nextNumber == db.nextNumber
            && next.txs[t] == db.txs[t].(read := db.txs[t].expected.Keys)
    decreases |rest|
  {
    hide IsHead, Sequential;
    var db := Ran(steps).value;
    if rest == {} {
      more := [];
      assert steps + more == steps && db.txs[t].read + {} == db.txs[t].read;
    } else {
      var stream :| stream in rest;
      var step := ReadHead(t, stream);
      RunGrows(steps, step);
      assert db.txs[t].read + {stream} + (rest - {stream}) == db.txs[t].read + rest;
      hide Ran;
      var others := HeadsAreRead(steps + [step], t, rest - {stream});
      more := [step] + others;
      assert steps + [step] + others == steps + more;
    }
  }

  lemma InsertIsFree(db: Db, t: nat)
    requires Alone(db, t) && t < |db.txs| && Current(db.table, db.txs[t].expected)
    requires Sequential(db.txs[t].expected, db.txs[t].events) && db.txs[t].count < |db.txs[t].events|
    ensures Free(db, t, db.txs[t].events[db.txs[t].count].key)
  {
    var key := db.txs[t].events[db.txs[t].count].key;
    assert IsHead(db.table, key.stream, db.txs[t].expected[key.stream]);
  }

  lemma {:induction false} EventsAreInserted(steps: seq<Step>, t: nat) returns (more: seq<Step>)
    requires Ran(steps).Some? && t < |Ran(steps).value.txs|
    requires var db := Ran(steps).value;
             var tx := db.txs[t];
             && tx.phase.Writing? && Alone(db, t) && Current(db.table, tx.expected)
             && Sequential(tx.expected, tx.events) && tx.count <= |tx.events|
             && db.nextNumber + |tx.events| - tx.count <= I64_MAX + 1
    ensures Ran(steps + more).Some?
    ensures var db, next := Ran(steps).value, Ran(steps + more).value;
            && Beside(db, next, t)
            && next.txs[t].phase.Writing? && next.txs[t].count == |next.txs[t].events|
            && next.txs[t].events == db.txs[t].events
    decreases |Ran(steps).value.txs[t].events| - Ran(steps).value.txs[t].count
  {
    hide IsHead, Sequential, Free, Current;
    var db := Ran(steps).value;
    if db.txs[t].count == |db.txs[t].events| {
      more := [];
      assert steps + more == steps;
    } else {
      InsertIsFree(db, t);
      RunGrows(steps, Insert(t));
      hide Ran;
      var others := EventsAreInserted(steps + [Insert(t)], t);
      more := [Insert(t)] + others;
      assert steps + [Insert(t)] + others == steps + more;
    }
  }

  /** The request expects exactly the versions each stream has. */
  ghost predicate Expects(db: Db, expected: map<Stream, nat>) {
    forall stream :: stream in expected ==> Scans.HasHead(db, stream, expected[stream])
  }

  lemma ExpectsHeads(db: Db, expected: map<Stream, nat>)
    requires TableInv(db) && Expects(db, expected)
    ensures Current(db.table, expected)
  {
    hide IsHead, Scans.HasHead, TableInv;
    forall stream | stream in expected
      ensures IsHead(db.table, stream, expected[stream])
    {
      Scans.HeadIsExactly(db, stream, expected[stream]);
    }
  }

  /** While no other transaction is writing and positions are left, an append that
      expects the committed heads commits. */
  lemma AppendCommits(steps: seq<Step>, expected: map<Stream, nat>, events: seq<Event>) returns (more: seq<Step>)
    requires Ran(steps).Some? && events != [] && Sequential(expected, events)
    requires var db := Ran(steps).value;
             && Expects(db, expected)
             && (forall u :: 0 <= u < |db.txs| ==> !db.txs[u].phase.Writing?)
             && db.nextNumber + |events| <= I64_MAX + 1
    ensures Ran(steps + more).Some?
    ensures var db, next := Ran(steps).value, Ran(steps + more).value;
            var t := |db.txs|;
            && |next.txs| == t + 1
            && next.txs[..t] == db.txs
            && next.txs[t].phase.Committed? && next.txs[t].events == events
  {
    hide IsHead, Sequential, Free, Current, Ran, Expects, Inv;
    RunKeeps(steps);
    TableHolds(Ran(steps).value);
    ExpectsHeads(Ran(steps).value, expected);
    var t := |Ran(steps).value.txs|;
    var begun := steps + [Begin(expected, events)];
    RunGrows(steps, Begin(expected, events));
    assert {} + expected.Keys == expected.Keys;
    var heads := HeadsAreRead(begun, t, expected.Keys);
    RunGrows(begun + heads, TakeXid(t));
    var ready := begun + heads + [TakeXid(t)];
    var inserts := EventsAreInserted(ready, t);
    RunGrows(ready + inserts, Commit(t));
    more := [Begin(expected, events)] + heads + [TakeXid(t)] + inserts + [Commit(t)];
    assert ready + inserts + [Commit(t)] == steps + more;
  }

  // ----- a consumer catches up ----------------------------------------------------------------------

  lemma PlayGrows(limits: Limits, from: Option<Pos>, moves: seq<Scans.Move>, move: Scans.Move)
    requires Usable(limits) && Scans.Played(limits, from, moves).Some?
    requires var w := Scans.Played(limits, from, moves).value;
             TableInv(w.db) && Scans.Possible(limits, w, move)
    ensures Scans.Played(limits, from, moves + [move]) ==
            Some(Scans.Moved(limits, from, Scans.Played(limits, from, moves).value, move))
  {
    assert (moves + [move])[..|moves|] == moves;
  }

  /** The scan's own next move. */
  function Next(limits: Limits, scan: Scans.Scan): Scans.Move
    requires scan.Reading?
  {
    if scan.rows == [] then Scans.Fetch
    else if scan.rows[0].event.Bytes() <= limits.bytes then Scans.Deliver
    else Scans.Reject
  }

  /** No row of the log is too large for the reader. */
  ghost predicate Readable(db: Db, limits: Limits) {
    forall k :: k in db.table ==> db.table[k].event.Bytes() <= limits.bytes
  }

  function Refills(scan: Scans.Scan): nat {
    if scan.Idle? then 0 else if scan.rows == [] then 2 else 1
  }

  lemma NextWorks(limits: Limits, from: Option<Pos>, w: Scans.World)
    requires Usable(limits) && Scans.ScanInv(from, w) && w.scan.Reading? && Readable(w.db, limits)
    ensures TableInv(w.db) && Scans.Possible(limits, w, Next(limits, w.scan)) && !Next(limits, w.scan).Database?
    ensures var next := Scans.Moved(limits, from, w, Next(limits, w.scan));
            && Scans.ScanInv(from, next)
            && next.db == w.db
            && |w.delivered| <= |next.delivered| <= |Scans.Log(w.db, from)|
            && (|next.delivered| == |w.delivered| ==> Refills(next.scan) < Refills(w.scan))
            && (next.scan.Reading? ==> next.scan.cutoff == w.scan.cutoff)
            && (next.scan.Idle? ==> Next(limits, w.scan).Fetch?)
  {
    hide Scans.Log, Scans.Rest, Page, Inv;
    TableHolds(w.db);
    if w.scan.rows != [] {
      FirstIsReadable(limits, from, w);
    }
    Scans.MoveKeeps(limits, from, w, Next(limits, w.scan));
  }

  lemma TableHolds(db: Db)
    requires Inv(db)
    ensures TableInv(db)
  {
  }

  lemma FirstIsReadable(limits: Limits, from: Option<Pos>, w: Scans.World)
    requires Scans.ScanInv(from, w) && w.scan.Reading? && Readable(w.db, limits) && w.scan.rows != []
    ensures w.scan.rows[0].event.Bytes() <= limits.bytes
  {
    var row := w.scan.rows[0];
    assert (w.delivered + w.scan.rows)[|w.delivered|] == row;
    assert row in Scans.Log(w.db, from);
    assert row in Scans.LogRows(w.db, from);
  }

  /** What an ending scan handed over: everything under its cutoff. */
  ghost predicate Complete(from: Option<Pos>, w: Scans.World, cutoff: nat)
    requires TableInv(w.db)
  {
    forall row :: row in Scans.Log(w.db, from) && row.pos.txid < cutoff ==> row in w.delivered
  }

  lemma EndIsComplete(limits: Limits, from: Option<Pos>, w: Scans.World)
    requires Usable(limits) && Scans.ScanInv(from, w) && Scans.Possible(limits, w, Scans.Fetch)
    requires Scans.Moved(limits, from, w, Scans.Fetch).scan.Idle?
    ensures Complete(from, Scans.Moved(limits, from, w, Scans.Fetch), w.scan.cutoff)
  {
    hide Scans.Log, Scans.Rest;
    forall row | row in Scans.Log(w.db, from) && row.pos.txid < w.scan.cutoff
      ensures row in w.delivered
    {
      assert w.delivered + [] == w.delivered;
      Scans.LoggedIsReached(w.db, w.scan.cutoff, from, w.delivered, row);
    }
  }

  /** An open scan that is polled ends, and has then handed over everything under its
      cutoff. */
  lemma {:induction false} ScanEnds(limits: Limits, from: Option<Pos>, moves: seq<Scans.Move>) returns (more: seq<Scans.Move>)
    requires Usable(limits) && Scans.Played(limits, from, moves).Some?
    requires var w := Scans.Played(limits, from, moves).value;
             w.scan.Reading? && Readable(w.db, limits) && TableInv(w.db)
    ensures forall i :: 0 <= i < |more| ==> !more[i].Database?
    ensures Scans.Played(limits, from, moves + more).Some?
    ensures var w, last := Scans.Played(limits, from, moves).value, Scans.Played(limits, from, moves + more).value;
            && last.scan.Idle? && last.db == w.db
            && Complete(from, last, w.scan.cutoff)
    decreases |Scans.Log(Scans.Played(limits, from, moves).value.db, from)|
              - |Scans.Played(limits, from, moves).value.delivered|,
              Refills(Scans.Played(limits, from, moves).value.scan)
  {
    hide Scans.Played, Scans.Moved, Scans.Possible, Scans.ScanInv, Scans.Log, Next, Refills, TableInv, Complete, Readable;
    var w := Scans.Played(limits, from, moves).value;
    Scans.PlayKeeps(limits, from, moves);
    var move := Next(limits, w.scan);
    NextWorks(limits, from, w);
    PlayGrows(limits, from, moves, move);
    var next := Scans.Moved(limits, from, w, move);
    if next.scan.Idle? {
      EndIsComplete(limits, from, w);
      more := [move];
    } else {
      var rest := ScanEnds(limits, from, moves + [move]);
      more := [move] + rest;
      assert moves + [move] + rest == moves + more;
    }
  }

  lemma CompleteIsAll(from: Option<Pos>, w: Scans.World, cutoff: nat)
    requires Scans.ScanInv(from, w) && Complete(from, w, cutoff) && cutoff == w.db.nextXid
    ensures w.delivered == Scans.Log(w.db, from)
  {
    var log := Scans.Log(w.db, from);
    assert w.delivered <= w.delivered + Scans.Buffered(w.scan) <= log;
    forall row | row in log
      ensures row in w.delivered
    {
      assert row in Scans.LogRows(w.db, from);
      var k :| k in w.db.table && w.db.table[k] == row;
      assert RowInv(w.db, k);
    }
    Scans.RowOrder();
    ClosedIsPrefix(Scans.RowBefore, log, w.delivered);
  }

  /** When no transaction is writing, a consumer that is not in a scan catches up: it can
      be handed the whole committed log above its start, whatever happened before. */
  lemma CatchesUp(limits: Limits, from: Option<Pos>, moves: seq<Scans.Move>) returns (more: seq<Scans.Move>)
    requires Usable(limits) && Scans.Played(limits, from, moves).Some?
    requires var w := Scans.Played(limits, from, moves).value;
             && w.scan.Idle? && Readable(w.db, limits)
             && (forall t :: 0 <= t < |w.db.txs| ==> !w.db.txs[t].phase.Writing?)
    ensures forall i :: 0 <= i < |more| ==> !more[i].Database?
    ensures Scans.Played(limits, from, moves + more).Some?
    ensures var w, last := Scans.Played(limits, from, moves).value, Scans.Played(limits, from, moves + more).value;
            TableInv(w.db) && last.db == w.db && last.delivered == Scans.Log(w.db, from)
  {
    hide Scans.Played, Scans.Log, TableInv, Complete, Readable;
    var w := Scans.Played(limits, from, moves).value;
    Scans.PlayKeeps(limits, from, moves);
    TableHolds(w.db);
    var open := Scans.Open(w.db.nextXid);
    PlayGrows(limits, from, moves, open);
    var rest := ScanEnds(limits, from, moves + [open]);
    more := [open] + rest;
    assert moves + [open] + rest == moves + more;
    Scans.PlayKeeps(limits, from, moves + more);
    CompleteIsAll(from, Scans.Played(limits, from, moves + more).value, w.db.nextXid);
  }
}
