/** Reading the Postgres `$all` order while transactions settle in any order.

    A consumer opens scans one after another, each resumed behind the last row it
    was handed. A scan fixes a cutoff below which every transaction has settled and
    then fetches pages of committed rows under that cutoff. */
module PostgresScan {
  import opened Wrappers
  import opened Ordering
  import opened PostgresPage
  import opened PostgresStore

  predicate RowBefore(a: Row, b: Row) {
    Before(a.pos, b.pos)
  }

  predicate Above(from: Option<Pos>, pos: Pos) {
    from.None? || Before(from.value, pos)
  }

  /** The condition of the page query. A saved sequence beyond the signed 64-bit
      range of the column is compared by transaction alone. */
  predicate Selected(cutoff: nat, after: Option<Pos>, pos: Pos) {
    && pos.txid < cutoff
    && (after.None? ||
        if after.value.number <= I64_MAX then Before(after.value, pos) else after.value.txid < pos.txid)
  }

  ghost function Committed(db: Db): set<Row> {
    set k | k in db.table :: db.table[k]
  }

  ghost function LogRows(db: Db, from: Option<Pos>): set<Row> {
    set k | k in db.table && Above(from, db.table[k].pos) :: db.table[k]
  }

  ghost function SelectedRows(db: Db, cutoff: nat, after: Option<Pos>): set<Row> {
    set k | k in db.table && Selected(cutoff, after, db.table[k].pos) :: db.table[k]
  }

  lemma RowOrder()
    ensures StrictOrder(RowBefore)
  {
  }

  lemma CommittedTotal(db: Db)
    requires TableInv(db)
    ensures TotalOn(RowBefore, Committed(db))
  {
    forall a, b | a in Committed(db) && b in Committed(db)
      ensures a == b || RowBefore(a, b) || RowBefore(b, a)
    {
      var k :| k in db.table && db.table[k] == a;
      var l :| l in db.table && db.table[l] == b;
      assert RowInv(db, k) && RowInv(db, l) && Ordered(db.table[k], db.table[l]);
    }
  }

  /** The committed log above a position, in `$all` order. */
  ghost function Log(db: Db, from: Option<Pos>): (s: seq<Row>)
    requires TableInv(db)
    ensures Lists(RowBefore, s, LogRows(db, from))
  {
    RowOrder();
    CommittedTotal(db);
    assert LogRows(db, from) <= Committed(db);
    Listing(RowBefore, LogRows(db, from))
  }

  /** What one page query would return without its limits. */
  ghost function Rest(db: Db, cutoff: nat, after: Option<Pos>): (s: seq<Row>)
    requires TableInv(db)
    ensures Lists(RowBefore, s, SelectedRows(db, cutoff, after))
  {
    RowOrder();
    CommittedTotal(db);
    assert SelectedRows(db, cutoff, after) <= Committed(db);
    Listing(RowBefore, SelectedRows(db, cutoff, after))
  }

  function Sizes(rows: seq<Row>): (s: seq<nat>)
    ensures |s| == |rows|
  {
    seq(|rows|, i requires 0 <= i < |rows| => rows[i].event.Bytes())
  }

  ghost function TotalBytes(rows: seq<Row>): nat {
    if rows == [] then 0 else TotalBytes(rows[..|rows| - 1]) + rows[|rows| - 1].event.Bytes()
  }

  lemma {:induction false} TotalIsSum(rows: seq<Row>)
    ensures Sum(Sizes(rows)) == TotalBytes(rows)
  {
    if rows != [] {
      var n := |rows| - 1;
      TotalIsSum(rows[..n]);
      assert Sizes(rows)[..n] == Sizes(rows[..n]);
    }
  }

  /** As many of the rows as the limits allow, and at least one. */
  ghost predicate IsPage(page: seq<Row>, rows: seq<Row>, limits: Limits) {
    && page <= rows
    && |page| <= limits.rows
    && (rows != [] ==> page != [])
    && (TotalBytes(page) <= limits.bytes || (|page| == 1 && page[0].event.Bytes() > limits.bytes))
    && (|page| < |rows| && |page| < limits.rows ==> TotalBytes(rows[..|page| + 1]) > limits.bytes)
  }

  /** What a page query returns of the rows it could. */
  function PageOf(rows: seq<Row>, limits: Limits): (page: seq<Row>)
    requires Usable(limits)
    ensures page <= rows && (page == [] <==> rows == [])
  {
    PageIsPrefix(Sizes(rows), limits);
    rows[..|Page(Sizes(rows), limits)|]
  }

  /** It is bounded by rows and by bytes, and no shorter than they ask for. */
  lemma PageIsBounded(rows: seq<Row>, limits: Limits)
    requires Usable(limits)
    ensures IsPage(PageOf(rows, limits), rows, limits)
  {
    hide Page, TotalBytes, Sum;
    PageIsPrefix(Sizes(rows), limits);
    var page := PageOf(rows, limits);
    TotalIsSum(page);
    assert Sizes(rows)[..|page|] == Sizes(page);
    if |page| < |rows| {
      TotalIsSum(rows[..|page| + 1]);
      assert Sizes(rows)[..|page| + 1] == Sizes(rows[..|page| + 1]);
    }
  }

  ghost function Fetched(db: Db, cutoff: nat, after: Option<Pos>, limits: Limits): (rows: seq<Row>)
    requires TableInv(db) && Usable(limits)
    ensures rows <= Rest(db, cutoff, after)
    ensures rows == [] <==> Rest(db, cutoff, after) == []
  {
    PageOf(Rest(db, cutoff, after), limits)
  }

  /** Every transaction below the cutoff has settled: no open or future one can
      still commit a row there. */
  ghost predicate Settled(db: Db, cutoff: nat) {
    && cutoff <= db.nextXid
    && (forall t :: 0 <= t < |db.txs| && db.txs[t].phase.Writing? ==> cutoff <= db.txs[t].xid)
  }

  // ----- the consumer -----------------------------------------------------------------

  datatype Scan = Idle | Reading(cutoff: nat, rows: seq<Row>)

  datatype World = World(db: Db, delivered: seq<Row>, scan: Scan)

  /** `Fetch` refills an empty buffer, or ends the scan when nothing is left;
      `Deliver` hands out the first buffered row; `Reject` ends the scan with the
      size error of that row; `Abandon` drops the scan. */
  datatype Move = Database(step: Step) | Open(cutoff: nat) | Fetch | Deliver | Reject | Abandon

  function Last(from: Option<Pos>, delivered: seq<Row>): Option<Pos> {
    if delivered == [] then from else Some(delivered[|delivered| - 1].pos)
  }

  ghost predicate Possible(limits: Limits, w: World, move: Move) {
    match move
    case Database(step) => Enabled(w.db, step)
    case Open(cutoff) => w.scan.Idle? && Settled(w.db, cutoff)
    case Fetch => w.scan.Reading? && w.scan.rows == []
    case Deliver => w.scan.Reading? && w.scan.rows != [] && w.scan.rows[0].event.Bytes() <= limits.bytes
    case Reject => w.scan.Reading? && w.scan.rows != [] && w.scan.rows[0].event.Bytes() > limits.bytes
    case Abandon => w.scan.Reading?
  }

  ghost function Moved(limits: Limits, from: Option<Pos>, w: World, move: Move): World
    requires Usable(limits) && TableInv(w.db) && Possible(limits, w, move)
  {
    match move
    case Database(step) => w.(db := After(w.db, step))
    case Open(cutoff) => w.(scan := Scan.Reading(cutoff, []))
    case Fetch =>
      var rows := Fetched(w.db, w.scan.cutoff, Last(from, w.delivered), limits);
      w.(scan := if rows == [] then Idle else w.scan.(rows := rows))
    case Deliver => w.(delivered := w.delivered + [w.scan.rows[0]], scan := w.scan.(rows := w.scan.rows[1..]))
    case Reject => w.(scan := Idle)
    case Abandon => w.(scan := Idle)
  }

  /** The world after a list of moves, if each was possible. Every world reached
      satisfies the table invariant (`PlayKeeps`), so asking for it excludes none. */
  ghost function Played(limits: Limits, from: Option<Pos>, moves: seq<Move>): Option<World>
    requires Usable(limits)
  {
    if moves == [] then Some(World(EMPTY, [], Idle))
    else
      var n := |moves| - 1;
      var w := Played(limits, from, moves[..n]);
      if w.Some? && TableInv(w.value.db) && Possible(limits, w.value, moves[n]) then
        Some(Moved(limits, from, w.value, moves[n]))
      else None
  }

  function Buffered(scan: Scan): seq<Row> {
    if scan.Idle? then [] else scan.rows
  }

  /** `rows` is a part of the log that no transaction can still reach into. */
  ghost predicate Fixed(db: Db, from: Option<Pos>, rows: seq<Row>)
    requires TableInv(db)
  {
    && rows <= Log(db, from)
    && (forall i :: 0 <= i < |rows| ==> Settled(db, rows[i].pos.txid + 1))
  }

  ghost predicate ScanInv(from: Option<Pos>, w: World) {
    && Inv(w.db)
    && Fixed(w.db, from, w.delivered + Buffered(w.scan))
    && (w.scan.Reading? ==> Settled(w.db, w.scan.cutoff))
  }

  // ----- the cutoff -------------------------------------------------------------------

  lemma StaysSettled(db: Db, step: Step, cutoff: nat)
    requires Inv(db) && Enabled(db, step) && Settled(db, cutoff)
    ensures Settled(After(db, step), cutoff)
  {
  }

  /** A step only adds rows, and none below a settled cutoff. */
  lemma RowsArriveAbove(db: Db, step: Step, cutoff: nat)
    requires Inv(db) && Enabled(db, step) && Settled(db, cutoff)
    ensures forall k :: k in db.table ==> k in After(db, step).table && After(db, step).table[k] == db.table[k]
    ensures forall k :: k in After(db, step).table && k !in db.table ==> cutoff <= After(db, step).table[k].pos.txid
  {
    if step.Commit? {
      var tx := db.txs[step.tx];
      assert TxInv(db, tx);
      forall k | k in tx.staged
        ensures k !in db.table && tx.staged[k].pos.txid == tx.xid
      {
        assert StagedRow(db, tx, k);
      }
    }
  }

  lemma WasLogged(db: Db, step: Step, from: Option<Pos>, x: Row, cutoff: nat)
    requires Inv(db) && Enabled(db, step) && TableInv(After(db, step)) && Settled(db, cutoff)
    requires x in Log(After(db, step), from) && x.pos.txid < cutoff
    ensures x in Log(db, from)
  {
    RowsArriveAbove(db, step, cutoff);
    assert x in LogRows(After(db, step), from);
    assert x in LogRows(db, from);
  }

  /** What was fixed stays a prefix of the log whatever commits later. */
  lemma FixedStays(db: Db, step: Step, from: Option<Pos>, rows: seq<Row>)
    requires Inv(db) && Enabled(db, step) && Inv(After(db, step)) && Fixed(db, from, rows)
    ensures Fixed(After(db, step), from, rows)
  {
    var next := After(db, step);
    var before, after := Log(db, from), Log(next, from);
    RowOrder();
    RowsArriveAbove(db, step, 0);
    forall x | x in rows
      ensures x in after
    {
      assert x in before;
      assert x in LogRows(next, from);
    }
    forall x, y | x in after && y in rows && RowBefore(x, y)
      ensures x in rows
    {
      WasLogged(db, step, from, x, y.pos.txid + 1);
      InPrefix(before, rows, x, y);
    }
    ClosedIsPrefix(RowBefore, rows, after);
    forall i | 0 <= i < |rows|
      ensures Settled(next, rows[i].pos.txid + 1)
    {
      StaysSettled(db, step, rows[i].pos.txid + 1);
    }
  }

  /** A prefix of an ascending list holds everything below any of its elements. */
  lemma InPrefix(whole: seq<Row>, part: seq<Row>, x: Row, y: Row)
    requires Ascending(RowBefore, whole) && part <= whole && x in whole && y in part && RowBefore(x, y)
    ensures x in part
  {
  }

  // ----- one page ---------------------------------------------------------------------

  /** The branch for a sequence beyond the column's range selects the same rows. */
  lemma SelectedIsAbove(db: Db, cutoff: nat, after: Option<Pos>, k: Key)
    requires Inv(db) && k in db.table
    ensures Selected(cutoff, after, db.table[k].pos) <==> db.table[k].pos.txid < cutoff && Above(after, db.table[k].pos)
  {
    assert RowInv(db, k);
  }

  /** Rows above the last delivered one and under the cutoff continue the log. */
  lemma RestContinues(db: Db, cutoff: nat, from: Option<Pos>, delivered: seq<Row>)
    requires Inv(db) && Settled(db, cutoff) && Fixed(db, from, delivered)
    ensures Fixed(db, from, delivered + Rest(db, cutoff, Last(from, delivered)))
    ensures forall r :: r in Log(db, from) && r.pos.txid < cutoff ==>
              r in delivered + Rest(db, cutoff, Last(from, delivered))
  {
    hide TxInv, Apart, RowInv, Ordered, Above, Selected, LogRows, SelectedRows;
    var after := Last(from, delivered);
    var log, rest := Log(db, from), Rest(db, cutoff, after);
    var s := delivered + rest;
    RowOrder();
    forall x | x in s
      ensures x in log
    {
      if x in rest {
        RestIsLogged(db, cutoff, from, delivered, x);
      }
    }
    RestAscends(db, cutoff, from, delivered);
    forall r | r in log && r.pos.txid < cutoff
      ensures r in s
    {
      LoggedIsReached(db, cutoff, from, delivered, r);
    }
    forall y | y in rest
      ensures y.pos.txid < cutoff
    {
      RestIsBelow(db, cutoff, after, y);
    }
    forall x, y | x in log && y in s && RowBefore(x, y)
      ensures x in s
    {
      if y in delivered {
        InPrefix(log, delivered, x, y);
      }
    }
    ClosedIsPrefix(RowBefore, s, log);
    forall i | |delivered| <= i < |s|
      ensures s[i].pos.txid < cutoff
    {
      assert s[i] in rest;
    }
  }

  lemma RestIsBelow(db: Db, cutoff: nat, after: Option<Pos>, row: Row)
    requires TableInv(db) && row in Rest(db, cutoff, after)
    ensures row.pos.txid < cutoff
  {
    assert row in SelectedRows(db, cutoff, after);
  }

  lemma RestIsLogged(db: Db, cutoff: nat, from: Option<Pos>, delivered: seq<Row>, x: Row)
    requires Inv(db) && delivered <= Log(db, from) && x in Rest(db, cutoff, Last(from, delivered))
    ensures x in Log(db, from)
    ensures delivered != [] ==> RowBefore(delivered[|delivered| - 1], x)
  {
  }

  lemma RestAscends(db: Db, cutoff: nat, from: Option<Pos>, delivered: seq<Row>)
    requires Inv(db) && delivered <= Log(db, from)
    ensures Ascending(RowBefore, delivered + Rest(db, cutoff, Last(from, delivered)))
  {
    var log, rest := Log(db, from), Rest(db, cutoff, Last(from, delivered));
    var s := delivered + rest;
    forall i, j | 0 <= i < j < |s|
      ensures RowBefore(s[i], s[j])
    {
      if i < |delivered| <= j {
        assert s[j] in rest;
        RestIsLogged(db, cutoff, from, delivered, s[j]);
        assert i == |delivered| - 1 || RowBefore(log[i], log[|delivered| - 1]);
      }
    }
  }

  lemma LoggedIsReached(db: Db, cutoff: nat, from: Option<Pos>, delivered: seq<Row>, r: Row)
    requires Inv(db) && delivered <= Log(db, from) && r in Log(db, from) && r.pos.txid < cutoff
    ensures r in delivered + Rest(db, cutoff, Last(from, delivered))
  {
    var log, after := Log(db, from), Last(from, delivered);
    var i :| 0 <= i < |log| && log[i] == r;
    if i < |delivered| {
      assert delivered[i] == r;
    } else {
      assert r in LogRows(db, from);
      var k :| k in db.table && db.table[k] == r && Above(from, r.pos);
      assert delivered != [] ==> RowBefore(log[|delivered| - 1], log[i]);
      SelectedIsAbove(db, cutoff, after, k);
      assert r in SelectedRows(db, cutoff, after);
    }
  }

  lemma FixedPrefix(db: Db, from: Option<Pos>, part: seq<Row>, rows: seq<Row>)
    requires TableInv(db) && Fixed(db, from, rows) && part <= rows
    ensures Fixed(db, from, part)
  {
  }

  lemma FetchContinues(limits: Limits, from: Option<Pos>, w: World)
    requires Usable(limits) && ScanInv(from, w) && Possible(limits, w, Fetch)
    ensures ScanInv(from, Moved(limits, from, w, Fetch))
  {
    var after := Last(from, w.delivered);
    assert w.delivered + [] == w.delivered;
    RestContinues(w.db, w.scan.cutoff, from, w.delivered);
    var rows := Fetched(w.db, w.scan.cutoff, after, limits);
    FixedPrefix(w.db, from, w.delivered + rows, w.delivered + Rest(w.db, w.scan.cutoff, after));
  }

  lemma MoveKeeps(limits: Limits, from: Option<Pos>, w: World, move: Move)
    requires Usable(limits) && ScanInv(from, w) && Possible(limits, w, move)
    ensures ScanInv(from, Moved(limits, from, w, move))
  {
    var s := w.delivered + Buffered(w.scan);
    var next := Moved(limits, from, w, move);
    var t := next.delivered + Buffered(next.scan);
    match move {
      case Database(step) =>
        StepKeeps(w.db, step);
        FixedStays(w.db, step, from, s);
        if w.scan.Reading? {
          StaysSettled(w.db, step, w.scan.cutoff);
        }
      case Fetch =>
        FetchContinues(limits, from, w);
      case Open(_) =>
        assert t == s;
      case Deliver =>
        assert t == s;
      case Reject =>
        assert t == s[..|w.delivered|];
      case Abandon =>
        assert t == s[..|w.delivered|];
    }
  }

  lemma {:induction false} PlayKeeps(limits: Limits, from: Option<Pos>, moves: seq<Move>)
    requires Usable(limits) && Played(limits, from, moves).Some?
    ensures ScanInv(from, Played(limits, from, moves).value)
  {
    if moves != [] {
      var n := |moves| - 1;
      PlayKeeps(limits, from, moves[..n]);
      MoveKeeps(limits, from, Played(limits, from, moves[..n]).value, moves[n]);
    }
  }

  // ----- what a consumer relies on ------------------------------------------------------

  lemma {:induction false} PlayGrows(limits: Limits, from: Option<Pos>, moves: seq<Move>, more: seq<Move>)
    requires Usable(limits) && Played(limits, from, moves + more).Some?
    ensures Played(limits, from, moves).Some?
    ensures Played(limits, from, moves).value.delivered <= Played(limits, from, moves + more).value.delivered
    decreases |more|
  {
    if more == [] {
      assert moves + more == moves;
    } else {
      var n := |more| - 1;
      assert (moves + more)[..|moves + more| - 1] == moves + more[..n];
      PlayGrows(limits, from, moves, more[..n]);
    }
  }

  /** At every point of every run, what the consumer was handed is a prefix of the
      committed log above its starting position, as it is then and as it will be
      after anything that happens later: nothing skipped, repeated or reordered. */
  lemma DeliveredIsPrefix(limits: Limits, from: Option<Pos>, moves: seq<Move>, more: seq<Move>)
    requires Usable(limits) && Played(limits, from, moves + more).Some?
    ensures Played(limits, from, moves).Some? && Inv(Played(limits, from, moves + more).value.db)
    ensures Played(limits, from, moves).value.delivered <= Log(Played(limits, from, moves + more).value.db, from)
  {
    PlayGrows(limits, from, moves, more);
    PlayKeeps(limits, from, moves + more);
  }

  /** A scan that ends has handed over every row below its cutoff, and no later
      commit adds one there. */
  lemma EndedScanIsComplete(limits: Limits, from: Option<Pos>, moves: seq<Move>, row: Row)
    requires Usable(limits) && Played(limits, from, moves).Some?
    requires var w := Played(limits, from, moves).value;
             && Possible(limits, w, Fetch) && TableInv(w.db) && Moved(limits, from, w, Fetch).scan.Idle?
             && row in Log(w.db, from) && row.pos.txid < w.scan.cutoff
    ensures row in Played(limits, from, moves).value.delivered
  {
    var w := Played(limits, from, moves).value;
    PlayKeeps(limits, from, moves);
    assert w.delivered + [] == w.delivered;
    LoggedIsReached(w.db, w.scan.cutoff, from, w.delivered, row);
  }

  /** A size error names the very next row of the log: it is not skipped. */
  lemma RejectedIsNext(limits: Limits, from: Option<Pos>, moves: seq<Move>)
    requires Usable(limits) && Played(limits, from, moves).Some?
    requires Possible(limits, Played(limits, from, moves).value, Reject)
    ensures var w := Played(limits, from, moves).value;
            && Inv(w.db)
            && |w.delivered| < |Log(w.db, from)|
            && Log(w.db, from)[|w.delivered|].event.Bytes() > limits.bytes
  {
    var w := Played(limits, from, moves).value;
    PlayKeeps(limits, from, moves);
    assert (w.delivered + w.scan.rows)[|w.delivered|] == w.scan.rows[0];
  }

  // ----- rows accepted by append never trip the reader ------------------------------------

  ghost predicate Small(db: Db, limit: nat) {
    && (forall k :: k in db.table ==> db.table[k].event.Bytes() <= limit)
    && (forall t, k :: 0 <= t < |db.txs| && k in db.txs[t].staged ==> db.txs[t].staged[k].event.Bytes() <= limit)
    && (forall t, i :: 0 <= t < |db.txs| && 0 <= i < |db.txs[t].events| ==> db.txs[t].events[i].Bytes() <= limit)
  }

  /** Every append of the run passed the size check under these limits. */
  ghost predicate Checked(moves: seq<Move>, limits: Limits) {
    forall m :: 0 <= m < |moves| && moves[m].Database? && moves[m].step.Begin? ==> Accepted(moves[m].step.events, limits)
  }

  lemma StaysSmall(db: Db, step: Step, limit: nat)
    requires Enabled(db, step) && Small(db, limit)
    requires step.Begin? ==> forall i :: 0 <= i < |step.events| ==> step.events[i].Bytes() <= limit
    ensures Small(After(db, step), limit)
  {
  }

  /** The append's check accepts exactly the events a reader under the same limit takes. */
  lemma AcceptedExactly(events: seq<Event>, limits: Limits)
    ensures Accepted(events, limits) <==> forall i :: 0 <= i < |events| ==> events[i].Bytes() <= limits.bytes
  {
    forall i | 0 <= i < |events|
      ensures Within(events[i].Lengths(), limits) <==> events[i].Bytes() <= limits.bytes
    {
      AccountedAlike(events[i]);
    }
  }

  lemma {:induction false} PlayIsSmall(limits: Limits, from: Option<Pos>, moves: seq<Move>, writer: Limits)
    requires Usable(limits) && Played(limits, from, moves).Some? && Checked(moves, writer)
    ensures Small(Played(limits, from, moves).value.db, writer.bytes)
  {
    if moves != [] {
      var n := |moves| - 1;
      PlayIsSmall(limits, from, moves[..n], writer);
      if moves[n].Database? {
        if moves[n].step.Begin? {
          AcceptedExactly(moves[n].step.events, writer);
        }
        StaysSmall(Played(limits, from, moves[..n]).value.db, moves[n].step, writer.bytes);
      }
    }
  }

  /** A reader whose limit is at least the writers' never rejects a row their append's
      size check accepted. */
  lemma CheckedIsNeverRejected(limits: Limits, writer: Limits, from: Option<Pos>, moves: seq<Move>)
    requires Usable(limits) && Played(limits, from, moves).Some?
    requires Checked(moves, writer) && writer.bytes <= limits.bytes
    ensures !Possible(limits, Played(limits, from, moves).value, Reject)
  {
    var w := Played(limits, from, moves).value;
    PlayKeeps(limits, from, moves);
    PlayIsSmall(limits, from, moves, writer);
    if w.scan.Reading? && w.scan.rows != [] {
      var row := w.scan.rows[0];
      assert (w.delivered + w.scan.rows)[|w.delivered|] == row;
      assert row in Log(w.db, from);
      assert row in LogRows(w.db, from);
    }
  }

  // ----- `$all` restricted to a stream ------------------------------------------------------

  ghost function Only(rows: seq<Row>, stream: Stream): (r: seq<Row>)
    ensures forall x :: x in r <==> x in rows && x.event.key.stream == stream
  {
    if rows == [] then []
    else
      var n := |rows| - 1;
      var init := Only(rows[..n], stream);
      if rows[n].event.key.stream == stream then init + [rows[n]] else init
  }

  lemma {:induction false} OnlyAscends(rows: seq<Row>, stream: Stream)
    requires Ascending(RowBefore, rows)
    ensures Ascending(RowBefore, Only(rows, stream))
  {
    if rows != [] {
      var n := |rows| - 1;
      var init := Only(rows[..n], stream);
      OnlyAscends(rows[..n], stream);
      forall x | x in init
        ensures RowBefore(x, rows[n])
      {
        var i :| 0 <= i < n && rows[..n][i] == x;
      }
    }
  }

  lemma {:induction false} HeadExists(db: Db, stream: Stream, keys: set<Key>) returns (head: nat)
    requires keys <= db.table.Keys
    ensures head == 0 || Key(stream, head) in keys
    ensures forall k :: k in keys && k.stream == stream ==> k.version <= head
    decreases |keys|
  {
    head := 0;
    if keys != {} {
      var k :| k in keys;
      head := HeadExists(db, stream, keys - {k});
      if k.stream == stream && k.version > head {
        head := k.version;
      }
    }
  }

  ghost predicate HasHead(db: Db, stream: Stream, head: nat) {
    forall v: nat :: Key(stream, v) in db.table <==> 0 < v <= head
  }

  /** The head an append compares with is the number of versions there are. */
  lemma HeadIsExactly(db: Db, stream: Stream, head: nat)
    requires TableInv(db)
    ensures IsHead(db.table, stream, head) <==> HasHead(db, stream, head)
  {
    if IsHead(db.table, stream, head) {
      forall v: nat
        ensures Key(stream, v) in db.table <==> 0 < v <= head
      {
        if Key(stream, v) in db.table {
          assert RowInv(db, Key(stream, v));
        } else if 0 < v <= head {
          Downward(db, stream, head, v);
        }
      }
    } else if HasHead(db, stream, head) {
      forall k | k in db.table && k.stream == stream
        ensures k.version <= head
      {
        assert k == Key(stream, k.version);
      }
    }
  }

  /** The versions above `low` up to `high` are stored. */
  ghost predicate Stored(db: Db, stream: Stream, low: nat, high: nat) {
    forall v: nat :: low < v <= high ==> Key(stream, v) in db.table
  }

  ghost function Slice(db: Db, stream: Stream, low: nat, high: nat): (s: seq<Row>)
    requires Stored(db, stream, low, high)
    ensures |s| == if low <= high then high - low else 0
  {
    if low <= high then seq(high - low, i requires 0 <= i < high - low => db.table[Key(stream, low + 1 + i)]) else []
  }

  /** The stream itself: its rows by version. */
  ghost function Versions(db: Db, stream: Stream, head: nat): (s: seq<Row>)
    requires HasHead(db, stream, head)
    ensures |s| == head
  {
    Slice(db, stream, 0, head)
  }

  lemma VersionsAscend(db: Db, stream: Stream, head: nat)
    requires TableInv(db) && HasHead(db, stream, head)
    ensures Ascending(RowBefore, Versions(db, stream, head))
  {
    forall i, j | 0 <= i < j < head
      ensures RowBefore(Versions(db, stream, head)[i], Versions(db, stream, head)[j])
    {
      var k, l := Key(stream, i + 1), Key(stream, j + 1);
      assert RowInv(db, k) && RowInv(db, l) && Ordered(db.table[k], db.table[l]);
    }
  }

  lemma VersionsAreLogged(db: Db, stream: Stream, head: nat, x: Row)
    requires TableInv(db) && HasHead(db, stream, head)
    ensures x in Only(Log(db, None), stream) <==> x in Versions(db, stream, head)
  {
    hide Only, Log, Ordered;
    var direct := Versions(db, stream, head);
    if x in Only(Log(db, None), stream) {
      assert x in LogRows(db, None);
      var k :| k in db.table && db.table[k] == x;
      assert RowInv(db, k);
      assert direct[k.version - 1] == x;
    }
    if x in direct {
      var i :| 0 <= i < head && direct[i] == x;
      assert RowInv(db, Key(stream, i + 1));
      assert x in LogRows(db, None);
    }
  }

  /** In every run a stream's committed versions are exactly 1..n, and the `$all`
      order restricted to the stream is its version order. */
  lemma StreamsAreGapFree(steps: seq<Step>, stream: Stream) returns (head: nat)
    requires Ran(steps).Some?
    ensures var db := Ran(steps).value;
            && Inv(db)
            && HasHead(db, stream, head)
            && Only(Log(db, None), stream) == Versions(db, stream, head)
  {
    var db := Ran(steps).value;
    RunKeeps(steps);
    head := HeadExists(db, stream, db.table.Keys);
    forall v: nat
      ensures Key(stream, v) in db.table <==> 0 < v <= head
    {
      if Key(stream, v) in db.table {
        assert RowInv(db, Key(stream, v));
      } else if 0 < v <= head {
        Downward(db, stream, head, v);
      }
    }
    StreamOrder(db, stream, head);
  }

  lemma StreamOrder(db: Db, stream: Stream, head: nat)
    requires TableInv(db) && HasHead(db, stream, head)
    ensures Only(Log(db, None), stream) == Versions(db, stream, head)
  {
    var only, direct := Only(Log(db, None), stream), Versions(db, stream, head);
    OnlyAscends(Log(db, None), stream);
    VersionsAscend(db, stream, head);
    forall x {
      VersionsAreLogged(db, stream, head, x);
    }
    RowOrder();
    ListingIsUnique(RowBefore, only, direct, set x | x in direct);
  }

  lemma {:induction false} CommittedStays(steps: seq<Step>, more: seq<Step>)
    requires Ran(steps + more).Some?
    ensures Ran(steps).Some?
    ensures forall k :: k in Ran(steps).value.table ==>
              k in Ran(steps + more).value.table && Ran(steps + more).value.table[k] == Ran(steps).value.table[k]
    decreases |more|
  {
    if more == [] {
      assert steps + more == steps;
    } else {
      var n := |more| - 1;
      assert (steps + more)[..|steps + more| - 1] == steps + more[..n];
      CommittedStays(steps, more[..n]);
      RunKeeps(steps + more[..n]);
      RowsArriveAbove(Ran(steps + more[..n]).value, more[n], 0);
    }
  }

  /** A stream read fixes its upper bound at the head it sees: whatever commits
      while it fetches its pages, the rows up to there are those it started with. */
  lemma StreamReadRepeats(steps: seq<Step>, more: seq<Step>, stream: Stream) returns (head: nat, later: nat)
    requires Ran(steps + more).Some?
    ensures Ran(steps).Some? && HasHead(Ran(steps).value, stream, head)
    ensures HasHead(Ran(steps + more).value, stream, later) && head <= later
    ensures Versions(Ran(steps + more).value, stream, later)[..head] == Versions(Ran(steps).value, stream, head)
  {
    hide Inv, Only, Log, Ran;
    CommittedStays(steps, more);
    head := StreamsAreGapFree(steps, stream);
    later := StreamsAreGapFree(steps + more, stream);
    var db, next := Ran(steps).value, Ran(steps + more).value;
    assert 0 < head ==> Key(stream, head) in db.table;
    forall i | 0 <= i < head
      ensures Versions(next, stream, later)[i] == Versions(db, stream, head)[i]
    {
      assert Key(stream, i + 1) in db.table;
    }
  }
}
