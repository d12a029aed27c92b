/** Reading one Postgres stream page by page while transactions go on.

    A read captures the stream's head when it opens and then fetches its pages, each
    by a query of its own against the table as it is by then. */
module PostgresStreamRead {
  import opened Wrappers
  import opened Ordering
  import opened PostgresPage
  import opened PostgresStore
  import Scans = PostgresScan

  predicate VersionBefore(a: Row, b: Row) {
    a.event.key.version < b.event.key.version
  }

  /** The condition of the page query. */
  predicate Asked(stream: Stream, lower: nat, upper: nat, after: Option<nat>, key: Key) {
    && key.stream == stream
    && lower <= key.version <= upper
    && (after.None? || after.value < key.version)
  }

  ghost function AskedRows(db: Db, stream: Stream, lower: nat, upper: nat, after: Option<nat>): set<Row> {
    set k | k in db.table && Asked(stream, lower, upper, after, k) :: db.table[k]
  }

  lemma AskedTotal(db: Db, stream: Stream, lower: nat, upper: nat, after: Option<nat>)
    requires TableInv(db)
    ensures StrictOrder(VersionBefore) && TotalOn(VersionBefore, AskedRows(db, stream, lower, upper, after))
  {
    var rows := AskedRows(db, stream, lower, upper, after);
    forall a, b | a in rows && b in rows
      ensures a == b || VersionBefore(a, b) || VersionBefore(b, a)
    {
      var k :| k in db.table && Asked(stream, lower, upper, after, k) && db.table[k] == a;
      var l :| l in db.table && Asked(stream, lower, upper, after, l) && db.table[l] == b;
      assert RowInv(db, k) && RowInv(db, l);
    }
  }

  /** What one page query would return without its limits. */
  ghost function Remaining(db: Db, stream: Stream, lower: nat, upper: nat, after: Option<nat>): (s: seq<Row>)
    requires TableInv(db)
    ensures Lists(VersionBefore, s, AskedRows(db, stream, lower, upper, after))
  {
    AskedTotal(db, stream, lower, upper, after);
    Listing(VersionBefore, AskedRows(db, stream, lower, upper, after))
  }

  // ----- the reader -------------------------------------------------------------------------

  /** `upper` is the head captured at the opening, `after` the last version handed out,
      `rows` what is left of the page. */
  datatype Read =
    | Unopened
    | Reading(upper: nat, after: Option<nat>, rows: seq<Row>)
    | Ended
    | Failed(error: SizeError)

  datatype World = World(db: Db, delivered: seq<Row>, read: Read)

  datatype Move = Database(step: Step) | Open(head: nat) | Fetch | Deliver | Reject

  /** The read: its stream, the version it starts from and the limits of its pages. */
  datatype Query = Query(stream: Stream, from: nat, limits: Limits)

  /** A version is nonzero in the original. */
  predicate Proper(q: Query) {
    0 < q.from && Usable(q.limits)
  }

  ghost predicate Possible(q: Query, w: World, move: Move) {
    match move
    case Database(step) => Enabled(w.db, step)
    case Open(head) => w.read.Unopened? && IsHead(w.db.table, q.stream, head)
    case Fetch => w.read.Reading? && w.read.rows == []
    case Deliver => w.read.Reading? && w.read.rows != [] && w.read.rows[0].event.Bytes() <= q.limits.bytes
    case Reject => w.read.Reading? && w.read.rows != [] && w.read.rows[0].event.Bytes() > q.limits.bytes
  }

  ghost function Moved(q: Query, w: World, move: Move): World
    requires Proper(q) && TableInv(w.db) && Possible(q, w, move)
  {
    match move
    case Database(step) => w.(db := After(w.db, step))
    case Open(head) => w.(read := if head == 0 then Ended else Read.Reading(head, None, []))
    case Fetch =>
      var rows := Scans.PageOf(Remaining(w.db, q.stream, q.from, w.read.upper, w.read.after), q.limits);
      w.(read := if rows == [] then Ended else w.read.(rows := rows))
    case Deliver =>
      var row := w.read.rows[0];
      w.(delivered := w.delivered + [row], read := w.read.(after := Some(row.event.key.version), rows := w.read.rows[1..]))
    case Reject => w.(read := Failed(RowLimit(w.read.rows[0].event.Bytes(), q.limits.bytes)))
  }

  /** The world after a list of moves, if each was possible. Every world reached
      satisfies the table invariant (`PlayKeeps`), so asking for it excludes none. */
  ghost function Played(q: Query, moves: seq<Move>): Option<World>
    requires Proper(q)
  {
    if moves == [] then Some(World(EMPTY, [], Unopened))
    else
      var n := |moves| - 1;
      var w := Played(q, moves[..n]);
      if w.Some? && TableInv(w.value.db) && Possible(q, w.value, moves[n]) then Some(Moved(q, w.value, moves[n]))
      else None
  }

  // ----- the part of the stream it reads --------------------------------------------------------

  lemma SliceAt(db: Db, stream: Stream, low: nat, high: nat, i: nat)
    requires TableInv(db) && Scans.Stored(db, stream, low, high) && low + i < high
    ensures Key(stream, low + 1 + i) in db.table
    ensures Scans.Slice(db, stream, low, high)[i] == db.table[Key(stream, low + 1 + i)]
    ensures Scans.Slice(db, stream, low, high)[i].event.key == Key(stream, low + 1 + i)
  {
    assert RowInv(db, Key(stream, low + 1 + i));
  }

  lemma SliceAscends(db: Db, stream: Stream, low: nat, high: nat)
    requires TableInv(db) && Scans.Stored(db, stream, low, high)
    ensures Ascending(VersionBefore, Scans.Slice(db, stream, low, high))
  {
    var s := Scans.Slice(db, stream, low, high);
    forall i, j | 0 <= i < j < |s|
      ensures VersionBefore(s[i], s[j])
    {
      SliceAt(db, stream, low, high, i);
      SliceAt(db, stream, low, high, j);
    }
  }

  /** What the query asks for is that slice, whichever of its two lower bounds counts. */
  lemma RemainingIsSlice(db: Db, stream: Stream, lower: nat, upper: nat, after: Option<nat>, low: nat)
    requires TableInv(db) && Scans.Stored(db, stream, low, upper)
    requires low + 1 == if after.None? || after.value < lower then lower else after.value + 1
    ensures Remaining(db, stream, lower, upper, after) == Scans.Slice(db, stream, low, upper)
  {
    var asked, s := AskedRows(db, stream, lower, upper, after), Scans.Slice(db, stream, low, upper);
    AskedTotal(db, stream, lower, upper, after);
    SliceAscends(db, stream, low, upper);
    forall x
      ensures x in s <==> x in asked
    {
      if x in s {
        var i: nat :| i < |s| && s[i] == x;
        SliceAt(db, stream, low, upper, i);
        assert Asked(stream, lower, upper, after, Key(stream, low + 1 + i));
      }
      if x in asked {
        var k :| k in db.table && Asked(stream, lower, upper, after, k) && db.table[k] == x;
        assert low < k.version;
        SliceAt(db, stream, low, upper, k.version - low - 1);
      }
    }
    ListingIsUnique(VersionBefore, Remaining(db, stream, lower, upper, after), s, asked);
  }

  lemma SliceStays(db: Db, step: Step, stream: Stream, low: nat, high: nat)
    requires Inv(db) && Enabled(db, step) && Scans.Stored(db, stream, low, high)
    ensures Scans.Stored(After(db, step), stream, low, high)
    ensures Scans.Slice(After(db, step), stream, low, high) == Scans.Slice(db, stream, low, high)
  {
    Scans.RowsArriveAbove(db, step, 0);
  }

  lemma HeadIsStored(db: Db, stream: Stream, head: nat)
    requires TableInv(db) && IsHead(db.table, stream, head)
    ensures Scans.Stored(db, stream, 0, head)
  {
    forall v: nat | 0 < v <= head
      ensures Key(stream, v) in db.table
    {
      Downward(db, stream, head, v);
    }
  }

  // ----- the invariant --------------------------------------------------------------------------

  /** The read is about `whole`, and has handed out all of it but what lies ahead. */
  ghost predicate ReadsOf(q: Query, whole: seq<Row>, w: World)
    requires Proper(q)
  {
    && Inv(w.db)
    && w.delivered <= whole
    && (forall i :: 0 <= i < |w.delivered| ==> w.delivered[i].event.Bytes() <= q.limits.bytes)
    && match w.read
       case Unopened => false
       case Reading(upper, after, rows) =>
         && Scans.Stored(w.db, q.stream, q.from - 1, upper)
         && whole == Scans.Slice(w.db, q.stream, q.from - 1, upper)
         && w.delivered + rows <= whole
         && after == (if w.delivered == [] then None else Some(q.from - 1 + |w.delivered|))
       case Ended => w.delivered == whole
       case Failed(error) =>
         && |w.delivered| < |whole|
         && whole[|w.delivered|].event.Bytes() > q.limits.bytes
         && error == RowLimit(whole[|w.delivered|].event.Bytes(), q.limits.bytes)
  }

  /** Each query, whenever it comes, finds the rows not handed out yet. */
  lemma RemainingIsRest(q: Query, whole: seq<Row>, w: World)
    requires Proper(q) && ReadsOf(q, whole, w) && w.read.Reading?
    ensures Remaining(w.db, q.stream, q.from, w.read.upper, w.read.after) == whole[|w.delivered|..]
  {
    hide Remaining, Inv, TableInv;
    TableHolds(w.db);
    var low := q.from - 1 + |w.delivered|;
    RemainingIsSlice(w.db, q.stream, q.from, w.read.upper, w.read.after, low);
    SliceEnd(w.db, q.stream, q.from - 1, w.read.upper, low);
  }

  lemma TableHolds(db: Db)
    requires Inv(db)
    ensures TableInv(db)
  {
  }

  lemma SliceEnd(db: Db, stream: Stream, low: nat, high: nat, mid: nat)
    requires Scans.Stored(db, stream, low, high) && low <= mid && (mid <= high || mid == low)
    ensures Scans.Stored(db, stream, mid, high)
    ensures Scans.Slice(db, stream, mid, high) == Scans.Slice(db, stream, low, high)[mid - low..]
  {
  }

  lemma FetchKeeps(q: Query, whole: seq<Row>, w: World)
    requires Proper(q) && ReadsOf(q, whole, w) && Possible(q, w, Fetch)
    ensures ReadsOf(q, whole, Moved(q, w, Fetch))
  {
    hide Remaining, Scans.PageOf, Scans.Stored;
    RemainingIsRest(q, whole, w);
    assert w.delivered + whole[|w.delivered|..] == whole;
  }

  lemma DeliverKeeps(q: Query, whole: seq<Row>, w: World)
    requires Proper(q) && ReadsOf(q, whole, w) && Possible(q, w, Deliver)
    ensures ReadsOf(q, whole, Moved(q, w, Deliver))
  {
    hide Scans.Slice, Scans.Stored, Inv;
    TableHolds(w.db);
    var Reading(upper, after, rows) := w.read;
    assert w.delivered + [rows[0]] + rows[1..] == w.delivered + rows;
    assert whole[|w.delivered|] == rows[0];
    SliceAt(w.db, q.stream, q.from - 1, upper, |w.delivered|);
  }

  lemma MoveKeeps(q: Query, whole: seq<Row>, w: World, move: Move)
    requires Proper(q) && ReadsOf(q, whole, w) && Possible(q, w, move)
    ensures ReadsOf(q, whole, Moved(q, w, move))
  {
    match move {
      case Database(step) =>
        StepKeeps(w.db, step);
        if w.read.Reading? {
          SliceStays(w.db, step, q.stream, q.from - 1, w.read.upper);
        }
      case Fetch => FetchKeeps(q, whole, w);
      case Deliver => DeliverKeeps(q, whole, w);
      case Reject =>
        assert (w.delivered + w.read.rows)[|w.delivered|] == w.read.rows[0];
    }
  }

  lemma OpenReads(q: Query, w: World, head: nat)
    requires Proper(q) && Inv(w.db) && w.delivered == [] && Possible(q, w, Open(head))
    ensures Scans.Stored(w.db, q.stream, q.from - 1, head)
    ensures ReadsOf(q, Scans.Slice(w.db, q.stream, q.from - 1, head), Moved(q, w, Open(head)))
  {
    HeadIsStored(w.db, q.stream, head);
  }

  lemma {:induction false} PlayKeeps(q: Query, moves: seq<Move>)
    requires Proper(q) && Played(q, moves).Some?
    ensures Inv(Played(q, moves).value.db)
    ensures Played(q, moves).value.read.Unopened? ==> Played(q, moves).value.delivered == []
  {
    if moves != [] {
      var n := |moves| - 1;
      PlayKeeps(q, moves[..n]);
      if moves[n].Database? {
        StepKeeps(Played(q, moves[..n]).value.db, moves[n].step);
      }
    }
  }

  // ----- what a reader gets ---------------------------------------------------------------------

  /** At every moment of every run, whatever commits between the opening and any page, the
      read has handed out a prefix of the versions from its start to the head it captured,
      as they were at the opening. When it ends it has handed out all of them; when it
      fails, all before the first row that is too large, which it names. */
  lemma {:induction false} StreamReadIsWhole(q: Query, moves: seq<Move>, head: nat, more: seq<Move>)
    requires Proper(q) && Played(q, moves + [Open(head)] + more).Some?
    ensures Played(q, moves).Some? && Scans.Stored(Played(q, moves).value.db, q.stream, q.from - 1, head)
    ensures ReadsOf(q, Scans.Slice(Played(q, moves).value.db, q.stream, q.from - 1, head),
                    Played(q, moves + [Open(head)] + more).value)
    decreases |more|
  {
    var all := moves + [Open(head)] + more;
    if more == [] {
      assert all[..|all| - 1] == moves;
      PlayKeeps(q, moves);
      OpenReads(q, Played(q, moves).value, head);
    } else {
      var n := |more| - 1;
      assert all[..|all| - 1] == moves + [Open(head)] + more[..n];
      StreamReadIsWhole(q, moves, head, more[..n]);
      var whole := Scans.Slice(Played(q, moves).value.db, q.stream, q.from - 1, head);
      MoveKeeps(q, whole, Played(q, all[..|all| - 1]).value, more[n]);
    }
  }

  /** A read whose limit is at least the writers' never fails on a row their append's size
      check accepted. */
  lemma {:induction false} CheckedNeverFails(q: Query, writer: Limits, moves: seq<Move>)
    requires Proper(q) && Played(q, moves).Some? && writer.bytes <= q.limits.bytes
    requires forall m :: 0 <= m < |moves| && moves[m].Database? && moves[m].step.Begin? ==>
               Accepted(moves[m].step.events, writer)
    ensures Scans.Small(Played(q, moves).value.db, writer.bytes)
    ensures !Played(q, moves).value.read.Failed?
    ensures Played(q, moves).value.read.Reading? ==>
              forall r :: r in Played(q, moves).value.read.rows ==> r.event.Bytes() <= writer.bytes
  {
    if moves != [] {
      var n := |moves| - 1;
      var w := Played(q, moves[..n]).value;
      CheckedNeverFails(q, writer, moves[..n]);
      match moves[n] {
        case Database(step) =>
          if step.Begin? {
            Scans.AcceptedExactly(step.events, writer);
          }
          Scans.StaysSmall(w.db, step, writer.bytes);
        case Fetch =>
          var rows := Remaining(w.db, q.stream, q.from, w.read.upper, w.read.after);
          assert forall r :: r in Scans.PageOf(rows, q.limits) ==> r in rows;
        case _ =>
      }
    }
  }

  /** The read's own next move. */
  function Next(q: Query, read: Read): Move
    requires read.Reading?
  {
    if read.rows == [] then Fetch else if read.rows[0].event.Bytes() <= q.limits.bytes then Deliver else Reject
  }

  lemma NextKeeps(q: Query, whole: seq<Row>, w: World)
    requires Proper(q) && ReadsOf(q, whole, w) && w.read.Reading?
    ensures TableInv(w.db) && Possible(q, w, Next(q, w.read)) && !Next(q, w.read).Database?
    ensures var next := Moved(q, w, Next(q, w.read));
            && ReadsOf(q, whole, next)
            && |w.delivered| <= |next.delivered|
            && (|w.delivered| == |next.delivered| ==> Refills(next.read) < Refills(w.read))
  {
    hide Remaining, Scans.PageOf, Scans.Stored;
    MoveKeeps(q, whole, w, Next(q, w.read));
  }

  /** Orders the moves between two deliveries. */
  function Refills(read: Read): nat {
    if !read.Reading? then 0 else if read.rows == [] then 2 else 1
  }

  lemma LastIs(q: Query, whole: seq<Row>, w: World)
    requires Proper(q) && ReadsOf(q, whole, w)
    ensures |w.delivered| <= |whole|
    ensures !w.read.Reading? ==>
              (w.read.Ended? <==> forall i :: 0 <= i < |whole| ==> whole[i].event.Bytes() <= q.limits.bytes)
  {
  }

  lemma PlayGrows(q: Query, moves: seq<Move>, move: Move)
    requires Proper(q) && Played(q, moves).Some?
    requires TableInv(Played(q, moves).value.db) && Possible(q, Played(q, moves).value, move)
    ensures Played(q, moves + [move]) == Some(Moved(q, Played(q, moves).value, move))
  {
    assert (moves + [move])[..|moves|] == moves;
  }

  /** A read that is polled comes to its end, from every state of every run: exactly when
      no row of the part it reads is too large it hands out all of it. */
  lemma {:induction false} ReadFinishes(q: Query, moves: seq<Move>, whole: seq<Row>) returns (more: seq<Move>)
    requires Proper(q) && Played(q, moves).Some? && ReadsOf(q, whole, Played(q, moves).value)
    ensures forall i :: 0 <= i < |more| ==> !more[i].Database?
    ensures Played(q, moves + more).Some?
    ensures var last := Played(q, moves + more).value;
            && ReadsOf(q, whole, last)
            && !last.read.Reading?
            && (last.read.Ended? <==> forall i :: 0 <= i < |whole| ==> whole[i].event.Bytes() <= q.limits.bytes)
    decreases |whole| - |Played(q, moves).value.delivered|, Refills(Played(q, moves).value.read)
  {
    hide Played, ReadsOf, Moved, Possible, Next, Refills, TableInv;
    var w := Played(q, moves).value;
    LastIs(q, whole, w);
    if w.read.Reading? {
      var move := Next(q, w.read);
      NextKeeps(q, whole, w);
      PlayGrows(q, moves, move);
      LastIs(q, whole, Moved(q, w, move));
      var rest := ReadFinishes(q, moves + [move], whole);
      more := [move] + rest;
      assert moves + [move] + rest == moves + more;
    } else {
      more := [];
      assert moves + more == moves;
    }
  }
}
