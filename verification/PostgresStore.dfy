/** Concurrent appends to one Postgres history.

    A transaction reads the committed head of every target, only then takes its
    transaction id, inserts its rows one by one and commits or aborts. Statements
    run at read committed; the only arbiter is the unique (stream, version) key:
    an insert waits for an open transaction holding the same key and fails on a
    committed one. Transactions settle in any order. */
module PostgresStore {
  import opened Wrappers
  import opened PostgresPage

  type Byte(==, !new)

  /** A stream is named by raw bytes. */
  datatype Stream = Stream(name: seq<Byte>)

  /** The unique constraint's key. */
  datatype Key = Key(stream: Stream, version: nat)

  datatype Event = Event(key: Key, schema: nat, kind: seq<Byte>, payload: seq<Byte>, metadata: Option<seq<Byte>>)
  {
    /** What the page query accounts to the row: absent metadata counts as empty. */
    function Bytes(): nat {
      32 + |key.stream.name| + |kind| + |payload| + if metadata.Some? then |metadata.value| else 0
    }

    /** The lengths the append adds up. */
    function Lengths(): seq<nat> {
      [|key.stream.name|, |kind|, |payload|, if metadata.Some? then |metadata.value| else 0]
    }
  }

  /** Writers and readers account the same bytes to an event. */
  lemma AccountedAlike(event: Event)
    ensures event.Bytes() == RowBytes(event.Lengths())
  {
    var lengths := event.Lengths();
    assert lengths[..3][..2] == lengths[..2] && lengths[..2][..1] == lengths[..1] && lengths[..1][..0] == [];
    assert Sum(lengths) == Sum(lengths[..3]) + lengths[3];
    assert Sum(lengths[..3]) == Sum(lengths[..2]) + lengths[2];
    assert Sum(lengths[..2]) == Sum(lengths[..1]) + lengths[1];
  }

  /** No row is beyond the limit. */
  predicate Accepted(events: seq<Event>, limits: Limits) {
    forall i :: 0 <= i < |events| ==> Within(events[i].Lengths(), limits)
  }

  /** The check every append makes before its transaction begins. */
  method ValidateSizes(events: seq<Event>, limits: Limits) returns (r: Result<(), SizeError>)
    requires limits.bytes < I64_MAX
    ensures r.Ok? <==> Accepted(events, limits)
    ensures r.Err? ==>
              exists i :: && 0 <= i < |events|
                          && Accepted(events[..i], limits)
                          && !Within(events[i].Lengths(), limits)
                          && Refusal(events[i].Lengths(), limits) == r.error
  {
    for i := 0 to |events|
      invariant Accepted(events[..i], limits)
    {
      r := ValidateBytes(events[i].Lengths(), limits);
      if r.Err? {
        return;
      }
    }
    r := Ok(());
  }

  /** A `$all` position; ordered by transaction, then by sequence. */
  datatype Pos = Pos(txid: nat, number: nat)

  predicate Before(a: Pos, b: Pos) {
    a.txid < b.txid || (a.txid == b.txid && a.number < b.number)
  }

  datatype Row = Row(pos: Pos, event: Event)

  datatype Phase = Reading | Writing | Committed | Aborted

  /** `expected` are the targets with the version each must be at; `read` the
      targets whose head was read and matched; `staged` the `count` first events,
      inserted but not yet committed. */
  datatype Tx = Tx(
    expected: map<Stream, nat>,
    events: seq<Event>,
    read: set<Stream>,
    xid: nat,
    count: nat,
    staged: map<Key, Row>,
    phase: Phase)

  datatype Db = Db(nextXid: nat, nextNumber: nat, txs: seq<Tx>, table: map<Key, Row>)

  /** The events of a request: each target's run counts up from its expected
      version, in one block. */
  ghost predicate Sequential(expected: map<Stream, nat>, events: seq<Event>) {
    forall i :: 0 <= i < |events| ==>
      && events[i].key.stream in expected
      && expected[events[i].key.stream] < events[i].key.version
      && (events[i].key.version == expected[events[i].key.stream] + 1 ==>
            forall j :: 0 <= j < i ==> events[j].key.stream != events[i].key.stream)
      && (events[i].key.version > expected[events[i].key.stream] + 1 ==>
            0 < i && events[i - 1].key == Key(events[i].key.stream, events[i].key.version - 1))
  }

  /** What the head query returns: the largest committed version, 0 for none. */
  ghost predicate IsHead(table: map<Key, Row>, stream: Stream, head: nat) {
    && (head == 0 || Key(stream, head) in table)
    && (forall k :: k in table && k.stream == stream ==> k.version <= head)
  }

  datatype Step =
    | Begin(expected: map<Stream, nat>, events: seq<Event>)
    | ReadHead(tx: nat, stream: Stream)
    | TakeXid(tx: nat)
    | Insert(tx: nat)
    | Commit(tx: nat)
    | Abort(tx: nat)

  const EMPTY: Db := Db(1, 1, [], map[])

  /** The key is free: neither committed nor inserted by another open transaction. */
  predicate Free(db: Db, t: nat, key: Key) {
    && key !in db.table
    && (forall u :: 0 <= u < |db.txs| && u != t && db.txs[u].phase.Writing? ==> key !in db.txs[u].staged)
  }

  ghost predicate Enabled(db: Db, step: Step) {
    match step
    case Begin(expected, events) => events != [] && Sequential(expected, events)
    case ReadHead(t, stream) =>
      && t < |db.txs|
      && db.txs[t].phase.Reading?
      && stream in db.txs[t].expected
      && IsHead(db.table, stream, db.txs[t].expected[stream])
    case TakeXid(t) => t < |db.txs| && db.txs[t].phase.Reading? && db.txs[t].read == db.txs[t].expected.Keys
    case Insert(t) =>
      && t < |db.txs|
      && db.txs[t].phase.Writing?
      && db.txs[t].count < |db.txs[t].events|
      && db.nextNumber <= I64_MAX
      && Free(db, t, db.txs[t].events[db.txs[t].count].key)
    case Commit(t) => t < |db.txs| && db.txs[t].phase.Writing? && db.txs[t].count == |db.txs[t].events|
    case Abort(t) => t < |db.txs| && (db.txs[t].phase.Reading? || db.txs[t].phase.Writing?)
  }

  function Inserted(tx: Tx, number: nat): Tx
    requires tx.count < |tx.events|
  {
    var event := tx.events[tx.count];
    tx.(count := tx.count + 1, staged := tx.staged[event.key := Row(Pos(tx.xid, number), event)])
  }

  function After(db: Db, step: Step): Db
    requires Enabled(db, step)
  {
    match step
    case Begin(expected, events) => db.(txs := db.txs + [Tx(expected, events, {}, 0, 0, map[], Reading)])
    case ReadHead(t, stream) => db.(txs := db.txs[t := db.txs[t].(read := db.txs[t].read + {stream})])
    case TakeXid(t) =>
      db.(nextXid := db.nextXid + 1, txs := db.txs[t := db.txs[t].(xid := db.nextXid, phase := Writing)])
    case Insert(t) => db.(nextNumber := db.nextNumber + 1, txs := db.txs[t := Inserted(db.txs[t], db.nextNumber)])
    case Commit(t) =>
      db.(table := db.table + db.txs[t].staged, txs := db.txs[t := db.txs[t].(phase := Committed)])
    case Abort(t) => db.(txs := db.txs[t := db.txs[t].(phase := Aborted)])
  }

  ghost function Ran(steps: seq<Step>): Option<Db> {
    if steps == [] then Some(EMPTY)
    else
      var n := |steps| - 1;
      var db := Ran(steps[..n]);
      if db.Some? && Enabled(db.value, steps[n]) then Some(After(db.value, steps[n])) else None
  }

  // ----- the invariant ------------------------------------------------------------

  ghost predicate RowInv(db: Db, k: Key)
    requires k in db.table
  {
    && db.table[k].event.key == k
    && 0 < k.version
    && 0 < db.table[k].pos.number < db.nextNumber
    && db.table[k].pos.txid < db.nextXid
    && (1 < k.version ==> Key(k.stream, k.version - 1) in db.table)
  }

  /** Rows of one stream lie in `$all` in the order of their versions. */
  ghost predicate Ordered(a: Row, b: Row) {
    && (a.event.key != b.event.key ==> a.pos != b.pos)
    && (a.event.key.stream == b.event.key.stream && a.event.key.version < b.event.key.version ==> Before(a.pos, b.pos))
  }

  /** Versions of a stream have no gap and the order of their positions. */
  ghost predicate TableInv(db: Db) {
    && (forall k {:trigger RowInv(db, k)} :: k in db.table ==> RowInv(db, k))
    && (forall k, l {:trigger Ordered(db.table[k], db.table[l])} ::
          k in db.table && l in db.table ==> Ordered(db.table[k], db.table[l]))
  }

  /** A head that was read stays below every later transaction id. */
  ghost predicate ReadInv(db: Db, tx: Tx) {
    forall k: Key :: k.stream in tx.read && k.stream in tx.expected && 0 < k.version <= tx.expected[k.stream] ==>
      k in db.table && (tx.phase.Writing? ==> db.table[k].pos.txid < tx.xid)
  }

  ghost predicate StagedRow(db: Db, tx: Tx, k: Key)
    requires k in tx.staged
  {
    && k !in db.table
    && tx.staged[k].event.key == k
    && tx.staged[k].pos.txid == tx.xid
    && 0 < tx.staged[k].pos.number < db.nextNumber
    && k.stream in tx.expected
    && tx.expected[k.stream] < k.version
    && (tx.expected[k.stream] + 1 < k.version ==> Key(k.stream, k.version - 1) in tx.staged)
    && (forall j :: tx.count <= j < |tx.events| && tx.events[j].key.stream == k.stream ==>
          k.version < tx.events[j].key.version)
  }

  ghost predicate StagedInv(db: Db, tx: Tx) {
    && tx.count <= |tx.events|
    && (forall i :: 0 <= i < tx.count ==> tx.events[i].key in tx.staged)
    && (forall k {:trigger StagedRow(db, tx, k)} :: k in tx.staged ==> StagedRow(db, tx, k))
    && (forall k, l {:trigger Ordered(tx.staged[k], tx.staged[l])} ::
          k in tx.staged && l in tx.staged ==> Ordered(tx.staged[k], tx.staged[l]))
  }

  ghost predicate TxInv(db: Db, tx: Tx) {
    && (tx.phase.Reading? || tx.phase.Writing? ==> Sequential(tx.expected, tx.events) && ReadInv(db, tx))
    && (tx.phase.Reading? ==> tx.count == 0 && tx.staged == map[])
    && (tx.phase.Writing? ==>
          && tx.read == tx.expected.Keys
          && tx.xid < db.nextXid
          && (forall k :: k in db.table ==> db.table[k].pos.txid != tx.xid)
          && StagedInv(db, tx))
  }

  ghost predicate Apart(t: Tx, u: Tx) {
    t.phase.Writing? && u.phase.Writing? ==> t.xid != u.xid && t.staged.Keys !! u.staged.Keys
  }

  ghost predicate Inv(db: Db) {
    && 0 < db.nextNumber <= I64_MAX + 1
    && TableInv(db)
    && (forall t :: 0 <= t < |db.txs| ==> TxInv(db, db.txs[t]))
    && (forall t, u :: 0 <= t < u < |db.txs| ==> Apart(db.txs[t], db.txs[u]))
  }

  // ----- every step keeps it --------------------------------------------------------

  /** Within one request the versions of a stream ascend. */
  lemma {:induction false} EventsAscend(expected: map<Stream, nat>, events: seq<Event>, i: nat, j: nat)
    requires Sequential(expected, events) && i < j < |events| && events[i].key.stream == events[j].key.stream
    ensures events[i].key.version < events[j].key.version
    decreases j
  {
    if i < j - 1 && events[j].key.version > expected[events[j].key.stream] + 1 {
      EventsAscend(expected, events, i, j - 1);
    }
  }

  /** In a gap-free stream every version up to a stored one is stored. */
  lemma {:induction false} Downward(db: Db, stream: Stream, head: nat, v: nat)
    requires TableInv(db) && Key(stream, head) in db.table && 0 < v <= head
    ensures Key(stream, v) in db.table
    decreases head
  {
    if v < head {
      assert RowInv(db, Key(stream, head));
      Downward(db, stream, head - 1, v);
    }
  }

  /** Counters only bound what is stored. */
  lemma CountersKeep(db: Db, next: Db, tx: Tx)
    requires TableInv(db) && TxInv(db, tx)
    requires next.table == db.table && db.nextXid <= next.nextXid && db.nextNumber <= next.nextNumber
    ensures TableInv(next) && TxInv(next, tx)
  {
    forall k | k in next.table
      ensures RowInv(next, k)
    {
      assert RowInv(db, k);
    }
    if tx.phase.Writing? {
      forall k | k in tx.staged
        ensures StagedRow(next, tx, k)
      {
        assert StagedRow(db, tx, k);
      }
    }
  }

  /** Replacing one transaction. */
  lemma ReplaceKeeps(db: Db, next: Db, t: nat, tx: Tx)
    requires Inv(db) && t < |db.txs|
    requires next == db.(nextXid := next.nextXid, nextNumber := next.nextNumber, txs := db.txs[t := tx])
    requires db.nextXid <= next.nextXid && db.nextNumber <= next.nextNumber <= I64_MAX + 1
    requires TxInv(next, tx)
    requires forall u :: 0 <= u < |db.txs| && u != t ==> Apart(tx, db.txs[u])
    ensures Inv(next)
  {
    CountersKeep(db, next, db.txs[t]);
    forall u | 0 <= u < |next.txs|
      ensures TxInv(next, next.txs[u])
    {
      CountersKeep(db, next, db.txs[u]);
    }
    forall u, w | 0 <= u < w < |next.txs|
      ensures Apart(next.txs[u], next.txs[w])
    {
      assert Apart(db.txs[u], db.txs[w]);
      assert u == t ==> Apart(tx, db.txs[w]);
      assert w == t ==> Apart(tx, db.txs[u]);
    }
  }

  lemma ReadHeadKeeps(db: Db, t: nat, stream: Stream)
    requires Inv(db) && Enabled(db, ReadHead(t, stream))
    ensures Inv(After(db, ReadHead(t, stream)))
  {
    var next := After(db, ReadHead(t, stream));
    var head := db.txs[t].expected[stream];
    assert TxInv(db, db.txs[t]);
    forall k: Key | k.stream == stream && 0 < k.version <= head
      ensures k in db.table
    {
      Downward(db, stream, head, k.version);
    }
    ReplaceKeeps(db, next, t, next.txs[t]);
  }

  lemma TakeXidKeeps(db: Db, t: nat)
    requires Inv(db) && Enabled(db, TakeXid(t))
    ensures Inv(After(db, TakeXid(t)))
  {
    var next := After(db, TakeXid(t));
    assert TxInv(db, db.txs[t]);
    forall k | k in db.table
      ensures db.table[k].pos.txid < db.nextXid
    {
      assert RowInv(db, k);
    }
    forall u | 0 <= u < |db.txs| && u != t
      ensures Apart(next.txs[t], db.txs[u])
    {
      assert TxInv(db, db.txs[u]);
    }
    ReplaceKeeps(db, next, t, next.txs[t]);
  }

  lemma InsertedRow(db: Db, next: Db, tx: Tx, k: Key)
    requires TxInv(db, tx) && tx.phase.Writing? && tx.count < |tx.events| && 0 < db.nextNumber
    requires next == db.(nextNumber := db.nextNumber + 1, txs := next.txs)
    requires tx.events[tx.count].key !in db.table && k in Inserted(tx, db.nextNumber).staged
    ensures StagedRow(next, Inserted(tx, db.nextNumber), k)
  {
    var key := tx.events[tx.count].key;
    if k != key {
      assert StagedRow(db, tx, k);
    } else {
      assert tx.expected[key.stream] + 1 < key.version ==> tx.events[tx.count - 1].key in tx.staged;
      forall j | tx.count < j < |tx.events| && tx.events[j].key.stream == key.stream
        ensures key.version < tx.events[j].key.version
      {
        EventsAscend(tx.expected, tx.events, tx.count, j);
      }
    }
  }

  lemma InsertedOrder(db: Db, tx: Tx, k: Key, l: Key)
    requires TxInv(db, tx) && tx.phase.Writing? && tx.count < |tx.events|
    requires k in Inserted(tx, db.nextNumber).staged && l in Inserted(tx, db.nextNumber).staged
    ensures Ordered(Inserted(tx, db.nextNumber).staged[k], Inserted(tx, db.nextNumber).staged[l])
  {
    var key := tx.events[tx.count].key;
    assert k != key ==> StagedRow(db, tx, k);
    assert l != key ==> StagedRow(db, tx, l);
    if k != key && l != key {
      assert Ordered(tx.staged[k], tx.staged[l]);
    }
  }

  /** The inserting transaction's own rows stay new, gap-free and ordered. */
  lemma InsertStages(db: Db, next: Db, tx: Tx)
    requires TxInv(db, tx) && tx.phase.Writing? && tx.count < |tx.events| && 0 < db.nextNumber
    requires next == db.(nextNumber := db.nextNumber + 1, txs := next.txs)
    requires tx.events[tx.count].key !in db.table
    ensures StagedInv(next, Inserted(tx, db.nextNumber))
  {
    hide StagedRow, Ordered, Sequential, ReadInv;
    forall k | k in Inserted(tx, db.nextNumber).staged {
      InsertedRow(db, next, tx, k);
    }
    forall k, l | k in Inserted(tx, db.nextNumber).staged && l in Inserted(tx, db.nextNumber).staged {
      InsertedOrder(db, tx, k, l);
    }
  }

  lemma InsertKeeps(db: Db, t: nat)
    requires Inv(db) && Enabled(db, Insert(t))
    ensures Inv(After(db, Insert(t)))
  {
    var next := After(db, Insert(t));
    assert TxInv(db, db.txs[t]);
    InsertStages(db, next, db.txs[t]);
    forall u | 0 <= u < |db.txs| && u != t
      ensures Apart(next.txs[t], db.txs[u])
    {
      assert if t < u then Apart(db.txs[t], db.txs[u]) else Apart(db.txs[u], db.txs[t]);
    }
    ReplaceKeeps(db, next, t, next.txs[t]);
  }

  lemma AbortKeeps(db: Db, t: nat)
    requires Inv(db) && Enabled(db, Abort(t))
    ensures Inv(After(db, Abort(t)))
  {
    var next := After(db, Abort(t));
    ReplaceKeeps(db, next, t, next.txs[t]);
  }

  /** Every version between the head read and a staged one is staged. */
  lemma {:induction false} StagedFrom(db: Db, tx: Tx, k: Key, v: nat)
    requires StagedInv(db, tx) && k in tx.staged && k.stream in tx.expected && tx.expected[k.stream] < v <= k.version
    ensures Key(k.stream, v) in tx.staged
    decreases k.version
  {
    if v < k.version {
      assert StagedRow(db, tx, k);
      StagedFrom(db, tx, Key(k.stream, k.version - 1), v);
    }
  }

  /** What is committed of a staged row's stream was below the head read. */
  lemma StagedIsAbove(db: Db, tx: Tx, k: Key, l: Key)
    requires TableInv(db) && StagedInv(db, tx) && k in tx.staged && l in db.table && l.stream == k.stream
    ensures k.stream in tx.expected && l.version <= tx.expected[k.stream] < k.version
  {
    assert StagedRow(db, tx, k);
    var head := tx.expected[k.stream];
    StagedFrom(db, tx, k, head + 1);
    assert StagedRow(db, tx, Key(k.stream, head + 1));
    if l.version > head {
      Downward(db, l.stream, l.version, head + 1);
    }
  }

  /** Committed rows join the table behind every earlier version of their streams. */
  lemma CommitTable(db: Db, t: nat)
    requires Inv(db) && Enabled(db, Commit(t))
    ensures TableInv(After(db, Commit(t)))
  {
    var tx := db.txs[t];
    var next := After(db, Commit(t));
    assert TxInv(db, tx);
    forall k | k in next.table
      ensures RowInv(next, k)
    {
      if k in tx.staged {
        assert StagedRow(db, tx, k);
      } else {
        assert RowInv(db, k);
      }
    }
    forall k, l | k in next.table && l in next.table
      ensures Ordered(next.table[k], next.table[l])
    {
      OrderedAfterCommit(db, tx, k, l);
    }
  }

  lemma OrderedAfterCommit(db: Db, tx: Tx, k: Key, l: Key)
    requires TableInv(db) && TxInv(db, tx) && tx.phase.Writing?
    requires k in db.table + tx.staged && l in db.table + tx.staged
    ensures Ordered((db.table + tx.staged)[k], (db.table + tx.staged)[l])
  {
    assert k in tx.staged ==> StagedRow(db, tx, k);
    assert l in tx.staged ==> StagedRow(db, tx, l);
    assert k in db.table ==> RowInv(db, k);
    assert l in db.table ==> RowInv(db, l);
    if k in tx.staged && l in tx.staged {
      assert Ordered(tx.staged[k], tx.staged[l]);
    } else if k in db.table && l in db.table && k !in tx.staged && l !in tx.staged {
      assert Ordered(db.table[k], db.table[l]);
    } else if k.stream == l.stream {
      if k in tx.staged {
        StagedIsAbove(db, tx, k, l);
      } else {
        StagedIsAbove(db, tx, l, k);
      }
    }
  }

  lemma CommitOthers(db: Db, t: nat, u: nat)
    requires Inv(db) && Enabled(db, Commit(t)) && u < |db.txs| && u != t
    ensures TxInv(After(db, Commit(t)), db.txs[u])
  {
    hide Sequential, StagedInv, ReadInv, TableInv;
    var tx, other := db.txs[t], db.txs[u];
    assert TxInv(db, tx) && TxInv(db, other);
    assert if t < u then Apart(db.txs[t], db.txs[u]) else Apart(db.txs[u], db.txs[t]);
    StagedIsNew(db, tx);
    OtherBeside(db, After(db, Commit(t)), tx, other);
  }

  lemma OtherBeside(db: Db, next: Db, tx: Tx, other: Tx)
    requires tx.phase.Writing? && TxInv(db, other) && Apart(tx, other)
    requires forall k :: k in tx.staged ==> k !in db.table && tx.staged[k].pos.txid == tx.xid
    requires next == db.(table := db.table + tx.staged, txs := next.txs)
    ensures TxInv(next, other)
  {
    hide Sequential, StagedInv;
    if other.phase.Writing? {
      StagedBeside(db, next, tx, other);
    }
  }

  lemma StagedIsNew(db: Db, tx: Tx)
    requires StagedInv(db, tx)
    ensures forall k :: k in tx.staged ==> k !in db.table && tx.staged[k].pos.txid == tx.xid
  {
    hide Ordered;
    forall k | k in tx.staged
      ensures k !in db.table && tx.staged[k].pos.txid == tx.xid
    {
      assert StagedRow(db, tx, k);
    }
  }

  /** Another transaction's rows stay new when disjoint ones are committed. */
  lemma StagedBeside(db: Db, next: Db, tx: Tx, other: Tx)
    requires StagedInv(db, other) && tx.staged.Keys !! other.staged.Keys
    requires next.table == db.table + tx.staged && next.nextNumber == db.nextNumber
    ensures StagedInv(next, other)
  {
    hide Ordered;
    forall k | k in other.staged
      ensures StagedRow(next, other, k)
    {
      assert StagedRow(db, other, k);
    }
  }

  lemma CommitKeeps(db: Db, t: nat)
    requires Inv(db) && Enabled(db, Commit(t))
    ensures Inv(After(db, Commit(t)))
  {
    var next := After(db, Commit(t));
    CommitTable(db, t);
    forall u | 0 <= u < |next.txs|
      ensures TxInv(next, next.txs[u])
    {
      if u != t {
        CommitOthers(db, t, u);
      }
    }
    forall u, w | 0 <= u < w < |next.txs|
      ensures Apart(next.txs[u], next.txs[w])
    {
      assert Apart(db.txs[u], db.txs[w]);
    }
  }

  lemma BeginKeeps(db: Db, expected: map<Stream, nat>, events: seq<Event>)
    requires Inv(db) && Enabled(db, Begin(expected, events))
    ensures Inv(After(db, Begin(expected, events)))
  {
    var next := After(db, Begin(expected, events));
    forall k | k in next.table
      ensures RowInv(next, k)
    {
      assert RowInv(db, k);
    }
    forall u | 0 <= u < |db.txs|
      ensures TxInv(next, next.txs[u])
    {
      CountersKeep(db, next, db.txs[u]);
    }
    forall u, w | 0 <= u < w < |next.txs|
      ensures Apart(next.txs[u], next.txs[w])
    {
      assert w < |db.txs| ==> Apart(db.txs[u], db.txs[w]);
    }
  }

  lemma StepKeeps(db: Db, step: Step)
    requires Inv(db) && Enabled(db, step)
    ensures Inv(After(db, step))
  {
    match step {
      case Begin(expected, events) => BeginKeeps(db, expected, events);
      case ReadHead(t, stream) => ReadHeadKeeps(db, t, stream);
      case TakeXid(t) => TakeXidKeeps(db, t);
      case Insert(t) => InsertKeeps(db, t);
      case Commit(t) => CommitKeeps(db, t);
      case Abort(t) => AbortKeeps(db, t);
    }
  }

  lemma {:induction false} RunKeeps(steps: seq<Step>)
    requires Ran(steps).Some?
    ensures Inv(Ran(steps).value)
  {
    if steps != [] {
      var n := |steps| - 1;
      RunKeeps(steps[..n]);
      StepKeeps(Ran(steps[..n]).value, steps[n]);
    }
  }
}
