/** Reads of the in-memory store: pages refilled while the store keeps growing, and
    exports frozen at the heads of one moment. */
module InMemoryRead {
  import opened Wrappers
  import opened EventLog
  import opened InMemoryStore

  /** The rows of one stream as the store holds them. */
  ghost predicate IsRows(rows: seq<Stored>) {
    |rows| < U64_MAX && forall i :: 0 <= i < |rows| ==> rows[i].version == i + 1
  }

  /** Rows with version at least `from`. */
  ghost function Since(rows: seq<Stored>, from: nat): seq<Stored>
    requires 0 < from
  {
    if from <= |rows| then rows[from - 1..] else []
  }

  /** The rows of a stream that a log stands for. */
  ghost function RowsIn(log: Log, id: Key): seq<Stored> {
    Numbered(Of(log, id))
  }

  /** A store that only grew kept every stream's rows as a prefix. */
  lemma RowsGrow(log: Log, later: Log, id: Key)
    requires log <= later
    ensures RowsIn(log, id) <= RowsIn(later, id)
    ensures |log| < U64_MAX ==> IsRows(RowsIn(log, id))
  {
    StreamsGrow(log, later, id);
  }

  ghost predicate Sorted(rows: seq<Stored>) {
    forall i, j :: 0 <= i < j < |rows| ==> rows[i].version < rows[j].version
  }

  /** The first row not below a version, by binary search. */
  method PartitionPoint(rows: seq<Stored>, from: nat) returns (start: nat)
    requires Sorted(rows)
    ensures Splits(rows, from, start)
  {
    var low, high := 0, |rows|;
    while low < high
      invariant low <= high <= |rows|
      invariant forall i :: 0 <= i < low ==> rows[i].version < from
      invariant forall i :: high <= i < |rows| ==> from <= rows[i].version
    {
      var mid := (low + high) / 2;
      if rows[mid].version < from {
        low := mid + 1;
      } else {
        high := mid;
      }
    }
    start := low;
  }

  ghost predicate Splits(rows: seq<Stored>, from: nat, start: nat) {
    && start <= |rows|
    && (forall i :: 0 <= i < start ==> rows[i].version < from)
    && (forall i :: start <= i < |rows| ==> from <= rows[i].version)
  }

  /** In a stream's rows the search finds the place of the version. */
  lemma SplitIs(rows: seq<Stored>, from: nat, start: nat)
    requires IsRows(rows) && 0 < from && Splits(rows, from, start)
    ensures start == if from <= |rows| then from - 1 else |rows|
  {
    assert start < |rows| ==> from <= rows[start].version == start + 1;
    assert 0 < start ==> rows[start - 1].version == start < from;
  }

  lemma RowsSort(rows: seq<Stored>)
    requires IsRows(rows)
    ensures Sorted(rows)
  {
  }

  /** One page: the first rows with version at least `from`. */
  method ScanBatch(rows: seq<Stored>, from: nat, size: nat) returns (batch: seq<Stored>)
    requires IsRows(rows) && 0 < from
    ensures batch <= Since(rows, from)
    ensures |batch| <= size && (|batch| < size ==> batch == Since(rows, from))
  {
    hide IsRows, Sorted, Splits;
    RowsSort(rows);
    var start := PartitionPoint(rows, from);
    SplitIs(rows, from, start);
    batch := if |rows| - start < size then rows[start..] else rows[start..start + size];
  }

  /** What was handed out and what is buffered begin the whole. */
  ghost predicate Begins<T>(emitted: seq<T>, buffer: seq<T>, whole: seq<T>) {
    emitted + buffer <= whole
  }

  /** They are the whole. */
  ghost predicate Makes<T>(emitted: seq<T>, buffer: seq<T>, whole: seq<T>) {
    emitted + buffer == whole
  }

  lemma HandOut<T>(emitted: seq<T>, buffer: seq<T>, whole: seq<T>)
    requires Begins(emitted, buffer, whole)
    ensures Makes(emitted, buffer, whole) && buffer == [] ==> emitted == whole
    ensures buffer == [] ==> emitted <= whole
    ensures buffer != [] ==>
              && |emitted| < |whole|
              && buffer[0] == whole[|emitted|]
              && Begins(emitted + [buffer[0]], buffer[1..], whole)
              && (Makes(emitted, buffer, whole) ==> Makes(emitted + [buffer[0]], buffer[1..], whole))
  {
  }

  // ----- one stream -----------------------------------------------------------------------

  /** A paged read of one stream of a store. `seen` is the store's log at the last
      refill, `emitted` what was handed out. */
  class StreamReader {
    const store: Store
    const id: Key
    const from: nat
    const batchSize: nat
    var lastVersion: Option<nat>
    var buffer: seq<Stored>
    var done: bool
    var ended: bool
    ghost var emitted: seq<Stored>
    ghost var seen: Log
    ghost var refilled: bool

    ghost predicate Valid()
      reads this, store
    {
      && 0 < from && 0 < batchSize
      && store.Valid() && seen <= store.log
      && Begins(emitted, buffer, Since(RowsIn(seen, id), from))
      && (done ==> Makes(emitted, buffer, Since(RowsIn(seen, id), from)))
      && (ended ==> emitted == Since(RowsIn(seen, id), from) && buffer == [])
      && (done || ended || buffer != [] || emitted != [] ==> refilled)
      && lastVersion == if emitted == [] then None else Some(from + |emitted| - 1)
    }

    constructor (store: Store, id: Key, from: nat, batchSize: nat)
      requires store.Valid() && 0 < from && 0 < batchSize
      ensures Valid() && emitted == [] && !ended && !refilled
      ensures this.store == store && this.id == id && this.from == from
    {
      this.store := store;
      this.id := id;
      this.from := from;
      this.batchSize := batchSize;
      lastVersion, buffer, done, ended := None, [], false, false;
      emitted, seen, refilled := [], [], false;
    }

    /** Load the next page behind the last row handed out, from the store as it is. */
    method Refill()
      requires Valid() && buffer == [] && !done && !ended
      modifies this
      ensures Valid() && refilled && seen == store.log && emitted == old(emitted) && !ended
      ensures buffer == [] ==> done
    {
      hide Since, IsRows, Begins, Makes, RowsIn, StreamsAgree, IndexAgrees;
      HandOut(emitted, buffer, Since(RowsIn(seen, id), from));
      StoreRows(store, id);
      RowsGrow(seen, store.log, id);
      var rows := RowsOf(store.streams, id);
      var next := if lastVersion.None? then from else lastVersion.value + 1;
      var batch := ScanBatch(rows, next, batchSize);
      Refilled(RowsIn(seen, id), rows, from, emitted, batch);
      done := |batch| < batchSize;
      buffer, seen, refilled := batch, store.log, true;
    }

    /** Hands out the next row. The read ends only when it has handed out every row
        with version at least `from` of the store as it was at the last refill, in
        order and without a gap; it has refilled at least once, and stays ended. */
    method Next() returns (item: Option<Stored>)
      requires Valid()
      modifies this
      ensures Valid() && refilled && (ended <==> item.None?)
      ensures item.Some? ==> emitted == old(emitted) + [item.value] && item.value.version == from + |old(emitted)|
      ensures item.None? ==> emitted == old(emitted) == Since(RowsIn(seen, id), from) && ended
      ensures seen == old(seen) || seen == store.log
      ensures !old(refilled) ==> seen == store.log
      ensures old(ended) ==> item.None? && seen == old(seen)
    {
      hide Since, IsRows, Begins, Makes, RowsIn, StreamsAgree, IndexAgrees;
      if ended {
        return None;
      }
      HandOut(emitted, buffer, Since(RowsIn(seen, id), from));
      if buffer == [] && !done {
        Refill();
        HandOut(emitted, buffer, Since(RowsIn(seen, id), from));
      }
      if buffer == [] {
        ended := true;
        return None;
      }
      var row := buffer[0];
      RowsGrow(seen, store.log, id);
      RowIs(RowsIn(seen, id), from, |emitted|);
      item := Some(row);
      lastVersion, buffer, emitted := Some(row.version), buffer[1..], emitted + [row];
    }
  }

  /** What a valid store holds of a stream. */
  lemma StoreRows(store: Store, id: Key)
    requires store.Valid()
    ensures RowsOf(store.streams, id) == RowsIn(store.log, id) && IsRows(RowsIn(store.log, id))
  {
    RowsAgree(store.streams, store.log, id);
    RowsGrow(store.log, store.log, id);
  }

  /** A page taken behind what was handed out continues it. */
  lemma Refilled(seen: seq<Stored>, rows: seq<Stored>, from: nat, emitted: seq<Stored>, batch: seq<Stored>)
    requires 0 < from && seen <= rows && emitted <= Since(seen, from) && batch <= Since(rows, from + |emitted|)
    ensures Begins(emitted, batch, Since(rows, from))
    ensures batch == Since(rows, from + |emitted|) ==> Makes(emitted, batch, Since(rows, from))
  {
  }

  lemma RowIs(rows: seq<Stored>, from: nat, i: nat)
    requires 0 < from && IsRows(rows) && i < |Since(rows, from)|
    ensures Since(rows, from)[i].version == from + i
  {
  }

  // ----- `$all` ---------------------------------------------------------------------------

  type Index = map<nat, (Key, Stored)>

  /** Positions 1..n and no other. */
  ghost predicate IsIndex(index: Index, n: nat) {
    forall p: nat :: p in index <==> 1 <= p <= n
  }

  /** The rows strictly above a position, with their positions. */
  ghost function Above(index: Index, n: nat, after: nat): seq<(nat, (Key, Stored))>
    requires IsIndex(index, n)
  {
    seq(if after < n then n - after else 0, i requires 0 <= i && after + i < n => (after + 1 + i, index[after + 1 + i]))
  }

  /** A range over the index, from the position after `after`, of at most `size` rows. */
  method RangeBatch(index: Index, ghost n: nat, after: nat, size: nat) returns (batch: seq<(nat, (Key, Stored))>)
    requires IsIndex(index, n)
    ensures batch <= Above(index, n, after)
    ensures |batch| <= size && (|batch| < size ==> batch == Above(index, n, after))
  {
    batch := [];
    var last := after;
    while |batch| < size && exists p :: p in index && last < p
      invariant |batch| <= size && batch <= Above(index, n, after) && last == after + |batch|
    {
      assert last + 1 in index;
      var p :| p in index && last < p && forall q :: q in index && last < q ==> p <= q;
      assert p == last + 1;
      batch := batch + [(p, index[p])];
      last := p;
    }
    if |batch| < size {
      assert last + 1 !in index;
    }
  }

  /** An entry of the log at its position. */
  ghost function Shown(log: Log, i: nat): (nat, (Key, Stored))
    requires i < |log|
  {
    (i + 1, RowAt(log, i))
  }

  /** The log strictly above a position, as `$all` shows it. */
  ghost function Behind(log: Log, after: nat): seq<(nat, (Key, Stored))> {
    seq(if after < |log| then |log| - after else 0, i requires 0 <= i && after + i < |log| => Shown(log, after + i))
  }

  /** The index of a store shows its log. */
  lemma AboveIsLog(log: Log, index: Index, after: nat)
    requires IndexAgrees(index, log)
    ensures IsIndex(index, |log|) && Above(index, |log|, after) == Behind(log, after)
  {
    hide Of;
    forall i | 0 <= i < |Behind(log, after)|
      ensures Above(index, |log|, after)[i] == Behind(log, after)[i]
    {
      assert Behind(log, after)[i] == Shown(log, after + i);
    }
  }

  /** A store that only grew kept every entry of `$all`. */
  lemma BehindGrows(log: Log, later: Log, after: nat)
    requires log <= later
    ensures Behind(log, after) <= Behind(later, after)
  {
    hide Of;
    forall i | 0 <= i < |Behind(log, after)|
      ensures Behind(log, after)[i] == Behind(later, after)[i]
    {
      assert log[..after + i + 1] == later[..after + i + 1];
      assert Behind(log, after)[i] == Shown(log, after + i) == Shown(later, after + i) == Behind(later, after)[i];
    }
  }

  /** What was appended is what is read: every event of an accepted batch is the row of
      its own version in its stream, and is shown at the next position with its stream. */
  lemma AppendedIsShown(log: Log, w: Run, i: nat)
    requires Accepts(TERMS, log, w) && i < |w.batch|
    ensures var next, event := Extended(log, w), w.batch[i];
            var rows, all := RowsIn(next, w.target), Behind(next, 0);
            && |rows| == |RowsIn(log, w.target)| + |w.batch|
            && 1 <= event.version <= |rows|
            && rows[event.version - 1] == Stored(event.version, event.frame.value)
            && |all| == |log| + |w.batch|
            && all[|log| + i] == (|log| + i + 1, (w.target, Stored(event.version, event.frame.value)))
  {
    hide Of, VersionAt;
    EachAtItsVersion(TERMS, log, w, i);
    assert Behind(Extended(log, w), 0)[|log| + i] == Shown(Extended(log, w), |log| + i);
  }

  /** A paged read of `$all`, exclusive of its start. */
  class AllReader {
    const store: Store
    const from: nat
    const batchSize: nat
    var after: nat
    var buffer: seq<(nat, (Key, Stored))>
    var done: bool
    var ended: bool
    ghost var emitted: seq<(nat, (Key, Stored))>
    ghost var seen: Log
    ghost var refilled: bool

    ghost predicate Valid()
      reads this, store
    {
      && 0 < batchSize
      && store.Valid() && seen <= store.log
      && Begins(emitted, buffer, Behind(seen, from))
      && (done ==> Makes(emitted, buffer, Behind(seen, from)))
      && (ended ==> emitted == Behind(seen, from) && buffer == [])
      && (done || ended || buffer != [] || emitted != [] ==> refilled)
      && after == from + |emitted|
    }

    constructor (store: Store, from: nat, batchSize: nat)
      requires store.Valid() && 0 < batchSize
      ensures Valid() && emitted == [] && !ended && !refilled
      ensures this.store == store && this.from == from
    {
      this.store := store;
      this.from := from;
      this.batchSize := batchSize;
      after, buffer, done, ended := from, [], false, false;
      emitted, seen, refilled := [], [], false;
    }

    method Refill()
      requires Valid() && buffer == [] && !done && !ended
      modifies this
      ensures Valid() && refilled && seen == store.log && emitted == old(emitted) && !ended
      ensures buffer == [] ==> done
    {
      hide Above, Behind, Begins, Makes, StreamsAgree, IndexAgrees;
      HandOut(emitted, buffer, Behind(seen, from));
      AboveIsLog(store.log, store.globalIndex, after);
      BehindGrows(seen, store.log, from);
      var batch := RangeBatch(store.globalIndex, |store.log|, after, batchSize);
      RefilledAll(store.log, from, emitted, batch);
      done := |batch| < batchSize;
      buffer, seen, refilled := batch, store.log, true;
    }

    /** Hands out the next entry strictly above the start; the read ends only when it
        has handed out every one as of its last refill, and stays ended. */
    method Next() returns (item: Option<(nat, (Key, Stored))>)
      requires Valid()
      modifies this
      ensures Valid() && refilled && (ended <==> item.None?)
      ensures item.Some? ==> emitted == old(emitted) + [item.value] && item.value.0 == from + |old(emitted)| + 1
      ensures item.None? ==> emitted == old(emitted) == Behind(seen, from) && ended
      ensures seen == old(seen) || seen == store.log
      ensures !old(refilled) ==> seen == store.log
      ensures old(ended) ==> item.None? && seen == old(seen)
    {
      hide Behind, Begins, Makes, StreamsAgree, IndexAgrees;
      if ended {
        return None;
      }
      HandOut(emitted, buffer, Behind(seen, from));
      if buffer == [] && !done {
        Refill();
        HandOut(emitted, buffer, Behind(seen, from));
      }
      if buffer == [] {
        ended := true;
        return None;
      }
      var row := buffer[0];
      RowIsAt(seen, from, |emitted|);
      item := Some(row);
      after, buffer, emitted := row.0, buffer[1..], emitted + [row];
    }
  }

  lemma RefilledAll(log: Log, from: nat, emitted: seq<(nat, (Key, Stored))>, batch: seq<(nat, (Key, Stored))>)
    requires emitted <= Behind(log, from) && batch <= Behind(log, from + |emitted|)
    ensures Begins(emitted, batch, Behind(log, from))
    ensures batch == Behind(log, from + |emitted|) ==> Makes(emitted, batch, Behind(log, from))
  {
    hide Of;
    assert Behind(log, from) == emitted + Behind(log, from + |emitted|);
  }

  lemma RowIsAt(log: Log, from: nat, i: nat)
    requires i < |Behind(log, from)|
    ensures Behind(log, from)[i].0 == from + i + 1
  {
    assert Behind(log, from)[i] == Shown(log, from + i);
  }

  // ----- exports --------------------------------------------------------------------------

  /** The heads of all streams at one moment. */
  function HeadsOf(streams: map<Key, seq<Stored>>): map<Key, nat> {
    map id | id in streams && streams[id] != [] :: streams[id][|streams[id]| - 1].version
  }

  ghost predicate HeadsIn(heads: map<Key, nat>, log: Log) {
    && (forall id :: id in heads <==> 0 < Head(log, id))
    && (forall id :: id in heads ==> heads[id] == Head(log, id))
  }

  /** The heads captured under the lock are those of one log. */
  lemma SessionHeads(streams: map<Key, seq<Stored>>, log: Log)
    requires StreamsAgree(streams, log)
    ensures HeadsIn(HeadsOf(streams), log)
  {
  }

  /** An export session; `cut` is the store's log when it opened. */
  class ExportSession {
    const store: Store
    const heads: map<Key, nat>
    ghost const cut: Log

    ghost predicate Valid()
      reads store
    {
      store.Valid() && cut <= store.log && HeadsIn(heads, cut)
    }

    constructor (store: Store)
      requires store.Valid()
      ensures Valid() && this.store == store && cut == store.log
    {
      SessionHeads(store.streams, store.log);
      this.store := store;
      heads := HeadsOf(store.streams);
      cut := store.log;
    }
  }

  datatype Exported = Row(row: Stored) | Expired

  /** An export of one stream of a session. `cutOff` records an expiry. */
  class ExportCursor {
    const session: ExportSession
    const id: Key
    const from: nat
    const batchSize: nat
    var next: Option<nat>
    var buffer: seq<Stored>
    var ended: bool
    ghost var emitted: seq<Stored>
    ghost var cutOff: bool

    ghost predicate Valid()
      reads this, session.store
    {
      && 0 < from && 0 < batchSize
      && session.Valid()
      && Begins(emitted, buffer, Since(RowsIn(session.cut, id), from))
      && next == Some(from + |emitted|)
      && (ended ==> buffer == [])
      && (ended && !cutOff ==> emitted == Since(RowsIn(session.cut, id), from))
    }

    constructor (session: ExportSession, id: Key, from: nat, batchSize: nat)
      requires session.Valid() && 0 < from && 0 < batchSize
      ensures Valid() && emitted == [] && !ended && !cutOff
      ensures this.session == session && this.id == id && this.from == from
    {
      this.session := session;
      this.id := id;
      this.from := from;
      this.batchSize := batchSize;
      next, buffer, ended := Some(from), [], false;
      emitted, cutOff := [], false;
    }

    /** Hands out the next row. Unless it expires, the cursor ends exactly when it has
        handed out the rows its stream had when the session opened, whatever the
        store holds by now. */
    method Next(expired: bool) returns (item: Option<Exported>)
      requires Valid()
      modifies this
      ensures Valid()
      ensures item.Some? && item.value.Row? ==> !ended && emitted == old(emitted) + [item.value.row] && cutOff == old(cutOff)
      ensures item == Some(Expired) ==> expired && ended && cutOff && emitted == old(emitted)
      ensures item.None? ==> ended && emitted == old(emitted) && cutOff == old(cutOff)
      ensures old(ended) ==> item.None?
    {
      hide Since, IsRows, Begins, Makes, RowsIn, StreamsAgree, IndexAgrees, HeadsIn;
      if ended {
        return None;
      }
      ghost var frozen := RowsIn(session.cut, id);
      HandOut(emitted, buffer, Since(frozen, from));
      Frozen(session, id);
      if expired {
        NoBuffer(emitted, buffer, Since(frozen, from));
        ended, buffer, cutOff := true, [], true;
        return Some(Expired);
      }
      if buffer == [] {
        Exhausted(frozen, from, emitted);
        if id !in session.heads || next.value > session.heads[id] || id !in session.store.streams {
          ended := true;
          return None;
        }
        buffer := FrozenBatch(session.store.streams[id], next.value, session.heads[id], batchSize, frozen);
        Refilled(frozen, frozen, from, emitted, buffer);
        HandOut(emitted, buffer, Since(frozen, from));
      }
      var row := buffer[0];
      RowIs(frozen, from, |emitted|);
      Bounded(frozen, from, |emitted|);
      item := Some(Row(row));
      next := None;
      if row.version < U64_MAX {
        next := Some(row.version + 1);
      }
      buffer, emitted := buffer[1..], emitted + [row];
    }
  }

  /** What a session's head for a stream means in the store by now. */
  lemma Frozen(session: ExportSession, id: Key)
    requires session.Valid()
    ensures var frozen := RowsIn(session.cut, id);
            && IsRows(frozen)
            && (id in session.heads <==> frozen != [])
            && (id in session.heads ==>
                  && session.heads[id] == |frozen|
                  && id in session.store.streams
                  && IsRows(session.store.streams[id])
                  && frozen <= session.store.streams[id])
  {
    hide Of;
    StoreRows(session.store, id);
    RowsGrow(session.cut, session.store.log, id);
  }

  lemma NoBuffer<T>(emitted: seq<T>, buffer: seq<T>, whole: seq<T>)
    requires Begins(emitted, buffer, whole)
    ensures Begins(emitted, [], whole)
  {
  }

  lemma Bounded(rows: seq<Stored>, from: nat, i: nat)
    requires 0 < from && IsRows(rows) && i < |Since(rows, from)|
    ensures from + i < U64_MAX
  {
  }

  lemma Exhausted(frozen: seq<Stored>, from: nat, emitted: seq<Stored>)
    requires 0 < from && emitted <= Since(frozen, from)
    ensures frozen == [] || from + |emitted| > |frozen| ==> emitted == Since(frozen, from)
  {
  }

  /** One page below the frozen head. */
  method FrozenBatch(rows: seq<Stored>, start: nat, ceiling: nat, size: nat, ghost frozen: seq<Stored>)
    returns (batch: seq<Stored>)
    requires IsRows(rows) && frozen <= rows && |frozen| == ceiling && 0 < start <= ceiling && 0 < size
    ensures batch <= Since(frozen, start) && batch != []
  {
    hide Sorted, Splits;
    RowsSort(rows);
    var first := PartitionPoint(rows, start);
    SplitIs(rows, start, first);
    batch := [];
    while |batch| < size && first + |batch| < |rows| && rows[first + |batch|].version <= ceiling
      invariant |batch| <= size && first + |batch| <= ceiling && batch == rows[first..first + |batch|]
    {
      batch := batch + [rows[first + |batch|]];
    }
    assert batch == Since(frozen, start)[..|batch|];
  }
}
