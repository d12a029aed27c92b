/** Export batches over the stored rows: reopening a scan by version is opening a
    byte range on the same snapshot. */
module FjallExport {
  import opened Wrappers
  import opened EventLog
  import opened FjallBlocking
  import opened FjallKeys
  import opened FjallScan
  import opened FjallStore
  import I = FjallIndex

  type Log = seq<I.Row>

  /** The bytes of a stored frame. */
  type Sizes = I.Frame -> nat

  type Cursor = seq<Row<Item, ScanError>>

  /** One stored row as the cursor yields it: its version, its item and its size. */
  function Fetched(id: Bytes, size: Sizes, key: Bytes, frame: I.Frame): Row<Item, ScanError> {
    var item := DecodeRow(StreamScan(id), key, frame);
    if item.Ok? then Row(item.value.version, Ok(item.value), |key| + size(frame))
    else Row(0, Err(Failed(item.error)), |key| + size(frame))
  }

  /** A partition's rows for keys in order. */
  ghost function RowsFor(rows: map<Bytes, I.Frame>, id: Bytes, size: Sizes, keys: seq<Bytes>): (cursor: Cursor)
    requires forall k :: k in keys ==> k in rows
    ensures |cursor| == |keys|
  {
    if keys == [] then []
    else
      var n := |keys| - 1;
      RowsFor(rows, id, size, keys[..n]) + [Fetched(id, size, keys[n], rows[keys[n]])]
  }

  lemma {:induction false} RowForKey(rows: map<Bytes, I.Frame>, id: Bytes, size: Sizes, keys: seq<Bytes>, i: nat)
    requires i < |keys| && forall k :: k in keys ==> k in rows
    ensures RowsFor(rows, id, size, keys)[i] == Fetched(id, size, keys[i], rows[keys[i]])
  {
    var n := |keys| - 1;
    if i < n {
      RowForKey(rows, id, size, keys[..n], i);
    }
  }

  /** A stream's byte range of a snapshot from a version, in key order. */
  ghost function RangeRows(rows: map<Bytes, I.Frame>, id: Bytes, size: Sizes, from: nat): Cursor {
    RowsFor(rows, id, size, InOrder(RangeKeys(rows, EventKey(id, from), Some(EventKey(id, U64_MAX)))))
  }

  // ----- what a valid store holds -------------------------------------------------------------

  ghost function VersionRow(log: Log, id: Bytes, size: Sizes, version: nat): Row<Item, ScanError>
    requires 1 <= version <= Head(log, id)
  {
    var frame := Of(log, id)[version - 1];
    Row(version, Ok(OfStream(version, frame)), 10 + |id| + size(frame))
  }

  /** The rows of a stream by version. */
  ghost function VersionRows(log: Log, id: Bytes, size: Sizes): (cursor: Cursor)
    ensures |cursor| == Head(log, id)
    ensures forall i :: 0 <= i < |cursor| ==> cursor[i] == VersionRow(log, id, size, i + 1)
  {
    seq(Head(log, id), i requires 0 <= i < Head(log, id) => VersionRow(log, id, size, i + 1))
  }

  lemma StoredRow(log: Log, id: Bytes, size: Sizes, version: nat)
    requires I.WellFormed(log) && I.ValidId(id) && 1 <= version <= Head(log, id)
    ensures EventKey(id, version) in I.Rows(I.ByStream, log)
    ensures Fetched(id, size, EventKey(id, version), I.Rows(I.ByStream, log)[EventKey(id, version)]) ==
            VersionRow(log, id, size, version)
  {
    hide I.Rows, Of, DecodeEventKey;
    I.EventRowHeld(log, id, version);
    EventKeyDecodes(id, version);
  }

  lemma VersionRowsKeyed(log: Log, id: Bytes, size: Sizes)
    requires I.WellFormed(log)
    ensures Keyed(VersionRows(log, id, size))
  {
    hide Of;
  }

  /** Opening by version skips exactly the earlier versions. */
  lemma OpenedAt(log: Log, id: Bytes, size: Sizes, from: nat)
    requires 0 < from
    ensures var start := FirstAt(VersionRows(log, id, size), from, 0);
            start == if from <= Head(log, id) then from - 1 else Head(log, id)
  {
    hide Of, FirstAt;
    var cursor := VersionRows(log, id, size);
    var start := FirstAt(cursor, from, 0);
    assert start < |cursor| ==> from <= cursor[start].key == start + 1;
    assert 0 < start ==> cursor[start - 1].key == start < from;
  }

  lemma KeysStored(log: Log, id: Bytes, from: nat)
    requires I.WellFormed(log) && 0 < from
    ensures var keys := StreamKeys(log, id, from);
            && |keys| == Count(Head(log, id), from)
            && (forall k :: k in keys ==> k in I.Rows(I.ByStream, log))
            && (forall i :: 0 <= i < |keys| ==> keys[i] == EventKey(id, from + i))
  {
    hide I.Rows, Of, EventKey;
    var keys := StreamKeys(log, id, from);
    forall k | k in keys
      ensures k in I.Rows(I.ByStream, log)
    {
      var i :| 0 <= i < |keys| && keys[i] == k;
      I.EventRowHeld(log, id, from + i);
    }
  }

  /** Reopening the export at a version on one snapshot is scanning the stream's byte
      range from the key of that version: the same rows, and of no other stream. */
  lemma ReopenIsRange(log: Log, id: Bytes, size: Sizes, from: U64)
    requires I.WellFormed(log) && I.ValidId(id) && 0 < from
    ensures RangeRows(I.Rows(I.ByStream, log), id, size, from) == Opened(VersionRows(log, id, size), from)
  {
    hide I.Rows, Of, EventKey, RangeKeys, RowsFor, Fetched, FirstAt, StreamKeys, VersionRow;
    var rows := I.Rows(I.ByStream, log);
    var keys := StreamKeys(log, id, from);
    StreamRange(log, id, from);
    KeysStored(log, id, from);
    OpenedAt(log, id, size, from);
    var range, behind := RangeRows(rows, id, size, from), Opened(VersionRows(log, id, size), from);
    assert |range| == |keys| == |behind|;
    forall i | 0 <= i < |range|
      ensures range[i] == behind[i]
    {
      RowForKey(rows, id, size, keys, i);
      StoredRow(log, id, size, from + i);
      assert behind[i] == VersionRows(log, id, size)[from - 1 + i];
    }
  }

  /** A slice of the log as the batched stream yields it. */
  ghost function Yielded(items: seq<Result<Item, ScanError>>): seq<Result<Item, Error<ScanError>>> {
    seq(|items|, i requires 0 <= i < |items| => if items[i].Ok? then Ok(items[i].value) else Err(Failed(items[i].error)))
  }

  lemma OpenedIsSlice(log: Log, id: Bytes, size: Sizes, from: nat)
    requires 0 < from
    ensures Plain(Opened(VersionRows(log, id, size), from)) == Yielded(StreamSlice(log, id, from))
  {
    hide Of, FirstAt, FirstError;
    OpenedAt(log, id, size, from);
    var behind := Opened(VersionRows(log, id, size), from);
    forall i | 0 <= i < |behind|
      ensures behind[i] == VersionRow(log, id, size, from + i)
    {
      assert behind[i] == VersionRows(log, id, size)[from - 1 + i];
    }
    assert FirstError(behind, 0) == |behind|;
  }

  /** Some of the items and then the error of a byte count that overflowed. */
  ghost predicate CutShort(rows: seq<Result<Item, Error<ScanError>>>, items: seq<Result<Item, Error<ScanError>>>) {
    rows != [] && rows[|rows| - 1] == Err(ScanLengthOverflow) && rows[..|rows| - 1] < items
  }

  /** An export of a stored stream, batch after batch on one snapshot, yields exactly
      the stream's versions from the start to its head, unless a row's size overflows
      the byte count: then those before it and the error. */
  method ExportStored(store: Storage, id: Bytes, from: U64, config: Config, size: Sizes, snapshot: Cursor)
    returns (rows: seq<Result<Item, Error<ScanError>>>)
    requires store.Valid() && I.ValidId(id) && 0 < from && Usable(config)
    requires snapshot == RangeRows(store.parts.events, id, size, 1)
    ensures Countable(snapshot, config) ==> rows == Yielded(StreamSlice(store.log, id, from))
    ensures rows == Yielded(StreamSlice(store.log, id, from)) || CutShort(rows, Yielded(StreamSlice(store.log, id, from)))
  {
    hide I.Rows, Of, RangeRows, Plain, Opened, Yielded, Keyed, Countable;
    ReopenIsRange(store.log, id, size, 1);
    OpenedFirst(store.log, id, size);
    VersionRowsKeyed(store.log, id, size);
    OpenedIsSlice(store.log, id, size, from);
    rows := Export(snapshot, from, config);
  }

  lemma OpenedFirst(log: Log, id: Bytes, size: Sizes)
    ensures Opened(VersionRows(log, id, size), 1) == VersionRows(log, id, size)
  {
    hide Of, FirstAt;
    OpenedAt(log, id, size, 1);
  }
}
