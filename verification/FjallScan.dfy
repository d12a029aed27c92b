/** Reads of the Fjall store: lexicographic range scans over encoded keys. */
module FjallScan {
  import opened Wrappers
  import opened Ordering
  import opened EventLog
  import opened FjallKeys
  import opened FjallIndex
  import opened FjallStore

  datatype Strategy = StreamScan(id: Bytes) | GlobalScan

  datatype Item =
    | OfStream(version: nat, frame: Frame)
    | OfAll(position: nat, stream: Bytes, version: nat, frame: Frame)

  datatype ScanError = InvalidStream(len: nat) | AllIndexDisabled | Corrupt

  /** Decode one stored row. A stream scan does not look at the id in the key. */
  function DecodeRow(strategy: Strategy, key: Bytes, frame: Frame): Result<Item, ScanError> {
    if strategy.StreamScan? then
      var decoded := DecodeEventKey(key);
      if decoded.Err? || decoded.value.1 == 0 then Err(Corrupt) else Ok(OfStream(decoded.value.1, frame))
    else
      var decoded := DecodeGlobalKey(key);
      if decoded.Err? || decoded.value.1 == [] || decoded.value.0 == 0 || decoded.value.2 == 0 then Err(Corrupt)
      else Ok(OfAll(decoded.value.0, decoded.value.1, decoded.value.2, frame))
  }

  lemma ByteOrder()
    ensures StrictOrder(Less)
  {
    forall a: Bytes
      ensures !Less(a, a)
    {
      LessIsTotal(a, a);
    }
    forall a: Bytes, b: Bytes, c: Bytes | Less(a, b) && Less(b, c)
      ensures Less(a, c)
    {
      LessIsTransitive(a, b, c);
    }
  }

  /** Keys in tree order. */
  ghost function InOrder(keys: set<Bytes>): (s: seq<Bytes>)
    ensures Lists(Less, s, keys)
  {
    ByteOrder();
    assert TotalOn(Less, keys) by {
      forall a, b | a in keys && b in keys
        ensures a == b || Less(a, b) || Less(b, a)
      {
        LessIsTotal(a, b);
      }
    }
    Listing(Less, keys)
  }

  lemma InOrderIs(keys: set<Bytes>, s: seq<Bytes>)
    requires Lists(Less, s, keys)
    ensures InOrder(keys) == s
  {
    ByteOrder();
    ListingIsUnique(Less, InOrder(keys), s, keys);
  }

  /** What a cursor hands out for keys in order: every row up to and including the
      first that does not decode. */
  ghost function Decoded(strategy: Strategy, rows: map<Bytes, Frame>, keys: seq<Bytes>): seq<Result<Item, ScanError>>
    requires forall k :: k in keys ==> k in rows
  {
    if keys == [] then []
    else
      var first := DecodeRow(strategy, keys[0], rows[keys[0]]);
      [first] + if first.Err? then [] else Decoded(strategy, rows, keys[1..])
  }

  lemma DecodedStep(strategy: Strategy, rows: map<Bytes, Frame>, keys: seq<Bytes>)
    requires forall k :: k in keys ==> k in rows
    ensures keys == [] ==> Decoded(strategy, rows, keys) == []
    ensures keys != [] && DecodeRow(strategy, keys[0], rows[keys[0]]).Ok? ==>
              && (forall k :: k in keys[1..] ==> k in rows)
              && Decoded(strategy, rows, keys) ==
                 [DecodeRow(strategy, keys[0], rows[keys[0]])] + Decoded(strategy, rows, keys[1..])
  {
  }

  /** A cursor over one snapshot of a partition. */
  class ScanCursor {
    const strategy: Strategy
    const snapshot: map<Bytes, Frame>
    var remaining: set<Bytes>
    var poisoned: bool

    ghost predicate Valid()
      reads this
    {
      remaining <= snapshot.Keys
    }

    /** What is still to be handed out. */
    ghost function Items(): seq<Result<Item, ScanError>>
      requires Valid()
      reads this
    {
      if poisoned then [] else Decoded(strategy, snapshot, InOrder(remaining))
    }

    constructor (strategy: Strategy, snapshot: map<Bytes, Frame>, keys: set<Bytes>)
      requires keys <= snapshot.Keys
      ensures Valid() && Items() == Decoded(strategy, snapshot, InOrder(keys))
    {
      this.strategy := strategy;
      this.snapshot := snapshot;
      remaining := keys;
      poisoned := false;
    }

    /** Hands out the next row in key order; an error ends the cursor for good. */
    method Next() returns (item: Option<Result<Item, ScanError>>)
      requires Valid()
      modifies this
      ensures Valid()
      ensures old(Items()) == (if item.None? then [] else [item.value]) + Items()
      ensures item.None? ==> Items() == []
      ensures item.Some? && item.value.Err? ==> Items() == []
    {
      if poisoned || remaining == {} {
        return None;
      }
      ghost var order := InOrder(remaining);
      FirstIsLeast(remaining);
      var key :| key in remaining && forall k :: k in remaining ==> k == key || Less(key, k);
      LeastIsFirst(remaining, key);
      remaining := remaining - {key};
      var decoded := DecodeRow(strategy, key, snapshot[key]);
      if decoded.Err? {
        poisoned := true;
      }
      item := Some(decoded);
    }
  }

  lemma FirstIsLeast(keys: set<Bytes>)
    requires keys != {}
    ensures exists key :: key in keys && forall k :: k in keys ==> k == key || Less(key, k)
  {
    var order := InOrder(keys);
    var any :| any in keys;
    assert any in order;
    assert order[0] in keys;
    forall k | k in keys
      ensures k == order[0] || Less(order[0], k)
    {
      assert k in order;
    }
  }

  lemma LeastIsFirst(keys: set<Bytes>, key: Bytes)
    requires key in keys && forall k :: k in keys ==> k == key || Less(key, k)
    ensures InOrder(keys) == [key] + InOrder(keys - {key})
  {
    hide Less;
    var rest := InOrder(keys - {key});
    forall j | 0 <= j < |rest|
      ensures Less(key, rest[j])
    {
      assert rest[j] in keys - {key};
    }
    InOrderIs(keys, [key] + rest);
  }

  // ----- one stream -------------------------------------------------------------------

  predicate InRange(key: Bytes, lower: Bytes, upper: Option<Bytes>) {
    !Less(key, lower) && (upper.None? || !Less(upper.value, key))
  }

  function RangeKeys(rows: map<Bytes, Frame>, lower: Bytes, upper: Option<Bytes>): set<Bytes> {
    set k | k in rows && InRange(k, lower, upper)
  }

  ghost function Count(head: nat, from: nat): nat
    requires 0 < from
  {
    if head < from then 0 else head - from + 1
  }

  /** The versions of a stream from `from` up. */
  ghost function StreamSlice(log: seq<Row>, id: Bytes, from: nat): seq<Result<Item, ScanError>>
    requires 0 < from
  {
    seq(Count(Head(log, id), from), i requires 0 <= i < Count(Head(log, id), from) =>
      Ok(OfStream(from + i, Of(log, id)[from + i - 1])))
  }

  ghost function StreamKeys(log: seq<Row>, id: Bytes, from: nat): seq<Bytes>
    requires 0 < from
  {
    seq(Count(Head(log, id), from), i requires 0 <= i => EventKey(id, from + i))
  }

  /** The byte range of a stream holds exactly its versions from `from`, and lists
      them in order. */
  lemma StreamRange(log: seq<Row>, id: Bytes, from: U64)
    requires WellFormed(log) && ValidId(id) && 0 < from
    ensures InOrder(RangeKeys(Rows(ByStream, log), EventKey(id, from), Some(EventKey(id, U64_MAX)))) ==
            StreamKeys(log, id, from)
  {
    hide Rows, Of, Heads, Less, EventKey, GlobalKey, DecodeEventKey, DecodeGlobalKey;
    var rows, direct := Rows(ByStream, log), StreamKeys(log, id, from);
    var keys := RangeKeys(rows, EventKey(id, from), Some(EventKey(id, U64_MAX)));
    forall i, j | 0 <= i < j < |direct|
      ensures Less(direct[i], direct[j])
    {
      EventKeyOrder(id, from + i, id, from + j);
    }
    forall k | k in keys
      ensures k in direct
    {
      KeyIsOfStream(log, id, from, k);
    }
    forall k | k in direct
      ensures k in keys
    {
      var i :| 0 <= i < |direct| && direct[i] == k;
      EventRowHeld(log, id, from + i);
      EventRange(id, from, id, from + i);
    }
    InOrderIs(keys, direct);
  }

  lemma KeyIsOfStream(log: seq<Row>, id: Bytes, from: U64, k: Bytes)
    requires WellFormed(log) && ValidId(id) && 0 < from && k in Rows(ByStream, log)
    requires InRange(k, EventKey(id, from), Some(EventKey(id, U64_MAX)))
    ensures k in StreamKeys(log, id, from)
  {
    hide Rows, Of, Heads, Less, EventKey, GlobalKey, DecodeEventKey, DecodeGlobalKey;
    var i := RowsOnly(ByStream, log, k);
    var version := VersionAt(log, i);
    EventRange(id, from, log[i].stream, version);
    VersionIsPlace(log, i);
    assert StreamKeys(log, id, from)[version - from] == k;
  }

  lemma {:induction false} StreamDecodes(log: seq<Row>, id: Bytes, from: nat)
    requires WellFormed(log) && ValidId(id) && 0 < from
    requires forall k :: k in StreamKeys(log, id, from) ==> k in Rows(ByStream, log)
    ensures Decoded(StreamScan(id), Rows(ByStream, log), StreamKeys(log, id, from)) == StreamSlice(log, id, from)
    decreases Count(Head(log, id), from)
  {
    hide Rows, Of, EventKey, DecodeEventKey, Decoded;
    var keys := StreamKeys(log, id, from);
    DecodedStep(StreamScan(id), Rows(ByStream, log), keys);
    if keys != [] {
      assert keys[0] == EventKey(id, from);
      assert keys[1..] == StreamKeys(log, id, from + 1);
      EventRowHeld(log, id, from);
      EventKeyDecodes(id, from);
      StreamDecodes(log, id, from + 1);
      assert StreamSlice(log, id, from) == [Ok(OfStream(from, Of(log, id)[from - 1]))] + StreamSlice(log, id, from + 1);
    }
  }

  /** A stream read yields exactly that stream's versions from `from` to its head,
      in order, and no row of any other stream. */
  method ReadStream(store: Storage, id: Bytes, from: U64) returns (r: Result<ScanCursor, ScanError>)
    requires store.Valid() && 0 < from
    ensures r.Ok? <==> ValidId(id)
    ensures r.Ok? ==> fresh(r.value) && r.value.Valid() && r.value.Items() == StreamSlice(store.log, id, from)
  {
    if !ValidId(id) {
      return Err(InvalidStream(|id|));
    }
    var lower := EncodeEventKey(id, from);
    var upper := EncodeEventKey(id, U64_MAX);
    var rows := store.parts.events;
    var cursor := new ScanCursor(StreamScan(id), rows, RangeKeys(rows, lower.value, Some(upper.value)));
    StreamRange(store.log, id, from);
    StreamDecodes(store.log, id, from);
    r := Ok(cursor);
  }

  // ----- `$all` -----------------------------------------------------------------------

  ghost function AllItem(log: seq<Row>, i: nat): Result<Item, ScanError>
    requires i < |log|
  {
    Ok(OfAll(i + 1, log[i].stream, VersionAt(log, i), log[i].frame))
  }

  /** The entries of the log strictly above a position. */
  ghost function AllSlice(log: seq<Row>, above: nat): seq<Result<Item, ScanError>> {
    seq(Count(|log|, above + 1), i requires 0 <= i < Count(|log|, above + 1) => AllItem(log, above + i))
  }

  ghost function AllKeys(log: seq<Row>, above: nat): seq<Bytes> {
    seq(Count(|log|, above + 1), i requires 0 <= i < Count(|log|, above + 1) => KeyAt(ByPosition, log, above + i))
  }

  lemma VersionFits(log: seq<Row>, i: nat)
    requires WellFormed(log) && i < |log|
    ensures 1 <= VersionAt(log, i) <= U64_MAX
  {
  }

  lemma PositionsAscend(log: seq<Row>, i: nat, j: nat)
    requires WellFormed(log) && i < j < |log|
    ensures Less(KeyAt(ByPosition, log, i), KeyAt(ByPosition, log, j))
  {
    hide Less, GlobalKey;
    VersionFits(log, i);
    VersionFits(log, j);
    GlobalKeyOrder(i + 1, log[i].stream, VersionAt(log, i), j + 1, log[j].stream, VersionAt(log, j));
  }

  lemma PositionInRange(log: seq<Row>, above: nat, i: nat)
    requires WellFormed(log) && above < U64_MAX && i < |log|
    ensures InRange(KeyAt(ByPosition, log, i), GlobalKey(above + 1, [], 0), None) <==> above <= i
  {
    hide Less, GlobalKey;
    VersionFits(log, i);
    GlobalRange(above + 1, i + 1, log[i].stream, VersionAt(log, i));
  }

  lemma AllRange(log: seq<Row>, above: nat)
    requires WellFormed(log) && above < U64_MAX
    ensures InOrder(RangeKeys(Rows(ByPosition, log), GlobalKey(above + 1, [], 0), None)) == AllKeys(log, above)
  {
    hide Rows, Of, KeyAt, GlobalKey, Less;
    var rows, direct := Rows(ByPosition, log), AllKeys(log, above);
    var keys := RangeKeys(rows, GlobalKey(above + 1, [], 0), None);
    forall i, j | 0 <= i < j < |direct|
      ensures Less(direct[i], direct[j])
    {
      PositionsAscend(log, above + i, above + j);
    }
    forall k | k in keys
      ensures k in direct
    {
      var i := RowsOnly(ByPosition, log, k);
      PositionInRange(log, above, i);
      assert direct[i - above] == k;
    }
    forall k | k in direct
      ensures k in keys
    {
      var i :| 0 <= i < |direct| && direct[i] == k;
      GlobalRows(log, above + i);
      PositionInRange(log, above, above + i);
    }
    InOrderIs(keys, direct);
  }

  lemma PositionDecodes(log: seq<Row>, i: nat)
    requires WellFormed(log) && i < |log|
    ensures KeyAt(ByPosition, log, i) in Rows(ByPosition, log)
    ensures DecodeRow(GlobalScan, KeyAt(ByPosition, log, i), Rows(ByPosition, log)[KeyAt(ByPosition, log, i)]) ==
            AllItem(log, i)
  {
    hide Rows, Of, GlobalKey, DecodeGlobalKey;
    GlobalRows(log, i);
    VersionFits(log, i);
    GlobalKeyRoundTrip(i + 1, log[i].stream, VersionAt(log, i));
  }

  lemma {:induction false} AllDecodes(log: seq<Row>, above: nat)
    requires WellFormed(log)
    requires forall k :: k in AllKeys(log, above) ==> k in Rows(ByPosition, log)
    ensures Decoded(GlobalScan, Rows(ByPosition, log), AllKeys(log, above)) == AllSlice(log, above)
    decreases Count(|log|, above + 1)
  {
    hide Rows, Of, KeyAt, DecodeRow, Decoded;
    var keys := AllKeys(log, above);
    DecodedStep(GlobalScan, Rows(ByPosition, log), keys);
    if keys != [] {
      assert keys[0] == KeyAt(ByPosition, log, above);
      assert keys[1..] == AllKeys(log, above + 1);
      PositionDecodes(log, above);
      AllDecodes(log, above + 1);
      assert AllSlice(log, above) == [AllItem(log, above)] + AllSlice(log, above + 1);
    }
  }

  /** An `$all` read yields exactly the entries strictly above `from`, in order and
      each with its stream; above the largest position there is nothing. */
  method ReadAll(store: Storage, from: Option<U64>) returns (r: Result<ScanCursor, ScanError>)
    requires store.Valid() && (from.Some? ==> 0 < from.value)
    ensures r.Ok? <==> store.mode.Denormalized?
    ensures r.Ok? ==>
              && fresh(r.value) && r.value.Valid()
              && r.value.Items() == AllSlice(store.log, if from.None? then 0 else from.value)
  {
    if store.mode.Disabled? {
      return Err(AllIndexDisabled);
    }
    var rows := store.parts.eventsGlobal;
    if from == Some(U64_MAX) {
      var cursor := new ScanCursor(GlobalScan, rows, {});
      InOrderIs({}, []);
      r := Ok(cursor);
    } else {
      var above := if from.None? then 0 else from.value;
      var lower := EncodeGlobalKey(above + 1, [], 0);
      var cursor := new ScanCursor(GlobalScan, rows, RangeKeys(rows, lower.value, None));
      AllRange(store.log, above);
      AllDecodes(store.log, above);
      r := Ok(cursor);
    }
  }

  // ----- the two reads agree ------------------------------------------------------------

  /** What `$all` shows of one stream, as a stream read would show it. */
  ghost function OnlyStream(items: seq<Result<Item, ScanError>>, id: Bytes): seq<Result<Item, ScanError>> {
    if items == [] then []
    else
      var n := |items| - 1;
      OnlyStream(items[..n], id) +
      if items[n].Ok? && items[n].value.OfAll? && items[n].value.stream == id then
        [Ok(OfStream(items[n].value.version, items[n].value.frame))]
      else []
  }

  lemma AllSliceGrows(log: seq<Row>, n: nat)
    requires |log| == n + 1
    ensures AllSlice(log, 0) == AllSlice(log[..n], 0) + [AllItem(log, n)]
  {
    hide Of;
    var init := log[..n];
    forall i | 0 <= i < n
      ensures AllItem(log, i) == AllItem(init, i)
    {
      assert log[..i + 1] == init[..i + 1];
    }
  }

  lemma StreamSliceGrows(log: seq<Row>, n: nat, id: Bytes)
    requires |log| == n + 1
    ensures StreamSlice(log, id, 1) ==
            StreamSlice(log[..n], id, 1) +
            if log[n].stream == id then [Ok(OfStream(VersionAt(log, n), log[n].frame))] else []
  {
    assert log == log[..n] + [log[n]] && log[..n + 1] == log;
    OneMore(log[..n], log[n], id);
    hide Of;
    if log[n].stream != id {
      assert StreamSlice(log, id, 1) == StreamSlice(log[..n], id, 1) + [];
    }
  }

  /** `$all` restricted to a stream is that stream. */
  lemma {:induction false} AllRestricted(log: seq<Row>, id: Bytes)
    ensures OnlyStream(AllSlice(log, 0), id) == StreamSlice(log, id, 1)
    decreases |log|
  {
    hide Of, AllSlice, StreamSlice, VersionAt;
    if log == [] {
      NoItems(id);
    } else {
      var n := |log| - 1;
      AllRestricted(log[..n], id);
      AllSliceGrows(log, n);
      StreamSliceGrows(log, n, id);
      assert AllSlice(log, 0)[..|AllSlice(log, 0)| - 1] == AllSlice(log[..n], 0);
    }
  }

  lemma NoItems(id: Bytes)
    ensures AllSlice([], 0) == [] && StreamSlice([], id, 1) == []
  {
  }

  // ----- what was appended is what is read ------------------------------------------------

  /** After an accepted append a stream read yields every event of the batch at its own
      version behind the earlier ones, an `$all` read yields it with its stream at the
      next position, and reads of other streams are as before. */
  lemma AppendedIsRead(log: seq<Row>, w: Run, i: nat, other: Bytes)
    requires Accepts(TERMS, log, w) && i < |w.batch|
    ensures var next, event := Extended(log, w), w.batch[i];
            var stream, all := StreamSlice(next, w.target, 1), AllSlice(next, 0);
            && |stream| == Head(log, w.target) + |w.batch|
            && 1 <= event.version <= |stream|
            && stream[event.version - 1] == Ok(OfStream(event.version, event.frame.value))
            && |all| == |log| + |w.batch|
            && all[|log| + i] == Ok(OfAll(|log| + i + 1, w.target, event.version, event.frame.value))
            && StreamSlice(log, w.target, 1) <= stream
            && (other != w.target ==> StreamSlice(next, other, 1) == StreamSlice(log, other, 1))
  {
    hide Of, VersionAt;
    EachAtItsVersion(TERMS, log, w, i);
    RunExtends(log, w.target, Frames(w.batch), w.target);
    RunExtends(log, w.target, Frames(w.batch), other);
  }
}
