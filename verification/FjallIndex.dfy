/** The four Fjall partitions as images of one log. */
module FjallIndex {
  import opened Wrappers
  import opened EventLog
  import opened FjallKeys

  type Frame(==, !new)

  type Row = Entry<Bytes, Frame>

  /** Whether the store keeps a second copy of every row for `$all` reads. */
  datatype AllIndex = Denormalized | Disabled

  datatype Partitions = Partitions(
    streams: map<Bytes, Bytes>,
    events: map<Bytes, Frame>,
    eventsGlobal: map<Bytes, Frame>,
    global: Option<Bytes>)

  predicate ValidId(id: Bytes) {
    0 < |id| <= MAX_STREAM_ID_LEN
  }

  /** The ids a store takes are the nonempty ones for which there are keys. */
  lemma ValidHasKeys(id: Bytes, version: U64, position: U64)
    ensures ValidId(id) <==> id != [] && EncodeEventKey(id, version).Ok? && EncodeGlobalKey(position, id, version).Ok?
  {
  }

  ghost predicate WellFormed(log: seq<Row>) {
    && |log| <= U64_MAX
    && forall i :: 0 <= i < |log| ==> ValidId(log[i].stream)
  }

  /** The head of every stream that has one. */
  ghost function Heads(log: seq<Row>): map<Bytes, nat> {
    if log == [] then map[]
    else
      var n := |log| - 1;
      Heads(log[..n])[log[n].stream := Head(log, log[n].stream)]
  }

  ghost function StreamIndex(log: seq<Row>): map<Bytes, Bytes> {
    map id | id in Heads(log) :: Little(8, Heads(log)[id])
  }

  /** How a partition keys the row of a position, a stream and a version. */
  type Layout = (nat, Bytes, nat) -> Bytes

  ghost function KeyAt(key: Layout, log: seq<Row>, i: nat): Bytes
    requires i < |log|
  {
    key(i + 1, log[i].stream, VersionAt(log, i))
  }

  /** One row per entry. */
  ghost function Rows(key: Layout, log: seq<Row>): map<Bytes, Frame> {
    if log == [] then map[]
    else
      var n := |log| - 1;
      Rows(key, log[..n])[key(|log|, log[n].stream, Head(log, log[n].stream)) := log[n].frame]
  }

  function ByStream(position: nat, id: Bytes, version: nat): Bytes {
    EventKey(id, version)
  }

  function ByPosition(position: nat, id: Bytes, version: nat): Bytes {
    GlobalKey(position, id, version)
  }

  ghost function AllRows(mode: AllIndex, log: seq<Row>): map<Bytes, Frame> {
    if mode.Denormalized? then Rows(ByPosition, log) else map[]
  }

  ghost function Counter(log: seq<Row>): Option<Bytes> {
    if log == [] then None else Some(Little(8, |log|))
  }

  /** What the partitions hold for a log. */
  ghost function Image(mode: AllIndex, log: seq<Row>): Partitions {
    Partitions(StreamIndex(log), Rows(ByStream, log), AllRows(mode, log), Counter(log))
  }

  // ----- growing the log --------------------------------------------------------------

  lemma OneMoreRow(key: Layout, log: seq<Row>, e: Row)
    ensures Rows(key, log + [e]) == Rows(key, log)[key(|log| + 1, e.stream, Head(log, e.stream) + 1) := e.frame]
  {
    assert (log + [e])[..|log|] == log;
    OneMore(log, e, e.stream);
  }

  /** The counters: one per nonempty stream, holding its head. */
  lemma {:induction false} HeadsAre(log: seq<Row>, id: Bytes)
    ensures id in Heads(log) <==> 0 < Head(log, id)
    ensures id in Heads(log) ==> Heads(log)[id] == Head(log, id)
    decreases |log|
  {
    if log != [] {
      HeadsAre(log[..|log| - 1], id);
    }
  }

  lemma RunCounts(log: seq<Row>, id: Bytes, frames: seq<Frame>)
    requires frames != []
    ensures StreamIndex(log + Entries(id, frames)) == StreamIndex(log)[id := Little(8, Head(log, id) + |frames|)]
  {
    hide Heads, Of, Little;
    var next := log + Entries(id, frames);
    forall other
      ensures other in Heads(next) <==> other in Heads(log) || other == id
      ensures other in Heads(next) ==>
                Heads(next)[other] == if other == id then Head(log, id) + |frames| else Heads(log)[other]
    {
      RunExtends(log, id, frames, other);
      HeadsAre(next, other);
      HeadsAre(log, other);
    }
  }

  // ----- what a partition holds -------------------------------------------------------------

  ghost predicate KeysApart(key: Layout, log: seq<Row>) {
    forall i, j :: 0 <= i < j < |log| ==> KeyAt(key, log, i) != KeyAt(key, log, j)
  }

  lemma {:induction false} RowsOnly(key: Layout, log: seq<Row>, k: Bytes) returns (i: nat)
    requires k in Rows(key, log)
    ensures i < |log| && k == KeyAt(key, log, i)
    decreases |log|
  {
    var n := |log| - 1;
    assert log[..n + 1] == log;
    if k == key(|log|, log[n].stream, Head(log, log[n].stream)) {
      i := n;
    } else {
      i := RowsOnly(key, log[..n], k);
      assert log[..n][..i + 1] == log[..i + 1];
    }
  }

  lemma {:induction false} RowsHold(key: Layout, log: seq<Row>, i: nat)
    requires i < |log| && KeysApart(key, log)
    ensures KeyAt(key, log, i) in Rows(key, log) && Rows(key, log)[KeyAt(key, log, i)] == log[i].frame
    decreases |log|
  {
    hide Of;
    var n := |log| - 1;
    var init := log[..n];
    assert log[..n + 1] == log;
    forall j | 0 <= j < n
      ensures KeyAt(key, init, j) == KeyAt(key, log, j)
    {
      assert init[..j + 1] == log[..j + 1];
    }
    if i < n {
      RowsHold(key, init, i);
      assert KeyAt(key, log, i) != KeyAt(key, log, n);
    }
  }

  lemma EventKeysApart(log: seq<Row>)
    requires WellFormed(log)
    ensures KeysApart(ByStream, log)
  {
    forall i, j | 0 <= i < j < |log|
      ensures KeyAt(ByStream, log, i) != KeyAt(ByStream, log, j)
    {
      var a, b := log[i], log[j];
      if EventKey(a.stream, VersionAt(log, i)) == EventKey(b.stream, VersionAt(log, j)) {
        EventKeyIsUnique(a.stream, VersionAt(log, i), b.stream, VersionAt(log, j));
        VersionsGrow(log, i, j);
      }
    }
  }

  lemma GlobalKeysApart(log: seq<Row>)
    requires WellFormed(log)
    ensures KeysApart(ByPosition, log)
  {
    forall i, j | 0 <= i < j < |log|
      ensures KeyAt(ByPosition, log, i) != KeyAt(ByPosition, log, j)
    {
      GlobalKeyOrder(i + 1, log[i].stream, VersionAt(log, i), j + 1, log[j].stream, VersionAt(log, j));
    }
  }

  lemma EventRowHeld(log: seq<Row>, id: Bytes, version: nat)
    requires WellFormed(log) && 1 <= version <= Head(log, id)
    ensures EventKey(id, version) in Rows(ByStream, log)
    ensures Rows(ByStream, log)[EventKey(id, version)] == Of(log, id)[version - 1]
  {
    var i := PlaceOf(log, id, version);
    EventKeysApart(log);
    RowsHold(ByStream, log, i);
    VersionIsPlace(log, i);
  }

  lemma EventRowOnly(log: seq<Row>, id: Bytes, version: U64)
    requires WellFormed(log) && |id| <= MAX_KEY_LEN && EventKey(id, version) in Rows(ByStream, log)
    ensures 1 <= version <= Head(log, id)
  {
    var i := RowsOnly(ByStream, log, EventKey(id, version));
    EventKeyIsUnique(id, version, log[i].stream, VersionAt(log, i));
    VersionIsPlace(log, i);
  }

  /** The `events` rows of a stream are exactly its versions 1..head, each with the
      frame of that version. */
  lemma EventRows(log: seq<Row>, id: Bytes, version: U64)
    requires WellFormed(log) && |id| <= MAX_KEY_LEN
    ensures EventKey(id, version) in Rows(ByStream, log) <==> 1 <= version <= Head(log, id)
    ensures 1 <= version <= Head(log, id) ==> Rows(ByStream, log)[EventKey(id, version)] == Of(log, id)[version - 1]
  {
    if 1 <= version <= Head(log, id) {
      EventRowHeld(log, id, version);
    } else if EventKey(id, version) in Rows(ByStream, log) {
      EventRowOnly(log, id, version);
    }
  }

  /** The `$all` index holds exactly one row per position, with the frame that the
      `events` partition holds for the same stream and version. */
  lemma GlobalRows(log: seq<Row>, i: nat)
    requires WellFormed(log) && i < |log|
    ensures KeyAt(ByPosition, log, i) in Rows(ByPosition, log) && KeyAt(ByStream, log, i) in Rows(ByStream, log)
    ensures Rows(ByPosition, log)[KeyAt(ByPosition, log, i)] == log[i].frame
    ensures Rows(ByStream, log)[KeyAt(ByStream, log, i)] == log[i].frame
    ensures forall k :: k in Rows(ByPosition, log) && PositionOf(k) == Some(i + 1) ==> k == KeyAt(ByPosition, log, i)
  {
    hide Rows, Of;
    GlobalKeysApart(log);
    RowsHold(ByPosition, log, i);
    EventKeysApart(log);
    RowsHold(ByStream, log, i);
    forall k | k in Rows(ByPosition, log) && PositionOf(k) == Some(i + 1)
      ensures k == KeyAt(ByPosition, log, i)
    {
      var j := RowsOnly(ByPosition, log, k);
      PositionAt(log, j);
    }
  }

  /** The position a `$all` key carries. */
  function PositionOf(k: Bytes): Option<nat> {
    var decoded := DecodeGlobalKey(k);
    if decoded.Ok? then Some(decoded.value.0) else None
  }

  lemma PositionAt(log: seq<Row>, i: nat)
    requires WellFormed(log) && i < |log|
    ensures PositionOf(KeyAt(ByPosition, log, i)) == Some(i + 1)
  {
    hide Of, GlobalKey, DecodeGlobalKey;
    VersionIsPlace(log, i);
    GlobalKeyRoundTrip(i + 1, log[i].stream, VersionAt(log, i));
  }
}
