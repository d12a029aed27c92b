/** Appends to the Fjall store: planning, staging in a write transaction, commit. */
module FjallStore {
  import opened Wrappers
  import opened FjallKeys
  import opened FjallIndex
  import opened EventLog
  import opened StoreContract

  type Batch = seq<Pending<Frame>>

  type Run = Write<Bytes, Frame>

  /** Fjall assigns every position up to the largest. */
  const TERMS: Terms<Bytes> := Terms(ValidId, U64_MAX)

  datatype StagedRow = StagedRow(eventKey: Bytes, globalKey: Bytes, frame: Frame)

  datatype PlannedRun = PlannedRun(rows: seq<StagedRow>, newVersion: nat, endingGlobal: nat)

  datatype PlanError = PlanVersionOverflow | PlanGlobalOverflow | InvalidInput(version: nat)

  datatype AppendError =
    | InvalidKey(len: nat)
    | Refused(error: ValidationError)
    | Unplanned(plan: PlanError)
    | CorruptMeta
    | BadRoute(route: InvalidRoute<Bytes>)
    | BadRun(run: InvalidRun)
    | AtomicConflict(index: nat, actual: nat)

  // ----- planning ---------------------------------------------------------------------

  /** Encode the frames, failing on the first that cannot be encoded. */
  method PrepareRun(batch: Batch) returns (r: Result<seq<Frame>, PlanError>)
    ensures r.Ok? <==> Encodes(batch)
    ensures r.Ok? ==> r.value == Frames(batch)
    ensures r.Err? ==> exists i :: 0 <= i < |batch| && batch[i].frame.None? && Encodes(batch[..i])
                                   && r.error == InvalidInput(batch[i].version)
  {
    var frames := [];
    for i := 0 to |batch|
      invariant Encodes(batch[..i]) && frames == Frames(batch[..i])
    {
      if batch[i].frame.None? {
        return Err(InvalidInput(batch[i].version));
      }
      frames := frames + [batch[i].frame.value];
    }
    assert batch[..|batch|] == batch;
    r := Ok(frames);
  }

  predicate PlannedAt(rows: seq<StagedRow>, version: nat, global: nat, id: Bytes, frames: seq<Frame>)
    requires |rows| <= |frames|
  {
    forall i :: 0 <= i < |rows| ==>
      rows[i] == StagedRow(EventKey(id, version + 1 + i), GlobalKey(global + 1 + i, id, version + 1 + i), frames[i])
  }

  /** Assign the next versions and positions to the frames, in checked arithmetic. */
  method PlanPreparedRun(currentVersion: U64, currentGlobal: U64, id: Bytes, frames: seq<Frame>)
    returns (r: Result<PlannedRun, PlanError>)
    requires frames != []
    ensures r.Ok? <==>
              && |id| <= MAX_STREAM_ID_LEN
              && currentVersion + |frames| <= U64_MAX
              && currentGlobal + |frames| <= U64_MAX
    ensures r.Ok? ==>
              && |r.value.rows| == |frames|
              && PlannedAt(r.value.rows, currentVersion, currentGlobal, id, frames)
              && r.value.newVersion == currentVersion + |frames|
              && r.value.endingGlobal == currentGlobal + |frames|
    ensures r == Err(PlanGlobalOverflow) ==> currentGlobal + |frames| > U64_MAX
    ensures r == Err(PlanVersionOverflow) ==> currentVersion + |frames| > U64_MAX
    ensures r.Err? && r.error.InvalidInput? ==> |id| > MAX_STREAM_ID_LEN
  {
    var version: nat, global: nat, rows := currentVersion, currentGlobal, [];
    for i := 0 to |frames|
      invariant i > 0 ==> |id| <= MAX_STREAM_ID_LEN
      invariant version == currentVersion + i <= U64_MAX && global == currentGlobal + i <= U64_MAX
      invariant |rows| == i && PlannedAt(rows, currentVersion, currentGlobal, id, frames)
    {
      if version == U64_MAX {
        return Err(PlanVersionOverflow);
      }
      version := version + 1;
      if global == U64_MAX {
        return Err(PlanGlobalOverflow);
      }
      global := global + 1;
      var eventKey := EncodeEventKey(id, version);
      if eventKey.Err? {
        return Err(InvalidInput(version));
      }
      var globalKey := EncodeGlobalKey(global, id, version);
      if globalKey.Err? {
        return Err(InvalidInput(version));
      }
      rows := rows + [StagedRow(eventKey.value, globalKey.value, frames[i])];
    }
    r := Ok(PlannedRun(rows, version, global));
  }

  // ----- the write transaction -----------------------------------------------------------

  function ReadVersion(tx: Partitions, id: Bytes): Result<nat, AppendError> {
    if id !in tx.streams then Ok(0)
    else
      var value := DecodeStreamVersion(tx.streams[id]);
      if value.Err? then Err(CorruptMeta) else Ok(value.value)
  }

  function ReadGlobal(tx: Partitions): Result<nat, AppendError> {
    if tx.global.None? then Ok(0)
    else if |tx.global.value| != 8 then Err(CorruptMeta)
    else Ok(FromLittle(tx.global.value))
  }

  /** The one site of the dual write. */
  function StageEvent(mode: AllIndex, tx: Partitions, row: StagedRow): Partitions {
    tx.(events := tx.events[row.eventKey := row.frame],
        eventsGlobal := if mode.Denormalized? then tx.eventsGlobal[row.globalKey := row.frame] else tx.eventsGlobal)
  }

  function SetVersion(tx: Partitions, id: Bytes, version: nat): Partitions {
    tx.(streams := tx.streams[id := Little(8, version)])
  }

  function SetGlobal(tx: Partitions, global: nat): Partitions {
    tx.(global := Some(Little(8, global)))
  }

  lemma ReadsHead(tx: Partitions, log: seq<Row>, id: Bytes)
    requires WellFormed(log) && tx.streams == StreamIndex(log)
    ensures ReadVersion(tx, id) == Ok(Head(log, id))
  {
    HeadsAre(log, id);
    if id in Heads(log) {
      StreamVersionRoundTrip(Head(log, id));
    }
  }

  lemma ReadsCounter(tx: Partitions, log: seq<Row>)
    requires WellFormed(log) && tx.global == Counter(log)
    ensures ReadGlobal(tx) == Ok(|log|)
  {
    Powers();
    LittleRoundTrip(8, |log|);
  }

  /** The staged row partitions and stream counters agree with a log. */
  ghost predicate Staged(mode: AllIndex, tx: Partitions, log: seq<Row>) {
    && tx.streams == StreamIndex(log)
    && tx.events == Rows(ByStream, log)
    && tx.eventsGlobal == AllRows(mode, log)
  }

  /** Write one planned run and advance its stream counter. */
  method StageRun(mode: AllIndex, start: Partitions, id: Bytes, run: PlannedRun,
                  ghost log: seq<Row>, ghost frames: seq<Frame>)
    returns (tx: Partitions)
    requires frames != [] && |run.rows| == |frames| && PlannedAt(run.rows, Head(log, id), |log|, id, frames)
    requires run.newVersion == Head(log, id) + |frames|
    requires Staged(mode, start, log)
    ensures Staged(mode, tx, log + Entries(id, frames)) && tx.global == start.global
  {
    hide Rows, Of, Heads;
    tx := start;
    ghost var cur := log;
    assert log + Entries(id, frames[..0]) == log;
    for i := 0 to |run.rows|
      invariant cur == log + Entries(id, frames[..i]) && Head(cur, id) == Head(log, id) + i
      invariant tx.streams == start.streams && tx.global == start.global
      invariant tx.events == Rows(ByStream, cur) && tx.eventsGlobal == AllRows(mode, cur)
    {
      StageOne(mode, tx, cur, id, frames[i], run.rows[i]);
      Snoc(log, id, frames, i);
      tx := StageEvent(mode, tx, run.rows[i]);
      cur := cur + [Entry(id, frames[i])];
    }
    assert frames[..|frames|] == frames;
    RunCounts(log, id, frames);
    tx := SetVersion(tx, id, run.newVersion);
  }

  lemma StageOne(mode: AllIndex, tx: Partitions, cur: seq<Row>, id: Bytes, frame: Frame, row: StagedRow)
    requires tx.events == Rows(ByStream, cur) && tx.eventsGlobal == AllRows(mode, cur)
    requires var version := Head(cur, id) + 1;
             row == StagedRow(EventKey(id, version), GlobalKey(|cur| + 1, id, version), frame)
    ensures var next, staged := cur + [Entry(id, frame)], StageEvent(mode, tx, row);
            && Head(next, id) == Head(cur, id) + 1
            && staged.events == Rows(ByStream, next)
            && staged.eventsGlobal == AllRows(mode, next)
  {
    OneMore(cur, Entry(id, frame), id);
    OneMoreRow(ByStream, cur, Entry(id, frame));
    OneMoreRow(ByPosition, cur, Entry(id, frame));
  }

  lemma {:induction false} OneByOneWellFormed(log: seq<Row>, writes: seq<Run>)
    requires WellFormed(log) && OneByOne(TERMS, log, writes).Some?
    ensures WellFormed(OneByOne(TERMS, log, writes).value)
    decreases |writes|
  {
    if writes != [] {
      OneByOneWellFormed(log, writes[..|writes| - 1]);
    }
  }

  // ----- the store ------------------------------------------------------------------------

  /** `log` is what the partitions mean. */
  class Storage {
    const mode: AllIndex
    var parts: Partitions
    ghost var log: seq<Row>

    ghost predicate Valid()
      reads this
    {
      WellFormed(log) && parts == Image(mode, log)
    }

    constructor (mode: AllIndex)
      ensures Valid() && log == [] && this.mode == mode
    {
      this.mode := mode;
      parts := Partitions(map[], map[], map[], None);
      log := [];
    }

    /** One append: either the whole batch lands in every partition, at the next
        versions and positions, or nothing changes. */
    method Append(id: Bytes, expected: nat, batch: Batch) returns (r: Result<nat, AppendError>)
      requires Valid() && batch != []
      modifies this
      ensures Valid()
      ensures r.Ok? <==> Accepts(TERMS, old(log), PlannedAppend(id, expected, batch))
      ensures r.Ok? ==> log == Extended(old(log), PlannedAppend(id, expected, batch)) && r.value == |log|
      ensures r.Err? ==> log == old(log) && parts == old(parts)
      ensures r.Err? && r.error.InvalidKey? <==> !ValidId(id)
      ensures r.Err? && r.error.Refused? <==>
                ValidId(id) && Encodes(batch) && !(expected == Head(old(log), id) && Follows(expected, batch))
      ensures r == Err(Refused(VersionOverflow)) <==>
                ValidId(id) && Encodes(batch) && expected == Head(old(log), id) && Overruns(expected, batch)
      ensures r.Err? && r.error.Unplanned? && r.error.plan.InvalidInput? <==> ValidId(id) && !Encodes(batch)
      ensures r == Err(Unplanned(PlanGlobalOverflow)) <==>
                && ValidId(id) && Encodes(batch) && expected == Head(old(log), id) && Follows(expected, batch)
                && |old(log)| + |batch| > U64_MAX
      ensures r.Err? ==> r.error != CorruptMeta
    {
      hide Rows, Of, Heads;
      if !ValidId(id) {
        return Err(InvalidKey(|id|));
      }
      var prepared := PrepareRun(batch);
      if prepared.Err? {
        return Err(Unplanned(prepared.error));
      }
      var tx := parts;
      ReadsHead(tx, log, id);
      var current := ReadVersion(tx, id);
      if current.Err? {
        return Err(CorruptMeta);
      }
      var refusal := ValidateAppendVersions(current.value, expected, batch);
      if refusal.Some? {
        return Err(Refused(refusal.value));
      }
      ReadsCounter(tx, log);
      var global := ReadGlobal(tx);
      if global.Err? {
        return Err(CorruptMeta);
      }
      var planned := PlanPreparedRun(current.value, global.value, id, prepared.value);
      if planned.Err? {
        return Err(Unplanned(planned.error));
      }
      tx := StageRun(mode, tx, id, planned.value, log, prepared.value);
      tx := SetGlobal(tx, planned.value.endingGlobal);
      parts := tx;
      log := log + Entries(id, prepared.value);
      r := Ok(planned.value.endingGlobal);
    }

    /** Atomic append of several runs: it succeeds exactly when the targets are
        distinct and appending the runs one after another would succeed, with the
        same partitions and last position; otherwise nothing changes. */
    method AtomicAppendMany(writes: seq<Run>) returns (r: Result<Option<nat>, AppendError>)
      requires Valid()
      requires forall i :: 0 <= i < |writes| ==> writes[i].batch != [] && writes[i].expected <= U64_MAX
      modifies this
      ensures Valid()
      ensures r.Ok? <==> Distinct(Targets(writes)) && OneByOne(TERMS, old(log), writes).Some?
      ensures r.Ok? ==>
                && log == OneByOne(TERMS, old(log), writes).value
                && r.value == if writes == [] then None else Some(|log|)
      ensures r.Err? ==> log == old(log) && parts == old(parts)
      ensures r.Err? && r.error.BadRoute? <==> !Distinct(Targets(writes))
      ensures r.Err? && r.error.AtomicConflict? ==>
                && r.error.index < |writes|
                && r.error.actual == Head(old(log), writes[r.error.index].target) != writes[r.error.index].expected
    {
      if writes == [] {
        return Ok(None);
      }
      var route := ValidateDistinctTargets(Targets(writes));
      if route.Some? {
        return Err(BadRoute(route.value));
      }
      var run := ValidateAtomicRuns(writes);
      if run.Some? {
        RefusedAtStart(TERMS, log, writes, run.value.index);
        return Err(BadRun(run.value));
      }
      var checked := CheckWrites(parts, writes, log);
      if checked.Err? {
        return Err(checked.error);
      }
      var staged := WriteRuns(mode, parts, writes, checked.value, log);
      if staged.Err? {
        return Err(staged.error);
      }
      OneByOneWellFormed(log, writes);
      parts := staged.value.0;
      log := OneByOne(TERMS, log, writes).value;
      r := Ok(Some(staged.value.1));
    }
  }

  /** Everything that is checked before the first row is staged. */
  ghost predicate Ready(log: seq<Row>, writes: seq<Run>, n: nat)
    requires n <= |writes|
  {
    forall i :: 0 <= i < n ==>
      && ValidId(writes[i].target)
      && Encodes(writes[i].batch)
      && writes[i].expected == Head(log, writes[i].target)
  }

  ghost predicate Prepared(writes: seq<Run>, frames: seq<seq<Frame>>, n: nat)
    requires n <= |writes|
  {
    && |frames| == n
    && forall i :: 0 <= i < n ==> Encodes(writes[i].batch) && frames[i] == Frames(writes[i].batch)
  }

  /** Validate the keys, encode the frames and compare every head. */
  method CheckWrites(tx: Partitions, writes: seq<Run>, ghost log: seq<Row>)
    returns (r: Result<seq<seq<Frame>>, AppendError>)
    requires WellFormed(log) && tx.streams == StreamIndex(log) && Distinct(Targets(writes))
    ensures r.Ok? ==> Ready(log, writes, |writes|) && Prepared(writes, r.value, |writes|)
    ensures r.Err? ==> OneByOne(TERMS, log, writes).None? && !r.error.BadRoute?
    ensures r.Err? && r.error.AtomicConflict? ==>
              && r.error.index < |writes|
              && r.error.actual == Head(log, writes[r.error.index].target) != writes[r.error.index].expected
  {
    hide Of, OneByOne, Distinct, Targets, Frames, StreamIndex;
    for i := 0 to |writes|
      invariant forall k :: 0 <= k < i ==> ValidId(writes[k].target)
    {
      if !ValidId(writes[i].target) {
        RefusedAtStart(TERMS, log, writes, i);
        return Err(InvalidKey(|writes[i].target|));
      }
    }
    var frames := [];
    for i := 0 to |writes|
      invariant Prepared(writes, frames, i)
    {
      var prepared := PrepareRun(writes[i].batch);
      if prepared.Err? {
        RefusedAtStart(TERMS, log, writes, i);
        return Err(Unplanned(prepared.error));
      }
      frames := frames + [prepared.value];
    }
    for i := 0 to |writes|
      invariant Ready(log, writes, i)
    {
      ReadsHead(tx, log, writes[i].target);
      var actual := ReadVersion(tx, writes[i].target);
      if actual.Err? {
        return Err(CorruptMeta);
      }
      if actual.value != writes[i].expected {
        RefusedAtStart(TERMS, log, writes, i);
        return Err(AtomicConflict(i, actual.value));
      }
    }
    r := Ok(frames);
  }

  /** Stage every run with one running position counter; the counter is stored
      once, after the last run. */
  method WriteRuns(mode: AllIndex, start: Partitions, writes: seq<Run>, frames: seq<seq<Frame>>, ghost log: seq<Row>)
    returns (r: Result<(Partitions, nat), AppendError>)
    requires writes != [] && forall i :: 0 <= i < |writes| ==> writes[i].batch != []
    requires WellFormed(log) && start == Image(mode, log)
    requires Distinct(Targets(writes)) && Ready(log, writes, |writes|) && Prepared(writes, frames, |writes|)
    requires forall i :: 0 <= i < |writes| ==> Follows(writes[i].expected, writes[i].batch)
    ensures r.Ok? <==> OneByOne(TERMS, log, writes).Some?
    ensures r.Err? ==> !r.error.BadRoute? && !r.error.AtomicConflict?
    ensures r.Ok? ==>
              && r.value.0 == Image(mode, OneByOne(TERMS, log, writes).value)
              && r.value.1 == |OneByOne(TERMS, log, writes).value|
  {
    hide Rows, Of, Heads;
    ReadsCounter(start, log);
    var counter := ReadGlobal(start);
    if counter.Err? {
      return Err(CorruptMeta);
    }
    var tx, global := start, counter.value;
    ghost var cur := log;
    assert writes[..0] == [];
    for i := 0 to |writes|
      invariant OneByOne(TERMS, log, writes[..i]) == Some(cur) && WellFormed(cur)
      invariant Staged(mode, tx, cur) && tx.global == start.global && global == |cur|
      invariant i > 0 ==> cur != []
    {
      StreamsAtStart(TERMS, log, writes, i);
      var planned := PlanPreparedRun(writes[i].expected, global, writes[i].target, frames[i]);
      if planned.Err? {
        RefusedInTurn(TERMS, log, writes, i);
        return Err(Unplanned(planned.error));
      }
      tx := StageRun(mode, tx, writes[i].target, planned.value, cur, frames[i]);
      assert writes[..i + 1][..i] == writes[..i];
      cur := Extended(cur, writes[i]);
      global := planned.value.endingGlobal;
    }
    assert writes[..|writes|] == writes;
    tx := SetGlobal(tx, global);
    r := Ok((tx, global));
  }

  // ----- the counters -----------------------------------------------------------------------

  /** The versions the `streams` partition stores for some ids, added up. */
  ghost function StoredSum(tx: Partitions, ids: seq<Bytes>): nat {
    if ids == [] then 0
    else
      var version := ReadVersion(tx, ids[|ids| - 1]);
      StoredSum(tx, ids[..|ids| - 1]) + if version.Ok? then version.value else 0
  }

  lemma {:induction false} StoredSumIsHeads(tx: Partitions, log: seq<Row>, ids: seq<Bytes>)
    requires WellFormed(log) && tx.streams == StreamIndex(log)
    ensures StoredSum(tx, ids) == HeadSum(log, ids)
  {
    hide Of, StreamIndex;
    if ids != [] {
      StoredSumIsHeads(tx, log, ids[..|ids| - 1]);
      ReadsHead(tx, log, ids[|ids| - 1]);
    }
  }

  /** In a valid store the stored stream versions add up to the stored position
      counter, whatever the index mode. */
  lemma CountersAddUp(store: Storage, ids: seq<Bytes>)
    requires store.Valid() && Distinct(ids) && forall id :: id in ids <==> id in store.parts.streams
    ensures ReadGlobal(store.parts) == Ok(StoredSum(store.parts, ids))
  {
    hide Of, StreamIndex, Rows;
    StoredSumIsHeads(store.parts, store.log, ids);
    ReadsCounter(store.parts, store.log);
    forall i | 0 <= i < |store.log|
      ensures store.log[i].stream in ids
    {
      VersionIsPlace(store.log, i);
      StoredIffHead(store, store.log[i].stream);
    }
    HeadsSumToCounter(store.log, ids);
  }

  lemma StoredIffHead(store: Storage, id: Bytes)
    requires store.Valid()
    ensures id in store.parts.streams <==> 0 < Head(store.log, id)
  {
    HeadsAre(store.log, id);
  }
}
