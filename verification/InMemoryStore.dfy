/** The in-memory store: one lock, a map of streams and an index by position. */
module InMemoryStore {
  import opened Wrappers
  import opened EventLog
  import opened StoreContract

  type Key(==, !new)
  type Frame(==, !new)

  /** A stored row; it carries its version. */
  datatype Stored = Stored(version: nat, frame: Frame)

  type Log = seq<Entry<Key, Frame>>

  type Batch = seq<Pending<Frame>>

  type Run = Write<Key, Frame>

  datatype Error =
    | Refused(error: ValidationError)
    | Unencodable(version: nat)
    | GlobalSeqOverflow
    | BadRoute(route: InvalidRoute<Key>)
    | BadRun(run: InvalidRun)
    | AtomicConflict(index: nat, actual: nat)

  /** The next position is computed before the commit, so the largest position is
      never assigned. */
  const TERMS: Terms<Key> := Terms((_: Key) => true, U64_MAX - 1)

  // ----- what the maps mean -------------------------------------------------------------

  ghost function Numbered(frames: seq<Frame>): (s: seq<Stored>)
    ensures |s| == |frames|
  {
    seq(|frames|, i requires 0 <= i < |frames| => Stored(i + 1, frames[i]))
  }

  ghost function RowAt(log: Log, i: nat): (Key, Stored)
    requires i < |log|
  {
    (log[i].stream, Stored(VersionAt(log, i), log[i].frame))
  }

  ghost predicate StreamsAgree(streams: map<Key, seq<Stored>>, log: Log) {
    && (forall id :: id in streams <==> Of(log, id) != [])
    && (forall id :: id in streams ==> streams[id] == Numbered(Of(log, id)))
  }

  ghost predicate IndexAgrees(index: map<nat, (Key, Stored)>, log: Log) {
    && (forall p: nat :: p in index <==> 1 <= p <= |log|)
    && (forall p: nat :: 1 <= p <= |log| ==> index[p] == RowAt(log, p - 1))
  }

  function RowsOf(streams: map<Key, seq<Stored>>, id: Key): seq<Stored> {
    if id in streams then streams[id] else []
  }

  lemma RowsAgree(streams: map<Key, seq<Stored>>, log: Log, id: Key)
    requires StreamsAgree(streams, log)
    ensures RowsOf(streams, id) == Numbered(Of(log, id))
  {
  }

  // ----- staging and commit ---------------------------------------------------------------

  /** The rows of a batch in its stream. */
  function Framed(batch: Batch): (s: seq<Stored>)
    requires Encodes(batch)
    ensures |s| == |batch|
  {
    seq(|batch|, i requires 0 <= i < |batch| => Stored(batch[i].version, batch[i].frame.value))
  }

  /** Encode a batch and assign it the next positions. */
  method Stage(batch: Batch, start: nat) returns (r: Result<seq<(nat, Stored)>, Error>, next: nat)
    requires start <= U64_MAX
    ensures r.Ok? <==> Encodes(batch) && start + |batch| <= U64_MAX
    ensures r.Ok? ==>
              && next == start + |batch|
              && |r.value| == |batch|
              && forall i :: 0 <= i < |batch| ==> r.value[i] == (start + i, Framed(batch)[i])
    ensures r.Err? ==> r.error.Unencodable? || r.error.GlobalSeqOverflow?
    ensures r.Err? && r.error.GlobalSeqOverflow? ==> start + |batch| > U64_MAX
    ensures r.Err? && r.error.Unencodable? ==>
              exists i :: 0 <= i < |batch| && batch[i].frame.None? && Encodes(batch[..i])
                          && r.error == Unencodable(batch[i].version)
  {
    var rows := [];
    next := start;
    for i := 0 to |batch|
      invariant Encodes(batch[..i]) && |rows| == i && next == start + i <= U64_MAX
      invariant forall j :: 0 <= j < i ==> rows[j] == (start + j, Stored(batch[j].version, batch[j].frame.value))
    {
      if batch[i].frame.None? {
        return Err(Unencodable(batch[i].version)), next;
      }
      rows := rows + [(next, Stored(batch[i].version, batch[i].frame.value))];
      if next == U64_MAX {
        return Err(GlobalSeqOverflow), next;
      }
      next := next + 1;
    }
    r := Ok(rows);
  }

  /** Insert staged rows by position. */
  method IndexRows(index: map<nat, (Key, Stored)>, id: Key, rows: seq<(nat, Stored)>, ghost start: nat)
    returns (r: map<nat, (Key, Stored)>)
    requires forall i :: 0 <= i < |rows| ==> rows[i].0 == start + i
    ensures forall p: nat :: p in r <==> p in index || start <= p < start + |rows|
    ensures forall p: nat :: p in r ==>
              r[p] == if start <= p < start + |rows| then (id, rows[p - start].1) else index[p]
  {
    r := index;
    for i := 0 to |rows|
      invariant forall p: nat :: p in r <==> p in index || start <= p < start + i
      invariant forall p: nat :: p in r ==> r[p] == if start <= p < start + i then (id, rows[p - start].1) else index[p]
    {
      r := r[rows[i].0 := (id, rows[i].1)];
    }
  }

  /** Old rows keep their place; the run's rows follow with the next versions. */
  lemma RunRows(log: Log, id: Key, frames: seq<Frame>, i: nat)
    requires i < |log| + |frames|
    ensures RowAt(log + Entries(id, frames), i) ==
            if i < |log| then RowAt(log, i)
            else (id, Stored(Head(log, id) + 1 + i - |log|, frames[i - |log|]))
  {
    hide Of;
    var next := log + Entries(id, frames);
    if i < |log| {
      assert next[..i + 1] == log[..i + 1];
    } else {
      var n := i - |log| + 1;
      assert next[..i + 1] == log + Entries(id, frames[..n]);
      RunExtends(log, id, frames[..n], id);
    }
  }

  lemma IndexExtends(index: map<nat, (Key, Stored)>, after: map<nat, (Key, Stored)>, log: Log, w: Run)
    requires IndexAgrees(index, log) && Encodes(w.batch) && Follows(w.expected, w.batch) && w.expected == Head(log, w.target)
    requires forall p: nat :: p in after <==> p in index || |log| + 1 <= p < |log| + 1 + |w.batch|
    requires forall p: nat :: p in after ==>
               after[p] == if |log| + 1 <= p < |log| + 1 + |w.batch| then (w.target, Framed(w.batch)[p - |log| - 1])
                           else index[p]
    ensures IndexAgrees(after, Extended(log, w))
  {
    hide Of;
    forall p: nat | 1 <= p <= |log| + |w.batch|
      ensures p in after && after[p] == RowAt(Extended(log, w), p - 1)
    {
      RunRows(log, w.target, Frames(w.batch), p - 1);
    }
  }

  ghost predicate StagedAt(rows: seq<(nat, Stored)>, batch: Batch, start: nat) {
    && Encodes(batch)
    && |rows| == |batch|
    && forall i :: 0 <= i < |rows| ==> rows[i] == (start + i, Framed(batch)[i])
  }

  /** Index one staged run. */
  method IndexRun(index: map<nat, (Key, Stored)>, w: Run, rows: seq<(nat, Stored)>, ghost log: Log)
    returns (r: map<nat, (Key, Stored)>)
    requires IndexAgrees(index, log) && StagedAt(rows, w.batch, |log| + 1)
    requires Follows(w.expected, w.batch) && w.expected == Head(log, w.target)
    ensures IndexAgrees(r, Extended(log, w))
  {
    hide Of, IndexAgrees, Follows;
    r := IndexRows(index, w.target, rows, |log| + 1);
    IndexExtends(index, r, log, w);
  }

  lemma StreamsExtend(streams: map<Key, seq<Stored>>, log: Log, w: Run)
    requires StreamsAgree(streams, log) && Encodes(w.batch) && Follows(w.expected, w.batch)
    requires w.expected == Head(log, w.target) && w.batch != []
    ensures StreamsAgree(streams[w.target := RowsOf(streams, w.target) + Framed(w.batch)], Extended(log, w))
  {
    hide Of;
    RowsAgree(streams, log, w.target);
    var frames := Frames(w.batch);
    forall id
      ensures Of(Extended(log, w), id) == if id == w.target then Of(log, id) + frames else Of(log, id)
    {
      RunExtends(log, w.target, frames, id);
    }
    assert Numbered(Of(log, w.target) + frames) == Numbered(Of(log, w.target)) + Framed(w.batch);
  }

  // ----- the store --------------------------------------------------------------------------

  class Store {
    var streams: map<Key, seq<Stored>>
    var nextGlobal: nat
    var globalIndex: map<nat, (Key, Stored)>
    ghost var log: Log

    ghost predicate Valid()
      reads this
    {
      && nextGlobal == |log| + 1 <= U64_MAX
      && StreamsAgree(streams, log)
      && IndexAgrees(globalIndex, log)
    }

    constructor ()
      ensures Valid() && log == []
    {
      streams, nextGlobal, globalIndex, log := map[], 1, map[], [];
    }

    /** One append, under the lock: all of it or nothing. */
    method Append(id: Key, expected: nat, batch: Batch) returns (r: Result<nat, Error>)
      requires Valid() && batch != []
      modifies this
      ensures Valid()
      ensures r.Ok? <==> Accepts(TERMS, old(log), PlannedAppend(id, expected, batch))
      ensures r.Ok? ==> log == Extended(old(log), PlannedAppend(id, expected, batch)) && r.value == |log|
      ensures r.Err? ==> log == old(log) && unchanged(this)
      ensures r.Err? && r.error.Refused? <==> !(expected == Head(old(log), id) && Follows(expected, batch))
      ensures r == Err(Refused(VersionOverflow)) <==> expected == Head(old(log), id) && Overruns(expected, batch)
    {
      hide Of;
      RowsAgree(streams, log, id);
      var current := |RowsOf(streams, id)|;
      var refusal := ValidateAppendVersions(current, expected, batch);
      if refusal.Some? {
        return Err(Refused(refusal.value));
      }
      var staged, next := Stage(batch, nextGlobal);
      if staged.Err? {
        return Err(staged.error);
      }
      var w := PlannedAppend(id, expected, batch);
      var index := IndexRun(globalIndex, w, staged.value, log);
      StreamsExtend(streams, log, w);
      nextGlobal, globalIndex := next, index;
      streams := streams[id := RowsOf(streams, id) + Framed(batch)];
      log := Extended(log, w);
      r := Ok(next - 1);
    }

    /** Several runs under one lock: exactly the effect of appending them one after
        another when the targets are distinct and all would be accepted, and
        otherwise none. */
    method AtomicAppendMany(writes: seq<Run>) returns (r: Result<Option<nat>, Error>)
      requires Valid()
      requires forall i :: 0 <= i < |writes| ==> writes[i].batch != [] && writes[i].expected <= U64_MAX
      modifies this
      ensures Valid()
      ensures r.Ok? <==> Distinct(Targets(writes)) && OneByOne(TERMS, old(log), writes).Some?
      ensures r.Ok? ==>
                && log == OneByOne(TERMS, old(log), writes).value
                && r.value == if writes == [] then None else Some(|log|)
      ensures r.Err? ==> log == old(log) && unchanged(this)
      ensures r.Err? && r.error.BadRoute? <==> !Distinct(Targets(writes))
      ensures r.Err? && r.error.AtomicConflict? ==>
                && r.error.index < |writes|
                && r.error.actual == Head(old(log), writes[r.error.index].target) != writes[r.error.index].expected
    {
      hide Of, OneByOne, StreamsAgree, IndexAgrees, Follows, Distinct, Targets, Staged;
      if writes == [] {
        NoRuns(log, writes);
        return Ok(None);
      }
      var route := ValidateDistinctTargets(Targets(writes));
      if route.Some? {
        return Err(BadRoute(route.value));
      }
      var run := ValidateAtomicRuns(writes);
      if run.Some? {
        RefusedAtStart(TERMS, log, writes, run.value.index);
        return Err(BadRun(run.value));
      }
      var conflict := CheckHeads(streams, writes, log);
      if conflict.Some? {
        RefusedAtStart(TERMS, log, writes, conflict.value.index);
        return Err(conflict.value);
      }
      var staged := StageAll(writes, nextGlobal, log);
      if staged.Err? {
        return Err(staged.error);
      }
      streams, globalIndex := CommitAll(streams, globalIndex, writes, staged.value.0, log);
      nextGlobal := staged.value.1;
      log := OneByOne(TERMS, log, writes).value;
      r := Ok(Some(nextGlobal - 1));
    }
  }

  /** Every run starts at the head its stream has in the log. */
  ghost predicate Ready(log: Log, writes: seq<Run>) {
    && Distinct(Targets(writes))
    && forall i :: 0 <= i < |writes| ==>
         && writes[i].batch != []
         && Follows(writes[i].expected, writes[i].batch)
         && writes[i].expected == Head(log, writes[i].target)
  }

  /** Compare every expected version with its stream. */
  method CheckHeads(streams: map<Key, seq<Stored>>, writes: seq<Run>, ghost log: Log) returns (r: Option<Error>)
    requires StreamsAgree(streams, log)
    ensures r.None? ==> forall i :: 0 <= i < |writes| ==> writes[i].expected == Head(log, writes[i].target)
    ensures r.Some? ==>
              && r.value.AtomicConflict?
              && r.value.index < |writes|
              && r.value.actual == Head(log, writes[r.value.index].target) != writes[r.value.index].expected
  {
    hide Of;
    for i := 0 to |writes|
      invariant forall k :: 0 <= k < i ==> writes[k].expected == Head(log, writes[k].target)
    {
      RowsAgree(streams, log, writes[i].target);
      var actual := |RowsOf(streams, writes[i].target)|;
      if actual != writes[i].expected {
        return Some(AtomicConflict(i, actual));
      }
    }
    r := None;
  }

  /** Events in the first `n` runs. */
  ghost function Offset(writes: seq<Run>, n: nat): nat
    requires n <= |writes|
  {
    if n == 0 then 0 else Offset(writes, n - 1) + |writes[n - 1].batch|
  }

  lemma {:induction false} OffsetGrows(writes: seq<Run>, n: nat)
    requires n <= |writes|
    ensures Offset(writes, n) <= Offset(writes, |writes|)
    decreases |writes| - n
  {
    if n < |writes| {
      OffsetGrows(writes, n + 1);
    }
  }

  /** Runs staged so far, with one running position. */
  ghost predicate Staged(writes: seq<Run>, staged: seq<seq<(nat, Stored)>>, start: nat) {
    && |staged| <= |writes|
    && forall i {:trigger staged[i]} :: 0 <= i < |staged| ==> StagedAt(staged[i], writes[i].batch, start + Offset(writes, i))
  }

  lemma NoRuns(log: Log, writes: seq<Run>)
    requires writes == []
    ensures OneByOne(TERMS, log, writes) == Some(log) && Distinct(Targets(writes))
  {
  }

  /** One more run at the end of those accepted. */
  lemma NextRun(log: Log, writes: seq<Run>, i: nat, cur: Log)
    requires Ready(log, writes) && i < |writes| && OneByOne(TERMS, log, writes[..i]) == Some(cur)
    requires Encodes(writes[i].batch)
    ensures |cur| + |writes[i].batch| < U64_MAX ==> OneByOne(TERMS, log, writes[..i + 1]) == Some(Extended(cur, writes[i]))
    ensures writes[i].expected == Head(cur, writes[i].target)
  {
    hide Of;
    StreamsAtStart(TERMS, log, writes, i);
    assert writes[..i + 1][..i] == writes[..i];
  }

  method StageAll(writes: seq<Run>, start: nat, ghost log: Log)
    returns (r: Result<(seq<seq<(nat, Stored)>>, nat), Error>)
    requires Ready(log, writes) && start == |log| + 1 <= U64_MAX
    ensures r.Ok? <==> OneByOne(TERMS, log, writes).Some?
    ensures r.Err? ==> r.error.Unencodable? || r.error.GlobalSeqOverflow?
    ensures r.Ok? ==>
              && |r.value.0| == |writes|
              && Staged(writes, r.value.0, start)
              && r.value.1 == |OneByOne(TERMS, log, writes).value| + 1 == start + Offset(writes, |writes|) <= U64_MAX
  {
    hide Of, OneByOne, Follows, Distinct, Targets, Framed, Frames;
    var staged, next := [], start;
    ghost var cur := log;
    NoRuns(log, writes[..0]);
    for i := 0 to |writes|
      invariant |staged| == i && Staged(writes, staged, start)
      invariant OneByOne(TERMS, log, writes[..i]) == Some(cur)
      invariant next == start + Offset(writes, i) == |cur| + 1 <= U64_MAX
    {
      var run, after := Stage(writes[i].batch, next);
      if run.Err? {
        RefusedInTurn(TERMS, log, writes, i);
        return Err(run.error);
      }
      NextRun(log, writes, i, cur);
      staged := staged + [run.value];
      next := after;
      cur := Extended(cur, writes[i]);
    }
    assert writes[..|writes|] == writes;
    r := Ok((staged, next));
  }

  /** Apply the staged runs to both maps. */
  method CommitAll(streams: map<Key, seq<Stored>>, index: map<nat, (Key, Stored)>, writes: seq<Run>,
                   staged: seq<seq<(nat, Stored)>>, ghost log: Log)
    returns (s: map<Key, seq<Stored>>, x: map<nat, (Key, Stored)>)
    requires |staged| == |writes| && Staged(writes, staged, |log| + 1) && Ready(log, writes)
    requires StreamsAgree(streams, log) && IndexAgrees(index, log)
    requires OneByOne(TERMS, log, writes).Some? && |log| + Offset(writes, |writes|) < U64_MAX
    ensures StreamsAgree(s, OneByOne(TERMS, log, writes).value) && IndexAgrees(x, OneByOne(TERMS, log, writes).value)
  {
    hide Of, OneByOne, StreamsAgree, IndexAgrees, Follows, Distinct, Targets, Framed, Frames;
    s, x := streams, index;
    ghost var cur := log;
    NoRuns(log, writes[..0]);
    for i := 0 to |writes|
      invariant OneByOne(TERMS, log, writes[..i]) == Some(cur) && |cur| == |log| + Offset(writes, i)
      invariant StreamsAgree(s, cur) && IndexAgrees(x, cur)
    {
      var w, rows := writes[i], staged[i];
      OffsetGrows(writes, i + 1);
      NextRun(log, writes, i, cur);
      x := IndexRun(x, w, rows, cur);
      StreamsExtend(s, cur, w);
      s := s[w.target := RowsOf(s, w.target) + Framed(w.batch)];
      cur := Extended(cur, w);
    }
    assert writes[..|writes|] == writes;
  }
}
