/** The one log a store stands for, and what appending to it means.

    Position p of `$all` is the log's entry p - 1; a stream's version v is its v-th
    entry in the log. */
module EventLog {
  import opened Wrappers
  import opened StoreContract

  datatype Entry<K, F> = Entry(stream: K, frame: F)

  /** One stream of the log. */
  ghost function Of<K, F>(log: seq<Entry<K, F>>, id: K): (s: seq<F>)
    ensures |s| <= |log|
  {
    if log == [] then []
    else
      var n := |log| - 1;
      Of(log[..n], id) + (if log[n].stream == id then [log[n].frame] else [])
  }

  ghost function Head<K, F>(log: seq<Entry<K, F>>, id: K): nat {
    |Of(log, id)|
  }

  /** The version an entry has in its stream. */
  ghost function VersionAt<K, F>(log: seq<Entry<K, F>>, i: nat): nat
    requires i < |log|
  {
    Head(log[..i + 1], log[i].stream)
  }

  ghost function Entries<K, F>(id: K, frames: seq<F>): (s: seq<Entry<K, F>>)
    ensures |s| == |frames|
  {
    seq(|frames|, i requires 0 <= i < |frames| => Entry(id, frames[i]))
  }

  // ----- growing the log --------------------------------------------------------------

  lemma OneMore<K, F>(log: seq<Entry<K, F>>, e: Entry<K, F>, id: K)
    ensures Of(log + [e], id) == Of(log, id) + (if e.stream == id then [e.frame] else [])
  {
  }

  lemma Snoc<K, F>(log: seq<Entry<K, F>>, id: K, frames: seq<F>, i: nat)
    requires i < |frames|
    ensures log + Entries(id, frames[..i + 1]) == (log + Entries(id, frames[..i])) + [Entry(id, frames[i])]
  {
  }

  /** A run of one stream extends that stream and no other. */
  lemma {:induction false} RunExtends<K, F>(log: seq<Entry<K, F>>, id: K, frames: seq<F>, other: K)
    ensures Of(log + Entries(id, frames), other) == if other == id then Of(log, id) + frames else Of(log, other)
    decreases |frames|
  {
    hide Of;
    if frames == [] {
      assert log + Entries(id, frames) == log;
    } else {
      var n := |frames| - 1;
      var init := log + Entries(id, frames[..n]);
      Snoc(log, id, frames, n);
      assert frames[..n + 1] == frames;
      RunExtends(log, id, frames[..n], other);
      OneMore(init, Entry(id, frames[n]), other);
      if other == id {
        assert (Of(log, id) + frames[..n]) + [frames[n]] == Of(log, id) + frames;
      } else {
        assert Of(init, other) + [] == Of(init, other);
      }
    }
  }

  /** A log that grew kept every stream as a prefix. */
  lemma {:induction false} StreamsGrow<K, F>(log: seq<Entry<K, F>>, later: seq<Entry<K, F>>, id: K)
    requires log <= later
    ensures Of(log, id) <= Of(later, id)
    decreases |later|
  {
    if log != later {
      StreamsGrow(log, later[..|later| - 1], id);
    }
  }

  // ----- entries and their versions -------------------------------------------------------

  /** An entry's version is its place in its stream. */
  lemma {:induction false} VersionIsPlace<K, F>(log: seq<Entry<K, F>>, i: nat)
    requires i < |log|
    ensures 1 <= VersionAt(log, i) <= Head(log, log[i].stream)
    ensures Of(log, log[i].stream)[VersionAt(log, i) - 1] == log[i].frame
    decreases |log|
  {
    var n := |log| - 1;
    if i == n {
      assert log[..n + 1] == log;
    } else {
      VersionIsPlace(log[..n], i);
      assert log[..n][..i + 1] == log[..i + 1];
    }
  }

  /** Every version of a stream is the version of an entry. */
  lemma {:induction false} PlaceOf<K, F>(log: seq<Entry<K, F>>, id: K, version: nat) returns (i: nat)
    requires 1 <= version <= Head(log, id)
    ensures i < |log| && log[i].stream == id && VersionAt(log, i) == version
    decreases |log|
  {
    var n := |log| - 1;
    if version <= Head(log[..n], id) {
      i := PlaceOf(log[..n], id, version);
      assert log[..n][..i + 1] == log[..i + 1];
    } else {
      i := n;
      assert log[..n + 1] == log;
    }
  }

  lemma VersionsGrow<K, F>(log: seq<Entry<K, F>>, i: nat, j: nat)
    requires i < j < |log| && log[i].stream == log[j].stream
    ensures VersionAt(log, i) < VersionAt(log, j)
  {
    StreamsGrow(log[..i + 1], log[..j], log[i].stream);
    assert log[..j + 1] == log[..j] + [log[j]];
    OneMore(log[..j], log[j], log[j].stream);
  }

  // ----- the heads sum to the number of positions -------------------------------------------

  ghost function HeadSum<K, F>(log: seq<Entry<K, F>>, ids: seq<K>): nat {
    if ids == [] then 0 else HeadSum(log, ids[..|ids| - 1]) + Head(log, ids[|ids| - 1])
  }

  lemma {:induction false} HeadSumGrows<K, F>(log: seq<Entry<K, F>>, e: Entry<K, F>, ids: seq<K>)
    requires forall i, j :: 0 <= i < j < |ids| ==> ids[i] != ids[j]
    ensures HeadSum(log + [e], ids) == HeadSum(log, ids) + (if e.stream in ids then 1 else 0)
    decreases |ids|
  {
    if ids != [] {
      var n := |ids| - 1;
      HeadSumGrows(log, e, ids[..n]);
      OneMore(log, e, ids[n]);
      assert ids == ids[..n] + [ids[n]];
    }
  }

  lemma {:induction false} NoHeads<K, F>(log: seq<Entry<K, F>>, ids: seq<K>)
    requires log == []
    ensures HeadSum(log, ids) == 0
  {
    if ids != [] {
      NoHeads(log, ids[..|ids| - 1]);
    }
  }

  /** The heads of all streams add up to the number of positions assigned. */
  lemma {:induction false} HeadsSumToCounter<K, F>(log: seq<Entry<K, F>>, ids: seq<K>)
    requires forall i, j :: 0 <= i < j < |ids| ==> ids[i] != ids[j]
    requires forall i :: 0 <= i < |log| ==> log[i].stream in ids
    ensures HeadSum(log, ids) == |log|
    decreases |log|
  {
    if log == [] {
      NoHeads(log, ids);
    } else {
      var n := |log| - 1;
      assert log == log[..n] + [log[n]];
      HeadsSumToCounter(log[..n], ids);
      HeadSumGrows(log[..n], log[n], ids);
    }
  }

  // ----- what an append means -----------------------------------------------------------

  /** Which ids a store takes and the last position it can assign. */
  datatype Terms<!K> = Terms(valid: K -> bool, ceiling: nat)

  /** A pending event; the frame is absent when it cannot be encoded. */
  type Pending<F> = Envelope<Option<F>>

  type Write<K, F> = PlannedAppend<K, Option<F>>

  predicate Encodes<F>(batch: seq<Pending<F>>) {
    forall i :: 0 <= i < |batch| ==> batch[i].frame.Some?
  }

  function Frames<F>(batch: seq<Pending<F>>): (s: seq<F>)
    requires Encodes(batch)
    ensures |s| == |batch|
  {
    seq(|batch|, i requires 0 <= i < |batch| => batch[i].frame.value)
  }

  /** The log accepts a batch. */
  ghost predicate Accepts<K, F>(terms: Terms<K>, log: seq<Entry<K, F>>, w: Write<K, F>) {
    && terms.valid(w.target)
    && Encodes(w.batch)
    && w.expected == Head(log, w.target)
    && Follows(w.expected, w.batch)
    && |log| + |w.batch| <= terms.ceiling
  }

  ghost function Extended<K, F>(log: seq<Entry<K, F>>, w: Write<K, F>): seq<Entry<K, F>>
    requires Encodes(w.batch)
  {
    log + Entries(w.target, Frames(w.batch))
  }

  /** An accepted batch lies in the log event by event: each at the version it was given,
      behind its stream, and at the next position. */
  lemma EachAtItsVersion<K, F>(terms: Terms<K>, log: seq<Entry<K, F>>, w: Write<K, F>, i: nat)
    requires Accepts(terms, log, w) && i < |w.batch|
    ensures var next, event := Extended(log, w), w.batch[i];
            && |next| == |log| + |w.batch|
            && next[|log| + i] == Entry(w.target, event.frame.value)
            && VersionAt(next, |log| + i) == event.version
            && Head(next, w.target) == Head(log, w.target) + |w.batch|
            && 1 <= event.version <= Head(next, w.target)
            && Of(next, w.target)[event.version - 1] == event.frame.value
  {
    hide Of;
    var next, frames := Extended(log, w), Frames(w.batch);
    RunExtends(log, w.target, frames, w.target);
    RunExtends(log, w.target, frames[..i + 1], w.target);
    assert next[..|log| + i + 1] == log + Entries(w.target, frames[..i + 1]);
  }

  /** Appending runs one after another; none when one is refused. */
  ghost function OneByOne<K, F>(terms: Terms<K>, log: seq<Entry<K, F>>, writes: seq<Write<K, F>>)
    : Option<seq<Entry<K, F>>>
  {
    if writes == [] then Some(log)
    else
      var n := |writes| - 1;
      var before := OneByOne(terms, log, writes[..n]);
      if before.Some? && Accepts(terms, before.value, writes[n]) then Some(Extended(before.value, writes[n])) else None
  }

  /** Appending only ever extends the log. */
  lemma {:induction false} OneByOneGrows<K, F>(terms: Terms<K>, log: seq<Entry<K, F>>, writes: seq<Write<K, F>>)
    requires OneByOne(terms, log, writes).Some?
    ensures log <= OneByOne(terms, log, writes).value
    decreases |writes|
  {
    if writes != [] {
      OneByOneGrows(terms, log, writes[..|writes| - 1]);
    }
  }

  /** After all runs a distinct target's stream is what it was, then its run. */
  lemma {:induction false} EachExtended<K, F>(terms: Terms<K>, log: seq<Entry<K, F>>, writes: seq<Write<K, F>>, i: nat)
    requires OneByOne(terms, log, writes).Some? && Distinct(Targets(writes)) && i < |writes|
    ensures Encodes(writes[i].batch)
    ensures Of(OneByOne(terms, log, writes).value, writes[i].target) == Of(log, writes[i].target) + Frames(writes[i].batch)
    ensures writes[i].expected == Head(log, writes[i].target)
    decreases |writes|
  {
    hide Of, Distinct, Targets, Follows;
    var n := |writes| - 1;
    var before := OneByOne(terms, log, writes[..n]).value;
    StreamsAtStart(terms, log, writes, n);
    RunExtends(before, writes[n].target, Frames(writes[n].batch), writes[i].target);
    if i < n {
      DistinctPrefix(writes, i, n);
      EachExtended(terms, log, writes[..n], i);
    }
  }

  /** So does every event of every run of an atomic append. */
  lemma EachOfEachAtItsVersion<K, F>(terms: Terms<K>, log: seq<Entry<K, F>>, writes: seq<Write<K, F>>, i: nat, j: nat)
    requires OneByOne(terms, log, writes).Some? && Distinct(Targets(writes)) && i < |writes| && j < |writes[i].batch|
    ensures var after, event := Of(OneByOne(terms, log, writes).value, writes[i].target), writes[i].batch[j];
            && |after| == Head(log, writes[i].target) + |writes[i].batch|
            && event.frame.Some?
            && 1 <= event.version <= |after|
            && after[event.version - 1] == event.frame.value
  {
    hide Of, OneByOne, Distinct, Targets;
    EachExtended(terms, log, writes, i);
    EachAccepted(terms, log, writes, i);
  }

  lemma DistinctPrefix<K, F>(writes: seq<Write<K, F>>, i: nat, n: nat)
    requires Distinct(Targets(writes)) && i < n < |writes|
    ensures writes[i].target != writes[n].target && Distinct(Targets(writes[..n]))
  {
    assert Targets(writes)[i] != Targets(writes)[n];
    forall a, b | 0 <= a < b < n
      ensures Targets(writes[..n])[a] != Targets(writes[..n])[b]
    {
      assert Targets(writes)[a] != Targets(writes)[b];
    }
  }

  /** Runs do not touch streams they do not target. */
  lemma {:induction false} OthersStay<K, F>(terms: Terms<K>, log: seq<Entry<K, F>>, writes: seq<Write<K, F>>, id: K)
    requires OneByOne(terms, log, writes).Some? && forall k :: 0 <= k < |writes| ==> writes[k].target != id
    ensures Of(OneByOne(terms, log, writes).value, id) == Of(log, id)
    decreases |writes|
  {
    if writes != [] {
      var n := |writes| - 1;
      OthersStay(terms, log, writes[..n], id);
      RunExtends(OneByOne(terms, log, writes[..n]).value, writes[n].target, Frames(writes[n].batch), id);
    }
  }

  /** If all runs are accepted one by one, each was accepted in its turn. */
  lemma {:induction false} EachAccepted<K, F>(terms: Terms<K>, log: seq<Entry<K, F>>, writes: seq<Write<K, F>>, i: nat)
    requires OneByOne(terms, log, writes).Some? && i < |writes|
    ensures OneByOne(terms, log, writes[..i]).Some?
    ensures Accepts(terms, OneByOne(terms, log, writes[..i]).value, writes[i])
    decreases |writes|
  {
    var n := |writes| - 1;
    if i < n {
      EachAccepted(terms, log, writes[..n], i);
      assert writes[..n][..i] == writes[..i];
    }
  }

  /** With distinct targets each run meets the stream as it was at the start. */
  lemma StreamsAtStart<K, F>(terms: Terms<K>, log: seq<Entry<K, F>>, writes: seq<Write<K, F>>, i: nat)
    requires i < |writes| && OneByOne(terms, log, writes[..i]).Some? && Distinct(Targets(writes))
    ensures Of(OneByOne(terms, log, writes[..i]).value, writes[i].target) == Of(log, writes[i].target)
  {
    forall k | 0 <= k < i
      ensures writes[k].target != writes[i].target
    {
      assert Targets(writes)[k] != Targets(writes)[i];
    }
    OthersStay(terms, log, writes[..i], writes[i].target);
  }

  /** A run that could not be accepted at the starting heads refuses the whole. */
  lemma RefusedAtStart<K, F>(terms: Terms<K>, log: seq<Entry<K, F>>, writes: seq<Write<K, F>>, i: nat)
    requires i < |writes| && Distinct(Targets(writes))
    requires !(terms.valid(writes[i].target) && Encodes(writes[i].batch) && Follows(writes[i].expected, writes[i].batch)
               && writes[i].expected == Head(log, writes[i].target))
    ensures OneByOne(terms, log, writes).None?
  {
    if OneByOne(terms, log, writes).Some? {
      EachAccepted(terms, log, writes, i);
      StreamsAtStart(terms, log, writes, i);
    }
  }

  lemma RefusedInTurn<K, F>(terms: Terms<K>, log: seq<Entry<K, F>>, writes: seq<Write<K, F>>, i: nat)
    requires i < |writes| && OneByOne(terms, log, writes[..i]).Some?
    requires !Accepts(terms, OneByOne(terms, log, writes[..i]).value, writes[i])
    ensures OneByOne(terms, log, writes).None?
  {
    if OneByOne(terms, log, writes).Some? {
      EachAccepted(terms, log, writes, i);
    }
  }
}
