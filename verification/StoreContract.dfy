/** Checks every store makes before it writes, shared by the adapters. */
module StoreContract {
  import opened Wrappers

  /** One pending event; versions start at 1. */
  datatype Envelope<F> = Envelope(version: nat, frame: F)

  /** One run of an atomic append; `expected` 0 stands for a stream not yet created. */
  datatype PlannedAppend<K, F> = PlannedAppend(target: K, expected: nat, batch: seq<Envelope<F>>)

  datatype ValidationError = Conflict(expected: nat, actual: nat) | VersionOverflow

  datatype InvalidRun = NonSequential(index: nat, expected: nat, actual: nat) | RunOverflow(index: nat)

  datatype InvalidRoute<K> = InvalidRoute(target: K, firstIndex: nat, index: nat)

  /** The batch counts up from the version after `head`, within the version range. */
  predicate Follows<F>(head: nat, batch: seq<Envelope<F>>) {
    && head + |batch| <= U64_MAX
    && forall i :: 0 <= i < |batch| ==> batch[i].version == head + 1 + i
  }

  /** The batch counts up correctly until it needs a version beyond the ceiling. */
  predicate Overruns<F>(head: nat, batch: seq<Envelope<F>>) {
    && head <= U64_MAX < head + |batch|
    && forall i :: 0 <= i < U64_MAX - head ==> batch[i].version == head + 1 + i
  }

  /** The batch is at fault at an event that has not the version it should. */
  ghost predicate Strays<F>(head: nat, batch: seq<Envelope<F>>) {
    exists i :: 0 <= i < |batch| && head + 1 + i <= U64_MAX && batch[i].version != head + 1 + i
  }

  /** A batch follows, strays, or only overruns, and these exclude one another. */
  lemma FaultIsOne<F>(head: nat, batch: seq<Envelope<F>>)
    requires head <= U64_MAX
    ensures Follows(head, batch) <==> !Strays(head, batch) && head + |batch| <= U64_MAX
    ensures Overruns(head, batch) <==> !Strays(head, batch) && head + |batch| > U64_MAX
  {
  }

  predicate Distinct<K(==)>(s: seq<K>) {
    forall i, j :: 0 <= i < j < |s| ==> s[i] != s[j]
  }

  function Targets<K, F>(writes: seq<PlannedAppend<K, F>>): (s: seq<K>)
    ensures |s| == |writes|
  {
    seq(|writes|, i requires 0 <= i < |writes| => writes[i].target)
  }

  /** Accepts exactly a batch that follows the current version the caller expected;
      a batch at fault only for passing the ceiling is never a conflict. */
  method ValidateAppendVersions<F>(current: nat, expected: nat, batch: seq<Envelope<F>>)
    returns (error: Option<ValidationError>)
    requires current <= U64_MAX
    ensures error.None? <==> expected == current && Follows(current, batch)
    ensures error == Some(VersionOverflow) <==> expected == current && Overruns(current, batch)
    ensures expected != current ==> error == Some(Conflict(expected, current))
    ensures expected == current && error.Some? && error.value.Conflict? ==>
              exists i :: 0 <= i < |batch| && Follows(current, batch[..i]) && batch[i].version != current + 1 + i
                          && error == Some(Conflict(current + 1 + i, batch[i].version))
  {
    if expected != current {
      return Some(Conflict(expected, current));
    }
    var next := current;
    for i := 0 to |batch|
      invariant next == current + i <= U64_MAX
      invariant forall j :: 0 <= j < i ==> batch[j].version == current + 1 + j
    {
      if next == U64_MAX {
        return Some(VersionOverflow);
      }
      next := next + 1;
      if batch[i].version != next {
        assert Follows(current, batch[..i]);
        return Some(Conflict(next, batch[i].version));
      }
    }
    return None;
  }

  /** Accepts exactly when every run follows its own expected version, and
      otherwise names the first that does not. */
  method ValidateAtomicRuns<K, F>(writes: seq<PlannedAppend<K, F>>) returns (error: Option<InvalidRun>)
    requires forall i :: 0 <= i < |writes| ==> writes[i].expected <= U64_MAX
    ensures error.None? <==> forall i :: 0 <= i < |writes| ==> Follows(writes[i].expected, writes[i].batch)
    ensures error.Some? ==>
              && error.value.index < |writes|
              && !Follows(writes[error.value.index].expected, writes[error.value.index].batch)
              && (forall i :: 0 <= i < error.value.index ==> Follows(writes[i].expected, writes[i].batch))
    ensures error.Some? ==>
              (error.value.RunOverflow? <==>
               Overruns(writes[error.value.index].expected, writes[error.value.index].batch))
  {
    for w := 0 to |writes|
      invariant forall i :: 0 <= i < w ==> Follows(writes[i].expected, writes[i].batch)
    {
      var head, batch := writes[w].expected, writes[w].batch;
      var next: Option<nat> := if head < U64_MAX then Some(head + 1) else None;
      for i := 0 to |batch|
        invariant head + i <= U64_MAX
        invariant next == if head + i < U64_MAX then Some(head + i + 1) else None
        invariant forall j :: 0 <= j < i ==> batch[j].version == head + 1 + j
      {
        if next.None? {
          return Some(RunOverflow(w));
        }
        if batch[i].version != next.value {
          return Some(NonSequential(w, next.value, batch[i].version));
        }
        next := if next.value < U64_MAX then Some(next.value + 1) else None;
      }
    }
    return None;
  }

  /** Accepts exactly distinct targets, and otherwise names the first repetition
      with the place it repeats. */
  method ValidateDistinctTargets<K(==)>(targets: seq<K>) returns (error: Option<InvalidRoute<K>>)
    ensures error.None? <==> Distinct(targets)
    ensures error.Some? ==>
              && error.value.firstIndex < error.value.index < |targets|
              && targets[error.value.firstIndex] == targets[error.value.index] == error.value.target
              && Distinct(targets[..error.value.index])
  {
    var seen: map<K, nat> := map[];
    for i := 0 to |targets|
      invariant Distinct(targets[..i])
      invariant forall k :: k in seen ==> seen[k] < i && targets[seen[k]] == k
      invariant forall j :: 0 <= j < i ==> targets[j] in seen
    {
      if targets[i] in seen {
        return Some(InvalidRoute(targets[i], seen[targets[i]], i));
      }
      seen := seen[targets[i] := i];
    }
    assert targets[..|targets|] == targets;
    return None;
  }
}
