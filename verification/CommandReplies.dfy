/** What every call of every run is answered, said of the records of the history. */
module CommandReplies {
  import opened Wrappers
  import opened CommandModel
  import opened CommandEngine
  import opened CommandSystem
  import opened CommandTheorems

  /** What a load of `seen` records leaves unresolved of a held request. */
  ghost function Barrier(pending: Option<Request>, seen: nat): Option<Request> {
    if pending.Some? && pending.value.expected >= seen then pending else None
  }

  lemma LoadSees(agg: Aggregate, s: System, seen: nat, request: Request)
    requires Inv(agg, s) && seen <= |s.history|
    ensures Good(agg, s.history[..seen]) && seen < U64_MAX
    ensures Loaded(agg, Rows(s.history[..seen])) == Ok(View(Fold(agg, s.history[..seen]), seen))
    ensures var st := Fold(agg, s.history[..seen]);
            && (forall k :: 0 <= k < seen && s.history[k].request.id == request.id ==>
                  && ReceiptOf(st, request) ==
                     (if s.history[k].request == request then Ok(Some(s.history[k].receipt)) else Err(Mismatch.Mismatch))
                  && Original(st, request.id) == Some(s.history[k].request))
            && (Unused(s.history[..seen], request.id) ==> ReceiptOf(st, request) == Ok(None) && Original(st, request.id) == None)
            && Decided(agg, st, request, seen + 1) ==
               (if Decides(agg, s.history[..seen], request) then Ok(Accepting(agg, s.history[..seen], request))
                else Err(Objection(agg, s.history[..seen], request)))
            && st.domain == Evolve(agg, agg.initial, Facts(s.history[..seen]))
  {
    hide Good, Fold, Decided, Decides, Accepting, Objection, ReceiptOf, Original, Facts, Evolve;
    var h := s.history[..seen];
    GoodLoads(agg, s.history, seen);
    GoodPrefix(agg, s.history, seen);
    GoodFold(agg, h);
    GoodSize(agg, h);
    DecidesExactly(agg, h, request);
    KnowsExactly(agg, h, request);
    assert forall k :: 0 <= k < seen ==> h[k] == s.history[k];
  }

  // ----- submissions ------------------------------------------------------------------------

  /** A submission whose request is among the records loaded is answered with the receipt
      of its record, from whatever host, whatever it holds. */
  lemma RepeatIsAccepted(agg: Aggregate, steps: seq<Step>, h: nat, seen: nat, unsaved: Option<StoreError>, k: nat)
    requires Ran(agg, steps).Some? && Enabled(Ran(agg, steps).value, Load(h, seen, unsaved))
    requires var s := Ran(agg, steps).value;
             k < seen && s.hosts[h].phase in {Loading(Submitting(s.history[k].request)), Reloading(s.history[k].request)}
    ensures var s, t := Ran(agg, steps).value, Ran(agg, steps + [Load(h, seen, unsaved)]);
            && t.Some?
            && t.value.heard == s.heard + [Heard(s.history[k].request, Accepted(s.history[k].receipt), seen, |s.history|)]
            && t.value.hosts[h].phase.Idle?
            && t.value.hosts[h].pending == Barrier(s.hosts[h].pending, seen)
            && t.value.issues == s.issues
  {
    hide Good, Fold, Decided, Loaded, ReceiptOf, Original, Inv;
    var s := Ran(agg, steps).value;
    RunKeeps(agg, steps);
    RunGrows(agg, steps, Load(h, seen, unsaved));
    LoadSees(agg, s, seen, s.history[k].request);
    ReloadingHoldsNothing(agg, s, h);
  }

  lemma ReloadingHoldsNothing(agg: Aggregate, s: System, h: nat)
    requires Inv(agg, s) && h < |s.hosts|
    ensures s.hosts[h].phase.Reloading? ==> s.hosts[h].pending == None
  {
    assert HostInv(agg, s, h);
  }

  /** One that brings other content under a recorded id is a mismatch, and changes
      nothing. */
  lemma ReusedIdIsMismatched(agg: Aggregate, steps: seq<Step>, h: nat, request: Request, seen: nat, unsaved: Option<StoreError>, k: nat)
    requires Ran(agg, steps).Some? && Enabled(Ran(agg, steps).value, Load(h, seen, unsaved))
    requires var s := Ran(agg, steps).value;
             && s.hosts[h].phase in {Loading(Submitting(request)), Reloading(request)}
             && k < seen && s.history[k].request.id == request.id && s.history[k].request != request
    ensures var s, t := Ran(agg, steps).value, Ran(agg, steps + [Load(h, seen, unsaved)]);
            && t.Some?
            && t.value == Told(Moved(s, h, Idle, s.hosts[h].pending), request, Mismatched, seen)
  {
    hide Good, Fold, Decided, Loaded, ReceiptOf, Original, Inv;
    RunKeeps(agg, steps);
    RunGrows(agg, steps, Load(h, seen, unsaved));
    LoadSees(agg, Ran(agg, steps).value, seen, request);
  }

  /** Behind an unresolved request nothing new is appended: another request waits, one
      with the same id and other content is a mismatch, and the held one itself is
      retried only at the version it expects. */
  lemma UnresolvedHoldsBack(agg: Aggregate, steps: seq<Step>, h: nat, request: Request, seen: nat, unsaved: Option<StoreError>)
    requires Ran(agg, steps).Some? && Enabled(Ran(agg, steps).value, Load(h, seen, unsaved))
    requires var s := Ran(agg, steps).value;
             && s.hosts[h].phase == Loading(Submitting(request))
             && Unused(s.history[..seen], request.id)
             && s.hosts[h].pending.Some? && s.hosts[h].pending.value.expected >= seen
             && (s.hosts[h].pending.value != request || request.expected != seen)
    ensures var s, t := Ran(agg, steps).value, Ran(agg, steps + [Load(h, seen, unsaved)]);
            var held := s.hosts[h].pending.value;
            && t.Some?
            && t.value == Told(Moved(s, h, Idle, Some(held)), request,
                               if held.id == request.id && held != request then Mismatched else Uncertain(held.id, None),
                               seen)
  {
    hide Good, Fold, Decided, Loaded, ReceiptOf, Original, Inv;
    RunKeeps(agg, steps);
    RunGrows(agg, steps, Load(h, seen, unsaved));
    LoadSees(agg, Ran(agg, steps).value, seen, request);
  }

  /** With nothing unresolved, a request that is not among the records loaded and does
      not expect the version after them is a conflict. */
  lemma MisdirectedIsConflict(agg: Aggregate, steps: seq<Step>, h: nat, request: Request, seen: nat, unsaved: Option<StoreError>)
    requires Ran(agg, steps).Some? && Enabled(Ran(agg, steps).value, Load(h, seen, unsaved))
    requires var s := Ran(agg, steps).value;
             && s.hosts[h].phase == Loading(Submitting(request))
             && Unused(s.history[..seen], request.id)
             && Barrier(s.hosts[h].pending, seen) == None
             && request.expected != seen
    ensures var s, t := Ran(agg, steps).value, Ran(agg, steps + [Load(h, seen, unsaved)]);
            t.Some? && t.value == Told(Moved(s, h, Idle, None), request, Conflict, seen)
  {
    hide Good, Fold, Decided, Loaded, ReceiptOf, Original, Inv;
    RunKeeps(agg, steps);
    RunGrows(agg, steps, Load(h, seen, unsaved));
    LoadSees(agg, Ran(agg, steps).value, seen, request);
  }

  /** A failure of this attempt leaves an older unresolved request unresolved. */
  ghost function Failing(held: Option<Request>, cause: Cause): Reply {
    if held.Some? then Uncertain(held.value.id, Some(cause)) else Failed(cause)
  }

  /** A request at the version it expects, with nothing unresolved but itself: what the
      application decides on exactly the facts loaded is appended, and what it or a
      limit refuses, or the repository cannot prepare, is answered so. */
  lemma TimelyIsDecided(agg: Aggregate, steps: seq<Step>, h: nat, request: Request, seen: nat, unsaved: Option<StoreError>)
    requires Ran(agg, steps).Some? && Enabled(Ran(agg, steps).value, Load(h, seen, unsaved))
    requires var s := Ran(agg, steps).value;
             && s.hosts[h].phase == Loading(Submitting(request))
             && Unused(s.history[..seen], request.id)
             && Barrier(s.hosts[h].pending, seen) in {None, Some(request)}
             && request.expected == seen
    ensures var s, t := Ran(agg, steps).value, Ran(agg, steps + [Load(h, seen, unsaved)]);
            var loaded, held := s.history[..seen], Barrier(s.hosts[h].pending, seen);
            && t.Some?
            && (!Decides(agg, loaded, request) ==>
                  t.value == Told(Moved(s, h, Idle, held), request, Failing(held, Decision(Objection(agg, loaded, request))), seen))
            && (Decides(agg, loaded, request) && unsaved.Some? ==>
                  t.value == Told(Moved(s, h, Idle, held), request, Failing(held, Store(unsaved.value)), seen))
            && (Decides(agg, loaded, request) && unsaved.None? ==>
                  && t.value.issues == s.issues + [Issue(h, Accepting(agg, loaded, request), seen, InFlight)]
                  && t.value.hosts[h].phase.Appending? && t.value.hosts[h].phase.issue == |s.issues|
                  && t.value.hosts[h].pending == Some(request)
                  && t.value.history == s.history && t.value.heard == s.heard)
  {
    hide Good, Fold, Decided, Loaded, ReceiptOf, Original, Inv, Decides, Objection;
    RunKeeps(agg, steps);
    RunGrows(agg, steps, Load(h, seen, unsaved));
    LoadSees(agg, Ran(agg, steps).value, seen, request);
  }

  /** What an append ends with: a saved record's own receipt, a reload after a refusal,
      and after any other error or none at all an uncertain answer with the request
      still held. */
  lemma AppendIsAnswered(agg: Aggregate, steps: seq<Step>, h: nat, outcome: Outcome)
    requires Ran(agg, steps).Some? && Enabled(Ran(agg, steps).value, Observe(h, outcome))
    ensures var s, t := Ran(agg, steps).value, Ran(agg, steps + [Observe(h, outcome)]);
            var issue := s.issues[s.hosts[h].phase.issue];
            var request := issue.record.request;
            && t.Some?
            && match outcome
               case Saved => t.value == Told(Moved(s, h, Idle, None), request, Accepted(issue.record.receipt), issue.base)
               case AppendTimeout => t.value == Told(Moved(s, h, Idle, Some(request)), request, Uncertain(request.id, None), issue.base)
               case AppendError(e) =>
                 if e == CasConflict then t.value == Moved(s, h, Reloading(request), None)
                 else t.value == Told(Moved(s, h, Idle, Some(request)), request, Uncertain(request.id, Some(Store(e))), issue.base)
  {
    hide Good, Fold, Inv;
    var s := Ran(agg, steps).value;
    RunKeeps(agg, steps);
    RunGrows(agg, steps, Observe(h, outcome));
    AppendedFollows(agg, s, h);
  }

  lemma AppendedFollows(agg: Aggregate, s: System, h: nat)
    requires Inv(agg, s) && h < |s.hosts| && s.hosts[h].phase.Appending? && s.hosts[h].phase.issue < |s.issues|
    ensures var issue := s.issues[s.hosts[h].phase.issue];
            ReceiptOf(Applied(agg, s.hosts[h].phase.view.state, issue.record), issue.record.request) ==
            Ok(Some(issue.record.receipt))
  {
    var issue := s.issues[s.hosts[h].phase.issue];
    assert HostInv(agg, s, h) && IssueInv(agg, s, issue);
    GoodPrefix(agg, s.history, issue.base);
    GoodFold(agg, s.history[..issue.base]);
  }

  /** The reload after a refusal that does not reach the request's record is a conflict. */
  lemma ReloadWithoutIsConflict(agg: Aggregate, steps: seq<Step>, h: nat, request: Request, seen: nat, unsaved: Option<StoreError>)
    requires Ran(agg, steps).Some? && Enabled(Ran(agg, steps).value, Load(h, seen, unsaved))
    requires Ran(agg, steps).value.hosts[h].phase == Reloading(request)
    requires Unused(Ran(agg, steps).value.history[..seen], request.id)
    ensures var s, t := Ran(agg, steps).value, Ran(agg, steps + [Load(h, seen, unsaved)]);
            t.Some? && t.value == Told(Moved(s, h, Idle, None), request, Conflict, seen)
  {
    hide Good, Fold, Decided, Loaded, ReceiptOf, Original, Inv;
    var s := Ran(agg, steps).value;
    RunKeeps(agg, steps);
    RunGrows(agg, steps, Load(h, seen, unsaved));
    LoadSees(agg, s, seen, request);
    ReloadingHoldsNothing(agg, s, h);
  }

  /** A load the store does not answer, or answers with an error, ends the call with
      exactly that and changes nothing the host holds. */
  lemma FailedLoadIsTold(agg: Aggregate, steps: seq<Step>, h: nat, fetch: Fetch)
    requires Ran(agg, steps).Some? && Enabled(Ran(agg, steps).value, LoadFails(h, fetch))
    ensures var s, t := Ran(agg, steps).value, Ran(agg, steps + [LoadFails(h, fetch)]);
            var reply := if fetch.LoadTimeout? then Timeout else Failed(Store(fetch.error));
            && t.Some?
            && t.value == match s.hosts[h].phase
                          case Loading(Submitting(request)) => Told(Moved(s, h, Idle, s.hosts[h].pending), request, reply, 0)
                          case Reloading(request) => Told(Moved(s, h, Idle, s.hosts[h].pending), request, reply, 0)
                          case Loading(job) => Noted(Moved(s, h, Idle, s.hosts[h].pending), h, job, reply, 0)
  {
    hide Inv;
    RunGrows(agg, steps, LoadFails(h, fetch));
  }

  // ----- reads and lookups --------------------------------------------------------------------

  /** A read is answered with the version and the domain state of exactly the records
      loaded, or withheld while the held request is unresolved. */
  lemma ReadIsAnswered(agg: Aggregate, steps: seq<Step>, h: nat, seen: nat, unsaved: Option<StoreError>)
    requires Ran(agg, steps).Some? && Enabled(Ran(agg, steps).value, Load(h, seen, unsaved))
    requires Ran(agg, steps).value.hosts[h].phase == Loading(Reading)
    ensures var s, t := Ran(agg, steps).value, Ran(agg, steps + [Load(h, seen, unsaved)]);
            var held := Barrier(s.hosts[h].pending, seen);
            var reply := if held.Some? then Uncertain(held.value.id, None)
                         else Value(seen, Evolve(agg, agg.initial, Facts(s.history[..seen])));
            && t.Some?
            && t.value == Moved(s, h, Idle, held).(notes := s.notes + [Note(h, Reading, reply, seen, |s.history|)])
  {
    hide Good, Fold, Decided, Loaded, Inv, Evolve, Facts;
    RunKeeps(agg, steps);
    RunGrows(agg, steps, Load(h, seen, unsaved));
    LoadedView(agg, Ran(agg, steps).value, seen);
  }

  lemma LoadedView(agg: Aggregate, s: System, seen: nat)
    requires Inv(agg, s) && seen <= |s.history|
    ensures Loaded(agg, Rows(s.history[..seen])) == Ok(View(Fold(agg, s.history[..seen]), seen))
    ensures Fold(agg, s.history[..seen]).domain == Evolve(agg, agg.initial, Facts(s.history[..seen]))
  {
    hide Good, Fold, Facts, Evolve;
    GoodLoads(agg, s.history, seen);
    GoodPrefix(agg, s.history, seen);
    GoodFold(agg, s.history[..seen]);
  }

  /** Once a read is answered with a value, no append of its host or an ancestor that had
      not committed by then commits in any continuation: the value is not outdated by
      anything the host left behind. */
  lemma ReadIsSettled(agg: Aggregate, steps: seq<Step>, h: nat, seen: nat, unsaved: Option<StoreError>, more: seq<Step>, i: nat)
    requires Ran(agg, steps).Some? && Enabled(Ran(agg, steps).value, Load(h, seen, unsaved))
    requires Ran(agg, steps + [Load(h, seen, unsaved)] + more).Some?
    requires var s := Ran(agg, steps).value;
             && s.hosts[h].phase == Loading(Reading)
             && Barrier(s.hosts[h].pending, seen) == None
             && i < |s.issues| && s.issues[i].host in s.hosts[h].ancestors + {h}
    requires !Ran(agg, steps).value.issues[i].status.Committed?
    ensures var u := Ran(agg, steps + [Load(h, seen, unsaved)] + more).value;
            i < |u.issues| && !u.issues[i].status.Committed?
  {
    hide Good, Fold, Decided, Loaded;
    var s, all := Ran(agg, steps).value, [Load(h, seen, unsaved)] + more;
    assert steps + [Load(h, seen, unsaved)] + more == steps + all;
    RunKeeps(agg, steps);
    RunLater(agg, steps, all);
    SettleCovers(agg, s, h, seen);
  }

  /** A lookup finds exactly the request recorded under the id, whatever is unresolved;
      that there is none is said only when nothing is. */
  lemma LookupIsAnswered(agg: Aggregate, steps: seq<Step>, h: nat, id: Id, seen: nat, unsaved: Option<StoreError>)
    requires Ran(agg, steps).Some? && Enabled(Ran(agg, steps).value, Load(h, seen, unsaved))
    requires Ran(agg, steps).value.hosts[h].phase == Loading(Finding(id, false))
    ensures var s, t := Ran(agg, steps).value, Ran(agg, steps + [Load(h, seen, unsaved)]);
            var held := Barrier(s.hosts[h].pending, seen);
            && t.Some?
            && (forall k :: 0 <= k < seen && s.history[k].request.id == id ==>
                  t.value == Moved(s, h, Idle, held).(notes := s.notes +
                    [Note(h, Finding(id, false), Found(Some(s.history[k].request)), seen, |s.history|)]))
            && (Unused(s.history[..seen], id) ==>
                  var reply := if held.Some? then Uncertain(held.value.id, None) else Found(None);
                  t.value == Moved(s, h, Idle, held).(notes := s.notes +
                    [Note(h, Finding(id, false), reply, seen, |s.history|)]))
  {
    hide Good, Fold, Decided, Loaded, ReceiptOf, Original, Inv;
    var s := Ran(agg, steps).value;
    RunKeeps(agg, steps);
    RunGrows(agg, steps, Load(h, seen, unsaved));
    OriginalIs(agg, s, seen, id);
  }

  lemma OriginalIs(agg: Aggregate, s: System, seen: nat, id: Id)
    requires Inv(agg, s) && seen <= |s.history|
    ensures Loaded(agg, Rows(s.history[..seen])) == Ok(View(Fold(agg, s.history[..seen]), seen))
    ensures forall k :: 0 <= k < seen && s.history[k].request.id == id ==>
              Original(Fold(agg, s.history[..seen]), id) == Some(s.history[k].request)
    ensures Unused(s.history[..seen], id) ==> Original(Fold(agg, s.history[..seen]), id) == None
  {
    hide Good, Fold, Facts, Evolve;
    var h := s.history[..seen];
    GoodLoads(agg, s.history, seen);
    GoodPrefix(agg, s.history, seen);
    GoodFold(agg, h);
    KnownExactly(Fold(agg, h).receipts, h, id);
    assert forall k :: 0 <= k < seen ==> h[k] == s.history[k];
  }

  /** A retry submits the exact original: the one held under the id, at once, or else the
      one recorded under it; without either it is unknown, or withheld. */
  lemma RetryIsOfOriginal(agg: Aggregate, steps: seq<Step>, h: nat, id: Id)
    requires Ran(agg, steps).Some? && Enabled(Ran(agg, steps).value, Retry(h, id))
    ensures var s, t := Ran(agg, steps).value, Ran(agg, steps + [Retry(h, id)]);
            var pending := s.hosts[h].pending;
            && t.Some?
            && t.value == Moved(s, h, t.value.hosts[h].phase, pending)
            && (pending.Some? && pending.value.id == id ==> t.value.hosts[h].phase == Loading(Submitting(pending.value)))
            && (pending.None? || pending.value.id != id ==> t.value.hosts[h].phase == Loading(Finding(id, true)))
  {
    hide Inv;
    RunGrows(agg, steps, Retry(h, id));
  }

  lemma RetryFindsOriginal(agg: Aggregate, steps: seq<Step>, h: nat, id: Id, seen: nat, unsaved: Option<StoreError>)
    requires Ran(agg, steps).Some? && Enabled(Ran(agg, steps).value, Load(h, seen, unsaved))
    requires Ran(agg, steps).value.hosts[h].phase == Loading(Finding(id, true))
    ensures var s, t := Ran(agg, steps).value, Ran(agg, steps + [Load(h, seen, unsaved)]);
            var held := Barrier(s.hosts[h].pending, seen);
            && t.Some?
            && (forall k :: 0 <= k < seen && s.history[k].request.id == id ==>
                  t.value == Moved(s, h, Loading(Submitting(s.history[k].request)), held))
            && (Unused(s.history[..seen], id) ==>
                  var reply := if held.Some? then Uncertain(held.value.id, None) else Unknown;
                  t.value == Moved(s, h, Idle, held).(notes := s.notes +
                    [Note(h, Finding(id, true), reply, seen, |s.history|)]))
  {
    hide Good, Fold, Decided, Loaded, ReceiptOf, Original, Inv;
    var s := Ran(agg, steps).value;
    RunKeeps(agg, steps);
    RunGrows(agg, steps, Load(h, seen, unsaved));
    OriginalIs(agg, s, seen, id);
  }

  /** What was noted stays true: in every run, every value ever read is the domain state
      of the records it names, and every request ever found is recorded under its id. */
  ghost predicate NoteHolds(agg: Aggregate, s: System, note: Note) {
    && note.seen <= |s.history|
    && (note.reply.Value? ==>
          note.reply.version == note.seen && note.reply.domain == Evolve(agg, agg.initial, Facts(s.history[..note.seen])))
    && (note.job.Finding? && note.reply.Found? && note.reply.original.Some? ==>
          exists k :: 0 <= k < note.seen && s.history[k].request == note.reply.original.value
                      && s.history[k].request.id == note.job.id)
    && (note.job.Finding? && note.reply.Found? && note.reply.original.None? ==>
          Unused(s.history[..note.seen], note.job.id))
  }

  lemma NoteStays(agg: Aggregate, s: System, t: System, note: Note)
    requires NoteHolds(agg, s, note) && s.history <= t.history
    ensures NoteHolds(agg, t, note)
  {
    assert s.history[..note.seen] == t.history[..note.seen];
  }

  lemma LookedUp(agg: Aggregate, s: System, seen: nat, id: Id)
    requires Inv(agg, s) && seen <= |s.history|
    ensures var original := Original(Fold(agg, s.history[..seen]), id);
            && (original.Some? ==> exists k :: 0 <= k < seen && s.history[k].request == original.value
                                               && s.history[k].request.id == id)
            && (original.None? ==> Unused(s.history[..seen], id))
  {
    hide Good, Fold, Original, Loaded;
    OriginalIs(agg, s, seen, id);
    if !Unused(s.history[..seen], id) {
      var k :| 0 <= k < seen && s.history[..seen][k].request.id == id;
      assert s.history[k].request.id == id;
    }
  }

  lemma NewNote(agg: Aggregate, s: System, step: Step)
    requires Inv(agg, s) && Enabled(s, step)
    ensures var t := After(agg, s, step);
            && s.notes <= t.notes && |t.notes| <= |s.notes| + 1
            && (|t.notes| > |s.notes| ==> t.history == s.history && NoteHolds(agg, s, t.notes[|s.notes|]))
  {
    hide Good, Fold, Decided, Loaded, Original, AfterLoad, Evolve, Facts, Unused;
    if step.Load? {
      LoadedView(agg, s, step.seen);
      var phase := s.hosts[step.host].phase;
      if phase.Loading? && phase.job.Finding? {
        LookedUp(agg, s, step.seen, phase.job.id);
      }
    } else if step.LoadFails? {
      FailedLoads(agg, step.fetch);
    }
  }

  lemma FailedLoads(agg: Aggregate, fetch: Fetch)
    requires !fetch.Rows?
    ensures Loaded(agg, fetch).Err? && !Loaded(agg, fetch).error.Value? && !Loaded(agg, fetch).error.Found?
  {
  }

  lemma {:induction false} NotesHold(agg: Aggregate, steps: seq<Step>, j: nat)
    requires Ran(agg, steps).Some? && j < |Ran(agg, steps).value.notes|
    ensures NoteHolds(agg, Ran(agg, steps).value, Ran(agg, steps).value.notes[j])
    decreases |steps|
  {
    hide NoteHolds, Inv, After, Enabled;
    if steps != [] {
      var n := |steps| - 1;
      var s, t := Ran(agg, steps[..n]).value, Ran(agg, steps).value;
      RunKeeps(agg, steps[..n]);
      NewNote(agg, s, steps[n]);
      StepLater(agg, s, steps[n]);
      if j < |s.notes| {
        NotesHold(agg, steps[..n], j);
      }
      NoteStays(agg, s, t, t.notes[j]);
    }
  }
}
