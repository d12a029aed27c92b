/** What every run of the command system guarantees. */
module CommandTheorems {
  import opened Wrappers
  import opened CommandModel
  import opened CommandEngine
  import opened CommandSystem

  /** A load of any prefix of the history sees exactly the receipts of that prefix. */
  ghost predicate Sees(agg: Aggregate, h: seq<Record>, k: nat)
    requires k <= |h|
  {
    var loaded := Loaded(agg, Rows(h[..k]));
    && loaded.Ok?
    && loaded.value.version == k
    && loaded.value.state.domain == Evolve(agg, agg.initial, Facts(h[..k]))
    && (forall i :: 0 <= i < k ==> ReceiptOf(loaded.value.state, h[i].request) == Ok(Some(h[i].receipt)))
    && (forall id :: id in loaded.value.state.receipts ==> exists i :: 0 <= i < k && h[i].request.id == id)
  }

  lemma GoodSees(agg: Aggregate, h: seq<Record>, k: nat)
    requires Good(agg, h) && k <= |h|
    ensures Sees(agg, h, k)
  {
    GoodLoads(agg, h, k);
    GoodPrefix(agg, h, k);
    var prefix := h[..k];
    GoodFold(agg, prefix);
    forall i | 0 <= i < k
      ensures ReceiptOf(Fold(agg, prefix), h[i].request) == Ok(Some(h[i].receipt))
    {
      assert prefix[i] == h[i];
    }
    forall id | id in Fold(agg, prefix).receipts
      ensures exists i :: 0 <= i < k && h[i].request.id == id
    {
      var i := IdAt(prefix, id);
      assert h[i].request.id == id;
    }
  }

  /** After any run the stream has the promised shape and every committed prefix
      loads, with exactly the receipts and the domain state of that prefix. */
  lemma HistoryIsSound(agg: Aggregate, steps: seq<Step>, k: nat)
    requires Ran(agg, steps).Some? && k <= |Ran(agg, steps).value.history|
    ensures Shape(agg, Ran(agg, steps).value.history)
    ensures Sees(agg, Ran(agg, steps).value.history, k)
  {
    RunKeeps(agg, steps);
    GoodShape(agg, Ran(agg, steps).value.history);
    GoodSees(agg, Ran(agg, steps).value.history, k);
  }

  // ----- what never changes along a run -----------------------------------------------

  /** `t` comes after `s`: the history, the issues and the replies only grow, an
      issue keeps its identity, and one whose base the head has passed never commits. */
  ghost predicate Later(s: System, t: System) {
    && s.history <= t.history
    && |s.issues| <= |t.issues|
    && s.heard <= t.heard
    && (forall i :: 0 <= i < |s.issues| ==>
          && t.issues[i].record == s.issues[i].record
          && t.issues[i].base == s.issues[i].base
          && (t.issues[i].status.InFlight? ==> s.issues[i].status.InFlight?)
          && (t.issues[i].status.Committed? ==> s.issues[i].status.Committed? || Live(s, i)))
    && (forall i :: |s.issues| <= i < |t.issues| && t.issues[i].status.Committed? ==> t.issues[i].base >= |s.history|)
  }

  /** Steps that add at most an issue in flight and a reply. */
  lemma ExtendedLater(s: System, t: System)
    requires t.history == s.history && s.heard <= t.heard
    requires t.issues == s.issues || (exists issue :: t.issues == s.issues + [issue] && issue.status.InFlight?)
    ensures Later(s, t)
  {
  }

  lemma LoadLater(agg: Aggregate, s: System, h: nat, seen: nat, unsaved: Option<StoreError>)
    requires Inv(agg, s) && Enabled(s, Load(h, seen, unsaved))
    ensures Later(s, After(agg, s, Load(h, seen, unsaved)))
  {
    var t := After(agg, s, Load(h, seen, unsaved));
    GoodLoads(agg, s.history, seen);
    assert t.issues == s.issues || t.issues == s.issues + [t.issues[|s.issues|]];
    ExtendedLater(s, t);
  }

  lemma SettledLater(agg: Aggregate, s: System, step: Step)
    requires Enabled(s, step) && (step.Commit? || step.Refuse? || step.Lose?)
    ensures Later(s, After(agg, s, step))
  {
  }

  lemma StepLater(agg: Aggregate, s: System, step: Step)
    requires Inv(agg, s) && Enabled(s, step)
    ensures Later(s, After(agg, s, step))
  {
    match step {
      case Commit(_) | Refuse(_) | Lose(_) => SettledLater(agg, s, step);
      case Load(h, seen, unsaved) => LoadLater(agg, s, h, seen, unsaved);
      case _ => ExtendedLater(s, After(agg, s, step));
    }
  }

  lemma LaterChains(agg: Aggregate, s: System, t: System, u: System)
    requires Inv(agg, s) && Inv(agg, t) && Later(s, t) && Later(t, u)
    ensures Later(s, u)
  {
  }

  lemma RunGrows(agg: Aggregate, steps: seq<Step>, step: Step)
    requires Ran(agg, steps).Some?
    ensures var s := Ran(agg, steps).value;
            Ran(agg, steps + [step]) == if Enabled(s, step) then Some(After(agg, s, step)) else None
  {
  }

  lemma {:induction false} RunLater(agg: Aggregate, steps: seq<Step>, more: seq<Step>)
    requires Ran(agg, steps).Some? && Ran(agg, steps + more).Some?
    ensures Later(Ran(agg, steps).value, Ran(agg, steps + more).value)
    decreases |more|
  {
    RunKeeps(agg, steps);
    if more == [] {
      assert steps + more == steps;
    } else {
      var init, last := more[..|more| - 1], more[|more| - 1];
      assert steps + more == steps + init + [last];
      assert (steps + more)[..|steps + init|] == steps + init;
      var s, t := Ran(agg, steps).value, Ran(agg, steps + init).value;
      RunLater(agg, steps, init);
      RunKeeps(agg, steps + init);
      RunGrows(agg, steps + init, last);
      StepLater(agg, t, last);
      LaterChains(agg, s, t, After(agg, t, last));
    }
  }

  // ----- the barrier --------------------------------------------------------------------

  /** Whatever commits later was held before: an append in flight now that some
      continuation commits has its exact request in the custody of every host
      descended from its issuer - pending, handed off or reported. */
  lemma BarrierHolds(agg: Aggregate, steps: seq<Step>, more: seq<Step>, h: nat, i: nat)
    requires Ran(agg, steps + more).Some? && Ran(agg, steps).Some?
    requires var s := Ran(agg, steps).value;
             && h < |s.hosts|
             && i < |s.issues|
             && s.issues[i].host in s.hosts[h].ancestors + {h}
             && s.issues[i].status.InFlight?
    requires i < |Ran(agg, steps + more).value.issues| && Ran(agg, steps + more).value.issues[i].status.Committed?
    ensures var s := Ran(agg, steps).value;
            s.hosts[h].Custody() == Some(s.issues[i].record.request)
  {
    RunLater(agg, steps, more);
    RunKeeps(agg, steps);
    var s := Ran(agg, steps).value;
    assert Live(s, i) && Covered(s, h);
  }

  lemma LoadClears(agg: Aggregate, s: System, h: nat, seen: nat, unsaved: Option<StoreError>)
    requires Inv(agg, s) && Enabled(s, Load(h, seen, unsaved)) && s.hosts[h].pending.Some?
    requires After(agg, s, Load(h, seen, unsaved)).hosts[h].pending != s.hosts[h].pending
    ensures s.hosts[h].pending.value.expected < seen
  {
    GoodLoads(agg, s.history, seen);
    var phase := s.hosts[h].phase;
    if phase.Loading? && phase.job.Submitting? {
      AfterLoadCases(agg, s.hosts[h].pending, phase.job.request, View(Fold(agg, s.history[..seen]), seen));
    }
  }

  /** A running host gives up a held request only after the head passed its base. */
  lemma ClearedIsPast(agg: Aggregate, s: System, step: Step, h: nat)
    requires Inv(agg, s) && Enabled(s, step) && h < |s.hosts| && h < |After(agg, s, step).hosts|
    requires s.hosts[h].Running() && After(agg, s, step).hosts[h].Running()
    requires s.hosts[h].pending.Some? && After(agg, s, step).hosts[h].pending != s.hosts[h].pending
    ensures s.hosts[h].pending.value.expected < |s.history|
  {
    hide Good, Fold, AfterLoad, Loaded, Decided;
    match step {
      case Load(x, seen, unsaved) => LoadClears(agg, s, h, seen, unsaved);
      case Observe(x, outcome) =>
        assert HostInv(agg, s, h);
        assert IssueInv(agg, s, s.issues[s.hosts[x].phase.issue]);
      case _ =>
    }
  }

  /** Once a running host clears or replaces a held request, no append of that
      request - its own, an ancestor's or anyone's, issued or yet to be - commits
      in any continuation. */
  lemma ClearedNeverCommits(agg: Aggregate, steps: seq<Step>, step: Step, more: seq<Step>, h: nat, i: nat)
    requires Ran(agg, steps).Some? && Ran(agg, steps + [step]).Some? && Ran(agg, steps + [step] + more).Some?
    requires var s, t := Ran(agg, steps).value, Ran(agg, steps + [step]).value;
             && h < |s.hosts| && h < |t.hosts|
             && s.hosts[h].Running() && t.hosts[h].Running()
             && s.hosts[h].pending.Some?
             && t.hosts[h].pending != s.hosts[h].pending
    requires var s, u := Ran(agg, steps).value, Ran(agg, steps + [step] + more).value;
             && i < |u.issues|
             && u.issues[i].record.request == s.hosts[h].pending.value
             && u.issues[i].status.Committed?
    ensures i < |Ran(agg, steps + [step]).value.issues|
    ensures Ran(agg, steps + [step]).value.issues[i].status.Committed?
  {
    var s, t, u := Ran(agg, steps).value, Ran(agg, steps + [step]).value, Ran(agg, steps + [step] + more).value;
    assert (steps + [step])[..|steps|] == steps;
    RunKeeps(agg, steps);
    RunKeeps(agg, steps + [step] + more);
    ClearedIsPast(agg, s, step, h);
    RunLater(agg, steps, [step]);
    RunLater(agg, steps + [step], more);
    assert IssueInv(agg, u, u.issues[i]);
  }

  // ----- replies ------------------------------------------------------------------------

  /** All acceptances of a request, from whatever host, attempt or retry, carry
      the one receipt stored with it in the history. */
  lemma AcceptancesAgree(agg: Aggregate, steps: seq<Step>, i: nat, j: nat)
    requires Ran(agg, steps).Some?
    requires var s := Ran(agg, steps).value;
             && i < |s.heard| && j < |s.heard|
             && s.heard[i].reply.Accepted? && s.heard[j].reply.Accepted?
             && s.heard[i].request == s.heard[j].request
    ensures var s := Ran(agg, steps).value;
            && s.heard[i].reply == s.heard[j].reply
            && (exists k :: 0 <= k < |s.history| && s.history[k].request == s.heard[i].request
                            && s.history[k].receipt == s.heard[i].reply.receipt)
  {
    RunKeeps(agg, steps);
    var s := Ran(agg, steps).value;
    assert HeardInv(s, s.heard[i]) && HeardInv(s, s.heard[j]);
  }

  /** A conflict seen from beyond the expected version is final: the request is
      not in the history of any continuation. */
  lemma ConflictIsFinal(agg: Aggregate, steps: seq<Step>, more: seq<Step>, j: nat, k: nat)
    requires Ran(agg, steps).Some? && Ran(agg, steps + more).Some?
    requires var s := Ran(agg, steps).value;
             j < |s.heard| && s.heard[j].reply.Conflict? && s.heard[j].request.expected < s.heard[j].seen
    requires k < |Ran(agg, steps + more).value.history|
    ensures Ran(agg, steps + more).value.history[k].request != Ran(agg, steps).value.heard[j].request
  {
    RunLater(agg, steps, more);
    RunKeeps(agg, steps + more);
    var s, u := Ran(agg, steps).value, Ran(agg, steps + more).value;
    assert u.heard[j] == s.heard[j];
    assert HeardInv(u, u.heard[j]);
    GoodAt(agg, u.history, k);
  }

  /** A conflict answered from a load of the whole history is not about its head. */
  lemma ConflictIsElsewhere(agg: Aggregate, s: System, h: nat, unsaved: Option<StoreError>)
    requires Inv(agg, s) && Enabled(s, Load(h, |s.history|, unsaved))
    requires |After(agg, s, Load(h, |s.history|, unsaved)).heard| == |s.heard| + 1
    requires After(agg, s, Load(h, |s.history|, unsaved)).heard[|s.heard|].reply.Conflict?
    ensures After(agg, s, Load(h, |s.history|, unsaved)).heard[|s.heard|].request.expected != |s.history|
  {
    GoodLoads(agg, s.history, |s.history|);
    var phase := s.hosts[h].phase;
    if phase.Loading? && phase.job.Submitting? {
      AfterLoadCases(agg, s.hosts[h].pending, phase.job.request, View(Fold(agg, s.history[..|s.history|]), |s.history|));
    } else {
      assert HostInv(agg, s, h);
    }
  }

  /** Only a load answers with a conflict, and it changes no issue and no record. */
  lemma ConflictFromLoad(agg: Aggregate, s: System, step: Step)
    requires Inv(agg, s) && Enabled(s, step)
    requires |After(agg, s, step).heard| == |s.heard| + 1
    requires After(agg, s, step).heard[|s.heard|].reply.Conflict?
    ensures var t := After(agg, s, step);
            && step.Load?
            && t.history == s.history
            && t.issues == s.issues
            && t.heard[|s.heard|].seen == step.seen
            && t.heard[|s.heard|].head == |s.history|
  {
    if step.Load? {
      GoodLoads(agg, s.history, step.seen);
    }
  }

  /** A request known to be absent, and not expected at the head, has no append
      that can still commit. */
  lemma AbsentStaysOut(agg: Aggregate, t: System, u: System, heard: Heard, i: nat)
    requires Inv(agg, t) && Inv(agg, u) && Later(t, u)
    requires HeardInv(t, heard) && heard.reply.Conflict? && heard.seen == |t.history|
    requires heard.request.expected != |t.history|
    requires i < |t.issues| && t.issues[i].record.request == heard.request
    ensures !u.issues[i].status.Committed?
  {
  }

  /** With an up-to-date load, a conflict means the request is not in the history
      and no append of it issued so far commits in any continuation. */
  lemma UpToDateConflict(agg: Aggregate, steps: seq<Step>, step: Step, more: seq<Step>, k: nat, i: nat)
    requires Ran(agg, steps).Some? && Ran(agg, steps + [step]).Some? && Ran(agg, steps + [step] + more).Some?
    requires var s, t := Ran(agg, steps).value, Ran(agg, steps + [step]).value;
             && |t.heard| == |s.heard| + 1
             && t.heard[|s.heard|].reply.Conflict?
             && t.heard[|s.heard|].seen == |s.history|
    ensures var s, t := Ran(agg, steps).value, Ran(agg, steps + [step]).value;
            k < |t.history| ==> t.history[k].request != t.heard[|s.heard|].request
    ensures var s, t, u := Ran(agg, steps).value, Ran(agg, steps + [step]).value, Ran(agg, steps + [step] + more).value;
            && |t.issues| <= |u.issues|
            && (i < |t.issues| && t.issues[i].record.request == t.heard[|s.heard|].request ==>
                  !u.issues[i].status.Committed?)
  {
    var s, t, u := Ran(agg, steps).value, Ran(agg, steps + [step]).value, Ran(agg, steps + [step] + more).value;
    assert (steps + [step])[..|steps|] == steps;
    RunKeeps(agg, steps);
    RunKeeps(agg, steps + [step]);
    RunKeeps(agg, steps + [step] + more);
    RunLater(agg, steps + [step], more);
    ConflictFromLoad(agg, s, step);
    ConflictIsElsewhere(agg, s, step.host, step.unsaved);
    var last := t.heard[|s.heard|];
    assert HeardInv(t, last);
    if k < |t.history| {
      GoodAt(agg, t.history, k);
    }
    if i < |t.issues| && t.issues[i].record.request == last.request {
      AbsentStaysOut(agg, t, u, last, i);
    }
  }

  lemma StaleLoad(agg: Aggregate, s: System, h: nat, k: nat, seen: nat)
    requires Inv(agg, s) && h < |s.hosts| && s.hosts[h].pending == None && seen < k < |s.history|
    requires s.hosts[h].phase == Loading(Submitting(s.history[k].request))
    ensures After(agg, s, Load(h, seen, None)) == Told(Moved(s, h, Idle, None), s.history[k].request, Conflict, seen)
  {
    var request := s.history[k].request;
    GoodAt(agg, s.history, k);
    GoodSees(agg, s.history, seen);
    var view := Loaded(agg, Rows(s.history[..seen])).value;
    assert request.id !in view.state.receipts;
    assert AfterLoad(agg, None, request, view) == Answer(Conflict, None);
  }

  /** A load that stops short of a record answers its request with a conflict. */
  lemma StaleConflict(agg: Aggregate, steps: seq<Step>, h: nat, k: nat, seen: nat)
    requires Ran(agg, steps).Some?
    requires var s := Ran(agg, steps).value;
             && h < |s.hosts| && s.hosts[h].phase == Idle && s.hosts[h].pending == None
             && seen < k < |s.history|
    ensures var s := Ran(agg, steps).value;
            var request := s.history[k].request;
            AnswersConflict(agg, steps, [Call(h, Submitting(request)), Load(h, seen, None)], request, seen)
  {
    var s := Ran(agg, steps).value;
    var a := Call(h, Submitting(s.history[k].request));
    var b := Load(h, seen, None);
    RunKeeps(agg, steps);
    RunGrows(agg, steps, a);
    RunGrows(agg, steps + [a], b);
    assert steps + [a] + [b] == steps + [a, b];
    StepKeeps(agg, s, a);
    StaleLoad(agg, After(agg, s, a), h, k, seen);
  }

  /** A load of exactly the records before one decides that record again. */
  lemma RepeatAppends(agg: Aggregate, s: System, h: nat, k: nat)
    requires Inv(agg, s) && h < |s.hosts| && s.hosts[h].pending == None && k < |s.history|
    requires s.hosts[h].phase == Loading(Submitting(s.history[k].request))
    ensures After(agg, s, Load(h, k, None)) ==
            Moved(s, h, Appending(|s.issues|, View(Fold(agg, s.history[..k]), k), None), Some(s.history[k].request))
            .(issues := s.issues + [Issue(h, s.history[k], k, InFlight)])
  {
    hide Fold, Good, Decided, Applied;
    GoodAt(agg, s.history, k);
    GoodPrefix(agg, s.history, k);
    GoodLoads(agg, s.history, k);
    assert Follows(agg, s.history[..k], s.history[k]);
  }

  /** The reload after a refused append compares no versions: when it ends where the
      first load ended it answers a conflict. */
  lemma ReloadAnswers(agg: Aggregate, s: System, h: nat, k: nat)
    requires Inv(agg, s) && h < |s.hosts| && k < |s.history|
    requires s.hosts[h].phase == Reloading(s.history[k].request)
    ensures After(agg, s, Load(h, k, None)) ==
            Told(Moved(s, h, Idle, s.hosts[h].pending), s.history[k].request, Conflict, k)
  {
    hide Fold, Good, Decided, Applied;
    GoodPrefix(agg, s.history, k);
    GoodLoads(agg, s.history, k);
    assert Follows(agg, s.history[..k], s.history[k]);
  }

  /** A host that loads exactly the records before an accepted one appends it again,
      is refused because it is already there, and on a reload no longer than the
      first load answers a conflict: the first request of a stream included. */
  lemma ReloadConflict(agg: Aggregate, steps: seq<Step>, h: nat, k: nat)
    requires Ran(agg, steps).Some?
    requires var s := Ran(agg, steps).value;
             && h < |s.hosts| && s.hosts[h].phase == Idle && s.hosts[h].pending == None
             && k < |s.history|
    ensures var s := Ran(agg, steps).value;
            var request := s.history[k].request;
            AnswersConflict(agg, steps,
                            [Call(h, Submitting(request)), Load(h, k, None), Refuse(|s.issues|),
                             Observe(h, AppendError(CasConflict)), Load(h, k, None)],
                            request, k)
  {
    hide Inv, Ran, After, Enabled, Repeated;
    var s := Ran(agg, steps).value;
    var request := s.history[k].request;
    var a, b, c, d := Call(h, Submitting(request)), Load(h, k, None), Refuse(|s.issues|), Observe(h, AppendError(CasConflict));
    RunKeeps(agg, steps);
    RepeatIssues(agg, s, h, k);
    RepeatIsRefused(agg, s, h, k);
    RunGrows(agg, steps, a);
    RunGrows(agg, steps + [a], b);
    RunGrows(agg, steps + [a] + [b], c);
    RunGrows(agg, steps + [a] + [b] + [c], d);
    RunGrows(agg, steps + [a] + [b] + [c] + [d], b);
    assert steps + [a] + [b] + [c] + [d] + [b] == steps + [a, b, c, d, b];
  }

  /** The state in which a host waits for its append of record k once more. */
  ghost function Repeated(agg: Aggregate, s: System, h: nat, k: nat): System
    requires h < |s.hosts| && k < |s.history|
  {
    Moved(s, h, Appending(|s.issues|, View(Fold(agg, s.history[..k]), k), None), Some(s.history[k].request))
    .(issues := s.issues + [Issue(h, s.history[k], k, InFlight)])
  }

  lemma RepeatIssues(agg: Aggregate, s: System, h: nat, k: nat)
    requires Inv(agg, s) && h < |s.hosts| && s.hosts[h].phase == Idle && s.hosts[h].pending == None && k < |s.history|
    ensures var a := Call(h, Submitting(s.history[k].request));
            && Enabled(s, a)
            && Enabled(After(agg, s, a), Load(h, k, None))
            && After(agg, After(agg, s, a), Load(h, k, None)) == Repeated(agg, s, h, k)
            && Inv(agg, Repeated(agg, s, h, k))
  {
    hide Inv, Fold, AfterLoading;
    var a := Call(h, Submitting(s.history[k].request));
    var t := After(agg, s, a);
    StepKeeps(agg, s, a);
    RepeatAppends(agg, t, h, k);
    StepKeeps(agg, t, Load(h, k, None));
  }

  lemma RepeatIsRefused(agg: Aggregate, s: System, h: nat, k: nat)
    requires h < |s.hosts| && k < |s.history| && Inv(agg, Repeated(agg, s, h, k))
    ensures var u, c, d := Repeated(agg, s, h, k), Refuse(|s.issues|), Observe(h, AppendError(CasConflict));
            && Enabled(u, c)
            && Enabled(After(agg, u, c), d)
            && Enabled(After(agg, After(agg, u, c), d), Load(h, k, None))
            && var x := After(agg, After(agg, After(agg, u, c), d), Load(h, k, None));
            && x.heard == s.heard + [Heard(s.history[k].request, Conflict, k, |s.history|)]
  {
    hide Inv, Fold;
    var u, c, d := Repeated(agg, s, h, k), Refuse(|s.issues|), Observe(h, AppendError(CasConflict));
    StepKeeps(agg, u, c);
    var v := After(agg, u, c);
    StepKeeps(agg, v, d);
    ReloadAnswers(agg, After(agg, v, d), h, k);
  }

  /** The continuation ends with a new conflict for the request, from a load of `seen`
      records. */
  ghost predicate AnswersConflict(agg: Aggregate, steps: seq<Step>, more: seq<Step>, request: Request, seen: nat) {
    && Ran(agg, steps).Some?
    && Ran(agg, steps + more).Some?
    && var s, u := Ran(agg, steps).value, Ran(agg, steps + more).value;
    && |s.heard| < |u.heard|
    && u.heard[|u.heard| - 1].request == request
    && u.heard[|u.heard| - 1].reply == Conflict
    && u.heard[|u.heard| - 1].seen == seen
  }

  /** Exactly when the promise fails: a request that is in the history can still be
      answered with a conflict from a load of `seen` records if and only if that load
      does not reach its record. */
  lemma ConflictExactly(agg: Aggregate, steps: seq<Step>, k: nat, seen: nat)
    requires Ran(agg, steps).Some? && k < |Ran(agg, steps).value.history|
    ensures var request := Ran(agg, steps).value.history[k].request;
            (exists more :: AnswersConflict(agg, steps, more, request, seen)) <==> seen <= k
  {
    hide Ran, After, Enabled;
    var s := Ran(agg, steps).value;
    var request := s.history[k].request;
    if seen <= k {
      var begun, h := steps + [Start], |s.hosts|;
      var short := [Call(h, Submitting(request)), Load(h, seen, None)];
      RunStarts(agg, steps);
      if seen < k {
        StaleConflict(agg, begun, h, k, seen);
        StartedAnswers(agg, steps, short, request, seen);
      } else {
        ReloadConflict(agg, begun, h, k);
        var last := [Refuse(|s.issues|), Observe(h, AppendError(CasConflict)), Load(h, k, None)];
        assert short + last == [short[0], short[1], last[0], last[1], last[2]];
        StartedAnswers(agg, steps, short + last, request, seen);
      }
    } else {
      forall more
        ensures !AnswersConflict(agg, steps, more, request, seen)
      {
        ReachedIsNoConflict(agg, steps, more, k, seen);
      }
    }
  }

  lemma RunStarts(agg: Aggregate, steps: seq<Step>)
    requires Ran(agg, steps).Some?
    ensures var s := Ran(agg, steps).value;
            Ran(agg, steps + [Start]) == Some(s.(hosts := s.hosts + [Host({}, Idle, None, None, None)]))
  {
    RunGrows(agg, steps, Start);
  }

  /** What a newly started host is answered, some continuation answers. */
  lemma StartedAnswers(agg: Aggregate, steps: seq<Step>, more: seq<Step>, request: Request, seen: nat)
    requires Ran(agg, steps).Some? && AnswersConflict(agg, steps + [Start], more, request, seen)
    ensures AnswersConflict(agg, steps, [Start] + more, request, seen)
  {
    hide Ran;
    RunStarts(agg, steps);
    assert steps + [Start] + more == steps + ([Start] + more);
  }

  lemma ReachedIsNoConflict(agg: Aggregate, steps: seq<Step>, more: seq<Step>, k: nat, seen: nat)
    requires Ran(agg, steps).Some? && k < |Ran(agg, steps).value.history| && k < seen
    ensures !AnswersConflict(agg, steps, more, Ran(agg, steps).value.history[k].request, seen)
  {
    if Ran(agg, steps + more).Some? {
      var s, u := Ran(agg, steps).value, Ran(agg, steps + more).value;
      RunKeeps(agg, steps);
      RunKeeps(agg, steps + more);
      RunLater(agg, steps, more);
      GoodAt(agg, s.history, k);
      assert u.heard != [] ==> HeardInv(u, u.heard[|u.heard| - 1]);
    }
  }

  lemma LoadUncertainIsHeld(agg: Aggregate, s: System, h: nat, request: Request, seen: nat, unsaved: Option<StoreError>)
    requires Inv(agg, s) && Enabled(s, Load(h, seen, unsaved)) && s.hosts[h].phase == Loading(Submitting(request))
    requires |After(agg, s, Load(h, seen, unsaved)).heard| == |s.heard| + 1
    requires After(agg, s, Load(h, seen, unsaved)).heard[|s.heard|].reply.Uncertain?
    ensures var t := After(agg, s, Load(h, seen, unsaved));
            && t.hosts[h].pending.Some?
            && t.hosts[h].pending.value.id == t.heard[|s.heard|].reply.command
  {
    hide AfterLoad, Loaded, Decided, Fold, Good;
    GoodLoads(agg, s.history, seen);
    AfterLoadCases(agg, s.hosts[h].pending, request, View(Fold(agg, s.history[..seen]), seen));
  }

  /** Every uncertain answer names the request its host still holds. */
  lemma UncertainIsHeld(agg: Aggregate, s: System, step: Step)
    requires Inv(agg, s) && Enabled(s, step) && (step.Load? || step.Observe?)
    requires |After(agg, s, step).heard| == |s.heard| + 1
    requires After(agg, s, step).heard[|s.heard|].reply.Uncertain?
    ensures var t := After(agg, s, step);
            && t.hosts[step.host].pending.Some?
            && t.hosts[step.host].pending.value.id == t.heard[|s.heard|].reply.command
  {
    assert HostInv(agg, s, step.host);
    match step {
      case Load(h, seen, unsaved) =>
        match s.hosts[h].phase {
          case Loading(Submitting(request)) => LoadUncertainIsHeld(agg, s, h, request, seen, unsaved);
          case _ => GoodLoads(agg, s.history, seen);
        }
      case Observe(h, outcome) =>
        var phase := s.hosts[h].phase;
        var w := AfterAppend(agg, phase.view, s.issues[phase.issue].record, phase.previous, outcome);
        assert w.Finished?;
    }
  }

  // ----- the steps of a call are the call -------------------------------------------------

  /** The last reply told and what the host holds then. */
  function Answered(s: System, h: nat): (Reply, Option<Request>)
    requires h < |s.hosts| && s.heard != []
  {
    (s.heard[|s.heard| - 1].reply, s.hosts[h].pending)
  }

  /** A submission answered without an append, by the load or by a failure that
      precedes the append, ends as the engine's call does: whatever the store would have
      said later, or with that failure as its outcome. */
  lemma LoadIsSubmit(agg: Aggregate, s: System, h: nat, request: Request, seen: nat, unsaved: Option<StoreError>, outcome: Outcome, refetch: Fetch)
    requires Enabled(s, Load(h, seen, unsaved)) && s.hosts[h].phase == Loading(Submitting(request))
    requires unsaved.None? || outcome == AppendError(unsaved.value)
    ensures var t := After(agg, s, Load(h, seen, unsaved));
            && (unsaved.Some? ==> t.hosts[h].phase.Idle?)
            && (t.hosts[h].phase.Idle? ==>
                  && t.heard != []
                  && Answered(t, h) == Submitted(agg, s.hosts[h].pending, request, Rows(s.history[..seen]), outcome, refetch))
  {
  }

  /** One that appends ends, after whatever others did in between, as the engine's
      call does with the outcome observed. */
  lemma ObserveIsSubmit(agg: Aggregate, s: System, h: nat, request: Request, seen: nat, u: System, outcome: Outcome, refetch: Fetch)
    requires Enabled(s, Load(h, seen, None)) && s.hosts[h].phase == Loading(Submitting(request))
    requires var t := After(agg, s, Load(h, seen, None));
             && t.hosts[h].phase.Appending?
             && h < |u.hosts| && u.hosts[h] == t.hosts[h]
             && |s.issues| < |u.issues| && u.issues[|s.issues|].record == t.issues[|s.issues|].record
    requires Enabled(u, Observe(h, outcome))
    ensures var v := After(agg, u, Observe(h, outcome));
            && (v.hosts[h].phase.Idle? || v.hosts[h].phase == Reloading(request))
            && (v.hosts[h].phase.Idle? ==>
                  && v.heard != []
                  && Answered(v, h) == Submitted(agg, s.hosts[h].pending, request, Rows(s.history[..seen]), outcome, refetch))
  {
  }

  lemma ReloadIsSubmit(agg: Aggregate, s: System, h: nat, request: Request, seen: nat, u: System, outcome: Outcome, w: System, again: nat)
    requires Enabled(s, Load(h, seen, None)) && s.hosts[h].phase == Loading(Submitting(request))
    requires var t := After(agg, s, Load(h, seen, None));
             && t.hosts[h].phase.Appending?
             && h < |u.hosts| && u.hosts[h] == t.hosts[h]
             && |s.issues| < |u.issues| && u.issues[|s.issues|].record == t.issues[|s.issues|].record
    requires Enabled(u, Observe(h, outcome))
    requires var v := After(agg, u, Observe(h, outcome));
             v.hosts[h].phase.Reloading? && h < |w.hosts| && w.hosts[h] == v.hosts[h]
    requires Enabled(w, Load(h, again, None))
    ensures var x := After(agg, w, Load(h, again, None));
            && x.heard != []
            && Answered(x, h) ==
               Submitted(agg, s.hosts[h].pending, request, Rows(s.history[..seen]), outcome, Rows(w.history[..again]))
  {
  }

  // ----- runs that reach these states -------------------------------------------------------

  /** The host holds nothing but the request itself. */
  ghost predicate Free(s: System, h: nat, request: Request)
    requires h < |s.hosts|
  {
    s.hosts[h].pending == None || s.hosts[h].pending == Some(request)
  }

  lemma FreshAppends(agg: Aggregate, s: System, h: nat, request: Request)
    requires Inv(agg, s) && h < |s.hosts| && Free(s, h, request) && Acceptable(agg, s.history, request)
    requires s.hosts[h].phase == Loading(Submitting(request))
    ensures After(agg, s, Load(h, |s.history|, None)) ==
            Moved(s, h, Appending(|s.issues|, View(Fold(agg, s.history), |s.history|), s.hosts[h].pending), Some(request))
            .(issues := s.issues + [Issue(h, Accepting(agg, s.history, request), |s.history|, InFlight)])
  {
    hide Fold, Good, Applied, Decided, Decides;
    GoodLoads(agg, s.history, |s.history|);
    assert s.history[..|s.history|] == s.history;
    GoodSize(agg, s.history);
    DecidesExactly(agg, s.history, request);
    KnowsExactly(agg, s.history, request);
  }

  lemma GoodSize(agg: Aggregate, h: seq<Record>)
    requires Good(agg, h)
    ensures |h| <= MAX_ACCEPTED
  {
    if h != [] {
      GoodAt(agg, h, |h| - 1);
    }
  }

  lemma SavedIsAccepted(agg: Aggregate, h: seq<Record>, request: Request)
    requires Good(agg, h) && Acceptable(agg, h, request)
    ensures var record := Accepting(agg, h, request);
            ReceiptOf(Applied(agg, Fold(agg, h), record), request) == Ok(Some(record.receipt))
  {
    GoodFold(agg, h);
    DecidesExactly(agg, h, request);
    KnowsExactly(agg, h, request);
  }

  /** Submissions do succeed: from every state with an idle host that holds nothing or
      the request itself, a request the stream can take next is accepted, its record is
      added and the host holds nothing. */
  lemma AcceptanceExtends(agg: Aggregate, steps: seq<Step>, h: nat, request: Request) returns (more: seq<Step>)
    requires Ran(agg, steps).Some?
    requires var s := Ran(agg, steps).value;
             && h < |s.hosts| && s.hosts[h].phase == Idle && Free(s, h, request)
             && Acceptable(agg, s.history, request)
    ensures Ran(agg, steps + more).Some?
    ensures var s, u := Ran(agg, steps).value, Ran(agg, steps + more).value;
            var record := Accepting(agg, s.history, request);
            && u.history == s.history + [record]
            && u.hosts == s.hosts[h := s.hosts[h].(pending := None)]
            && u.heard == s.heard + [Heard(request, Accepted(record.receipt), |s.history|, |s.history| + 1)]
  {
    hide Inv, Ran, After, Enabled, Issued, Acceptable, Accepting;
    var s := Ran(agg, steps).value;
    var a, b, c, d := Call(h, Submitting(request)), Load(h, |s.history|, None), Commit(|s.issues|), Observe(h, Saved);
    more := [a, b, c, d];
    RunKeeps(agg, steps);
    FreshIssues(agg, s, h, request);
    FreshIsSaved(agg, s, h, request);
    RunGrows(agg, steps, a);
    RunGrows(agg, steps + [a], b);
    RunGrows(agg, steps + [a] + [b], c);
    RunGrows(agg, steps + [a] + [b] + [c], d);
    assert steps + [a] + [b] + [c] + [d] == steps + more;
  }

  /** The state in which a host waits for its append of a request. */
  ghost function Issued(agg: Aggregate, s: System, h: nat, request: Request): System
    requires h < |s.hosts| && Acceptable(agg, s.history, request)
  {
    Moved(s, h, Appending(|s.issues|, View(Fold(agg, s.history), |s.history|), s.hosts[h].pending), Some(request))
    .(issues := s.issues + [Issue(h, Accepting(agg, s.history, request), |s.history|, InFlight)])
  }

  lemma FreshIssues(agg: Aggregate, s: System, h: nat, request: Request)
    requires Inv(agg, s) && h < |s.hosts| && s.hosts[h].phase == Idle && Free(s, h, request)
    requires Acceptable(agg, s.history, request)
    ensures var a, b := Call(h, Submitting(request)), Load(h, |s.history|, None);
            && Enabled(s, a)
            && Enabled(After(agg, s, a), b)
            && After(agg, After(agg, s, a), b) == Issued(agg, s, h, request)
  {
    hide Inv, Fold, AfterLoading, Decided;
    var a := Call(h, Submitting(request));
    StepKeeps(agg, s, a);
    FreshAppends(agg, After(agg, s, a), h, request);
  }

  lemma FreshIsSaved(agg: Aggregate, s: System, h: nat, request: Request)
    requires Inv(agg, s) && h < |s.hosts| && s.hosts[h].phase == Idle && Free(s, h, request)
    requires Acceptable(agg, s.history, request)
    ensures var u, c, d := Issued(agg, s, h, request), Commit(|s.issues|), Observe(h, Saved);
            && Enabled(u, c)
            && Enabled(After(agg, u, c), d)
            && var w := After(agg, After(agg, u, c), d);
            var record := Accepting(agg, s.history, request);
            && w.history == s.history + [record]
            && w.hosts == s.hosts[h := s.hosts[h].(pending := None)]
            && w.heard == s.heard + [Heard(request, Accepted(record.receipt), |s.history|, |s.history| + 1)]
  {
    SavedIsAccepted(agg, s.history, request);
    AcceptingIs(agg, s.history, request);
    hide Inv, Fold, Decided, Applied;
  }

  /** Such states are reached: after a run that accepts two requests, loads of nothing
      answer each of them with a conflict. */
  lemma ConflictsHappen(agg: Aggregate, first: Request, second: Request) returns (steps: seq<Step>)
    requires Acceptable(agg, [], first) && Acceptable(agg, [Accepting(agg, [], first)], second)
    ensures Ran(agg, steps).Some?
    ensures var s := Ran(agg, steps).value;
            && |s.history| == 2 && s.history[0].request == first && s.history[1].request == second
            && (exists more :: AnswersConflict(agg, steps, more, first, 0))
            && (exists more :: AnswersConflict(agg, steps, more, second, 0))
  {
    RunGrows(agg, [], Start);
    steps := [] + [Start];
    hide Ran, Fold, Decided;
    var more := AcceptanceExtends(agg, steps, 0, first);
    assert [] + [Accepting(agg, [], first)] == [Accepting(agg, [], first)];
    steps := steps + more;
    more := AcceptanceExtends(agg, steps, 0, second);
    steps := steps + more;
    AcceptingIs(agg, [], first);
    AcceptingIs(agg, [Accepting(agg, [], first)], second);
    ConflictExactly(agg, steps, 0, 0);
    ConflictExactly(agg, steps, 1, 0);
  }

  lemma AcceptingIs(agg: Aggregate, h: seq<Record>, request: Request)
    requires Acceptable(agg, h, request)
    ensures Accepting(agg, h, request).request == request
  {
  }

  // ----- shutdown and resume ----------------------------------------------------------------

  /** A host dropped at any await, reported and resumed goes on with the request it
      held, and its successor answers for everything it issued. */
  lemma ResumedHolds(agg: Aggregate, steps: seq<Step>, h: nat)
    requires Ran(agg, steps).Some? && h < |Ran(agg, steps).value.hosts| && Ran(agg, steps).value.hosts[h].Running()
    ensures Ran(agg, steps + [Drop(h), Report(h), Resume(h)]).Some?
    ensures var s, u := Ran(agg, steps).value, Ran(agg, steps + [Drop(h), Report(h), Resume(h)]).value;
            && |u.hosts| == |s.hosts| + 1
            && u.hosts[|s.hosts|].phase.Idle?
            && u.hosts[|s.hosts|].pending == s.hosts[h].pending
            && s.hosts[h].ancestors + {h} <= u.hosts[|s.hosts|].ancestors
            && u.history == s.history && u.issues == s.issues
  {
    var a, b, c := Step.Drop(h), Step.Report(h), Resume(h);
    RunGrows(agg, steps, a);
    RunGrows(agg, steps + [a], b);
    RunGrows(agg, steps + [a] + [b], c);
    assert steps + [a] + [b] + [c] == steps + [a, b, c];
  }
}
