/** The barrier is never stuck: every request a run leaves held can be settled. */
module CommandProgress {
  import opened Wrappers
  import opened CommandModel
  import opened CommandEngine
  import opened CommandSystem
  import opened CommandTheorems

  /** The stream took, or can still take, the request at the version it expects. */
  ghost predicate Decidable(agg: Aggregate, h: seq<Record>, request: Request) {
    request.expected <= |h| && Acceptable(agg, h[..request.expected], request)
  }

  /** Whatever the host holds, wherever it keeps it, is such a request. */
  ghost predicate Held(agg: Aggregate, s: System, h: nat)
    requires h < |s.hosts|
  {
    var host := s.hosts[h];
    && (host.pending.Some? ==> Decidable(agg, s.history, host.pending.value))
    && (host.handoff.Some? ==> Decidable(agg, s.history, host.handoff.value))
    && (host.report.Some? ==> Decidable(agg, s.history, host.report.value))
  }

  lemma StaysDecidable(agg: Aggregate, h: seq<Record>, longer: seq<Record>, request: Request)
    requires Decidable(agg, h, request) && h <= longer
    ensures Decidable(agg, longer, request)
  {
    assert h[..request.expected] == longer[..request.expected];
  }

  lemma IssuedIsDecidable(agg: Aggregate, s: System, i: nat)
    requires Inv(agg, s) && i < |s.issues|
    ensures Decidable(agg, s.history, s.issues[i].record.request)
  {
    hide Fold, Good, Follows, Acceptable;
    var issue := s.issues[i];
    assert IssueInv(agg, s, issue);
    GoodPrefix(agg, s.history, issue.base);
    FollowsExactly(agg, s.history[..issue.base], issue.record);
    ExpectsBase(agg, s.history[..issue.base], issue.record);
  }

  /** No step but an append puts another request into a host's own barrier. */
  lemma PendingComes(agg: Aggregate, s: System, step: Step, h: nat)
    requires Inv(agg, s) && Enabled(s, step) && h < |s.hosts|
    ensures var t := After(agg, s, step);
            && h < |t.hosts|
            && (t.hosts[h].phase.Appending? || t.hosts[h].pending == None || t.hosts[h].pending == s.hosts[h].pending)
  {
    hide Good, Fold, AfterLoad, Loaded, Decided;
    assert HostInv(agg, s, h);
    match step {
      case Load(x, seen, unsaved) =>
        GoodLoads(agg, s.history, seen);
        var phase := s.hosts[x].phase;
        if phase.Loading? && phase.job.Submitting? {
          AfterLoadCases(agg, s.hosts[x].pending, phase.job.request, View(Fold(agg, s.history[..seen]), seen));
        }
      case _ =>
    }
  }

  lemma SlotsMove(agg: Aggregate, s: System, step: Step, h: nat)
    requires Inv(agg, s) && Enabled(s, step) && h < |After(agg, s, step).hosts|
    ensures var t := After(agg, s, step);
            && (h >= |s.hosts| ==>
                  && t.hosts[h].handoff == None && t.hosts[h].report == None
                  && (t.hosts[h].pending == None ||
                      (step.Resume? && step.from < |s.hosts| && t.hosts[h].pending == s.hosts[step.from].report)))
            && (h < |s.hosts| ==>
                  && t.hosts[h].handoff in {None, s.hosts[h].handoff, s.hosts[h].pending}
                  && t.hosts[h].report in {s.hosts[h].report, s.hosts[h].handoff})
  {
    hide Good, Fold, AfterLoad, Loaded, Decided, AfterAppend;
  }

  lemma StepHolds(agg: Aggregate, s: System, step: Step, h: nat)
    requires Inv(agg, s) && Enabled(s, step) && h < |After(agg, s, step).hosts|
    requires forall x :: 0 <= x < |s.hosts| ==> Held(agg, s, x)
    ensures Held(agg, After(agg, s, step), h)
  {
    hide Good, Fold, After, Enabled, Decidable, Inv;
    var t := After(agg, s, step);
    StepKeeps(agg, s, step);
    StepLater(agg, s, step);
    SlotsMove(agg, s, step, h);
    forall request | Decidable(agg, s.history, request) {
      StaysDecidable(agg, s.history, t.history, request);
    }
    if h < |s.hosts| {
      assert Held(agg, s, h);
      PendingComes(agg, s, step, h);
      if t.hosts[h].phase.Appending? {
        AppendingHolds(agg, t, h);
      }
    } else if step.Resume? {
      assert step.from < |s.hosts| ==> Held(agg, s, step.from);
    }
  }

  lemma AppendingHolds(agg: Aggregate, s: System, h: nat)
    requires Inv(agg, s) && h < |s.hosts| && s.hosts[h].phase.Appending?
    ensures s.hosts[h].pending.Some? && Decidable(agg, s.history, s.hosts[h].pending.value)
  {
    assert HostInv(agg, s, h);
    IssuedIsDecidable(agg, s, s.hosts[h].phase.issue);
  }

  lemma {:induction false} RunHolds(agg: Aggregate, steps: seq<Step>, h: nat)
    requires Ran(agg, steps).Some? && h < |Ran(agg, steps).value.hosts|
    ensures Held(agg, Ran(agg, steps).value, h)
    decreases |steps|
  {
    if steps != [] {
      var n := |steps| - 1;
      var s := Ran(agg, steps[..n]).value;
      RunKeeps(agg, steps[..n]);
      forall x | 0 <= x < |s.hosts| {
        RunHolds(agg, steps[..n], x);
      }
      StepHolds(agg, s, steps[n], h);
    }
  }

  // ----- settling -------------------------------------------------------------------------

  /** The step that ends whatever call the host is in, without an answer from the store. */
  function Interruption(s: System, h: nat): Step
    requires h < |s.hosts|
  {
    if s.hosts[h].phase.Appending? then Observe(h, AppendTimeout) else LoadFails(h, LoadTimeout)
  }

  lemma Interrupted(agg: Aggregate, s: System, h: nat)
    requires Inv(agg, s) && h < |s.hosts| && s.hosts[h].Running() && !s.hosts[h].phase.Idle?
    ensures Enabled(s, Interruption(s, h))
    ensures var t := After(agg, s, Interruption(s, h));
            && t.history == s.history
            && t.hosts == s.hosts[h := s.hosts[h].(phase := Idle)]
  {
    assert HostInv(agg, s, h);
  }

  /** A read of the whole stream clears a request whose base the head has passed. */
  lemma ReadSettles(agg: Aggregate, s: System, h: nat)
    requires Inv(agg, s) && h < |s.hosts| && s.hosts[h].phase.Idle?
    requires s.hosts[h].pending.Some? ==> s.hosts[h].pending.value.expected < |s.history|
    ensures var a, b := Call(h, Reading), Load(h, |s.history|, None);
            && Enabled(s, a)
            && Enabled(After(agg, s, a), b)
            && var u := After(agg, After(agg, s, a), b);
            && u.history == s.history
            && u.hosts == s.hosts[h := s.hosts[h].(pending := None)]
  {
    hide Good, Fold, Loaded;
    GoodLoads(agg, s.history, |s.history|);
  }

  /** From every state of every run, an idle host can get rid of the request it holds: by
      a read once the head has passed its base, and while the head is still there by
      submitting it again, which the stream accepts. */
  lemma IdleSettles(agg: Aggregate, steps: seq<Step>, h: nat) returns (more: seq<Step>)
    requires Ran(agg, steps).Some?
    requires h < |Ran(agg, steps).value.hosts| && Ran(agg, steps).value.hosts[h].phase.Idle?
    ensures Ran(agg, steps + more).Some?
    ensures var s, u := Ran(agg, steps).value, Ran(agg, steps + more).value;
            && u.hosts == s.hosts[h := s.hosts[h].(pending := None)]
            && s.history <= u.history
            && (s.hosts[h].pending.Some? ==> s.hosts[h].pending.value.expected < |u.history|)
            && (u.history == s.history ||
                (s.hosts[h].pending.Some? && |u.history| == |s.history| + 1
                 && u.history[|s.history|].request == s.hosts[h].pending.value))
  {
    hide Ran, Inv, After, Enabled, Accepting, Acceptable;
    var s := Ran(agg, steps).value;
    RunKeeps(agg, steps);
    RunHolds(agg, steps, h);
    var pending := s.hosts[h].pending;
    if pending.Some? && pending.value.expected == |s.history| {
      assert s.history[..|s.history|] == s.history;
      more := AcceptanceExtends(agg, steps, h, pending.value);
      AcceptingIs(agg, s.history, pending.value);
    } else {
      var a, b := Call(h, Reading), Load(h, |s.history|, None);
      ReadSettles(agg, s, h);
      more := [a, b];
      RunGrows(agg, steps, a);
      RunGrows(agg, steps + [a], b);
      assert steps + [a] + [b] == steps + more;
    }
  }

  /** So can a running host in the middle of any call. */
  lemma HostSettles(agg: Aggregate, steps: seq<Step>, h: nat) returns (more: seq<Step>)
    requires Ran(agg, steps).Some?
    requires h < |Ran(agg, steps).value.hosts| && Ran(agg, steps).value.hosts[h].Running()
    ensures Ran(agg, steps + more).Some?
    ensures var s, u := Ran(agg, steps).value, Ran(agg, steps + more).value;
            && u.hosts == s.hosts[h := s.hosts[h].(phase := Idle, pending := None)]
            && s.history <= u.history
            && (s.hosts[h].pending.Some? ==> s.hosts[h].pending.value.expected < |u.history|)
  {
    hide Ran, Inv, After, Enabled, Interruption;
    var s := Ran(agg, steps).value;
    if s.hosts[h].phase.Idle? {
      more := IdleSettles(agg, steps, h);
    } else {
      var a := Interruption(s, h);
      RunKeeps(agg, steps);
      Interrupted(agg, s, h);
      RunGrows(agg, steps, a);
      var rest := IdleSettles(agg, steps + [a], h);
      more := [a] + rest;
      assert steps + [a] + rest == steps + more;
    }
  }

  /** The steps that put a dropped host's request into the hands of a resumed one. */
  function Takeover(s: System, h: nat): seq<Step>
    requires h < |s.hosts|
  {
    if s.hosts[h].phase.Dropped? then [Step.Report(h), Resume(h)] else [Resume(h)]
  }

  lemma Takes(agg: Aggregate, steps: seq<Step>, h: nat)
    requires Ran(agg, steps).Some? && h < |Ran(agg, steps).value.hosts| && !Ran(agg, steps).value.hosts[h].Running()
    ensures var s := Ran(agg, steps).value;
            && Ran(agg, steps + Takeover(s, h)).Some?
            && var t := Ran(agg, steps + Takeover(s, h)).value;
            && t.history == s.history
            && |t.hosts| == |s.hosts| + 1
            && t.hosts[|s.hosts|] == Host(s.hosts[h].ancestors + {h}, Idle, s.hosts[h].Custody(), None, None)
  {
    var s := Ran(agg, steps).value;
    var a, b := Step.Report(h), Resume(h);
    if s.hosts[h].phase.Dropped? {
      RunGrows(agg, steps, a);
      RunGrows(agg, steps + [a], b);
      assert steps + [a] + [b] == steps + Takeover(s, h);
    } else {
      RunGrows(agg, steps, b);
    }
  }

  /** No request is ever left behind: whatever a host of any run keeps, pending, handed
      off or reported, some continuation settles, in that host or in one resumed from it. */
  lemma CustodySettles(agg: Aggregate, steps: seq<Step>, h: nat) returns (more: seq<Step>, x: nat)
    requires Ran(agg, steps).Some? && h < |Ran(agg, steps).value.hosts|
    ensures Ran(agg, steps + more).Some? && x < |Ran(agg, steps + more).value.hosts|
    ensures var s, u := Ran(agg, steps).value, Ran(agg, steps + more).value;
            && h in u.hosts[x].ancestors + {x}
            && Quiet(u.hosts[x])
            && s.history <= u.history
            && (s.hosts[h].Custody().Some? ==> s.hosts[h].Custody().value.expected < |u.history|)
  {
    hide Ran, Inv, After, Enabled, Takeover;
    var s := Ran(agg, steps).value;
    if s.hosts[h].Running() {
      x := h;
      more := HostSettles(agg, steps, h);
    } else {
      Takes(agg, steps, h);
      var first := Takeover(s, h);
      x := |s.hosts|;
      var rest := HostSettles(agg, steps + first, x);
      more := first + rest;
      assert steps + first + rest == steps + more;
    }
  }

  /** Nothing is going on in the host and it holds no request. */
  predicate Quiet(host: Host) {
    host.phase.Idle? && host.pending == None
  }

  /** Every run has a continuation that leaves no running host with anything unresolved. */
  lemma {:induction false} AllSettle(agg: Aggregate, steps: seq<Step>, n: nat) returns (more: seq<Step>)
    requires Ran(agg, steps).Some? && n <= |Ran(agg, steps).value.hosts|
    ensures Ran(agg, steps + more).Some?
    ensures var s, u := Ran(agg, steps).value, Ran(agg, steps + more).value;
            && |u.hosts| == |s.hosts|
            && s.history <= u.history
            && (forall h :: 0 <= h < |s.hosts| ==>
                  if h < n && s.hosts[h].Running() then Quiet(u.hosts[h]) else u.hosts[h] == s.hosts[h])
    decreases n
  {
    hide Ran, Inv, After, Enabled;
    if n == 0 {
      more := [];
      assert steps + more == steps;
    } else {
      more := AllSettle(agg, steps, n - 1);
      var h := n - 1;
      if Ran(agg, steps).value.hosts[h].Running() {
        var rest := HostSettles(agg, steps + more, h);
        assert steps + more + rest == steps + (more + rest);
        more := more + rest;
      }
    }
  }
}
