/** Every interleaving of any number of command hosts over one stream.

    Hosts start, serve one call at a time, are dropped at any await, report what
    they left unresolved and are resumed from that report, any number of times.
    An append that was issued commits, is refused or is lost at a moment of the
    store's choosing, whether or not its issuer still waits. A load returns any
    committed prefix, however stale. */
module CommandSystem {
  import opened Wrappers
  import opened CommandModel
  import opened CommandEngine

  /** `Refused`: the store compared heads and said conflict. `Lost`: it never
      commits and nobody is told. */
  datatype Status = InFlight | Committed | Refused | Lost

  /** One conditional append: it may commit only while the head is `base`. */
  datatype Issue = Issue(host: nat, record: Record, base: nat, status: Status)

  datatype Job = Submitting(request: Request) | Reading | Finding(id: Id, retry: bool)

  datatype Phase =
    | Idle
    | Loading(job: Job)
    | Appending(issue: nat, view: View, previous: Option<Request>)
    | Reloading(request: Request)
    | Dropped
    | Reported

  /** `ancestors` are the hosts whose reports this one was resumed from. */
  datatype Host = Host(
    ancestors: set<nat>,
    phase: Phase,
    pending: Option<Request>,
    handoff: Option<Request>,
    report: Option<Request>)
  {
    /** A running engine: not yet dropped. */
    predicate Running() {
      !phase.Dropped? && !phase.Reported?
    }

    /** Where the host keeps its one unresolved request. */
    function Custody(): Option<Request> {
      match phase
      case Dropped => handoff
      case Reported => report
      case _ => pending
    }
  }

  /** A reply to a submitted request: what the load behind it saw, and the head then. */
  datatype Heard = Heard(request: Request, reply: Reply, seen: nat, head: nat)

  /** A reply to a read or a lookup, likewise. */
  datatype Note = Note(host: nat, job: Job, reply: Reply, seen: nat, head: nat)

  datatype System = System(
    history: seq<Record>,
    issues: seq<Issue>,
    hosts: seq<Host>,
    heard: seq<Heard>,
    notes: seq<Note>)

  datatype Step =
    | Start
    | Resume(from: nat)
    | Call(host: nat, job: Job)
    | Retry(host: nat, id: Id)
    | LoadFails(host: nat, fetch: Fetch)
    | Load(host: nat, seen: nat, unsaved: Option<StoreError>)
    | Commit(issue: nat)
    | Refuse(issue: nat)
    | Lose(issue: nat)
    | Observe(host: nat, outcome: Outcome)
    | Drop(host: nat)
    | Report(host: nat)

  const EMPTY: System := System([], [], [], [], [])

  /** The repository raises these while it prepares an append, and nothing else there:
      the store was not asked yet. What the store may answer once it was asked is
      everything else, whatever became of the append. */
  predicate RaisedBefore(e: StoreError) {
    match e
    case Encode => true
    case Envelope => true
    case SaveOverflow => true
    case _ => false
  }

  predicate Enabled(s: System, step: Step) {
    match step
    case Start => true
    case Resume(from) => from < |s.hosts| && s.hosts[from].phase.Reported?
    case Call(h, job) => h < |s.hosts| && s.hosts[h].phase.Idle?
    case Retry(h, id) => h < |s.hosts| && s.hosts[h].phase.Idle?
    case LoadFails(h, fetch) =>
      && h < |s.hosts|
      && (s.hosts[h].phase.Loading? || s.hosts[h].phase.Reloading?)
      && !fetch.Rows?
    case Load(h, seen, unsaved) =>
      && h < |s.hosts|
      && (s.hosts[h].phase.Loading? || s.hosts[h].phase.Reloading?)
      && seen <= |s.history|
      && (unsaved.Some? ==> RaisedBefore(unsaved.value))
    case Commit(i) => i < |s.issues| && s.issues[i].status.InFlight? && s.issues[i].base == |s.history|
    case Refuse(i) => i < |s.issues| && s.issues[i].status.InFlight? && s.issues[i].base != |s.history|
    case Lose(i) => i < |s.issues| && s.issues[i].status.InFlight?
    case Observe(h, outcome) =>
      && h < |s.hosts|
      && s.hosts[h].phase.Appending?
      && s.hosts[h].phase.issue < |s.issues|
      && (outcome.Saved? ==> s.issues[s.hosts[h].phase.issue].status.Committed?)
      && (outcome.AppendError? && outcome.error.CasConflict? ==> s.issues[s.hosts[h].phase.issue].status.Refused?)
      && (outcome.AppendError? ==> !RaisedBefore(outcome.error))
    case Drop(h) => h < |s.hosts| && s.hosts[h].Running()
    case Report(h) => h < |s.hosts| && s.hosts[h].phase.Dropped?
  }

  function Moved(s: System, h: nat, phase: Phase, pending: Option<Request>): System
    requires h < |s.hosts|
  {
    s.(hosts := s.hosts[h := s.hosts[h].(phase := phase, pending := pending)])
  }

  function Told(s: System, request: Request, reply: Reply, seen: nat): System {
    s.(heard := s.heard + [Heard(request, reply, seen, |s.history|)])
  }

  function Noted(s: System, h: nat, job: Job, reply: Reply, seen: nat): System {
    s.(notes := s.notes + [Note(h, job, reply, seen, |s.history|)])
  }

  function Marked(s: System, i: nat, status: Status): System
    requires i < |s.issues|
  {
    s.(issues := s.issues[i := s.issues[i].(status := status)])
  }

  /** A load arrives: run the engine up to its next await. */
  function AfterLoading(agg: Aggregate, s: System, h: nat, job: Job, seen: nat, unsaved: Option<StoreError>): System
    requires h < |s.hosts| && seen <= |s.history| && (unsaved.Some? ==> RaisedBefore(unsaved.value))
  {
    var pending := s.hosts[h].pending;
    var loaded := Loaded(agg, Rows(s.history[..seen]));
    match job
    case Reading =>
      var (reply, held) := if loaded.Err? then (loaded.error, pending) else AfterRead(pending, loaded.value);
      Noted(Moved(s, h, Idle, held), h, job, reply, seen)
    case Finding(id, retry) =>
      var (reply, held) := if loaded.Err? then (loaded.error, pending) else AfterLookup(pending, id, loaded.value);
      if retry && reply.Found? && reply.original.Some? then
        Moved(s, h, Loading(Submitting(reply.original.value)), held)
      else
        Noted(Moved(s, h, Idle, held), h, job, if retry && reply.Found? then Unknown else reply, seen)
    case Submitting(request) =>
      if loaded.Err? then Told(Moved(s, h, Idle, pending), request, loaded.error, seen)
      else
        match AfterLoad(agg, pending, request, loaded.value)
        case Answer(reply, held) => Told(Moved(s, h, Idle, held), request, reply, seen)
        case Append(record, previous) =>
          if unsaved.Some? then
            match AfterAppend(agg, loaded.value, record, previous, AppendError(unsaved.value))
            case Finished(reply, held) => Told(Moved(s, h, Idle, held), request, reply, seen)
          else
            Moved(s, h, Appending(|s.issues|, loaded.value, previous), Some(record.request))
            .(issues := s.issues + [Issue(h, record, loaded.value.version, InFlight)])
  }

  function After(agg: Aggregate, s: System, step: Step): System
    requires Enabled(s, step)
  {
    match step
    case Start => s.(hosts := s.hosts + [Host({}, Idle, None, None, None)])
    case Resume(from) =>
      var host := s.hosts[from];
      s.(hosts := s.hosts + [Host(host.ancestors + {from}, Idle, host.report, None, None)])
    case Call(h, job) => Moved(s, h, Loading(job), s.hosts[h].pending)
    case Retry(h, id) =>
      var pending := s.hosts[h].pending;
      if pending.Some? && pending.value.id == id then Moved(s, h, Loading(Submitting(pending.value)), pending)
      else Moved(s, h, Loading(Finding(id, true)), pending)
    case LoadFails(h, fetch) =>
      var t := Moved(s, h, Idle, s.hosts[h].pending);
      (match s.hosts[h].phase
       case Loading(Submitting(request)) => Told(t, request, Loaded(agg, fetch).error, 0)
       case Reloading(request) => Told(t, request, Loaded(agg, fetch).error, 0)
       case Loading(job) => Noted(t, h, job, Loaded(agg, fetch).error, 0))
    case Load(h, seen, unsaved) =>
      (match s.hosts[h].phase
       case Loading(job) => AfterLoading(agg, s, h, job, seen, unsaved)
       case Reloading(request) =>
         var loaded := Loaded(agg, Rows(s.history[..seen]));
         var reply := if loaded.Err? then loaded.error else AfterReload(request, loaded.value);
         Told(Moved(s, h, Idle, s.hosts[h].pending), request, reply, seen))
    case Commit(i) => Marked(s, i, Committed).(history := s.history + [s.issues[i].record])
    case Refuse(i) => Marked(s, i, Refused)
    case Lose(i) => Marked(s, i, Lost)
    case Observe(h, outcome) =>
      var phase := s.hosts[h].phase;
      var issue := s.issues[phase.issue];
      (match AfterAppend(agg, phase.view, issue.record, phase.previous, outcome)
       case Finished(reply, held) => Told(Moved(s, h, Idle, held), issue.record.request, reply, issue.base)
       case Reload => Moved(s, h, Reloading(issue.record.request), None))
    case Drop(h) =>
      var host := s.hosts[h];
      s.(hosts := s.hosts[h := host.(phase := Dropped, handoff := host.pending, pending := None)])
    case Report(h) =>
      var host := s.hosts[h];
      s.(hosts := s.hosts[h := host.(phase := Reported, report := host.handoff, handoff := None)])
  }

  /** The state a sequence of steps leads to from an empty stream, if each was enabled. */
  ghost function Ran(agg: Aggregate, steps: seq<Step>): Option<System> {
    if steps == [] then Some(EMPTY)
    else
      var n := |steps| - 1;
      var s := Ran(agg, steps[..n]);
      if s.Some? && Enabled(s.value, steps[n]) then Some(After(agg, s.value, steps[n])) else None
  }

  // ----- the invariant ------------------------------------------------------------

  /** The append can still commit, now or after any further steps. */
  predicate Live(s: System, i: nat)
    requires i < |s.issues|
  {
    s.issues[i].status.InFlight? && s.issues[i].base == |s.history|
  }

  ghost predicate IssueInv(agg: Aggregate, s: System, issue: Issue) {
    && issue.host < |s.hosts|
    && issue.base <= |s.history|
    && Follows(agg, s.history[..issue.base], issue.record)
    && (issue.status.Committed? ==> issue.base < |s.history| && s.history[issue.base] == issue.record)
    && (issue.status.Refused? ==> issue.base < |s.history|)
  }

  ghost predicate HostInv(agg: Aggregate, s: System, h: nat)
    requires h < |s.hosts|
  {
    var host := s.hosts[h];
    && (forall a :: a in host.ancestors ==> a < |s.hosts| && a != h && s.hosts[a].phase.Reported?)
    && (host.phase.Dropped? || host.phase.Reported? || host.phase.Reloading? ==> host.pending == None)
    && (host.phase.Reloading? ==> host.phase.request.expected < |s.history|)
    && (host.phase.Appending? ==>
          && host.phase.issue < |s.issues|
          && var issue := s.issues[host.phase.issue];
          && issue.host == h
          && issue.base <= |s.history|
          && host.pending == Some(issue.record.request)
          && (host.phase.previous == None || host.phase.previous == host.pending)
          && host.phase.view == View(Fold(agg, s.history[..issue.base]), issue.base))
  }

  /** `kept` is the request of everything the host's lineage can still commit. */
  ghost predicate Covers(s: System, h: nat, kept: Option<Request>)
    requires h < |s.hosts|
  {
    forall i :: 0 <= i < |s.issues| && s.issues[i].host in s.hosts[h].ancestors + {h} && Live(s, i) ==>
      kept == Some(s.issues[i].record.request)
  }

  /** The barrier: whatever this host or an ancestor issued and can still commit
      is the very request the host keeps. */
  ghost predicate Covered(s: System, h: nat)
    requires h < |s.hosts|
  {
    Covers(s, h, s.hosts[h].Custody())
  }

  /** What a reply promises about the history from then on. */
  ghost predicate HeardInv(s: System, heard: Heard) {
    && heard.seen <= heard.head <= |s.history|
    && (heard.reply.Accepted? ==>
          && heard.request.expected < |s.history|
          && s.history[heard.request.expected].request == heard.request
          && s.history[heard.request.expected].receipt == heard.reply.receipt)
    && (heard.reply.Conflict? && heard.request.expected < heard.seen ==>
          s.history[heard.request.expected].request != heard.request)
  }

  ghost predicate Inv(agg: Aggregate, s: System) {
    && Good(agg, s.history)
    && (forall i :: 0 <= i < |s.issues| ==> IssueInv(agg, s, s.issues[i]))
    && (forall h :: 0 <= h < |s.hosts| ==> HostInv(agg, s, h) && Covered(s, h))
    && (forall j :: 0 <= j < |s.heard| ==> HeardInv(s, s.heard[j]))
  }

  // ----- every step keeps it --------------------------------------------------------

  /** A settled barrier was not needed: nothing behind it can still commit. */
  lemma SettleCovers(agg: Aggregate, s: System, h: nat, seen: nat)
    requires Inv(agg, s) && h < |s.hosts| && s.hosts[h].Running() && seen <= |s.history|
    ensures Covers(s, h, Unsettled(s.hosts[h].pending, seen))
  {
    forall i | 0 <= i < |s.issues| && s.issues[i].host in s.hosts[h].ancestors + {h} && Live(s, i)
      ensures Unsettled(s.hosts[h].pending, seen) == Some(s.issues[i].record.request)
    {
      assert Covered(s, h) && IssueInv(agg, s, s.issues[i]);
    }
  }

  /** Once the head has passed the base of the issue waited for, the barrier may fall. */
  lemma PassedCovers(agg: Aggregate, s: System, h: nat, kept: Option<Request>)
    requires Inv(agg, s) && h < |s.hosts| && s.hosts[h].phase.Appending?
    requires s.hosts[h].phase.issue < |s.issues| && s.issues[s.hosts[h].phase.issue].base < |s.history|
    ensures Covers(s, h, kept)
  {
    var mine := s.issues[s.hosts[h].phase.issue];
    assert HostInv(agg, s, h) && IssueInv(agg, s, mine);
    forall i | 0 <= i < |s.issues| && s.issues[i].host in s.hosts[h].ancestors + {h}
      ensures !Live(s, i)
    {
      assert Covered(s, h) && IssueInv(agg, s, s.issues[i]);
    }
  }

  lemma MovedKeeps(agg: Aggregate, s: System, h: nat, phase: Phase, pending: Option<Request>)
    requires Inv(agg, s) && h < |s.hosts| && s.hosts[h].Running()
    requires phase.Idle? || phase.Loading? || (phase.Reloading? && pending == None && phase.request.expected < |s.history|)
    requires Covers(s, h, pending)
    ensures Inv(agg, Moved(s, h, phase, pending))
  {
    var t := Moved(s, h, phase, pending);
    forall x | 0 <= x < |t.hosts|
      ensures HostInv(agg, t, x) && Covered(t, x)
    {
      assert HostInv(agg, s, x) && Covered(s, x);
      assert forall i :: 0 <= i < |s.issues| ==> Live(t, i) == Live(s, i);
    }
    assert forall i :: 0 <= i < |s.issues| ==> IssueInv(agg, s, s.issues[i]) ==> IssueInv(agg, t, t.issues[i]);
    assert forall j :: 0 <= j < |s.heard| ==> HeardInv(s, s.heard[j]) ==> HeardInv(t, t.heard[j]);
  }

  lemma ToldKeeps(agg: Aggregate, s: System, request: Request, reply: Reply, seen: nat)
    requires Inv(agg, s) && HeardInv(s, Heard(request, reply, seen, |s.history|))
    ensures Inv(agg, Told(s, request, reply, seen))
  {
    var t := Told(s, request, reply, seen);
    forall x | 0 <= x < |t.hosts|
      ensures HostInv(agg, t, x) && Covered(t, x)
    {
      assert HostInv(agg, s, x) && Covered(s, x);
      assert forall i :: 0 <= i < |s.issues| ==> Live(t, i) == Live(s, i);
    }
    assert forall i :: 0 <= i < |s.issues| ==> IssueInv(agg, s, s.issues[i]) ==> IssueInv(agg, t, t.issues[i]);
    assert forall j :: 0 <= j < |s.heard| ==> HeardInv(s, s.heard[j]) ==> HeardInv(t, t.heard[j]);
  }

  lemma NotedKeeps(agg: Aggregate, s: System, h: nat, job: Job, reply: Reply, seen: nat)
    requires Inv(agg, s)
    ensures Inv(agg, Noted(s, h, job, reply, seen))
  {
    hide Good, Fold, Follows;
    var t := Noted(s, h, job, reply, seen);
    forall x | 0 <= x < |t.hosts|
      ensures HostInv(agg, t, x) && Covered(t, x)
    {
      assert HostInv(agg, s, x) && Covered(s, x);
      assert forall i :: 0 <= i < |s.issues| ==> Live(t, i) == Live(s, i);
    }
    assert forall i :: 0 <= i < |s.issues| ==> IssueInv(agg, s, s.issues[i]) ==> IssueInv(agg, t, t.issues[i]);
    assert forall j :: 0 <= j < |s.heard| ==> HeardInv(s, s.heard[j]) ==> HeardInv(t, t.heard[j]);
  }

  /** A reply read off a good prefix of the history is a promise about all of it. */
  lemma ReceiptHeard(agg: Aggregate, s: System, request: Request, seen: nat)
    requires Good(agg, s.history) && seen <= |s.history|
    ensures var found := ReceiptOf(Fold(agg, s.history[..seen]), request);
            && (found.Ok? && found.value.Some? ==>
                  HeardInv(s, Heard(request, Accepted(found.value.value), seen, |s.history|)))
            && (found.Ok? && found.value.None? ==>
                  HeardInv(s, Heard(request, Conflict, seen, |s.history|)))
  {
    var h := s.history[..seen];
    GoodPrefix(agg, s.history, seen);
    GoodFold(agg, h);
    var found := ReceiptOf(Fold(agg, h), request);
    if found.Ok? && found.value.Some? {
      var k := IdAt(h, request.id);
      GoodAt(agg, s.history, k);
    }
    if found.Ok? && found.value.None? && request.expected < seen {
      assert h[request.expected] == s.history[request.expected];
    }
  }

  /** Issuing keeps the barrier: the host now holds exactly what it issued. */
  lemma IssuedKeeps(agg: Aggregate, s: System, h: nat, record: Record, seen: nat, previous: Option<Request>)
    requires Inv(agg, s) && h < |s.hosts| && s.hosts[h].Running() && seen <= |s.history|
    requires Follows(agg, s.history[..seen], record)
    requires previous == None || previous == Some(record.request)
    requires Covers(s, h, previous)
    ensures Inv(agg, Moved(s, h, Appending(|s.issues|, View(Fold(agg, s.history[..seen]), seen), previous), Some(record.request))
                     .(issues := s.issues + [Issue(h, record, seen, InFlight)]))
  {
    hide Good, Fold, Follows;
    var t := Moved(s, h, Appending(|s.issues|, View(Fold(agg, s.history[..seen]), seen), previous), Some(record.request))
             .(issues := s.issues + [Issue(h, record, seen, InFlight)]);
    forall x | 0 <= x < |t.hosts|
      ensures HostInv(agg, t, x) && Covered(t, x)
    {
      assert HostInv(agg, s, x) && Covered(s, x) && HostInv(agg, s, h);
      forall i | 0 <= i < |t.issues| && t.issues[i].host in t.hosts[x].ancestors + {x} && Live(t, i)
        ensures t.hosts[x].Custody() == Some(t.issues[i].record.request)
      {
        if i < |s.issues| {
          assert Live(s, i);
        }
      }
    }
    assert forall i :: 0 <= i < |s.issues| ==> IssueInv(agg, s, s.issues[i]) ==> IssueInv(agg, t, s.issues[i]);
    assert forall j :: 0 <= j < |s.heard| ==> HeardInv(s, s.heard[j]) ==> HeardInv(t, t.heard[j]);
  }

  /** Answering a submission from a load of the first `seen` records. */
  lemma AnsweredKeeps(agg: Aggregate, s: System, h: nat, request: Request, seen: nat, reply: Reply, held: Option<Request>)
    requires Inv(agg, s) && h < |s.hosts| && s.hosts[h].Running() && seen <= |s.history|
    requires Covers(s, h, held)
    requires var found := ReceiptOf(Fold(agg, s.history[..seen]), request);
             && (reply.Accepted? ==> found == Ok(Some(reply.receipt)))
             && (reply.Conflict? ==> found == Ok(None))
    ensures Inv(agg, Told(Moved(s, h, Idle, held), request, reply, seen))
  {
    ReceiptHeard(agg, s, request, seen);
    MovedKeeps(agg, s, h, Idle, held);
    var t := Moved(s, h, Idle, held);
    assert HeardInv(s, Heard(request, reply, seen, |s.history|));
    assert HeardInv(t, Heard(request, reply, seen, |t.history|));
    ToldKeeps(agg, t, request, reply, seen);
  }

  lemma PendingCovers(agg: Aggregate, s: System, h: nat)
    requires Inv(agg, s) && h < |s.hosts| && s.hosts[h].Running()
    ensures Good(agg, s.history) && Covers(s, h, s.hosts[h].pending)
  {
    assert Covered(s, h);
  }

  lemma SubmittingKeeps(agg: Aggregate, s: System, h: nat, request: Request, seen: nat, unsaved: Option<StoreError>)
    requires Inv(agg, s) && h < |s.hosts| && s.hosts[h].phase == Loading(Submitting(request)) && seen <= |s.history|
    requires unsaved.Some? ==> RaisedBefore(unsaved.value)
    ensures Inv(agg, AfterLoading(agg, s, h, Submitting(request), seen, unsaved))
  {
    hide Inv, Good, Covers, Fold, AfterLoad, Loaded, Decided;
    var view := View(Fold(agg, s.history[..seen]), seen);
    var pending := s.hosts[h].pending;
    PendingCovers(agg, s, h);
    GoodLoads(agg, s.history, seen);
    SettleCovers(agg, s, h, seen);
    AfterLoadCases(agg, pending, request, view);
    match AfterLoad(agg, pending, request, view) {
      case Answer(reply, held) => AnsweredKeeps(agg, s, h, request, seen, reply, held);
      case Append(record, previous) =>
        if unsaved.None? {
          IssuedKeeps(agg, s, h, record, seen, previous);
        } else {
          var failed := Failure(previous, Store(unsaved.value));
          AnsweredKeeps(agg, s, h, request, seen, failed.reply, failed.pending);
        }
    }
  }

  lemma LoadKeeps(agg: Aggregate, s: System, h: nat, seen: nat, unsaved: Option<StoreError>)
    requires Inv(agg, s) && Enabled(s, Load(h, seen, unsaved))
    ensures Inv(agg, After(agg, s, Load(h, seen, unsaved)))
  {
    var phase := s.hosts[h].phase;
    GoodLoads(agg, s.history, seen);
    SettleCovers(agg, s, h, seen);
    assert Covered(s, h) && Covers(s, h, s.hosts[h].pending) && HostInv(agg, s, h);
    match phase {
      case Reloading(request) =>
        ReceiptHeard(agg, s, request, seen);
        var view := View(Fold(agg, s.history[..seen]), seen);
        MovedKeeps(agg, s, h, Idle, s.hosts[h].pending);
        var t := Moved(s, h, Idle, s.hosts[h].pending);
        assert HeardInv(s, Heard(request, AfterReload(request, view), seen, |s.history|));
        assert HeardInv(t, Heard(request, AfterReload(request, view), seen, |t.history|));
        ToldKeeps(agg, t, request, AfterReload(request, view), seen);
      case Loading(Submitting(request)) => SubmittingKeeps(agg, s, h, request, seen, unsaved);
      case Loading(Reading) =>
        var (reply, held) := AfterRead(s.hosts[h].pending, View(Fold(agg, s.history[..seen]), seen));
        MovedKeeps(agg, s, h, Idle, held);
        NotedKeeps(agg, Moved(s, h, Idle, held), h, Reading, reply, seen);
      case Loading(Finding(id, retry)) =>
        var view := View(Fold(agg, s.history[..seen]), seen);
        var (reply, held) := AfterLookup(s.hosts[h].pending, id, view);
        if retry && reply.Found? && reply.original.Some? {
          MovedKeeps(agg, s, h, Loading(Submitting(reply.original.value)), held);
        } else {
          MovedKeeps(agg, s, h, Idle, held);
          NotedKeeps(agg, Moved(s, h, Idle, held), h, phase.job, if retry && reply.Found? then Unknown else reply, seen);
        }
    }
  }

  /** The reply to an observed outcome holds of the history. */
  lemma ObservedHolds(agg: Aggregate, s: System, h: nat, outcome: Outcome)
    requires Inv(agg, s) && Enabled(s, Observe(h, outcome))
    ensures var phase := s.hosts[h].phase;
            var issue := s.issues[phase.issue];
            var w := AfterAppend(agg, phase.view, issue.record, phase.previous, outcome);
            w.Finished? ==>
              && HeardInv(s, Heard(issue.record.request, w.reply, issue.base, |s.history|))
              && Covers(s, h, w.pending)
  {
    var phase := s.hosts[h].phase;
    var issue := s.issues[phase.issue];
    assert HostInv(agg, s, h) && IssueInv(agg, s, issue) && Covered(s, h);
    assert Covers(s, h, s.hosts[h].pending);
    if outcome.Saved? {
      var w := AfterAppend(agg, phase.view, issue.record, phase.previous, outcome);
      PassedCovers(agg, s, h, w.pending);
      GoodAt(agg, s.history, issue.base);
      GoodPrefix(agg, s.history, issue.base);
      GoodFold(agg, s.history[..issue.base]);
    }
  }

  lemma ObserveKeeps(agg: Aggregate, s: System, h: nat, outcome: Outcome)
    requires Inv(agg, s) && Enabled(s, Observe(h, outcome))
    ensures Inv(agg, After(agg, s, Observe(h, outcome)))
  {
    hide Good, Fold, Covers, Follows;
    var phase := s.hosts[h].phase;
    var issue := s.issues[phase.issue];
    assert HostInv(agg, s, h) && IssueInv(agg, s, issue);
    ObservedHolds(agg, s, h, outcome);
    match AfterAppend(agg, phase.view, issue.record, phase.previous, outcome) {
      case Reload =>
        PassedCovers(agg, s, h, None);
        ExpectsBase(agg, s.history[..issue.base], issue.record);
        MovedKeeps(agg, s, h, Reloading(issue.record.request), None);
      case Finished(reply, held) =>
        MovedKeeps(agg, s, h, Idle, held);
        var t := Moved(s, h, Idle, held);
        assert HeardInv(t, Heard(issue.record.request, reply, issue.base, |t.history|));
        ToldKeeps(agg, t, issue.record.request, reply, issue.base);
    }
  }

  lemma ExpectsBase(agg: Aggregate, h: seq<Record>, record: Record)
    requires Follows(agg, h, record)
    ensures record.request.expected == |h|
  {
  }

  lemma CommitKeeps(agg: Aggregate, s: System, i: nat)
    requires Inv(agg, s) && Enabled(s, Commit(i))
    ensures Inv(agg, After(agg, s, Commit(i)))
  {
    hide Fold, Good, Decided;
    var t := After(agg, s, Commit(i));
    var record := s.issues[i].record;
    assert IssueInv(agg, s, s.issues[i]);
    assert s.history[..|s.history|] == s.history;
    GoodExtends(agg, s.history, record);
    assert forall b :: 0 <= b <= |s.history| ==> t.history[..b] == s.history[..b];
    forall k | 0 <= k < |t.issues|
      ensures IssueInv(agg, t, t.issues[k]) && !Live(t, k)
    {
      assert IssueInv(agg, s, s.issues[k]);
    }
    forall x | 0 <= x < |t.hosts|
      ensures HostInv(agg, t, x) && Covered(t, x)
    {
      assert HostInv(agg, s, x);
    }
    forall j | 0 <= j < |t.heard|
      ensures HeardInv(t, t.heard[j])
    {
      assert HeardInv(s, s.heard[j]);
    }
  }

  lemma MarkKeeps(agg: Aggregate, s: System, i: nat, status: Status)
    requires Inv(agg, s) && i < |s.issues| && s.issues[i].status.InFlight?
    requires status.Lost? || (status.Refused? && s.issues[i].base != |s.history|)
    ensures Inv(agg, Marked(s, i, status))
  {
    var t := Marked(s, i, status);
    forall k | 0 <= k < |t.issues|
      ensures IssueInv(agg, t, t.issues[k]) && (Live(t, k) ==> Live(s, k))
    {
      assert IssueInv(agg, s, s.issues[k]);
    }
    forall x | 0 <= x < |t.hosts|
      ensures HostInv(agg, t, x) && Covered(t, x)
    {
      assert HostInv(agg, s, x) && Covered(s, x);
    }
    assert forall j :: 0 <= j < |s.heard| ==> HeardInv(s, s.heard[j]) ==> HeardInv(t, t.heard[j]);
  }

  /** The parts of the invariant a change of hosts alone cannot touch. */
  lemma RestKept(agg: Aggregate, s: System, t: System)
    requires Inv(agg, s) && t.history == s.history && t.issues == s.issues && t.heard == s.heard
    requires |s.hosts| <= |t.hosts|
    requires forall h :: 0 <= h < |t.hosts| ==> HostInv(agg, t, h) && Covered(t, h)
    ensures Inv(agg, t)
  {
  }

  /** A started host holds nothing; a resumed one takes over its report's barrier. */
  lemma JoinKeeps(agg: Aggregate, s: System, step: Step)
    requires Inv(agg, s) && Enabled(s, step) && (step.Start? || step.Resume?)
    ensures Inv(agg, After(agg, s, step))
  {
    hide Good, Fold, Follows, HeardInv;
    var t := After(agg, s, step);
    assert forall i :: 0 <= i < |s.issues| ==> Live(t, i) == Live(s, i) && IssueInv(agg, s, s.issues[i]);
    forall x | 0 <= x < |t.hosts|
      ensures HostInv(agg, t, x) && Covered(t, x)
    {
      if x < |s.hosts| {
        assert HostInv(agg, s, x) && Covered(s, x);
      } else if step.Resume? {
        assert HostInv(agg, s, step.from) && Covered(s, step.from);
      }
    }
    RestKept(agg, s, t);
  }

  /** Dropping and reporting move the barrier without losing it. */
  lemma LeaveKeeps(agg: Aggregate, s: System, step: Step)
    requires Inv(agg, s) && Enabled(s, step) && (step.Drop? || step.Report?)
    ensures Inv(agg, After(agg, s, step))
  {
    hide Good, Fold, Follows, HeardInv;
    var t := After(agg, s, step);
    assert forall i :: 0 <= i < |s.issues| ==> Live(t, i) == Live(s, i);
    forall x | 0 <= x < |t.hosts|
      ensures HostInv(agg, t, x) && Covered(t, x)
    {
      assert HostInv(agg, s, x) && Covered(s, x);
    }
    RestKept(agg, s, t);
  }

  lemma StepKeeps(agg: Aggregate, s: System, step: Step)
    requires Inv(agg, s) && Enabled(s, step)
    ensures Inv(agg, After(agg, s, step))
  {
    match step {
      case Start | Resume(_) => JoinKeeps(agg, s, step);
      case Drop(_) | Report(_) => LeaveKeeps(agg, s, step);
      case Load(h, seen, unsaved) => LoadKeeps(agg, s, h, seen, unsaved);
      case Observe(h, outcome) => ObserveKeeps(agg, s, h, outcome);
      case Commit(i) => CommitKeeps(agg, s, i);
      case Refuse(i) => MarkKeeps(agg, s, i, Refused);
      case Lose(i) => MarkKeeps(agg, s, i, Lost);
      case Call(h, job) =>
        assert Covered(s, h) && Covers(s, h, s.hosts[h].pending);
        MovedKeeps(agg, s, h, Loading(job), s.hosts[h].pending);
      case Retry(h, id) =>
        assert Covered(s, h) && Covers(s, h, s.hosts[h].pending);
        var pending := s.hosts[h].pending;
        var job := if pending.Some? && pending.value.id == id then Submitting(pending.value) else Finding(id, true);
        MovedKeeps(agg, s, h, Loading(job), pending);
      case LoadFails(h, fetch) =>
        assert Covered(s, h) && Covers(s, h, s.hosts[h].pending);
        MovedKeeps(agg, s, h, Idle, s.hosts[h].pending);
        var t := Moved(s, h, Idle, s.hosts[h].pending);
        match s.hosts[h].phase {
          case Loading(Submitting(request)) => ToldKeeps(agg, t, request, Loaded(agg, fetch).error, 0);
          case Reloading(request) => ToldKeeps(agg, t, request, Loaded(agg, fetch).error, 0);
          case Loading(job) => NotedKeeps(agg, t, h, job, Loaded(agg, fetch).error, 0);
        }
    }
  }

  lemma {:induction false} RunKeeps(agg: Aggregate, steps: seq<Step>)
    requires Ran(agg, steps).Some?
    ensures Inv(agg, Ran(agg, steps).value)
  {
    if steps != [] {
      var n := |steps| - 1;
      RunKeeps(agg, steps[..n]);
      StepKeeps(agg, Ran(agg, steps[..n]).value, steps[n]);
    }
  }
}
