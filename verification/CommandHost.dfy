/** Admission, execution and shutdown of one command host.

    Callers reserve a queue slot first and send under the admission lock; `stop`,
    the worker's own exit and an abort race with them. Each step is one atomic
    action: a reservation, one critical section, one receive, one reply. */
module CommandHost {
  import opened Wrappers

  datatype Lifecycle = Running | Stopping

  datatype Permit = Granted | Full | Shut

  datatype Answer = Served | Closed | QueueFull

  /** `Taken` is the gap between receiving a call and looking at the lifecycle
      again; it has no await. `Leaving` is the inbox being dropped. */
  datatype Worker =
    | Top
    | Selecting
    | Taken(call: nat)
    | Executing(call: nat)
    | Leaving
    | Closing
    | Draining
    | Gone

  /** `forsaken`: every handle that could send is gone. `admitted`, `started` and
      `rejected` record the order of those events. */
  datatype Host = Host(
    capacity: nat,
    lifecycle: Lifecycle,
    forsaken: bool,
    shut: bool,
    queue: seq<nat>,
    permits: map<nat, Permit>,
    worker: Worker,
    answers: map<nat, Answer>,
    admitted: seq<nat>,
    started: seq<nat>,
    rejected: seq<nat>,
    lost: Option<nat>)

  datatype Step =
    | Reserve(call: nat)
    | Release(call: nat)
    | Send(call: nat)
    | Forsake
    | Stop
    | Look
    | Receive
    | SelectStop
    | SendersGone
    | Recheck
    | Finish
    | Abort
    | Leave
    | Close
    | Drain

  function Fresh(capacity: nat): Host {
    Host(capacity, Running, false, false, [], map[], Top, map[], [], [], [], None)
  }

  /** Slots held by reservations that have not been sent yet. */
  function Unsent(permits: map<nat, Permit>): set<nat> {
    set c | c in permits && permits[c].Granted?
  }

  predicate Enabled(host: Host, step: Step) {
    match step
    case Reserve(c) => !host.forsaken && c !in host.permits && c !in host.answers && c !in host.admitted
    case Release(c) => c in host.permits
    case Send(c) => c in host.permits
    case Forsake => host.permits == map[]
    case Stop => true
    case Look => host.worker.Top?
    case Receive => host.worker.Selecting? && host.lifecycle.Running? && host.queue != []
    case SelectStop => host.worker.Selecting? && host.lifecycle.Stopping?
    case SendersGone => host.worker.Selecting? && host.queue == [] && host.forsaken
    case Recheck => host.worker.Taken?
    case Finish => host.worker.Executing?
    case Abort => host.worker.Selecting? || host.worker.Executing?
    case Leave => host.worker.Leaving?
    case Close => host.worker.Closing?
    case Drain => host.worker.Draining?
  }

  /** `send` after its reservation, under the admission lock. */
  function Sent(host: Host, c: nat): Host
    requires c in host.permits
  {
    var h := host.(permits := host.permits - {c});
    if host.lifecycle.Stopping? then h.(answers := h.answers[c := Closed])
    else
      match host.permits[c]
      case Granted => h.(queue := h.queue + [c], admitted := h.admitted + [c])
      case Full => h.(answers := h.answers[c := QueueFull])
      case Shut => h.(answers := h.answers[c := Closed])
  }

  function After(host: Host, step: Step): Host
    requires Enabled(host, step)
  {
    match step
    case Reserve(c) =>
      var permit := if host.shut then Shut
                    else if |host.queue| + |Unsent(host.permits)| < host.capacity then Permit.Granted
                    else Full;
      host.(permits := host.permits[c := permit])
    case Release(c) => host.(permits := host.permits - {c})
    case Send(c) => Sent(host, c)
    case Forsake => host.(forsaken := true)
    case Stop => host.(lifecycle := Stopping)
    case Look => host.(worker := if host.lifecycle.Running? then Selecting else Leaving)
    case Receive => host.(worker := Taken(host.queue[0]), queue := host.queue[1..])
    case SelectStop => host.(worker := Leaving)
    case SendersGone => host.(worker := Leaving)
    case Recheck =>
      var c := host.worker.call;
      if host.lifecycle.Running? then host.(worker := Executing(c), started := host.started + [c])
      else host.(worker := Leaving, answers := host.answers[c := Closed], rejected := host.rejected + [c])
    case Finish => host.(worker := Top, answers := host.answers[host.worker.call := Served])
    case Abort =>
      host.(worker := Leaving, lost := if host.worker.Executing? then Some(host.worker.call) else host.lost)
    case Leave => host.(lifecycle := Stopping, worker := Closing)
    case Close => host.(shut := true, worker := Draining)
    case Drain =>
      if host.queue == [] then host.(worker := Gone)
      else host.(queue := host.queue[1..],
                 answers := host.answers[host.queue[0] := Closed],
                 rejected := host.rejected + [host.queue[0]])
  }

  ghost function Ran(capacity: nat, steps: seq<Step>): Option<Host> {
    if steps == [] then Some(Fresh(capacity))
    else
      var n := |steps| - 1;
      var host := Ran(capacity, steps[..n]);
      if host.Some? && Enabled(host.value, steps[n]) then Some(After(host.value, steps[n])) else None
  }

  /** Admitted calls the worker has neither started nor refused, oldest first. */
  function Waiting(host: Host): seq<nat> {
    if host.worker.Taken? then [host.worker.call] + host.queue else host.queue
  }

  ghost predicate Distinct(calls: seq<nat>) {
    forall i, j :: 0 <= i < j < |calls| ==> calls[i] != calls[j]
  }

  ghost predicate Inv(host: Host) {
    && host.admitted == host.started + host.rejected + Waiting(host)
    && Distinct(host.admitted)
    && (forall c :: c in host.admitted ==> c !in host.permits)
    && (forall c :: c in host.answers ==> c !in host.permits)
    && (host.rejected != [] ==> host.lifecycle.Stopping?)
    && (host.rejected != [] ==> !host.worker.Top? && !host.worker.Selecting? && !host.worker.Taken? && !host.worker.Executing?)
    && (host.worker.Executing? ==>
          host.started != [] && host.worker.call == host.started[|host.started| - 1] && host.worker.call !in host.answers)
    && (host.worker.Closing? || host.worker.Draining? || host.worker.Gone? ==> host.lifecycle.Stopping?)
    && (host.worker.Gone? ==> host.queue == [])
    && (host.lost.Some? ==>
          && !host.worker.Top? && !host.worker.Selecting? && !host.worker.Taken? && !host.worker.Executing?
          && host.started != [] && host.lost.value == host.started[|host.started| - 1]
          && host.lost.value !in host.answers)
    && (forall c :: c in host.started && host.worker != Executing(c) && host.lost != Some(c) ==>
          c in host.answers && host.answers[c].Served?)
    && (forall c :: c in host.rejected ==> c in host.answers && host.answers[c].Closed?)
    && (forall c :: c in Waiting(host) ==> c !in host.answers)
  }

  lemma Apart(before: seq<nat>, call: nat, after: seq<nat>)
    requires Distinct(before + [call] + after)
    ensures call !in before && call !in after
  {
    var all := before + [call] + after;
    assert all[|before|] == call;
    assert forall i :: 0 <= i < |before| ==> all[i] == before[i];
    assert forall i :: 0 <= i < |after| ==> all[|before| + 1 + i] == after[i];
  }

  lemma AdmitKeeps(host: Host, c: nat)
    requires Inv(host) && host.lifecycle.Running? && c in host.permits && c !in host.admitted && c !in host.answers
    ensures Inv(host.(permits := host.permits - {c}, queue := host.queue + [c], admitted := host.admitted + [c]))
  {
  }

  lemma RefuseKeeps(host: Host, c: nat, answer: Answer)
    requires Inv(host) && c !in host.admitted
    ensures Inv(host.(permits := host.permits - {c}, answers := host.answers[c := answer]))
  {
  }

  lemma SendKeeps(host: Host, c: nat)
    requires Inv(host) && Enabled(host, Send(c))
    ensures Inv(After(host, Send(c)))
  {
    if host.lifecycle.Running? && host.permits[c].Granted? {
      AdmitKeeps(host, c);
    } else {
      RefuseKeeps(host, c, After(host, Send(c)).answers[c]);
    }
  }

  lemma ReceiveKeeps(host: Host)
    requires Inv(host) && Enabled(host, Receive)
    ensures Inv(After(host, Receive))
  {
    assert Waiting(After(host, Receive)) == Waiting(host);
  }

  /** The call the worker has just taken stands apart from all others. */
  lemma TakenApart(host: Host)
    requires Inv(host) && host.worker.Taken?
    ensures var call := host.worker.call;
            && call !in host.started && call !in host.rejected && call !in host.queue && call !in host.answers
            && host.rejected == []
            && host.admitted == host.started + [call] + host.queue
  {
    var call := host.worker.call;
    assert host.admitted == (host.started + host.rejected) + [call] + host.queue;
    Apart(host.started + host.rejected, call, host.queue);
    assert Waiting(host)[0] == call;
  }

  lemma StartKeeps(host: Host)
    requires Inv(host) && host.worker.Taken?
    ensures Inv(host.(worker := Executing(host.worker.call), started := host.started + [host.worker.call]))
  {
    hide Distinct;
    TakenApart(host);
    var next := host.(worker := Executing(host.worker.call), started := host.started + [host.worker.call]);
    assert next.admitted == next.started + next.rejected + Waiting(next);
    assert forall c :: c in Waiting(next) ==> c in Waiting(host);
  }

  lemma TurnAwayKeeps(host: Host)
    requires Inv(host) && host.worker.Taken? && host.lifecycle.Stopping?
    ensures var call := host.worker.call;
            Inv(host.(worker := Leaving, answers := host.answers[call := Closed], rejected := host.rejected + [call]))
  {
    hide Distinct;
    TakenApart(host);
    var call := host.worker.call;
    var next := host.(worker := Leaving, answers := host.answers[call := Closed], rejected := host.rejected + [call]);
    assert next.admitted == next.started + next.rejected + Waiting(next);
    assert forall c :: c in Waiting(next) ==> c in Waiting(host) && c != call;
  }

  lemma RecheckKeeps(host: Host)
    requires Inv(host) && Enabled(host, Recheck)
    ensures Inv(After(host, Recheck))
  {
    hide Inv;
    if host.lifecycle.Running? {
      StartKeeps(host);
    } else {
      TurnAwayKeeps(host);
    }
  }

  lemma FinishKeeps(host: Host)
    requires Inv(host) && Enabled(host, Finish)
    ensures Inv(After(host, Finish))
  {
    var n := |host.started| - 1;
    assert host.admitted == host.started[..n] + [host.worker.call] + (host.rejected + host.queue);
    Apart(host.started[..n], host.worker.call, host.rejected + host.queue);
  }

  lemma DrainKeeps(host: Host)
    requires Inv(host) && Enabled(host, Drain)
    ensures Inv(After(host, Drain))
  {
    if host.queue != [] {
      assert host.admitted == (host.started + host.rejected) + [host.queue[0]] + host.queue[1..];
      Apart(host.started + host.rejected, host.queue[0], host.queue[1..]);
    }
  }

  /** Steps that only change the lifecycle or a reservation. */
  lemma CallerKeeps(host: Host, step: Step)
    requires Inv(host) && Enabled(host, step) && (step.Reserve? || step.Release? || step.Forsake? || step.Stop?)
    ensures Inv(After(host, step))
  {
    hide Distinct, Unsent;
    assert Waiting(After(host, step)) == Waiting(host);
  }

  /** Steps that only move the worker. */
  lemma MoveKeeps(host: Host, step: Step)
    requires Inv(host) && Enabled(host, step)
    requires step.Look? || step.SelectStop? || step.SendersGone? || step.Abort? || step.Leave? || step.Close?
    ensures Inv(After(host, step))
  {
    hide Distinct;
    assert Waiting(After(host, step)) == Waiting(host);
  }

  lemma StepKeeps(host: Host, step: Step)
    requires Inv(host) && Enabled(host, step)
    ensures Inv(After(host, step))
  {
    match step {
      case Send(c) => SendKeeps(host, c);
      case Receive => ReceiveKeeps(host);
      case Recheck => RecheckKeeps(host);
      case Finish => FinishKeeps(host);
      case Drain => DrainKeeps(host);
      case Reserve(_) | Release(_) | Forsake | Stop => CallerKeeps(host, step);
      case _ => MoveKeeps(host, step);
    }
  }

  lemma {:induction false} RunKeeps(capacity: nat, steps: seq<Step>)
    requires Ran(capacity, steps).Some?
    ensures Inv(Ran(capacity, steps).value)
  {
    if steps != [] {
      var n := |steps| - 1;
      RunKeeps(capacity, steps[..n]);
      StepKeeps(Ran(capacity, steps[..n]).value, steps[n]);
    }
  }

  lemma UnsentChanges(permits: map<nat, Permit>, c: nat, permit: Permit)
    ensures Unsent(permits - {c}) == Unsent(permits) - {c}
    ensures c !in permits ==>
              Unsent(permits[c := permit]) == if permit.Granted? then Unsent(permits) + {c} else Unsent(permits)
  {
  }

  lemma BoundStep(host: Host, step: Step)
    requires Enabled(host, step) && |host.queue| + |Unsent(host.permits)| <= host.capacity
    ensures var next := After(host, step);
            next.capacity == host.capacity && |next.queue| + |Unsent(next.permits)| <= next.capacity
  {
    match step {
      case Reserve(c) => UnsentChanges(host.permits, c, After(host, step).permits[c]);
      case Release(c) => UnsentChanges(host.permits, c, Full);
      case Send(c) => UnsentChanges(host.permits, c, Full);
      case _ =>
    }
  }

  /** Queued calls and unsent reservations together never exceed the capacity. */
  lemma {:induction false} QueueIsBounded(capacity: nat, steps: seq<Step>)
    requires Ran(capacity, steps).Some?
    ensures var host := Ran(capacity, steps).value;
            host.capacity == capacity && |host.queue| + |Unsent(host.permits)| <= capacity
  {
    if steps == [] {
      assert Unsent(Fresh(capacity).permits) == {};
    } else {
      var n := |steps| - 1;
      QueueIsBounded(capacity, steps[..n]);
      BoundStep(Ran(capacity, steps[..n]).value, steps[n]);
    }
  }

  lemma StartedServed(host: Host, i: nat)
    requires Inv(host) && i < |host.started| - 1
    ensures host.started[i] in host.answers && host.answers[host.started[i]].Served?
  {
    var last := |host.started| - 1;
    assert host.admitted[i] == host.started[i] && host.admitted[last] == host.started[last];
  }

  /** The shutdown law, at every point of every run: the calls the worker started
      are a prefix of the admission order and the calls it refused come right after
      them; no call is admitted twice; every started call but the last has been
      served and every refused one answered `Closed`. */
  lemma ShutdownLaw(capacity: nat, steps: seq<Step>)
    requires Ran(capacity, steps).Some?
    ensures var host := Ran(capacity, steps).value;
            && host.started + host.rejected <= host.admitted
            && Distinct(host.admitted)
            && (forall i :: 0 <= i < |host.started| - 1 ==>
                  host.started[i] in host.answers && host.answers[host.started[i]].Served?)
            && (forall c :: c in host.rejected ==> c in host.answers && host.answers[c].Closed?)
  {
    RunKeeps(capacity, steps);
    var host := Ran(capacity, steps).value;
    forall i | 0 <= i < |host.started| - 1 {
      StartedServed(host, i);
    }
  }

  /** When the worker is gone every admitted call is settled: started or refused,
      in admission order, and answered - unless it is the one the abort cut off. */
  lemma GoneSettlesAll(capacity: nat, steps: seq<Step>, call: nat)
    requires Ran(capacity, steps).Some?
    requires Ran(capacity, steps).value.worker.Gone? && call in Ran(capacity, steps).value.admitted
    ensures var host := Ran(capacity, steps).value;
            && host.admitted == host.started + host.rejected
            && (call in host.started ==> host.lost == Some(call) || (call in host.answers && host.answers[call].Served?))
            && (call in host.rejected ==> call in host.answers && host.answers[call].Closed?)
            && (call in host.started || call in host.rejected)
  {
    RunKeeps(capacity, steps);
  }

  lemma StoppingStep(host: Host, step: Step)
    requires Inv(host) && Enabled(host, step) && host.lifecycle.Stopping?
    ensures var next := After(host, step);
            next.lifecycle.Stopping? && next.admitted == host.admitted && next.started == host.started
  {
  }

  /** Once stopping, a host stays stopping, admits nothing and starts nothing new. */
  lemma {:induction false} StoppingIsFinal(capacity: nat, steps: seq<Step>, more: seq<Step>)
    requires Ran(capacity, steps + more).Some? && Ran(capacity, steps).Some?
    requires Ran(capacity, steps).value.lifecycle.Stopping?
    ensures var host, later := Ran(capacity, steps).value, Ran(capacity, steps + more).value;
            later.lifecycle.Stopping? && later.admitted == host.admitted && later.started == host.started
    decreases |more|
  {
    hide Inv, After, Enabled;
    if more == [] {
      assert steps + more == steps;
    } else {
      var n := |more| - 1;
      assert (steps + more)[..|steps| + n] == steps + more[..n];
      StoppingIsFinal(capacity, steps, more[..n]);
      RunKeeps(capacity, steps + more[..n]);
      StoppingStep(Ran(capacity, steps + more[..n]).value, more[n]);
    }
  }

  /** Every one of the calls answered `Closed`. */
  function ClosedAll(answers: map<nat, Answer>, calls: seq<nat>): map<nat, Answer> {
    if calls == [] then answers
    else ClosedAll(answers, calls[..|calls| - 1])[calls[|calls| - 1] := Closed]
  }

  lemma NoneClosed(answers: map<nat, Answer>)
    ensures ClosedAll(answers, []) == answers
  {
  }

  lemma ClosedOneMore(answers: map<nat, Answer>, calls: seq<nat>, c: nat)
    ensures ClosedAll(answers, calls + [c]) == ClosedAll(answers, calls)[c := Closed]
  {
    assert (calls + [c])[..|calls|] == calls;
  }

  lemma {:induction false} ClosedAllMeans(answers: map<nat, Answer>, calls: seq<nat>, c: nat)
    ensures c in ClosedAll(answers, calls) <==> c in answers || c in calls
    ensures c in calls ==> ClosedAll(answers, calls)[c] == Closed
    ensures c in answers && c !in calls ==> ClosedAll(answers, calls)[c] == answers[c]
  {
    if calls != [] {
      var n := |calls| - 1;
      ClosedAllMeans(answers, calls[..n], c);
      assert calls == calls[..n] + [calls[n]];
    }
  }

  /** The worker's receiving half. */
  class Inbox {
    var lifecycle: Lifecycle
    var shut: bool
    var queue: seq<nat>
    var answers: map<nat, Answer>

    constructor (queue: seq<nat>)
      ensures lifecycle == Running && !shut && this.queue == queue && answers == map[]
    {
      lifecycle, shut, answers := Running, false, map[];
      this.queue := queue;
    }

    /** Dropping the inbox stops admission first, then answers every queued call
        `Closed` and changes no other answer. */
    method Drop()
      modifies this
      ensures lifecycle == Stopping && shut && queue == []
      ensures answers == ClosedAll(old(answers), old(queue))
    {
      hide ClosedAll;
      NoneClosed(answers);
      if lifecycle == Running {
        lifecycle := Stopping;
      }
      shut := true;
      ghost var done := [];
      while queue != []
        invariant lifecycle == Stopping && shut
        invariant done + queue == old(queue)
        invariant answers == ClosedAll(old(answers), done)
        decreases |queue|
      {
        ClosedOneMore(old(answers), done, queue[0]);
        assert done + queue == (done + [queue[0]]) + queue[1..];
        answers := answers[queue[0] := Closed];
        done := done + [queue[0]];
        queue := queue[1..];
      }
      assert done == old(queue);
    }
  }
}
