/** What becomes of every call made to a command host. */
module CommandAdmission {
  import opened Wrappers
  import opened CommandHost

  lemma RunGrows(capacity: nat, steps: seq<Step>, step: Step)
    requires Ran(capacity, steps).Some?
    ensures var host := Ran(capacity, steps).value;
            Ran(capacity, steps + [step]) == if Enabled(host, step) then Some(After(host, step)) else None
  {
    assert (steps + [step])[..|steps|] == steps;
  }

  lemma {:induction false} RunBefore(capacity: nat, steps: seq<Step>, n: nat)
    requires Ran(capacity, steps).Some? && n <= |steps|
    ensures Ran(capacity, steps[..n]).Some?
    ensures n < |steps| ==> Enabled(Ran(capacity, steps[..n]).value, steps[n])
    decreases |steps|
  {
    if n == |steps| {
      assert steps[..n] == steps;
    } else {
      var init := steps[..|steps| - 1];
      assert init[..n] == steps[..n];
      if n < |init| {
        RunBefore(capacity, init, n);
      }
    }
  }

  // ----- what a send is decided by --------------------------------------------------------------

  /** The reservation of a call finds a free slot. */
  predicate Room(host: Host) {
    |host.queue| + |Unsent(host.permits)| < host.capacity
  }

  /** A call between its reservation and its send. */
  ghost predicate Pausing(steps: seq<Step>, c: nat) {
    forall i :: 0 <= i < |steps| ==> steps[i] != Send(c) && steps[i] != Release(c)
  }

  /** What the reservation found is kept until the send. */
  lemma {:induction false} PermitStays(capacity: nat, steps: seq<Step>, c: nat, more: seq<Step>)
    requires Ran(capacity, steps).Some? && Ran(capacity, steps + [Reserve(c)] + more).Some? && Pausing(more, c)
    ensures var before, host := Ran(capacity, steps).value, Ran(capacity, steps + [Reserve(c)] + more).value;
            && c in host.permits
            && host.permits[c] == if before.shut then Shut else if Room(before) then Permit.Granted else Full
    decreases |more|
  {
    hide After, Enabled;
    var all := steps + [Reserve(c)] + more;
    if more == [] {
      assert all == steps + [Reserve(c)];
      RunGrows(capacity, steps, Reserve(c));
      Reserves(Ran(capacity, steps).value, c);
    } else {
      var n := |more| - 1;
      assert all[..|all| - 1] == steps + [Reserve(c)] + more[..n];
      PermitStays(capacity, steps, c, more[..n]);
      assert more[n] != Send(c) && more[n] != Release(c);
      StillReserved(Ran(capacity, all[..|all| - 1]).value, more[n], c);
    }
  }

  lemma Reserves(host: Host, c: nat)
    requires Enabled(host, Reserve(c))
    ensures var permits := After(host, Reserve(c)).permits;
            c in permits && permits[c] == if host.shut then Shut else if Room(host) then Permit.Granted else Full
  {
  }

  lemma StillReserved(host: Host, step: Step, c: nat)
    requires Enabled(host, step) && step != Send(c) && step != Release(c) && c in host.permits
    ensures c in After(host, step).permits && After(host, step).permits[c] == host.permits[c]
  {
    hide Unsent;
  }

  /** The answer a send gives at once, if it does not admit the call: full when the
      reservation found no room, closed when the host was stopping at the send or the
      channel was shut at the reservation. */
  ghost function Turned(reserved: Host, sent: Host): Option<Answer> {
    if sent.lifecycle.Stopping? || reserved.shut then Some(Closed)
    else if Room(reserved) then None
    else Some(QueueFull)
  }

  /** In every run: a call whose reservation found room is admitted by its send while the
      host is running, and gets no answer then; any other is answered at once and not
      admitted. */
  lemma SendDecides(capacity: nat, steps: seq<Step>, c: nat, more: seq<Step>)
    requires Ran(capacity, steps).Some? && Ran(capacity, steps + [Reserve(c)] + more).Some? && Pausing(more, c)
    ensures var before, host := Ran(capacity, steps).value, Ran(capacity, steps + [Reserve(c)] + more).value;
            var t := Ran(capacity, steps + [Reserve(c)] + more + [Send(c)]);
            && t.Some?
            && t.value == match Turned(before, host)
                          case None => host.(permits := host.permits - {c}, queue := host.queue + [c],
                                             admitted := host.admitted + [c])
                          case Some(answer) => host.(permits := host.permits - {c}, answers := host.answers[c := answer])
  {
    PermitStays(capacity, steps, c, more);
    RunGrows(capacity, steps + [Reserve(c)] + more, Send(c));
  }

  /** The `q`-th step sent the call that the `r`-th had reserved a slot for. */
  ghost predicate SentAt(steps: seq<Step>, c: nat, r: nat, q: nat) {
    && r < q < |steps|
    && steps[r] == Reserve(c)
    && steps[q] == Send(c)
    && Pausing(steps[r + 1..q], c)
  }

  lemma PermitWas(host: Host, step: Step, c: nat)
    requires Enabled(host, step) && step != Reserve(c) && c in After(host, step).permits
    ensures c in host.permits && step != Send(c) && step != Release(c)
  {
  }

  lemma {:induction false} ReservedAt(capacity: nat, steps: seq<Step>, c: nat) returns (r: nat)
    requires Ran(capacity, steps).Some? && c in Ran(capacity, steps).value.permits
    ensures r < |steps| && steps[r] == Reserve(c) && Pausing(steps[r + 1..], c)
    decreases |steps|
  {
    var n := |steps| - 1;
    if steps[n] == Reserve(c) {
      r := n;
    } else {
      PermitWas(Ran(capacity, steps[..n]).value, steps[n], c);
      hide Ran;
      r := ReservedAt(capacity, steps[..n], c);
      assert steps[r + 1..] == steps[..n][r + 1..] + [steps[n]];
    }
  }

  lemma StepAnswers(host: Host, step: Step, c: nat)
    requires Inv(host) && Enabled(host, step) && step != Send(c) && c !in host.admitted
    ensures c in After(host, step).answers ==> c in host.answers && After(host, step).answers[c] == host.answers[c]
  {
    hide Distinct;
    assert forall x :: x in Waiting(host) ==> x in host.admitted;
  }

  /** In every run: a call that was answered without being admitted was answered by its
      own send, and so as `Turned` says. */
  lemma {:induction false} UnadmittedIsTurned(capacity: nat, steps: seq<Step>, c: nat) returns (r: nat, q: nat)
    requires Ran(capacity, steps).Some?
    requires c in Ran(capacity, steps).value.answers && c !in Ran(capacity, steps).value.admitted
    ensures SentAt(steps, c, r, q) && Ran(capacity, steps[..r]).Some? && Ran(capacity, steps[..q]).Some?
    ensures Turned(Ran(capacity, steps[..r]).value, Ran(capacity, steps[..q]).value)
            == Some(Ran(capacity, steps).value.answers[c])
    decreases |steps|
  {
    hide Inv, Enabled, After, Turned;
    var n := |steps| - 1;
    var before := Ran(capacity, steps[..n]).value;
    RunKeeps(capacity, steps[..n]);
    AdmittedStays(before, steps[n]);
    if steps[n] == Send(c) {
      SendNeeds(before, c);
      q := n;
      r := ReservedAt(capacity, steps[..n], c);
      RunBefore(capacity, steps, r);
      var more := steps[..n][r + 1..];
      assert steps[..r] + [Reserve(c)] + more == steps[..n];
      assert steps[..n] + [Send(c)] == steps;
      SendDecides(capacity, steps[..r], c, more);
      assert steps[r + 1..q] == more;
      TurnedAnswers(capacity, steps, c, before, Turned(Ran(capacity, steps[..r]).value, before));
    } else {
      StepAnswers(before, steps[n], c);
      r, q := UnadmittedIsTurned(capacity, steps[..n], c);
      assert steps[..n][..r] == steps[..r] && steps[..n][..q] == steps[..q] && steps[..n][r + 1..q] == steps[r + 1..q];
    }
  }

  lemma SendNeeds(host: Host, c: nat)
    requires Enabled(host, Send(c))
    ensures c in host.permits
  {
  }

  lemma TurnedAnswers(capacity: nat, steps: seq<Step>, c: nat, before: Host, turned: Option<Answer>)
    requires Ran(capacity, steps).Some? && c !in Ran(capacity, steps).value.admitted
    requires Ran(capacity, steps).value ==
             match turned
             case None => before.(permits := before.permits - {c}, queue := before.queue + [c],
                                  admitted := before.admitted + [c])
             case Some(answer) => before.(permits := before.permits - {c}, answers := before.answers[c := answer])
    ensures turned == Some(Ran(capacity, steps).value.answers[c])
  {
  }

  lemma AdmittedStays(host: Host, step: Step)
    requires Enabled(host, step)
    ensures host.admitted <= After(host, step).admitted
  {
  }

  // ----- answers are final ---------------------------------------------------------------------

  lemma AnswerStays(host: Host, step: Step, c: nat)
    requires Inv(host) && Enabled(host, step) && c in host.answers
    ensures c in After(host, step).answers && After(host, step).answers[c] == host.answers[c]
  {
    hide Distinct;
    assert host.queue != [] ==> host.queue[0] in Waiting(host);
    assert host.worker.Taken? ==> host.worker.call in Waiting(host);
  }

  /** A call is answered at most once: whatever happens later, its answer stays. */
  lemma {:induction false} AnswersAreFinal(capacity: nat, steps: seq<Step>, more: seq<Step>, c: nat)
    requires Ran(capacity, steps).Some? && Ran(capacity, steps + more).Some? && c in Ran(capacity, steps).value.answers
    ensures c in Ran(capacity, steps + more).value.answers
    ensures Ran(capacity, steps + more).value.answers[c] == Ran(capacity, steps).value.answers[c]
    decreases |more|
  {
    if more == [] {
      assert steps + more == steps;
    } else {
      var n := |more| - 1;
      assert (steps + more)[..|steps| + n] == steps + more[..n];
      AnswersAreFinal(capacity, steps, more[..n], c);
      RunKeeps(capacity, steps + more[..n]);
      AnswerStays(Ran(capacity, steps + more[..n]).value, more[n], c);
    }
  }

  // ----- a running host serves what it admitted --------------------------------------------------

  /** The worker is at its loop. */
  predicate Working(host: Host) {
    host.worker.Top? || host.worker.Selecting? || host.worker.Taken? || host.worker.Executing?
  }

  /** The worker's own next step, while the host runs. */
  function Next(host: Host): Step
    requires Working(host)
  {
    match host.worker
    case Top => Look
    case Selecting => Receive
    case Taken(_) => Recheck
    case Executing(_) => Finish
  }

  /** Steps to go before the queue is empty and the worker looks again. */
  function Distance(host: Host): nat
    requires Working(host)
  {
    4 * |host.queue| + match host.worker
                       case Top => 1
                       case Selecting => 0
                       case Taken(_) => 3
                       case Executing(_) => 2
  }

  lemma NextWorks(host: Host)
    requires host.lifecycle.Running? && Working(host) && Distance(host) > 0
    ensures Enabled(host, Next(host))
    ensures var next := After(host, Next(host));
            && next.lifecycle.Running? && Working(next) && Distance(next) < Distance(host)
            && next.admitted == host.admitted
  {
  }

  lemma RestIsServed(host: Host, c: nat)
    requires Inv(host) && host.lifecycle.Running? && Working(host) && Distance(host) == 0 && c in host.admitted
    ensures c in host.answers && host.answers[c] == Served
  {
    hide Distinct;
    assert c in host.started;
  }

  /** From every state of every run with a running host and its worker at its loop, the
      worker alone serves every call admitted so far: there is a continuation of nothing
      but its steps, without a stop or an abort, after which all of them are answered so. */
  lemma {:induction false} AdmittedIsServed(capacity: nat, steps: seq<Step>) returns (more: seq<Step>)
    requires Ran(capacity, steps).Some?
    requires Ran(capacity, steps).value.lifecycle.Running? && Working(Ran(capacity, steps).value)
    ensures forall i :: 0 <= i < |more| ==> more[i].Look? || more[i].Receive? || more[i].Recheck? || more[i].Finish?
    ensures Ran(capacity, steps + more).Some?
    ensures var host, later := Ran(capacity, steps).value, Ran(capacity, steps + more).value;
            && later.lifecycle.Running?
            && later.admitted == host.admitted
            && (forall c :: c in host.admitted ==> c in later.answers && later.answers[c] == Served)
    decreases Distance(Ran(capacity, steps).value)
  {
    hide Ran, Inv, Enabled, After, Distance;
    var host := Ran(capacity, steps).value;
    if Distance(host) == 0 {
      more := [];
      assert steps + more == steps;
      RunKeeps(capacity, steps);
      forall c | c in host.admitted {
        RestIsServed(host, c);
      }
    } else {
      var step := Next(host);
      NextWorks(host);
      RunGrows(capacity, steps, step);
      var rest := AdmittedIsServed(capacity, steps + [step]);
      more := [step] + rest;
      assert steps + [step] + rest == steps + more;
    }
  }

  // ----- a host that nobody stops ------------------------------------------------------------------

  /** A worker that has left its loop left nothing waiting, and nothing more can come. */
  ghost predicate LeftQuietly(host: Host) {
    && (host.forsaken ==> host.permits == map[])
    && host.rejected == [] && host.lost == None
    && (!Working(host) ==> host.forsaken && host.queue == [])
    && (Working(host) ==> host.lifecycle.Running?)
  }

  lemma StaysQuiet(host: Host, step: Step)
    requires Inv(host) && LeftQuietly(host) && Enabled(host, step) && !step.Stop? && !step.Abort?
    ensures LeftQuietly(After(host, step))
  {
    hide Inv;
  }

  lemma {:induction false} RunsQuietly(capacity: nat, steps: seq<Step>)
    requires Ran(capacity, steps).Some? && forall i :: 0 <= i < |steps| ==> !steps[i].Stop? && !steps[i].Abort?
    ensures LeftQuietly(Ran(capacity, steps).value)
  {
    if steps != [] {
      var n := |steps| - 1;
      RunsQuietly(capacity, steps[..n]);
      RunKeeps(capacity, steps[..n]);
      StaysQuiet(Ran(capacity, steps[..n]).value, steps[n]);
    }
  }

  /** In a run without a stop or an abort no admitted call is refused, and when the worker
      has left - every handle being gone - all of them have been served. */
  lemma UnstoppedServesAll(capacity: nat, steps: seq<Step>, c: nat)
    requires Ran(capacity, steps).Some? && forall i :: 0 <= i < |steps| ==> !steps[i].Stop? && !steps[i].Abort?
    requires c in Ran(capacity, steps).value.admitted
    ensures var host := Ran(capacity, steps).value;
            && c !in host.rejected
            && (c in host.answers ==> host.answers[c] == Served)
            && (!Working(host) ==> c in host.answers)
  {
    hide Distinct;
    RunsQuietly(capacity, steps);
    RunKeeps(capacity, steps);
    var host := Ran(capacity, steps).value;
    assert c in host.started || c in Waiting(host);
  }

  // ----- a stopping host ends ---------------------------------------------------------------------

  /** The worker's own next step once the host is stopping. */
  function Retreat(host: Host): Step
    requires !host.worker.Gone?
  {
    match host.worker
    case Top => Look
    case Selecting => SelectStop
    case Taken(_) => Recheck
    case Executing(_) => Finish
    case Leaving => Leave
    case Closing => Close
    case Draining => Drain
  }

  function ToGo(host: Host): nat {
    |host.queue| + match host.worker
                   case Executing(_) => 6
                   case Top => 5
                   case Selecting => 4
                   case Taken(_) => 4
                   case Leaving => 3
                   case Closing => 2
                   case Draining => 1
                   case Gone => 0
  }

  lemma RetreatWorks(host: Host)
    requires host.lifecycle.Stopping? && !host.worker.Gone?
    ensures Enabled(host, Retreat(host))
    ensures var next := After(host, Retreat(host));
            && next.lifecycle.Stopping? && ToGo(next) < ToGo(host)
            && next.admitted == host.admitted && next.started == host.started && next.lost == host.lost
  {
  }

  /** From every state of every run with a stopping host the worker alone comes to its
      end, and then every admitted call was started or refused and is answered, but for
      one that an earlier abort cut off. */
  lemma {:induction false} ShutdownCompletes(capacity: nat, steps: seq<Step>) returns (more: seq<Step>)
    requires Ran(capacity, steps).Some? && Ran(capacity, steps).value.lifecycle.Stopping?
    ensures forall i :: 0 <= i < |more| ==>
              !more[i].Reserve? && !more[i].Release? && !more[i].Send? && !more[i].Forsake? && !more[i].Stop? && !more[i].Abort?
    ensures Ran(capacity, steps + more).Some?
    ensures var host, later := Ran(capacity, steps).value, Ran(capacity, steps + more).value;
            && later.worker.Gone?
            && later.admitted == host.admitted
            && (forall c :: c in host.admitted ==>
                  || host.lost == Some(c)
                  || (c in later.answers && later.answers[c] == if c in host.started then Served else Closed))
    decreases ToGo(Ran(capacity, steps).value)
  {
    hide Ran, Inv, Enabled, After, ToGo;
    var host := Ran(capacity, steps).value;
    if host.worker.Gone? {
      more := [];
      assert steps + more == steps;
      RunKeeps(capacity, steps);
      forall c | c in host.admitted
        ensures host.lost == Some(c) ||
                (c in host.answers && host.answers[c] == if c in host.started then Served else Closed)
      {
        GoneSettlesAll(capacity, steps, c);
        GoneIsApart(host, c);
      }
    } else {
      var step := Retreat(host);
      RetreatWorks(host);
      RunGrows(capacity, steps, step);
      var rest := ShutdownCompletes(capacity, steps + [step]);
      more := [step] + rest;
      assert steps + [step] + rest == steps + more;
    }
  }

  lemma GoneIsApart(host: Host, c: nat)
    requires Inv(host)
    ensures c in host.rejected ==> c !in host.started
  {
    forall i, j | 0 <= i < |host.started| && 0 <= j < |host.rejected|
      ensures host.started[i] != host.rejected[j]
    {
      assert host.admitted[i] == host.started[i] && host.admitted[|host.started| + j] == host.rejected[j];
    }
  }

  /** A stop takes hold at once: whatever follows it, nothing is admitted or started. */
  lemma StopTakesHold(capacity: nat, steps: seq<Step>, more: seq<Step>)
    requires Ran(capacity, steps).Some? && Ran(capacity, steps + [Stop] + more).Some?
    ensures var host, later := Ran(capacity, steps).value, Ran(capacity, steps + [Stop] + more).value;
            later.lifecycle.Stopping? && later.admitted == host.admitted && later.started == host.started
  {
    RunGrows(capacity, steps, Stop);
    StoppingIsFinal(capacity, steps + [Stop], more);
  }
}
