/** The worker thread that serves two queues in turn: jobs and cleanups. */
module FjallWorker {
  import opened Wrappers

  type Work(==, !new)

  datatype Queue = Jobs | Cleanup

  /** Which channels the worker still listens to, and whose turn it is. */
  datatype OpenQueues = Both(turn: Queue) | JobsOnly | CleanupOnly | Closed

  /** A channel: everything ever sent, how much of it was taken, and whether all
      its senders are gone. */
  datatype Channel = Channel(sent: seq<Work>, taken: nat, closed: bool) {
    predicate Waiting() { taken < |sent| }
    /** A receive would return now: an item, or the end. */
    predicate Ready() { Waiting() || closed }
  }

  datatype State = State(jobs: Channel, cleanup: Channel, open: OpenQueues, ran: seq<Work>)

  const START: State := State(Channel([], 0, false), Channel([], 0, false), Both(Cleanup), [])

  function Other(queue: Queue): Queue {
    if queue.Jobs? then Cleanup else Jobs
  }

  function Of(s: State, queue: Queue): Channel {
    if queue.Jobs? then s.jobs else s.cleanup
  }

  function Only(queue: Queue): OpenQueues {
    if queue.Jobs? then JobsOnly else CleanupOnly
  }

  /** Take an item of a queue and run it. */
  function Serve(s: State, queue: Queue, next: OpenQueues): State
    requires Of(s, queue).Waiting()
  {
    var c := Of(s, queue);
    var after := c.(taken := c.taken + 1);
    var ran := s.ran + [c.sent[c.taken]];
    if queue.Jobs? then s.(jobs := after, open := next, ran := ran)
    else s.(cleanup := after, open := next, ran := ran)
  }

  /** The queue the next receive resolves on: the one whose turn it is when it is
      ready, otherwise the other. */
  function Chosen(s: State): Option<Queue> {
    match s.open
    case Both(turn) =>
      if Of(s, turn).Ready() then Some(turn)
      else if Of(s, Other(turn)).Ready() then Some(Other(turn))
      else None
    case JobsOnly => if s.jobs.Ready() then Some(Jobs) else None
    case CleanupOnly => if s.cleanup.Ready() then Some(Cleanup) else None
    case Closed => None
  }

  /** One round of the worker loop. */
  function Round(s: State): State
    requires Chosen(s).Some?
  {
    var queue := Chosen(s).value;
    if Of(s, queue).Waiting() then Serve(s, queue, if s.open.Both? then Both(Other(queue)) else s.open)
    else s.(open := if s.open.Both? then Only(Other(queue)) else Closed)
  }

  datatype Move = Send(queue: Queue, work: Work) | Close(queue: Queue) | Work

  function Put(s: State, queue: Queue, c: Channel): State {
    if queue.Jobs? then s.(jobs := c) else s.(cleanup := c)
  }

  predicate Possible(s: State, move: Move) {
    match move
    case Send(queue, _) => !Of(s, queue).closed
    case Close(queue) => true
    case Work => Chosen(s).Some?
  }

  function Moved(s: State, move: Move): State
    requires Possible(s, move)
  {
    match move
    case Send(queue, work) => Put(s, queue, Of(s, queue).(sent := Of(s, queue).sent + [work]))
    case Close(queue) => Put(s, queue, Of(s, queue).(closed := true))
    case Work => Round(s)
  }

  ghost function Played(s: State, moves: seq<Move>): Option<State> {
    if moves == [] then Some(s)
    else
      var n := |moves| - 1;
      var before := Played(s, moves[..n]);
      if before.Some? && Possible(before.value, moves[n]) then Some(Moved(before.value, moves[n])) else None
  }

  // ----- every item once, in the order of its queue ---------------------------------------

  /** `ran` is made of the taken jobs and the taken cleanups, each in order. */
  ghost predicate Merged(ran: seq<Work>, jobs: seq<Work>, cleanup: seq<Work>) {
    if ran == [] then jobs == [] && cleanup == []
    else
      var n := |ran| - 1;
      || (jobs != [] && jobs[|jobs| - 1] == ran[n] && Merged(ran[..n], jobs[..|jobs| - 1], cleanup))
      || (cleanup != [] && cleanup[|cleanup| - 1] == ran[n] && Merged(ran[..n], jobs, cleanup[..|cleanup| - 1]))
  }

  ghost predicate Drained(c: Channel) {
    c.closed && c.taken == |c.sent|
  }

  ghost predicate Inv(s: State) {
    && s.jobs.taken <= |s.jobs.sent| && s.cleanup.taken <= |s.cleanup.sent|
    && Merged(s.ran, s.jobs.sent[..s.jobs.taken], s.cleanup.sent[..s.cleanup.taken])
    && (s.open.JobsOnly? || s.open.Closed? ==> Drained(s.cleanup))
    && (s.open.CleanupOnly? || s.open.Closed? ==> Drained(s.jobs))
  }

  lemma ServeMerges(s: State, queue: Queue, next: OpenQueues)
    requires Inv(s) && Of(s, queue).Waiting()
    ensures var t := Serve(s, queue, next);
            Merged(t.ran, t.jobs.sent[..t.jobs.taken], t.cleanup.sent[..t.cleanup.taken])
  {
    var t := Serve(s, queue, next);
    var c := Of(t, queue);
    assert t.ran[..|t.ran| - 1] == s.ran;
    assert c.sent[..c.taken][..c.taken - 1] == c.sent[..c.taken - 1];
  }

  lemma MoveKeeps(s: State, move: Move)
    requires Inv(s) && Possible(s, move)
    ensures Inv(Moved(s, move))
  {
    match move {
      case Send(queue, work) =>
        var c := Of(s, queue);
        assert (c.sent + [work])[..c.taken] == c.sent[..c.taken];
      case Close(_) =>
      case Work =>
        var queue := Chosen(s).value;
        if Of(s, queue).Waiting() {
          ServeMerges(s, queue, if s.open.Both? then Both(Other(queue)) else s.open);
        }
    }
  }

  /** At every point of every run the worker has run a merge of a prefix of the jobs
      and a prefix of the cleanups, each exactly once and in the order sent; it has
      left a channel only closed and drained, and ended only when both are. */
  lemma {:induction false} EveryItemOnce(moves: seq<Move>)
    requires Played(START, moves).Some?
    ensures Inv(Played(START, moves).value)
  {
    if moves != [] {
      var n := |moves| - 1;
      EveryItemOnce(moves[..n]);
      MoveKeeps(Played(START, moves[..n]).value, moves[n]);
    }
  }

  /** What was sent to a queue, in order. */
  ghost function Submitted(moves: seq<Move>, queue: Queue): seq<Work> {
    if moves == [] then []
    else
      var n := |moves| - 1;
      Submitted(moves[..n], queue) + if moves[n].Send? && moves[n].queue == queue then [moves[n].work] else []
  }

  /** Nothing sent is lost: the channels hold exactly that. */
  lemma {:induction false} SentIsSubmitted(moves: seq<Move>, queue: Queue)
    requires Played(START, moves).Some?
    ensures Of(Played(START, moves).value, queue).sent == Submitted(moves, queue)
  {
    if moves != [] {
      SentIsSubmitted(moves[..|moves| - 1], queue);
    }
  }

  lemma {:induction false} MergedCounts(ran: seq<Work>, jobs: seq<Work>, cleanup: seq<Work>)
    requires Merged(ran, jobs, cleanup)
    ensures |ran| == |jobs| + |cleanup|
  {
    if ran != [] {
      var n := |ran| - 1;
      if jobs != [] && jobs[|jobs| - 1] == ran[n] && Merged(ran[..n], jobs[..|jobs| - 1], cleanup) {
        MergedCounts(ran[..n], jobs[..|jobs| - 1], cleanup);
      } else {
        MergedCounts(ran[..n], jobs, cleanup[..|cleanup| - 1]);
      }
    }
  }

  function Rank(open: OpenQueues): nat {
    match open
    case Both(_) => 2
    case JobsOnly => 1
    case CleanupOnly => 1
    case Closed => 0
  }

  function Left(c: Channel): nat {
    if c.Waiting() then |c.sent| - c.taken else 0
  }

  /** Rounds to go once both channels are closed. */
  function ToGo(s: State): nat {
    Left(s.jobs) + Left(s.cleanup) + Rank(s.open)
  }

  lemma RoundWorks(s: State)
    requires Inv(s) && s.jobs.closed && s.cleanup.closed && !s.open.Closed?
    ensures Possible(s, Work)
    ensures var next := Moved(s, Work);
            && Inv(next) && ToGo(next) < ToGo(s)
            && next.jobs.sent == s.jobs.sent && next.cleanup.sent == s.cleanup.sent
            && next.jobs.closed && next.cleanup.closed
  {
    MoveKeeps(s, Work);
  }

  lemma PlayGrows(moves: seq<Move>, move: Move)
    requires Played(START, moves).Some? && Possible(Played(START, moves).value, move)
    ensures Played(START, moves + [move]) == Some(Moved(Played(START, moves).value, move))
  {
    assert (moves + [move])[..|moves|] == moves;
  }

  /** Once both channels are closed the worker alone comes to its end, having run every
      job and every cleanup ever sent, each once and in order. */
  lemma {:induction false} RunsAll(moves: seq<Move>) returns (more: seq<Move>)
    requires Played(START, moves).Some?
    requires Played(START, moves).value.jobs.closed && Played(START, moves).value.cleanup.closed
    ensures forall i :: 0 <= i < |more| ==> more[i].Work?
    ensures Played(START, moves + more).Some?
    ensures var s, last := Played(START, moves).value, Played(START, moves + more).value;
            && last.open.Closed?
            && Merged(last.ran, s.jobs.sent, s.cleanup.sent)
            && |last.ran| == |s.jobs.sent| + |s.cleanup.sent|
    decreases ToGo(Played(START, moves).value)
  {
    hide Played, Merged, ToGo, Possible, Moved;
    var s := Played(START, moves).value;
    EveryItemOnce(moves);
    if s.open.Closed? {
      more := [];
      assert moves + more == moves;
      assert s.jobs.sent[..s.jobs.taken] == s.jobs.sent && s.cleanup.sent[..s.cleanup.taken] == s.cleanup.sent;
      MergedCounts(s.ran, s.jobs.sent, s.cleanup.sent);
    } else {
      RoundWorks(s);
      PlayGrows(moves, Work);
      var rest := RunsAll(moves + [Move.Work]);
      more := [Move.Work] + rest;
      assert moves + [Move.Work] + rest == moves + more;
    }
  }

  /** The worker can always go on while something waits, and stops only at the end. */
  lemma StopsOnlyDrained(moves: seq<Move>)
    requires Played(START, moves).Some?
    ensures var s := Played(START, moves).value;
            && (s.open.Closed? <==> Chosen(s).None? && s.jobs.closed && s.cleanup.closed)
            && (s.open.Closed? ==> Drained(s.jobs) && Drained(s.cleanup))
            && (s.jobs.Waiting() || s.cleanup.Waiting() ==> Chosen(s).Some?)
  {
    EveryItemOnce(moves);
  }

  // ----- neither queue starves ------------------------------------------------------------

  /** How often the worker ran in a stretch of moves. */
  ghost function Rounds(moves: seq<Move>): nat {
    if moves == [] then 0 else Rounds(moves[..|moves| - 1]) + if moves[|moves| - 1].Work? then 1 else 0
  }

  /** Both queues have something waiting whenever the worker looks. */
  ghost predicate Busy(s: State, moves: seq<Move>) {
    if moves == [] then true
    else
      var n := |moves| - 1;
      && Busy(s, moves[..n])
      && (moves[n].Work? && Played(s, moves[..n]).Some? ==>
            var t := Played(s, moves[..n]).value; t.jobs.Waiting() && t.cleanup.Waiting())
  }

  /** While both queues are busy the worker alternates. */
  lemma {:induction false} Alternates(s: State, moves: seq<Move>)
    requires s.open.Both? && Played(s, moves).Some? && Busy(s, moves)
    ensures var t := Played(s, moves).value;
            var turn := Of(t, s.open.turn).taken - Of(s, s.open.turn).taken;
            var other := Of(t, Other(s.open.turn)).taken - Of(s, Other(s.open.turn)).taken;
            && t.open.Both?
            && turn + other == Rounds(moves)
            && turn == if t.open.turn == s.open.turn then other else other + 1
  {
    if moves != [] {
      var n := |moves| - 1;
      Alternates(s, moves[..n]);
      var before := Played(s, moves[..n]).value;
      OneMove(before, moves[n]);
    }
  }

  lemma OneMove(s: State, move: Move)
    requires s.open.Both? && Possible(s, move) && (move.Work? ==> s.jobs.Waiting() && s.cleanup.Waiting())
    ensures move.Work? ==>
              && Moved(s, move).open == Both(Other(s.open.turn))
              && Of(Moved(s, move), s.open.turn).taken == Of(s, s.open.turn).taken + 1
              && Of(Moved(s, move), Other(s.open.turn)).taken == Of(s, Other(s.open.turn)).taken
    ensures !move.Work? ==>
              && Moved(s, move).open == s.open
              && Moved(s, move).jobs.taken == s.jobs.taken
              && Moved(s, move).cleanup.taken == s.cleanup.taken
  {
  }

  /** An item with k items ahead of it in its own queue is served within 2(k + 1)
      rounds while both queues stay busy. */
  lemma ServedInTurn(s: State, moves: seq<Move>, queue: Queue, k: nat)
    requires s.open.Both? && Played(s, moves).Some? && Busy(s, moves) && Rounds(moves) >= 2 * (k + 1)
    ensures Of(Played(s, moves).value, queue).taken > Of(s, queue).taken + k
  {
    Alternates(s, moves);
  }
}
