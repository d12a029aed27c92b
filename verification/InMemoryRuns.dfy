/** Reads and exports of the in-memory store while it is written to: every schedule
    of appends, atomic appends, openings and polls. */
module InMemoryRuns {
  import opened Wrappers
  import opened EventLog
  import opened InMemoryRead
  import opened InMemoryStore
  import opened StoreContract

  /** One write call; a batch is never empty and an expected version is a `u64`. */
  datatype Op = Single(write: Run) | Atomic(writes: seq<Run>)

  predicate Callable(op: Op) {
    match op
    case Single(w) => w.batch != []
    case Atomic(writes) => forall i :: 0 <= i < |writes| ==> writes[i].batch != [] && writes[i].expected <= U64_MAX
  }

  /** What a call makes of the log: all of it or nothing. */
  ghost function Effect(log: Log, op: Op): Log {
    match op
    case Single(w) => if Accepts(TERMS, log, w) then Extended(log, w) else log
    case Atomic(writes) =>
      if Distinct(Targets(writes)) && OneByOne(TERMS, log, writes).Some? then OneByOne(TERMS, log, writes).value else log
  }

  ghost function After(log: Log, ops: seq<Op>): Log {
    if ops == [] then log else Effect(After(log, ops[..|ops| - 1]), ops[|ops| - 1])
  }

  method Perform(store: Store, op: Op)
    requires store.Valid() && Callable(op)
    modifies store
    ensures store.Valid() && store.log == Effect(old(store.log), op) && old(store.log) <= store.log
  {
    hide Of, OneByOne, Distinct, Targets, StreamsAgree, IndexAgrees;
    EffectGrows(store.log, op);
    match op {
      case Single(w) => var _ := store.Append(w.target, w.expected, w.batch);
      case Atomic(writes) => var _ := store.AtomicAppendMany(writes);
    }
  }

  lemma EffectGrows(log: Log, op: Op)
    ensures log <= Effect(log, op)
  {
    if op.Atomic? && OneByOne(TERMS, log, op.writes).Some? {
      OneByOneGrows(TERMS, log, op.writes);
    }
  }

  lemma {:induction false} AfterGrows(log: Log, ops: seq<Op>, n: nat)
    requires n <= |ops|
    ensures After(log, ops[..n]) <= After(log, ops)
    decreases |ops|
  {
    if n == |ops| {
      assert ops[..n] == ops;
    } else {
      var init := ops[..|ops| - 1];
      assert init[..n] == ops[..n];
      AfterGrows(log, init, n);
      EffectGrows(After(log, init), ops[|ops| - 1]);
    }
  }

  lemma AfterOneMore(log: Log, ops: seq<Op>, op: Op)
    ensures After(log, ops + [op]) == Effect(After(log, ops), op)
  {
    assert (ops + [op])[..|ops|] == ops;
  }

  // ----- a commit is whole ----------------------------------------------------------------

  /** A log holds none of a run: its stream stops where the run would begin. */
  ghost predicate HoldsNone(log: Log, w: Run) {
    Head(log, w.target) <= w.expected
  }

  /** A log holds all of a run: every event, at its version. */
  ghost predicate HoldsAll(log: Log, w: Run) {
    && Encodes(w.batch)
    && w.expected + |w.batch| <= Head(log, w.target)
    && RowsIn(log, w.target)[w.expected..w.expected + |w.batch|] == Framed(w.batch)
  }

  /** The `p`-th call committed several runs at once. */
  ghost predicate Commits(ops: seq<Op>, p: nat) {
    && p < |ops|
    && ops[p].Atomic?
    && Distinct(Targets(ops[p].writes))
    && OneByOne(TERMS, After([], ops[..p]), ops[p].writes).Some?
  }

  /** In every run of the store, the log at any moment - the cut of an export session
      opened then - holds every run of an atomic commit or no run of it. */
  lemma CommitIsWhole(ops: seq<Op>, p: nat, moment: nat)
    requires Commits(ops, p) && moment <= |ops|
    ensures if moment <= p
            then forall i :: 0 <= i < |ops[p].writes| ==> HoldsNone(After([], ops[..moment]), ops[p].writes[i])
            else forall i :: 0 <= i < |ops[p].writes| ==> HoldsAll(After([], ops[..moment]), ops[p].writes[i])
  {
    var cut, writes := After([], ops[..moment]), ops[p].writes;
    forall i | 0 <= i < |writes|
      ensures if moment <= p then HoldsNone(cut, writes[i]) else HoldsAll(cut, writes[i])
    {
      if moment <= p {
        assert ops[..p][..moment] == ops[..moment];
        AfterGrows([], ops[..p], moment);
        BeforeHoldsNone(After([], ops[..p]), writes, i, cut);
      } else {
        assert ops[..moment][..p + 1] == ops[..p] + [ops[p]];
        AfterGrows([], ops[..moment], p + 1);
        AfterOneMore([], ops[..p], ops[p]);
        LaterHoldsAll(After([], ops[..p]), writes, i, cut);
      }
    }
  }

  lemma BeforeHoldsNone(log: Log, writes: seq<Run>, i: nat, cut: Log)
    requires Distinct(Targets(writes)) && OneByOne(TERMS, log, writes).Some? && i < |writes| && cut <= log
    ensures HoldsNone(cut, writes[i])
  {
    hide Of, OneByOne, Distinct, Targets;
    EachExtended(TERMS, log, writes, i);
    StreamsGrow(cut, log, writes[i].target);
  }

  lemma LaterHoldsAll(log: Log, writes: seq<Run>, i: nat, cut: Log)
    requires Distinct(Targets(writes)) && OneByOne(TERMS, log, writes).Some? && i < |writes|
    requires OneByOne(TERMS, log, writes).value <= cut
    ensures HoldsAll(cut, writes[i])
  {
    hide Of, OneByOne, Distinct, Targets;
    var w := writes[i];
    EachExtended(TERMS, log, writes, i);
    EachFollows(log, writes, i);
    StreamsGrow(OneByOne(TERMS, log, writes).value, cut, w.target);
    var rows := RowsIn(cut, w.target);
    forall j | 0 <= j < |w.batch|
      ensures rows[w.expected + j] == Framed(w.batch)[j]
    {
    }
  }

  lemma EachFollows(log: Log, writes: seq<Run>, i: nat)
    requires OneByOne(TERMS, log, writes).Some? && i < |writes|
    ensures Follows(writes[i].expected, writes[i].batch)
  {
    EachAccepted(TERMS, log, writes, i);
  }

  // ----- paged reads between writes ---------------------------------------------------------

  datatype Event = Write(op: Op) | Poll

  ghost predicate AllCallable(schedule: seq<Event>) {
    forall i :: 0 <= i < |schedule| && schedule[i].Write? ==> Callable(schedule[i].op)
  }

  ghost function Written(schedule: seq<Event>): seq<Op> {
    if schedule == [] then []
    else
      var n := |schedule| - 1;
      Written(schedule[..n]) + if schedule[n].Write? then [schedule[n].op] else []
  }

  ghost function Polls(schedule: seq<Event>): nat {
    if schedule == [] then 0 else Polls(schedule[..|schedule| - 1]) + if schedule[|schedule| - 1].Poll? then 1 else 0
  }

  lemma OneMoreEvent(schedule: seq<Event>, i: nat)
    requires i < |schedule|
    ensures Written(schedule[..i + 1]) ==
            if schedule[i].Write? then Written(schedule[..i]) + [schedule[i].op] else Written(schedule[..i])
    ensures Polls(schedule[..i + 1]) == Polls(schedule[..i]) + if schedule[i].Poll? then 1 else 0
  {
    assert schedule[..i + 1][..i] == schedule[..i];
  }

  /** `log` is the store's log at the moment of some poll. */
  ghost predicate AtPoll(start: Log, schedule: seq<Event>, log: Log) {
    exists j :: 0 <= j < |schedule| && schedule[j].Poll? && log == After(start, Written(schedule[..j]))
  }

  lemma AtThisPoll(start: Log, schedule: seq<Event>, i: nat)
    requires i < |schedule| && schedule[i].Poll?
    ensures AtPoll(start, schedule[..i + 1], After(start, Written(schedule[..i])))
  {
    assert schedule[..i + 1][..i] == schedule[..i];
    assert schedule[..i + 1][i].Poll?;
  }

  lemma AtPollStays(start: Log, schedule: seq<Event>, i: nat, log: Log)
    requires i < |schedule| && AtPoll(start, schedule[..i], log)
    ensures AtPoll(start, schedule[..i + 1], log)
  {
    var j :| 0 <= j < i && schedule[..i][j].Poll? && log == After(start, Written(schedule[..i][..j]));
    assert schedule[..i][..j] == schedule[..i + 1][..j];
    assert schedule[..i + 1][j].Poll?;
  }

  /** One row a poll while the read goes on, no more once it ended. */
  ghost predicate Paced(ended: bool, polls: nat, rows: nat) {
    if ended then polls > rows else polls == rows
  }

  /** Whatever is written between the polls, a paged read of a stream hands out, in
      order and without a gap, the rows the store had at one of the polls: one row a
      poll while it goes on, and all of them when it ends. */
  method ReadStreamWhileWriting(store: Store, id: Key, from: nat, size: nat, schedule: seq<Event>)
    returns (rows: seq<Stored>, reader: StreamReader)
    requires store.Valid() && 0 < from && 0 < size && AllCallable(schedule)
    modifies store
    ensures store.Valid() && store.log == After(old(store.log), Written(schedule))
    ensures rows <= Since(RowsIn(store.log, id), from) && Paced(reader.ended, Polls(schedule), |rows|)
    ensures Polls(schedule) > 0 ==> reader.refilled && AtPoll(old(store.log), schedule, reader.seen)
    ensures reader.ended ==> reader.refilled && rows == Since(RowsIn(reader.seen, id), from)
  {
    hide Of, OneByOne, After, Effect, AtPoll, Written, Polls, StreamsAgree, IndexAgrees, Since, RowsIn, Begins, Makes;
    ghost var start := store.log;
    reader := new StreamReader(store, id, from, size);
    rows := [];
    NoEvents(start, schedule[..0]);
    for i := 0 to |schedule|
      invariant fresh(reader) && reader.Valid() && reader.store == store && reader.id == id && reader.from == from
      invariant store.log == After(start, Written(schedule[..i]))
      invariant rows == reader.emitted && Paced(reader.ended, Polls(schedule[..i]), |rows|)
      invariant Polls(schedule[..i]) > 0 ==> reader.refilled
      invariant reader.refilled ==> AtPoll(start, schedule[..i], reader.seen)
    {
      ghost var ops := Written(schedule[..i]);
      OneMoreEvent(schedule, i);
      if reader.refilled {
        AtPollStays(start, schedule, i, reader.seen);
      }
      match schedule[i] {
        case Write(op) =>
          AfterOneMore(start, ops, op);
          Perform(store, op);
        case Poll =>
          AtThisPoll(start, schedule, i);
          var row := reader.Next();
          rows := if row.Some? then rows + [row.value] else rows;
      }
    }
    assert schedule[..|schedule|] == schedule;
    HandedOut(reader.emitted, reader.buffer, Since(RowsIn(reader.seen, id), from));
    SinceGrows(reader.seen, store.log, id, from);
  }

  /** The same of a paged read of `$all` above a position. */
  method ReadAllWhileWriting(store: Store, after: nat, size: nat, schedule: seq<Event>)
    returns (entries: seq<(nat, (Key, Stored))>, reader: AllReader)
    requires store.Valid() && 0 < size && AllCallable(schedule)
    modifies store
    ensures store.Valid() && store.log == After(old(store.log), Written(schedule))
    ensures entries <= Behind(store.log, after) && Paced(reader.ended, Polls(schedule), |entries|)
    ensures Polls(schedule) > 0 ==> reader.refilled && AtPoll(old(store.log), schedule, reader.seen)
    ensures reader.ended ==> reader.refilled && entries == Behind(reader.seen, after)
  {
    hide Of, OneByOne, After, Effect, AtPoll, Written, Polls, StreamsAgree, IndexAgrees, Behind, Begins, Makes;
    ghost var start := store.log;
    reader := new AllReader(store, after, size);
    entries := [];
    NoEvents(start, schedule[..0]);
    for i := 0 to |schedule|
      invariant fresh(reader) && reader.Valid() && reader.store == store && reader.from == after
      invariant store.log == After(start, Written(schedule[..i]))
      invariant entries == reader.emitted && Paced(reader.ended, Polls(schedule[..i]), |entries|)
      invariant Polls(schedule[..i]) > 0 ==> reader.refilled
      invariant reader.refilled ==> AtPoll(start, schedule[..i], reader.seen)
    {
      ghost var ops := Written(schedule[..i]);
      OneMoreEvent(schedule, i);
      if reader.refilled {
        AtPollStays(start, schedule, i, reader.seen);
      }
      match schedule[i] {
        case Write(op) =>
          AfterOneMore(start, ops, op);
          Perform(store, op);
        case Poll =>
          AtThisPoll(start, schedule, i);
          var entry := reader.Next();
          entries := if entry.Some? then entries + [entry.value] else entries;
      }
    }
    assert schedule[..|schedule|] == schedule;
    HandedOut(reader.emitted, reader.buffer, Behind(reader.seen, after));
    BehindGrows(reader.seen, store.log, after);
  }

  lemma NoEvents(log: Log, schedule: seq<Event>)
    requires schedule == []
    ensures After(log, Written(schedule)) == log && Polls(schedule) == 0
  {
  }

  lemma HandedOut<T>(emitted: seq<T>, buffer: seq<T>, whole: seq<T>)
    requires Begins(emitted, buffer, whole)
    ensures emitted <= whole
  {
  }

  lemma SinceGrows(log: Log, later: Log, id: Key, from: nat)
    requires log <= later && 0 < from
    ensures Since(RowsIn(log, id), from) <= Since(RowsIn(later, id), from)
  {
    hide Of;
    RowsGrow(log, later, id);
  }

  // ----- a session between writes -------------------------------------------------------------

  datatype ExportEvent = Append(op: Op) | Open(id: Key, from: nat, size: nat) | Advance(cursor: nat, expired: bool)

  predicate Possible(event: ExportEvent) {
    match event
    case Append(op) => Callable(op)
    case Open(_, from, size) => 0 < from && 0 < size
    case Advance(_, _) => true
  }

  /** The streams opened, each with its first version. */
  ghost function Opened(schedule: seq<ExportEvent>): seq<(Key, nat)> {
    if schedule == [] then []
    else
      var n := |schedule| - 1;
      Opened(schedule[..n]) + if schedule[n].Open? then [(schedule[n].id, schedule[n].from)] else []
  }

  /** The writes of a schedule. */
  ghost function Appended(schedule: seq<ExportEvent>): seq<Op> {
    if schedule == [] then []
    else
      var n := |schedule| - 1;
      Appended(schedule[..n]) + if schedule[n].Append? then [schedule[n].op] else []
  }

  /** How often a cursor was polled since it opened. */
  ghost function Advances(schedule: seq<ExportEvent>, c: nat): nat {
    if schedule == [] then 0
    else
      var n := |schedule| - 1;
      Advances(schedule[..n], c) +
      if schedule[n].Advance? && schedule[n].cursor == c < |Opened(schedule[..n])| then 1 else 0
  }

  /** A poll of the cursor found the session expired. */
  ghost predicate WasExpired(schedule: seq<ExportEvent>, c: nat) {
    schedule != [] &&
    (WasExpired(schedule[..|schedule| - 1], c) || schedule[|schedule| - 1] == Advance(c, true))
  }

  lemma OneMoreExport(schedule: seq<ExportEvent>, i: nat, c: nat)
    requires i < |schedule|
    ensures var now, next, event := schedule[..i], schedule[..i + 1], schedule[i];
            && Opened(next) == (if event.Open? then Opened(now) + [(event.id, event.from)] else Opened(now))
            && Appended(next) == (if event.Append? then Appended(now) + [event.op] else Appended(now))
            && Advances(next, c) ==
               Advances(now, c) + (if event.Advance? && event.cursor == c < |Opened(now)| then 1 else 0)
            && (WasExpired(next, c) <==> WasExpired(now, c) || event == Advance(c, true))
  {
    assert schedule[..i + 1][..i] == schedule[..i];
  }

  lemma {:induction false} UnopenedUnpolled(schedule: seq<ExportEvent>, c: nat)
    requires c >= |Opened(schedule)|
    ensures Advances(schedule, c) == 0
  {
    if schedule != [] {
      UnopenedUnpolled(schedule[..|schedule| - 1], c);
    }
  }

  lemma NoExports(log: Log, schedule: seq<ExportEvent>)
    requires schedule == []
    ensures Opened(schedule) == [] && After(log, Appended(schedule)) == log
  {
  }

  /** The cursor is the one the schedule opened in its turn: a row a poll, and cut off
      only by an expiry. */
  ghost predicate InStep(schedule: seq<ExportEvent>, c: nat, cursor: ExportCursor)
    reads cursor
  {
    && c < |Opened(schedule)|
    && (cursor.id, cursor.from) == Opened(schedule)[c]
    && Paced(cursor.ended, Advances(schedule, c), |cursor.emitted|)
    && (cursor.cutOff ==> WasExpired(schedule, c))
  }

  /** The cursor belongs to the session. */
  ghost predicate Faithful(session: ExportSession, cursor: ExportCursor)
    reads cursor, session.store
  {
    && cursor.session == session
    && cursor.Valid()
  }

  /** What a cursor has handed out of one state. */
  ghost predicate Exports(cut: Log, cursor: ExportCursor)
    reads cursor
  {
    && 0 < cursor.from
    && cursor.emitted <= Since(RowsIn(cut, cursor.id), cursor.from)
    && (cursor.ended && !cursor.cutOff ==> cursor.emitted == Since(RowsIn(cut, cursor.id), cursor.from))
  }

  /** A session opened on the store as it is: whatever is appended afterwards, by
      itself or atomically, before or after any cursor opens and between any polls,
      every cursor hands out the rows its stream had in that one state, a row a poll,
      and all of them when it ends without expiring. */
  method ExportWhileWriting(store: Store, schedule: seq<ExportEvent>)
    returns (session: ExportSession, cursors: seq<ExportCursor>)
    requires store.Valid() && forall i :: 0 <= i < |schedule| ==> Possible(schedule[i])
    modifies store
    ensures store.Valid() && store.log == After(old(store.log), Appended(schedule))
    ensures session.cut == old(store.log) && |cursors| == |Opened(schedule)|
    ensures forall c :: 0 <= c < |cursors| ==> InStep(schedule, c, cursors[c]) && Exports(old(store.log), cursors[c])
  {
    hide Of, OneByOne, After, Effect, Appended, Opened, Advances, WasExpired;
    hide StreamsAgree, IndexAgrees, Since, RowsIn, Begins, Makes, HeadsIn;
    ghost var start := store.log;
    session := new ExportSession(store);
    cursors := [];
    NoExports(start, schedule[..0]);
    for i := 0 to |schedule|
      invariant store.Valid() && session.Valid() && session.store == store && session.cut == start
      invariant store.log == After(start, Appended(schedule[..i])) && |cursors| == |Opened(schedule[..i])|
      invariant forall c :: 0 <= c < |cursors| ==> fresh(cursors[c]) && Faithful(session, cursors[c])
      invariant forall c :: 0 <= c < |cursors| ==> InStep(schedule[..i], c, cursors[c])
      invariant forall c, d :: 0 <= c < d < |cursors| ==> cursors[c] != cursors[d]
    {
      OneMoreExport(schedule, i, |cursors|);
      forall c | 0 <= c < |cursors| {
        OneMoreExport(schedule, i, c);
      }
      match schedule[i] {
        case Append(op) =>
          AfterOneMore(start, Appended(schedule[..i]), op);
          Perform(store, op);
        case Open(id, from, size) =>
          UnopenedUnpolled(schedule[..i], |cursors|);
          var cursor := new ExportCursor(session, id, from, size);
          cursors := cursors + [cursor];
        case Advance(c, expired) =>
          if c < |cursors| {
            var _ := cursors[c].Next(expired);
          }
      }
    }
    assert schedule[..|schedule|] == schedule;
    forall c | 0 <= c < |cursors|
      ensures Exports(start, cursors[c])
    {
      assert Faithful(session, cursors[c]);
      HandedOut(cursors[c].emitted, cursors[c].buffer, Since(RowsIn(session.cut, cursors[c].id), cursors[c].from));
    }
  }

  // ----- an exported commit is whole ------------------------------------------------------------

  /** The rows exported of a stream hold all of each run the commit made to it. */
  ghost predicate ShowsAll(rows: seq<Stored>, id: Key, writes: seq<Run>) {
    forall i :: 0 <= i < |writes| && writes[i].target == id ==>
      && Encodes(writes[i].batch)
      && writes[i].expected + |writes[i].batch| <= |rows|
      && rows[writes[i].expected..writes[i].expected + |writes[i].batch|] == Framed(writes[i].batch)
  }

  /** They hold nothing of any run the commit made to it. */
  ghost predicate ShowsNone(rows: seq<Stored>, id: Key, writes: seq<Run>) {
    forall i :: 0 <= i < |writes| && writes[i].target == id ==> |rows| <= writes[i].expected
  }

  lemma ExportedIsWhole(ops: seq<Op>, p: nat, moment: nat, id: Key, rows: seq<Stored>)
    requires Commits(ops, p) && moment <= |ops| && rows == Since(RowsIn(After([], ops[..moment]), id), 1)
    ensures if moment <= p then ShowsNone(rows, id, ops[p].writes) else ShowsAll(rows, id, ops[p].writes)
  {
    hide Of, OneByOne, After, Distinct, Targets;
    var writes, cut := ops[p].writes, After([], ops[..moment]);
    CommitIsWhole(ops, p, moment);
    assert rows == RowsIn(cut, id);
    forall i | 0 <= i < |writes| && writes[i].target == id
      ensures if moment <= p then HoldsNone(cut, writes[i]) else HoldsAll(cut, writes[i])
    {
    }
  }

  /** A store is written to, a session is opened and exported while writing goes on.
      Every commit that any call made, before or after, is in the streams exported in
      full with all of its runs if it came before the session, and with none of them
      if it came after. */
  method ExportHoldsCommitsWhole(before: seq<Op>, schedule: seq<ExportEvent>)
    returns (store: Store, cursors: seq<ExportCursor>)
    requires forall i :: 0 <= i < |before| ==> Callable(before[i])
    requires forall i :: 0 <= i < |schedule| ==> Possible(schedule[i])
    ensures store.Valid() && store.log == After([], before + Appended(schedule))
    ensures |cursors| == |Opened(schedule)|
    ensures forall c :: 0 <= c < |cursors| ==> InStep(schedule, c, cursors[c]) && Exports(After([], before), cursors[c])
    ensures forall p: nat, c: nat :: Commits(before + Appended(schedule), p) && c < |cursors| && Finished(cursors[c]) ==>
              if p < |before| then ShowsAll(cursors[c].emitted, cursors[c].id, CommitAt(before + Appended(schedule), p))
              else ShowsNone(cursors[c].emitted, cursors[c].id, CommitAt(before + Appended(schedule), p))
  {
    hide Of, OneByOne, After, Effect, Appended, Opened, Advances, WasExpired, Distinct, Targets;
    hide StreamsAgree, IndexAgrees, Since, RowsIn, ShowsAll, ShowsNone, Commits;
    store := new Store();
    NoOps();
    assert before[..0] == [];
    for i := 0 to |before|
      invariant fresh(store) && store.Valid() && store.log == After([], before[..i])
    {
      assert before[..i + 1] == before[..i] + [before[i]];
      AfterOneMore([], before[..i], before[i]);
      Perform(store, before[i]);
    }
    assert before[..|before|] == before;
    var session;
    session, cursors := ExportWhileWriting(store, schedule);
    ghost var all := before + Appended(schedule);
    AfterBoth([], before, Appended(schedule));
    forall p: nat, c: nat | Commits(all, p) && c < |cursors| && Finished(cursors[c])
      ensures if p < |before| then ShowsAll(cursors[c].emitted, cursors[c].id, CommitAt(all, p))
              else ShowsNone(cursors[c].emitted, cursors[c].id, CommitAt(all, p))
    {
      assert all[..|before|] == before;
      ExportedIsWhole(all, p, |before|, cursors[c].id, cursors[c].emitted);
    }
  }

  /** The cursor exported its whole stream. */
  ghost predicate Finished(cursor: ExportCursor)
    reads cursor
  {
    cursor.from == 1 && cursor.ended && !cursor.cutOff
  }

  ghost function CommitAt(ops: seq<Op>, p: nat): seq<Run>
    requires Commits(ops, p)
  {
    ops[p].writes
  }

  lemma NoOps()
    ensures After([], []) == []
  {
  }

  lemma {:induction false} AfterBoth(log: Log, a: seq<Op>, b: seq<Op>)
    ensures After(log, a + b) == After(After(log, a), b)
    decreases |b|
  {
    if b == [] {
      assert a + b == a;
    } else {
      var n := |b| - 1;
      assert (a + b)[..|a| + n] == a + b[..n];
      AfterBoth(log, a, b[..n]);
    }
  }
}
