/** The aggregate root rebuilt from a stream, and the engine that serves calls.

    The engine's calls await the store at fixed points. What the store answers at
    each of them is a parameter, so the text between two awaits is one function:
    `AfterLoad`, `AfterAppend`, `AfterReload`, `AfterRead`, `AfterLookup`. The
    class below runs them in the source's order; the interleaved system of
    `CommandSystem` runs the same functions one await at a time. */
module CommandEngine {
  import opened Wrappers
  import opened CommandModel

  datatype KernelError =
    | VersionOverflow
    | VersionMismatch(expected: nat, actual: nat)
    | RehydrationLimitExceeded(max: nat)

  /** Failures of the repository, as its callers can tell them apart. */
  datatype StoreError =
    | CasConflict
    | StreamNotFound
    | Adapter
    | Encode
    | Decode
    | KernelFailure(kernel: KernelError)
    | SaveOverflow
    | EnvelopeSynthesis
    | Envelope

  datatype Cause =
    | Decision(decision: DecisionError)
    | Store(store: StoreError)
    | Kernel(kernel: KernelError)
    | CorruptAcceptance

  datatype Reply =
    | Accepted(receipt: Receipt)
    | Value(version: nat, domain: Domain)
    | Found(original: Option<Request>)
    | Unknown
    | Mismatched
    | Conflict
    | Uncertain(command: Id, cause: Option<Cause>)
    | Failed(failure: Cause)
    | Corrupt
    | Timeout

  /** A loaded root, as its readers see it. */
  datatype View = View(state: State, version: nat)

  /** What the store does with a load: the rows it read, or no answer. */
  datatype Fetch = Rows(rows: seq<Record>) | LoadTimeout | LoadError(error: StoreError)

  /** What the store answers to the append. */
  datatype Outcome = Saved | AppendTimeout | AppendError(error: StoreError)

  // ----- replay ---------------------------------------------------------------

  function ReplayCheck(current: nat, replayed: nat, version: nat): Result<(), KernelError> {
    if current >= U64_MAX then Err(VersionOverflow)
    else if version != current + 1 then Err(VersionMismatch(current + 1, version))
    else if replayed >= MAX_ACCEPTED then Err(RehydrationLimitExceeded(MAX_ACCEPTED))
    else Ok(())
  }

  function Replayed(agg: Aggregate, rows: seq<Record>): Result<View, StoreError> {
    if rows == [] then Ok(View(Initial(agg), 0))
    else
      var n := |rows| - 1;
      var prior := Replayed(agg, rows[..n]);
      if prior.Err? then prior
      else if !Decodes(rows[n], n + 1) then Err(Decode)
      else
        var checked := ReplayCheck(prior.value.version, n, n + 1);
        if checked.Err? then Err(KernelFailure(checked.error))
        else Ok(View(Applied(agg, prior.value.state, rows[n]), n + 1))
  }

  function Loaded(agg: Aggregate, fetch: Fetch): Result<View, Reply> {
    match fetch
    case LoadTimeout => Err(Timeout)
    case LoadError(e) => Err(Failed(Store(e)))
    case Rows(rows) =>
      var view := Replayed(agg, rows);
      if view.Err? then Err(Failed(Store(view.error)))
      else if !view.value.state.intact then Err(Corrupt)
      else Ok(view.value)
  }

  class AggregateRoot {
    const agg: Aggregate
    var state: State
    var version: nat
    var replayed: nat

    constructor (agg: Aggregate)
      ensures this.agg == agg && state == Initial(agg) && version == 0 && replayed == 0
    {
      this.agg := agg;
      state, version, replayed := Initial(agg), 0, 0;
    }

    function Viewed(): View
      reads this
    {
      View(state, version)
    }

    method Replay(next: nat, record: Record) returns (r: Result<(), KernelError>)
      modifies this
      ensures r == ReplayCheck(old(version), old(replayed), next)
      ensures r.Ok? <==> next == old(version) + 1 <= U64_MAX && old(replayed) < MAX_ACCEPTED
      ensures r == Err(VersionOverflow) <==> old(version) >= U64_MAX
      ensures old(version) < U64_MAX && next != old(version) + 1 ==> r == Err(VersionMismatch(old(version) + 1, next))
      ensures r.Err? && r.error.RehydrationLimitExceeded? ==> r.error.max == MAX_ACCEPTED <= old(replayed)
      ensures r.Ok? ==>
                && state == Applied(agg, old(state), record)
                && version == next
                && replayed == old(replayed) + 1
      ensures r.Err? ==> unchanged(this)
    {
      r := ReplayCheck(version, replayed, next);
      if r.Err? {
        return;
      }
      state := Apply(agg, state, record);
      replayed := replayed + 1;
      version := next;
    }

    /** Advance past a record the store has already persisted. */
    method CommitPersisted(record: Record) returns (r: Result<(), KernelError>)
      modifies this
      ensures r.Ok? <==> old(version) < U64_MAX
      ensures r.Ok? ==> Viewed() == View(Applied(agg, old(state), record), old(version) + 1)
      ensures r.Err? ==> unchanged(this)
    {
      if version >= U64_MAX {
        return Err(VersionOverflow);
      }
      version := version + 1;
      state := Apply(agg, state, record);
      r := Ok(());
    }
  }

  /** Rehydrate a root from the rows of one stream read. */
  method Rehydrate(agg: Aggregate, rows: seq<Record>) returns (r: Result<AggregateRoot, StoreError>)
    ensures r.Ok? <==> Replayed(agg, rows).Ok?
    ensures r.Ok? ==> fresh(r.value) && r.value.agg == agg && r.value.Viewed() == Replayed(agg, rows).value
    ensures r.Err? ==> r.error == Replayed(agg, rows).error
  {
    var root := new AggregateRoot(agg);
    for i := 0 to |rows|
      invariant fresh(root) && root.agg == agg && root.replayed == i
      invariant Replayed(agg, rows[..i]) == Ok(root.Viewed())
      invariant root.version == i
    {
      assert rows[..i + 1][..i] == rows[..i];
      if !Decodes(rows[i], i + 1) {
        ReplayedErrorStays(agg, rows, i + 1);
        return Err(Decode);
      }
      var replayed := root.Replay(i + 1, rows[i]);
      if replayed.Err? {
        ReplayedErrorStays(agg, rows, i + 1);
        return Err(KernelFailure(replayed.error));
      }
    }
    assert rows[..|rows|] == rows;
    r := Ok(root);
  }

  lemma {:induction false} ReplayedErrorStays(agg: Aggregate, rows: seq<Record>, n: nat)
    requires n <= |rows| && Replayed(agg, rows[..n]).Err?
    ensures Replayed(agg, rows) == Replayed(agg, rows[..n])
    decreases |rows|
  {
    if n == |rows| {
      assert rows[..n] == rows;
    } else {
      var prior := rows[..|rows| - 1];
      assert prior[..n] == rows[..n];
      ReplayedErrorStays(agg, prior, n);
    }
  }

  /** Every prefix of a good history loads, and loads as its fold: no decode
      check, version check, rehydration limit or integrity rule ever fires. */
  lemma {:induction false} GoodLoads(agg: Aggregate, h: seq<Record>, k: nat)
    requires Good(agg, h) && k <= |h|
    ensures Loaded(agg, Rows(h[..k])) == Ok(View(Fold(agg, h[..k]), k))
  {
    GoodPrefix(agg, h, k);
    GoodReplays(agg, h[..k]);
    GoodFold(agg, h[..k]);
  }

  lemma {:induction false} GoodReplays(agg: Aggregate, h: seq<Record>)
    requires Good(agg, h)
    ensures Replayed(agg, h) == Ok(View(Fold(agg, h), |h|))
  {
    if h != [] {
      GoodReplays(agg, h[..|h| - 1]);
      GoodAt(agg, h, |h| - 1);
    }
  }

  /** The row at its place: what the codec and the version check ask of it. */
  predicate InPlace(rows: seq<Record>, k: nat)
    requires k < |rows|
  {
    && rows[k].schema == 2
    && rows[k].request.expected == k
    && rows[k].receipt == Receipt(rows[k].request.id, k + 1, |rows[k].facts|)
  }

  /** What the records ask of one another: no id twice, and every fact limit kept. */
  ghost predicate Coherent(agg: Aggregate, rows: seq<Record>) {
    && (forall i, j :: 0 <= i < j < |rows| ==> rows[i].request.id != rows[j].request.id)
    && (forall k :: 0 <= k < |rows| ==> |rows[k].facts| <= agg.tail + 1)
    && (rows != [] ==> |Facts(rows)| <= agg.limit)
  }

  lemma PlaceIsDecoded(rows: seq<Record>, k: nat)
    requires k < |rows| && k <= MAX_ACCEPTED
    ensures InPlace(rows, k) <==> Decodes(rows[k], k + 1)
  {
  }

  /** The first row out of its place, or the end. */
  ghost function Misplaced(rows: seq<Record>): (k: nat)
    ensures k <= |rows|
    ensures forall i :: 0 <= i < k ==> InPlace(rows, i)
    ensures k < |rows| ==> !InPlace(rows, k)
  {
    if rows == [] then 0
    else
      var n := |rows| - 1;
      var k := Misplaced(rows[..n]);
      assert forall i :: 0 <= i < n ==> InPlace(rows[..n], i) == InPlace(rows, i);
      if k < n then k else if InPlace(rows, n) then n + 1 else n
  }

  /** Any rows at all: they replay exactly when every one is in its place and they are
      not too many. Otherwise the first that is out of place is a decode error, unless
      the limit strikes before it. */
  lemma {:induction false} ReplaysExactly(agg: Aggregate, rows: seq<Record>)
    ensures Replayed(agg, rows) ==
            if Misplaced(rows) > MAX_ACCEPTED then Err(KernelFailure(RehydrationLimitExceeded(MAX_ACCEPTED)))
            else if Misplaced(rows) < |rows| then Err(Decode)
            else Ok(View(Fold(agg, rows), |rows|))
  {
    hide Decodes, InPlace, Applied;
    if rows != [] {
      var n := |rows| - 1;
      ReplaysExactly(agg, rows[..n]);
      if n <= MAX_ACCEPTED {
        PlaceIsDecoded(rows, n);
      }
    }
  }

  /** And they load as intact exactly when they are coherent too: with the facts folded
      in order and exactly their receipts. */
  lemma {:induction false} CoherentExactly(agg: Aggregate, rows: seq<Record>)
    ensures Fold(agg, rows).intact <==> Coherent(agg, rows)
    ensures Coherent(agg, rows) ==>
              var st := Fold(agg, rows);
              && Knows(st.receipts, rows)
              && st.facts == |Facts(rows)|
              && st.domain == Evolve(agg, agg.initial, Facts(rows))
  {
    hide Knows, Evolve;
    KnowsNothing();
    if rows == [] {
      NoFacts(agg);
    } else {
      var n := |rows| - 1;
      var prior, last := rows[..n], rows[n];
      CoherentExactly(agg, prior);
      CoherentStep(agg, rows);
      if Coherent(agg, prior) {
        KnownExactly(Fold(agg, prior).receipts, prior, last.request.id);
        EvolveConcat(agg, agg.initial, Facts(prior), last.facts);
        assert rows == prior + [last];
        if last.request.id !in Fold(agg, prior).receipts {
          KnowsNext(Fold(agg, prior).receipts, prior, last);
        }
      }
    }
  }

  lemma NoFacts(agg: Aggregate)
    ensures Facts([]) == [] && Evolve(agg, agg.initial, Facts([])) == agg.initial
  {
  }

  lemma KnownExactly(receipts: map<Id, (Request, Receipt)>, h: seq<Record>, id: Id)
    requires Knows(receipts, h)
    ensures id in receipts <==> !Unused(h, id)
  {
    if id in receipts {
      var k := IdAt(h, id);
    }
  }

  lemma CoherentStep(agg: Aggregate, rows: seq<Record>)
    requires rows != []
    ensures var n := |rows| - 1;
            Coherent(agg, rows) <==>
              && Coherent(agg, rows[..n])
              && Unused(rows[..n], rows[n].request.id)
              && |rows[n].facts| <= agg.tail + 1
              && |Facts(rows[..n])| + |rows[n].facts| <= agg.limit
  {
    var n := |rows| - 1;
    var prior := rows[..n];
    assert |Facts(rows)| == |Facts(prior)| + |rows[n].facts|;
    hide Facts;
    assert prior == [] ==> |Facts(prior)| == 0 by {
      NoFacts(agg);
    }
    assert forall i :: 0 <= i < n ==> prior[i] == rows[i];
  }

  // ----- between two awaits -----------------------------------------------------

  /** The pending request this load leaves undecided, if any. */
  function Unsettled(pending: Option<Request>, version: nat): Option<Request> {
    if pending.Some? && version <= pending.value.expected then pending else None
  }

  datatype Next =
    | Answer(reply: Reply, pending: Option<Request>)
    | Append(record: Record, previous: Option<Request>)

  /** A definite failure of this attempt: an older unresolved request stays held. */
  function Failure(previous: Option<Request>, cause: Cause): Next {
    if previous.Some? then Answer(Uncertain(previous.value.id, Some(cause)), previous)
    else Answer(Failed(cause), None)
  }

  function AfterLoad(agg: Aggregate, pending: Option<Request>, request: Request, view: View): Next {
    var existing := ReceiptOf(view.state, request);
    if existing.Err? then Answer(Mismatched, pending)
    else
      var canRetry := pending == Some(request) && request.expected == view.version;
      var held := Unsettled(pending, view.version);
      if existing.value.Some? then Answer(Accepted(existing.value.value), held)
      else if held.Some? && held.value.id == request.id && held.value != request then
        Answer(Mismatched, held)
      else if held.Some? && !canRetry then Answer(Uncertain(held.value.id, None), held)
      else if request.expected != view.version then Answer(Conflict, held)
      else if view.version >= U64_MAX then Answer(Failed(Kernel(VersionOverflow)), held)
      else
        var decided := Decided(agg, view.state, request, view.version + 1);
        if decided.Err? then Failure(held, Decision(decided.error))
        else Append(decided.value, held)
  }

  /** What each outcome of a load rests on: a barrier is dropped only when the
      load has passed it, and an append only replaces nothing or itself. */
  lemma AfterLoadCases(agg: Aggregate, pending: Option<Request>, request: Request, view: View)
    ensures var held := Unsettled(pending, view.version);
            match AfterLoad(agg, pending, request, view)
            case Answer(reply, next) =>
              && (next == pending || next == held)
              && (reply.Accepted? ==> ReceiptOf(view.state, request) == Ok(Some(reply.receipt)))
              && (reply.Conflict? ==> ReceiptOf(view.state, request) == Ok(None) && request.expected != view.version)
              && (reply.Uncertain? ==> next.Some? && next.value.id == reply.command)
            case Append(record, previous) =>
              && previous == held
              && (held == None || held == Some(request))
              && record.request == request
              && request.expected == view.version
              && ReceiptOf(view.state, request) == Ok(None)
              && Decided(agg, view.state, request, view.version + 1) == Ok(record)
  {
  }

  /** Repository failures that precede the append itself. */
  predicate Definite(e: StoreError) {
    e.Encode? || e.Envelope? || e.SaveOverflow?
  }

  datatype Written = Finished(reply: Reply, pending: Option<Request>) | Reload

  function AfterAppend(agg: Aggregate, view: View, record: Record, previous: Option<Request>, outcome: Outcome): Written {
    var request := record.request;
    match outcome
    case AppendTimeout => Finished(Uncertain(request.id, None), Some(request))
    case Saved =>
      var observed := ReceiptOf(Applied(agg, view.state, record), request);
      if observed.Ok? && observed.value.Some? then Finished(Accepted(observed.value.value), None)
      else Finished(Uncertain(request.id, Some(CorruptAcceptance)), Some(request))
    case AppendError(e) =>
      if e.CasConflict? then Reload
      else if Definite(e) then
        var failed := Failure(previous, Store(e));
        Finished(failed.reply, failed.pending)
      else Finished(Uncertain(request.id, Some(Store(e))), Some(request))
  }

  function AfterReload(request: Request, view: View): Reply {
    var existing := ReceiptOf(view.state, request);
    if existing.Err? then Mismatched
    else if existing.value.Some? then Accepted(existing.value.value)
    else Conflict
  }

  function AfterRead(pending: Option<Request>, view: View): (Reply, Option<Request>) {
    var held := Unsettled(pending, view.version);
    if held.Some? then (Uncertain(held.value.id, None), held)
    else (Value(view.version, view.state.domain), None)
  }

  /** A known original is readable whatever else is unsettled. */
  function AfterLookup(pending: Option<Request>, id: Id, view: View): (Reply, Option<Request>) {
    var held := Unsettled(pending, view.version);
    var original := Original(view.state, id);
    if original.None? && held.Some? then (Uncertain(held.value.id, None), held)
    else (Found(original), held)
  }

  // ----- whole calls ------------------------------------------------------------

  function Submitted(agg: Aggregate, pending: Option<Request>, request: Request,
                     fetch: Fetch, outcome: Outcome, refetch: Fetch): (Reply, Option<Request>)
  {
    var view := Loaded(agg, fetch);
    if view.Err? then (view.error, pending)
    else
      match AfterLoad(agg, pending, request, view.value)
      case Answer(reply, next) => (reply, next)
      case Append(record, previous) =>
        match AfterAppend(agg, view.value, record, previous, outcome)
        case Finished(reply, next) => (reply, next)
        case Reload =>
          var again := Loaded(agg, refetch);
          if again.Err? then (again.error, None) else (AfterReload(request, again.value), None)
  }

  class Handoff {
    var slot: Option<Request>

    constructor ()
      ensures slot == None
    {
      slot := None;
    }

    /** The worker's final report takes whatever the dropped engine left. */
    method Report() returns (uncertain: Option<Request>)
      modifies this
      ensures uncertain == old(slot) && slot == None
    {
      uncertain := slot;
      slot := None;
    }
  }

  class Engine {
    const agg: Aggregate
    const handoff: Handoff
    var pending: Option<Request>

    constructor (agg: Aggregate, pending: Option<Request>, handoff: Handoff)
      ensures this.agg == agg && this.pending == pending && this.handoff == handoff
    {
      this.agg := agg;
      this.pending := pending;
      this.handoff := handoff;
    }

    method ReplacePending(next: Option<Request>) returns (previous: Option<Request>)
      modifies this`pending
      ensures previous == old(pending) && pending == next
    {
      previous := pending;
      pending := next;
    }

    /** Dropping the engine, at whatever await, hands over the barrier. */
    method Drop()
      modifies this`pending, handoff
      ensures handoff.slot == old(pending) && pending == None
    {
      handoff.slot := pending;
      pending := None;
    }

    method Load(fetch: Fetch) returns (r: Result<AggregateRoot, Reply>)
      ensures r.Ok? <==> Loaded(agg, fetch).Ok?
      ensures r.Ok? ==> fresh(r.value) && r.value.agg == agg && r.value.Viewed() == Loaded(agg, fetch).value
      ensures r.Err? ==> r.error == Loaded(agg, fetch).error
    {
      match fetch {
        case LoadTimeout => return Err(Timeout);
        case LoadError(e) => return Err(Failed(Store(e)));
        case Rows(rows) =>
          var root := Rehydrate(agg, rows);
          if root.Err? {
            return Err(Failed(Store(root.error)));
          }
          if !root.value.state.intact {
            return Err(Corrupt);
          }
          return Ok(root.value);
      }
    }

    method Settle(version: nat) returns (settled: Option<Reply>)
      modifies this`pending
      ensures pending == Unsettled(old(pending), version)
      ensures settled == if pending.Some? then Some(Uncertain(pending.value.id, None)) else None
    {
      if pending.Some? && version <= pending.value.expected {
        return Some(Uncertain(pending.value.id, None));
      }
      var _ := ReplacePending(None);
      settled := None;
    }

    method Fail(previous: Option<Request>, cause: Cause) returns (reply: Reply)
      modifies this`pending
      ensures Failure(previous, cause) == Answer(reply, pending)
    {
      var _ := ReplacePending(previous);
      if pending.Some? {
        return Uncertain(pending.value.id, Some(cause));
      }
      reply := Failed(cause);
    }

    /** One conditional append of what the root decides; `None` is success. */
    method Write(root: AggregateRoot, request: Request, outcome: Outcome) returns (error: Option<Reply>)
      requires root.agg == agg
      modifies this`pending, root
      ensures old(root.version) >= U64_MAX ==>
                error == Some(Failed(Kernel(VersionOverflow))) && pending == old(pending)
      ensures old(root.version) < U64_MAX ==>
                var decided := Decided(agg, old(root.state), request, old(root.version) + 1);
                if decided.Err? then
                  error.Some? && Failure(old(pending), Decision(decided.error)) == Answer(error.value, pending)
                else match outcome
                  case Saved =>
                    && error == None
                    && pending == Some(request)
                    && root.state == Applied(agg, old(root.state), decided.value)
                  case AppendTimeout =>
                    error == Some(Uncertain(request.id, None)) && pending == Some(request)
                  case AppendError(e) =>
                    if e.CasConflict? then error == Some(Conflict) && pending == None
                    else if Definite(e) then
                      error.Some? && Failure(old(pending), Store(e)) == Answer(error.value, pending)
                    else error == Some(Uncertain(request.id, Some(Store(e)))) && pending == Some(request)
    {
      if root.version >= U64_MAX {
        return Some(Failed(Kernel(VersionOverflow)));
      }
      var version := root.version + 1;
      var previous := ReplacePending(Some(request));
      var decided := Decided(agg, root.state, request, version);
      if decided.Err? {
        var reply := Fail(previous, Decision(decided.error));
        return Some(reply);
      }
      match outcome {
        case Saved =>
          var committed := root.CommitPersisted(decided.value);
          error := None;
        case AppendTimeout => error := Some(Uncertain(request.id, None));
        case AppendError(e) =>
          if e.CasConflict? {
            var _ := ReplacePending(None);
            error := Some(Conflict);
          } else if Definite(e) {
            var reply := Fail(previous, Store(e));
            error := Some(reply);
          } else {
            error := Some(Uncertain(request.id, Some(Store(e))));
          }
      }
    }

    method Submit(request: Request, fetch: Fetch, outcome: Outcome, refetch: Fetch) returns (reply: Reply)
      modifies this`pending
      ensures (reply, pending) == Submitted(agg, old(pending), request, fetch, outcome, refetch)
    {
      var loaded := Load(fetch);
      if loaded.Err? {
        return loaded.error;
      }
      var root := loaded.value;
      var existing := ReceiptOf(root.state, request);
      if existing.Err? {
        return Mismatched;
      }
      var canRetry := pending == Some(request) && request.expected == root.version;
      var settled := Settle(root.version);
      if existing.value.Some? {
        return Accepted(existing.value.value);
      }
      if pending.Some? && pending.value.id == request.id && pending.value != request {
        return Mismatched;
      }
      if settled.Some? && !canRetry {
        return settled.value;
      }
      if request.expected != root.version {
        return Conflict;
      }
      var error := Write(root, request, outcome);
      if error == Some(Conflict) {
        var reloaded := Load(refetch);
        if reloaded.Err? {
          return reloaded.error;
        }
        var found := ReceiptOf(reloaded.value.state, request);
        if found.Err? {
          return Mismatched;
        }
        return if found.value.Some? then Accepted(found.value.value) else Conflict;
      }
      if error.Some? {
        return error.value;
      }
      var observed := ReceiptOf(root.state, request);
      if observed.Err? || observed.value.None? {
        return Uncertain(request.id, Some(CorruptAcceptance));
      }
      var _ := ReplacePending(None);
      reply := Accepted(observed.value.value);
    }

    method Read(fetch: Fetch) returns (reply: Reply)
      modifies this`pending
      ensures var view := Loaded(agg, fetch);
              if view.Err? then reply == view.error && pending == old(pending)
              else (reply, pending) == AfterRead(old(pending), view.value)
    {
      var loaded := Load(fetch);
      if loaded.Err? {
        return loaded.error;
      }
      var settled := Settle(loaded.value.version);
      if settled.Some? {
        return settled.value;
      }
      reply := Value(loaded.value.version, loaded.value.state.domain);
    }

    method Lookup(id: Id, fetch: Fetch) returns (reply: Reply)
      modifies this`pending
      ensures var view := Loaded(agg, fetch);
              if view.Err? then reply == view.error && pending == old(pending)
              else (reply, pending) == AfterLookup(old(pending), id, view.value)
    {
      var loaded := Load(fetch);
      if loaded.Err? {
        return loaded.error;
      }
      var original := Original(loaded.value.state, id);
      var settled := Settle(loaded.value.version);
      if original.None? && settled.Some? {
        return settled.value;
      }
      reply := Found(original);
    }

    /** Retry the held original, or else the one the stream remembers. */
    method Retry(id: Id, lookup: Fetch, fetch: Fetch, outcome: Outcome, refetch: Fetch) returns (reply: Reply)
      modifies this`pending
      ensures old(pending).Some? && old(pending).value.id == id ==>
                (reply, pending) == Submitted(agg, old(pending), old(pending).value, fetch, outcome, refetch)
      ensures !(old(pending).Some? && old(pending).value.id == id) ==>
                var view := Loaded(agg, lookup);
                if view.Err? then reply == view.error && pending == old(pending)
                else
                  var (found, held) := AfterLookup(old(pending), id, view.value);
                  if found.Found? && found.original.Some? then
                    (reply, pending) == Submitted(agg, held, found.original.value, fetch, outcome, refetch)
                  else
                    pending == held && reply == (if found.Found? then Unknown else found)
    {
      if pending.Some? && pending.value.id == id {
        reply := Submit(pending.value, fetch, outcome, refetch);
        return;
      }
      reply := Lookup(id, lookup);
      if reply.Found? {
        if reply.original.None? {
          return Unknown;
        }
        reply := Submit(reply.original.value, fetch, outcome, refetch);
      }
    }
  }

  /** Shutting an engine down and resuming from its report: the next engine starts
      with exactly the request the first one held, nothing is left behind in the
      handoff, and neither engine's handoff is the other's. */
  method Resume(engine: Engine) returns (report: Option<Request>, next: Engine)
    modifies engine, engine.handoff
    ensures report == old(engine.pending) && engine.handoff.slot == None
    ensures fresh(next) && fresh(next.handoff) && next.agg == engine.agg
    ensures next.pending == old(engine.pending) && next.handoff.slot == None
  {
    engine.Drop();
    report := engine.handoff.Report();
    var handoff := new Handoff();
    next := new Engine(engine.agg, report, handoff);
  }
}
