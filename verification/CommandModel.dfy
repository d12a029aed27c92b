/** Acceptance records of one aggregate stream and the state folded from them.

    An `Option<Version>` is a `nat`: 0 stands for `None`, an empty stream, which
    keeps the order of the original type. Ids, commands, facts and domain states
    are uninterpreted, so every result holds for every application. */
module CommandModel {
  import opened Wrappers

  type Id(==, !new)
  type Command(==, !new)
  type Fact(==, !new)
  type Domain(==, !new)
  type Rejection(==, !new)

  /** Physical records one stream may hold; also its rehydration limit. */
  const MAX_ACCEPTED: nat := 4096

  /** The application: initial state, evolve, decide, how many facts beyond the
      first one command may decide, and its cumulative fact limit. */
  datatype Aggregate = Aggregate(
    initial: Domain,
    evolve: (Domain, Fact) -> Domain,
    decide: (Domain, Command) -> Result<seq<Fact>, Rejection>,
    tail: nat,
    limit: nat)

  datatype Request = Request(id: Id, expected: nat, command: Command)

  datatype Receipt = Receipt(id: Id, version: nat, events: nat)

  datatype Record = Record(schema: nat, request: Request, receipt: Receipt, facts: seq<Fact>)

  datatype State = State(
    domain: Domain,
    receipts: map<Id, (Request, Receipt)>,
    facts: nat,
    intact: bool)

  datatype DecisionError = Rejected(cause: Rejection) | HistoryFull | ReplayLimit(maximum: nat)

  datatype Mismatch = Mismatch

  function Initial(agg: Aggregate): State {
    State(agg.initial, map[], 0, true)
  }

  /** The receipt accepted for exactly this request, if the id is known at all. */
  function ReceiptOf(st: State, request: Request): Result<Option<Receipt>, Mismatch> {
    if request.id !in st.receipts then Ok(None)
    else if st.receipts[request.id].0 == request then Ok(Some(st.receipts[request.id].1))
    else Err(Mismatch.Mismatch)
  }

  function Original(st: State, id: Id): Option<Request> {
    if id in st.receipts then Some(st.receipts[id].0) else None
  }

  function Total(agg: Aggregate, st: State, count: nat): Option<nat> {
    if count > agg.tail + 1 || st.facts + count > agg.limit then None
    else Some(st.facts + count)
  }

  function Evolve(agg: Aggregate, d: Domain, facts: seq<Fact>): Domain {
    if facts == [] then d
    else agg.evolve(Evolve(agg, d, facts[..|facts| - 1]), facts[|facts| - 1])
  }

  function Applied(agg: Aggregate, st: State, record: Record): State {
    if !st.intact || record.request.id in st.receipts || Total(agg, st, |record.facts|).None? then
      st.(intact := false)
    else
      State(
        Evolve(agg, st.domain, record.facts),
        st.receipts[record.request.id := (record.request, record.receipt)],
        st.facts + |record.facts|,
        true)
  }

  /** The replay step of one record, fact by fact. */
  method Apply(agg: Aggregate, st: State, record: Record) returns (next: State)
    ensures next == Applied(agg, st, record)
  {
    if !st.intact || record.request.id in st.receipts {
      return st.(intact := false);
    }
    var total := Total(agg, st, |record.facts|);
    if total.None? {
      return st.(intact := false);
    }
    var domain := st.domain;
    for i := 0 to |record.facts|
      invariant domain == Evolve(agg, st.domain, record.facts[..i])
    {
      assert record.facts[..i + 1][..i] == record.facts[..i];
      domain := agg.evolve(domain, record.facts[i]);
    }
    assert record.facts[..|record.facts|] == record.facts;
    next := State(domain, st.receipts[record.request.id := (record.request, record.receipt)],
                  total.value, true);
  }

  function Fold(agg: Aggregate, h: seq<Record>): State {
    if h == [] then Initial(agg)
    else Applied(agg, Fold(agg, h[..|h| - 1]), h[|h| - 1])
  }

  /** What the adapted aggregate decides for a request at the next version. */
  function Decided(agg: Aggregate, st: State, request: Request, version: nat): Result<Record, DecisionError> {
    if |st.receipts| >= MAX_ACCEPTED then Err(HistoryFull)
    else
      var facts := agg.decide(st.domain, request.command);
      if facts.Err? then Err(Rejected(facts.error))
      else if Total(agg, st, |facts.value|).None? then Err(ReplayLimit(agg.limit))
      else Ok(Record(2, request, Receipt(request.id, version, |facts.value|), facts.value))
  }

  /** The codec's checks of one stored record against its envelope's version. */
  predicate Decodes(record: Record, version: nat) {
    && record.schema == 2
    && record.receipt.version == version
    && record.request.expected < U64_MAX
    && record.receipt.version == record.request.expected + 1
    && record.receipt.id == record.request.id
    && record.receipt.events == |record.facts|
  }

  // ----- what a history promises --------------------------------------------

  /** The domain facts of a history, in order, whatever record carried them. */
  ghost function Facts(h: seq<Record>): seq<Fact> {
    if h == [] then [] else Facts(h[..|h| - 1]) + h[|h| - 1].facts
  }

  /** The promised shape: record k+1 expects version k, carries receipt k+1 and
      exactly the facts the application decides on all earlier facts; ids never
      repeat and every limit holds. */
  ghost predicate Shape(agg: Aggregate, h: seq<Record>) {
    && |h| <= MAX_ACCEPTED
    && |Facts(h)| <= (if h == [] then 0 else agg.limit)
    && (forall i, j :: 0 <= i < j < |h| ==> h[i].request.id != h[j].request.id)
    && (forall k :: 0 <= k < |h| ==>
          && h[k].schema == 2
          && h[k].request.expected == k
          && h[k].receipt == Receipt(h[k].request.id, k + 1, |h[k].facts|)
          && |h[k].facts| <= agg.tail + 1
          && agg.decide(Evolve(agg, agg.initial, Facts(h[..k])), h[k].request.command) == Ok(h[k].facts))
  }

  /** `record` is what the engine appends after the records `h`. */
  ghost predicate Follows(agg: Aggregate, h: seq<Record>, record: Record) {
    && record.request.id !in Fold(agg, h).receipts
    && record.request.expected == |h|
    && Decided(agg, Fold(agg, h), record.request, |h| + 1) == Ok(record)
  }

  /** Every record follows the records before it. */
  ghost predicate Good(agg: Aggregate, h: seq<Record>) {
    h == [] || (Good(agg, h[..|h| - 1]) && Follows(agg, h[..|h| - 1], h[|h| - 1]))
  }

  lemma {:induction false} EvolveConcat(agg: Aggregate, d: Domain, a: seq<Fact>, b: seq<Fact>)
    ensures Evolve(agg, d, a + b) == Evolve(agg, Evolve(agg, d, a), b)
    decreases |b|
  {
    if b == [] {
      assert a + b == a;
    } else {
      var init := b[..|b| - 1];
      EvolveConcat(agg, d, a, init);
      assert (a + b)[..|a + b| - 1] == a + init;
    }
  }

  ghost function Ids(h: seq<Record>): set<Id> {
    if h == [] then {} else Ids(h[..|h| - 1]) + {h[|h| - 1].request.id}
  }

  lemma {:induction false} IdAt(h: seq<Record>, id: Id) returns (k: nat)
    requires id in Ids(h)
    ensures k < |h| && h[k].request.id == id
  {
    if h[|h| - 1].request.id == id {
      k := |h| - 1;
    } else {
      k := IdAt(h[..|h| - 1], id);
    }
  }

  /** The receipts of exactly the records of the history. */
  ghost predicate Knows(receipts: map<Id, (Request, Receipt)>, h: seq<Record>) {
    && receipts.Keys == Ids(h)
    && |receipts| == |h|
    && (forall k :: 0 <= k < |h| ==>
          h[k].request.id in receipts && receipts[h[k].request.id] == (h[k].request, h[k].receipt))
  }

  lemma KnowsNext(receipts: map<Id, (Request, Receipt)>, h: seq<Record>, record: Record)
    requires Knows(receipts, h) && record.request.id !in receipts
    ensures Knows(receipts[record.request.id := (record.request, record.receipt)], h + [record])
  {
    var next := receipts[record.request.id := (record.request, record.receipt)];
    assert (h + [record])[..|h|] == h;
    assert next.Keys == receipts.Keys + {record.request.id};
  }

  lemma KnowsNothing()
    ensures Knows(map[], [])
  {
  }

  lemma KnownIds(receipts: map<Id, (Request, Receipt)>, h: seq<Record>)
    requires Knows(receipts, h)
    ensures |receipts| == |h|
  {
  }

  /** A good history replays to an intact state that knows exactly its records. */
  lemma {:induction false} GoodFold(agg: Aggregate, h: seq<Record>)
    requires Good(agg, h)
    ensures var st := Fold(agg, h);
            && st.intact
            && Knows(st.receipts, h)
            && st.facts == |Facts(h)|
            && st.domain == Evolve(agg, agg.initial, Facts(h))
  {
    hide Knows;
    KnowsNothing();
    if h != [] {
      var prior, last := h[..|h| - 1], h[|h| - 1];
      GoodFold(agg, prior);
      KnownIds(Fold(agg, prior).receipts, prior);
      EvolveConcat(agg, agg.initial, Facts(prior), last.facts);
      KnowsNext(Fold(agg, prior).receipts, prior, last);
      assert h == prior + [last];
    }
  }

  lemma {:induction false} GoodPrefix(agg: Aggregate, h: seq<Record>, k: nat)
    requires Good(agg, h) && k <= |h|
    ensures Good(agg, h[..k])
    ensures k < |h| ==> Follows(agg, h[..k], h[k])
    decreases |h|
  {
    if k == |h| {
      assert h[..k] == h;
    } else {
      var prior := h[..|h| - 1];
      GoodPrefix(agg, prior, k);
      assert prior[..k] == h[..k];
    }
  }

  lemma GoodExtends(agg: Aggregate, h: seq<Record>, record: Record)
    requires Good(agg, h) && Follows(agg, h, record)
    ensures Good(agg, h + [record])
  {
  }

  /** One record of a good history, read off the facts before it. */
  lemma GoodAt(agg: Aggregate, h: seq<Record>, k: nat)
    requires Good(agg, h) && k < |h|
    ensures |Facts(h[..k])| + |h[k].facts| <= agg.limit && k < MAX_ACCEPTED
    ensures h[k].schema == 2 && h[k].request.expected == k
    ensures h[k].receipt == Receipt(h[k].request.id, k + 1, |h[k].facts|)
    ensures |h[k].facts| <= agg.tail + 1
    ensures agg.decide(Evolve(agg, agg.initial, Facts(h[..k])), h[k].request.command) == Ok(h[k].facts)
    ensures forall i :: 0 <= i < k ==> h[i].request.id != h[k].request.id
  {
    GoodPrefix(agg, h, k);
    GoodFold(agg, h[..k]);
    assert forall i :: 0 <= i < k ==> h[..k][i] == h[i];
  }

  /** Step-wise goodness is the promised shape. */
  lemma GoodShape(agg: Aggregate, h: seq<Record>)
    requires Good(agg, h)
    ensures Shape(agg, h)
  {
    forall k | 0 <= k < |h| {
      GoodAt(agg, h, k);
    }
    if h != [] {
      GoodAt(agg, h, |h| - 1);
    }
  }

  // ----- what the stream takes next -------------------------------------------------------

  /** The facts the application decides for a command on all the facts so far. */
  ghost function Verdict(agg: Aggregate, h: seq<Record>, command: Command): Result<seq<Fact>, Rejection> {
    agg.decide(Evolve(agg, agg.initial, Facts(h)), command)
  }

  ghost predicate Unused(h: seq<Record>, id: Id) {
    forall i :: 0 <= i < |h| ==> h[i].request.id != id
  }

  /** Nothing speaks against the request but, possibly, the version it expects: there is
      room for a record, the application decides facts, and there is room for them. */
  ghost predicate Decides(agg: Aggregate, h: seq<Record>, request: Request) {
    && |h| < MAX_ACCEPTED
    && Verdict(agg, h, request.command).Ok?
    && |Verdict(agg, h, request.command).value| <= agg.tail + 1
    && |Facts(h)| + |Verdict(agg, h, request.command).value| <= agg.limit
  }

  /** The stream can take the request next. */
  ghost predicate Acceptable(agg: Aggregate, h: seq<Record>, request: Request) {
    request.expected == |h| && Unused(h, request.id) && Decides(agg, h, request)
  }

  /** The record that accepts it. */
  ghost function Accepting(agg: Aggregate, h: seq<Record>, request: Request): Record
    requires Decides(agg, h, request)
  {
    var facts := Verdict(agg, h, request.command).value;
    Record(2, request, Receipt(request.id, |h| + 1, |facts|), facts)
  }

  /** Why it is not decided: a full history first, then the application's own
      rejection, then too many facts. */
  ghost function Objection(agg: Aggregate, h: seq<Record>, request: Request): DecisionError
    requires !Decides(agg, h, request)
  {
    if |h| >= MAX_ACCEPTED then HistoryFull
    else
      var facts := Verdict(agg, h, request.command);
      if facts.Err? then Rejected(facts.error) else ReplayLimit(agg.limit)
  }

  /** On the state of a good history the decision is exactly that. */
  lemma DecidesExactly(agg: Aggregate, h: seq<Record>, request: Request)
    requires Good(agg, h)
    ensures Decided(agg, Fold(agg, h), request, |h| + 1) ==
            if Decides(agg, h, request) then Ok(Accepting(agg, h, request)) else Err(Objection(agg, h, request))
  {
    hide Fold, Good, Facts, Evolve;
    GoodFold(agg, h);
  }

  /** What a good history's state knows of an id is what its records say. */
  lemma KnowsExactly(agg: Aggregate, h: seq<Record>, request: Request)
    requires Good(agg, h)
    ensures forall k :: 0 <= k < |h| && h[k].request.id == request.id ==>
              && ReceiptOf(Fold(agg, h), request) ==
                 (if h[k].request == request then Ok(Some(h[k].receipt)) else Err(Mismatch.Mismatch))
              && Original(Fold(agg, h), request.id) == Some(h[k].request)
    ensures Unused(h, request.id) ==>
              ReceiptOf(Fold(agg, h), request) == Ok(None) && Original(Fold(agg, h), request.id) == None
  {
    hide Fold, Good, Facts, Evolve;
    GoodFold(agg, h);
    if request.id in Fold(agg, h).receipts {
      var k := IdAt(h, request.id);
    }
  }

  /** The record that follows a good history is the one that accepts its request. */
  lemma FollowsExactly(agg: Aggregate, h: seq<Record>, record: Record)
    requires Good(agg, h)
    ensures Follows(agg, h, record) <==> Acceptable(agg, h, record.request) && record == Accepting(agg, h, record.request)
  {
    hide Fold, Good, Facts, Evolve, Decided, Decides;
    DecidesExactly(agg, h, record.request);
    KnowsExactly(agg, h, record.request);
    forall k | 0 <= k < |h| && h[k].request.id == record.request.id
      ensures record.request.id in Fold(agg, h).receipts
    {
      assert Original(Fold(agg, h), record.request.id) == Some(h[k].request);
    }
  }
}
