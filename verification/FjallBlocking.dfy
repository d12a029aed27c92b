/** Batched reads on the worker: a stream that fetches rows in bounded batches and
    one that reopens its scan for every batch. */
module FjallBlocking {
  import opened Wrappers

  const USIZE_MAX: nat := U64_MAX

  datatype Error<E> = Failed(fault: E) | ScanLengthOverflow

  /** One cursor step; `key` is the version the row is stored under. */
  datatype Row<T, E> = Row(key: nat, item: Result<T, Error<E>>, size: nat)

  /** Nonzero types in the original. */
  datatype Config = Config(rows: nat, bytes: nat)

  predicate Usable(config: Config) {
    0 < config.rows && 0 < config.bytes
  }

  function FirstError<T, E>(cursor: seq<Row<T, E>>, i: nat): (r: nat)
    requires i <= |cursor|
    ensures i <= r <= |cursor|
    ensures forall j :: i <= j < r ==> cursor[j].item.Ok?
    ensures r < |cursor| ==> cursor[r].item.Err?
    decreases |cursor| - i
  {
    if i == |cursor| || cursor[i].item.Err? then i else FirstError(cursor, i + 1)
  }

  function Taken<T, E>(cursor: seq<Row<T, E>>, n: nat): seq<Result<T, Error<E>>>
    requires n <= |cursor|
  {
    seq(n, i requires 0 <= i < n => cursor[i].item)
  }

  /** What the plain cursor yields: its rows up to and including the first error. */
  function Plain<T, E>(cursor: seq<Row<T, E>>): seq<Result<T, Error<E>>> {
    var end := FirstError(cursor, 0);
    Taken(cursor, if end < |cursor| then end + 1 else end)
  }

  /** No row's size can overflow the byte count of a batch. */
  predicate Countable<T, E>(cursor: seq<Row<T, E>>, config: Config) {
    forall i :: 0 <= i < |cursor| ==> config.bytes + cursor[i].size <= USIZE_MAX
  }

  function Rest<T, E>(cursor: Option<seq<Row<T, E>>>): seq<Result<T, Error<E>>> {
    if cursor.None? then [] else Plain(cursor.value)
  }

  /** The first `n` rows are good. */
  ghost predicate Good<T, E>(cursor: seq<Row<T, E>>, n: nat) {
    n <= |cursor| && forall i :: 0 <= i < n ==> cursor[i].item.Ok?
  }

  lemma PlainSplits<T, E>(cursor: seq<Row<T, E>>, n: nat)
    requires Good(cursor, n)
    ensures Plain(cursor) == Taken(cursor, n) + Plain(cursor[n..])
  {
  }

  /** The plain rows up to one whose size overflows the count, then the error. */
  ghost predicate Overflowed<T, E>(rows: seq<Result<T, Error<E>>>, cursor: seq<Row<T, E>>) {
    rows != [] && rows[|rows| - 1] == Err(ScanLengthOverflow) && rows[..|rows| - 1] < Plain(cursor)
  }

  /** How the plain rows go on after `n` good ones. */
  lemma PlainAt<T, E>(cursor: seq<Row<T, E>>, n: nat)
    requires Good(cursor, n)
    ensures n == |cursor| ==> Plain(cursor) == Taken(cursor, n)
    ensures n < |cursor| && cursor[n].item.Err? ==> Plain(cursor) == Taken(cursor, n) + [cursor[n].item]
    ensures n < |cursor| ==> Overflowed(Taken(cursor, n) + [Err(ScanLengthOverflow)], cursor)
  {
  }

  lemma ReadNone<T, E>(cursor: seq<Row<T, E>>)
    ensures Good(cursor, 0) && Taken(cursor, 0) == []
  {
  }

  lemma ReadNext<T, E>(cursor: seq<Row<T, E>>, n: nat)
    requires Good(cursor, n) && n < |cursor| && cursor[n].item.Ok?
    ensures Good(cursor, n + 1) && Taken(cursor, n + 1) == Taken(cursor, n) + [cursor[n].item]
  {
  }

  lemma CountsRow<T, E>(cursor: seq<Row<T, E>>, config: Config, n: nat)
    requires n < |cursor|
    ensures Countable(cursor, config) ==> config.bytes + cursor[n].size <= USIZE_MAX
  {
  }

  lemma Lengths<T, E>(cursor: seq<Row<T, E>>, n: nat)
    requires Good(cursor, n)
    ensures n <= |cursor| && |Taken(cursor, n)| == n
  {
  }

  /** Bytes of the first `n` rows. */
  function Size<T, E>(cursor: seq<Row<T, E>>, n: nat): nat
    requires n <= |cursor|
  {
    if n == 0 then 0 else Size(cursor, n - 1) + cursor[n - 1].size
  }

  /** A batch is within the row limit, and all but its last row within the byte limit. */
  ghost predicate Bounded<T, E>(cursor: seq<Row<T, E>>, config: Config, n: nat) {
    n <= |cursor| && n <= config.rows && (0 < n ==> Size(cursor, n - 1) < config.bytes)
  }

  /** It stopped because one of the limits was reached. */
  ghost predicate Filled<T, E>(cursor: seq<Row<T, E>>, config: Config, n: nat) {
    n <= |cursor| && (n == config.rows || Size(cursor, n) >= config.bytes)
  }

  /** Fetch one batch. The batch and what is left give the plain rows; a batch that
      leaves something is not empty and filled one of the limits; counting overflow
      ends the scan with an error in place of the row at hand. */
  method Fetch<T, E>(cursor: seq<Row<T, E>>, config: Config) returns (rest: Option<seq<Row<T, E>>>, rows: seq<Result<T, Error<E>>>)
    requires Usable(config)
    ensures rest.Some? ==> rows != [] && |rows| <= |cursor| && rest.value == cursor[|rows|..]
    ensures Bounded(cursor, config, |rows|) && (rest.Some? ==> Filled(cursor, config, |rows|))
    ensures Countable(cursor, config) ==> rows + Rest(rest) == Plain(cursor)
    ensures rows + Rest(rest) == Plain(cursor) || (rest.None? && Overflowed(rows, cursor))
  {
    hide Plain, Taken, Good, Overflowed, Countable;
    var bytes := 0;
    rows := [];
    var n := 0;
    ReadNone(cursor);
    while n < config.rows
      invariant n <= |cursor| && Good(cursor, n) && rows == Taken(cursor, n)
      invariant bytes == Size(cursor, n) < config.bytes && Bounded(cursor, config, n)
    {
      PlainAt(cursor, n);
      Lengths(cursor, n);
      if n == |cursor| {
        return None, rows;
      }
      var row := cursor[n];
      CountsRow(cursor, config, n);
      if row.item.Err? {
        return None, rows + [row.item];
      }
      if bytes + row.size > USIZE_MAX {
        return None, rows + [Err(ScanLengthOverflow)];
      }
      ReadNext(cursor, n);
      rows := rows + [row.item];
      bytes := bytes + row.size;
      n := n + 1;
      if bytes >= config.bytes {
        break;
      }
    }
    PlainSplits(cursor, n);
    Lengths(cursor, n);
    assert Filled(cursor, config, n);
    return Some(cursor[n..]), rows;
  }

  datatype Poll<T, E> = Pending | Ready(item: Option<Result<T, Error<E>>>)

  /** How the submitted batch stands when the stream is polled. */
  datatype Worker<E> = Busy | Done | Broken(fault: E)

  /** The batched stream. `pending` holds the cursor while a batch is out. */
  class BlockingStream<T, E> {
    const config: Config
    var cursor: Option<seq<Row<T, E>>>
    var rows: seq<Result<T, Error<E>>>
    var pending: Option<seq<Row<T, E>>>

    ghost predicate Valid()
      reads this
    {
      && Usable(config)
      && !(cursor.Some? && pending.Some?)
      && (pending.Some? ==> rows == [])
    }

    /** The rows not fetched yet, whoever holds them. */
    ghost function Source(): Option<seq<Row<T, E>>>
      reads this
    {
      if cursor.Some? then cursor else pending
    }

    /** Nothing is buffered, held or out: the stream has ended. */
    ghost predicate Spent()
      reads this
    {
      rows == [] && cursor.None? && pending.None?
    }

    /** What the stream has still to yield. */
    ghost function Items(): seq<Result<T, Error<E>>>
      reads this
    {
      rows + Rest(Source())
    }

    constructor (cursor: seq<Row<T, E>>, config: Config)
      requires Usable(config)
      ensures Valid() && Items() == Plain(cursor) && Source() == Some(cursor)
    {
      this.config := config;
      this.cursor := Some(cursor);
      rows := [];
      pending := None;
    }

    /** Each poll yields the next plain row; it ends only when nothing is left and
        then stays ended. A broken worker puts its error in place of the rest, and so
        does a batch in which a row's size overflows the byte count. */
    method PollNext(worker: Worker<E>) returns (poll: Poll<T, E>)
      requires Valid()
      modifies this
      ensures Valid()
      ensures poll.Pending? ==> Items() == old(Items())
      ensures poll == Ready(None) ==> old(Items()) == [] && Items() == []
      ensures poll.Ready? && poll.item.Some? ==>
                || old(Items()) == [poll.item.value] + Items()
                || (worker.Broken? && poll.item.value == Err(Failed(worker.fault)) && Items() == [])
                || (old(rows) == [] && old(Source()).Some? && !Countable(old(Source()).value, config)
                    && Source() == None && Overflowed([poll.item.value] + Items(), old(Source()).value))
      ensures Source().Some? ==>
                && old(Source()).Some?
                && |Source().value| <= |old(Source()).value|
                && Source().value == old(Source()).value[|old(Source()).value| - |Source().value|..]
      ensures !worker.Busy? ==> poll.Ready?
      ensures poll == Ready(None) ==> Spent()
      ensures old(Spent()) ==> poll == Ready(None)
    {
      hide Plain, Countable, Bounded, Filled, Size;
      if rows != [] {
        poll := Ready(Some(rows[0]));
        rows := rows[1..];
        return;
      }
      if pending.None? {
        if cursor.None? {
          return Ready(None);
        }
        pending := cursor;
        cursor := None;
      }
      match worker {
        case Busy =>
          return Pending;
        case Done =>
          var rest, batch := Fetch(pending.value, config);
          cursor, rows, pending := rest, batch, None;
        case Broken(fault) =>
          cursor, rows, pending := None, [Err(Failed(fault))], None;
      }
      if rows == [] {
        return Ready(None);
      }
      assert rows == [rows[0]] + rows[1..];
      poll := Ready(Some(rows[0]));
      rows := rows[1..];
      assert cursor.None? ==> Items() == rows;
    }
  }

  // ----- reopening after the last key ---------------------------------------------------

  /** Rows of a snapshot, by version. */
  ghost predicate Keyed<T, E>(snapshot: seq<Row<T, E>>) {
    && (forall i, j :: 0 <= i < j < |snapshot| ==> snapshot[i].key < snapshot[j].key)
    && (forall i :: 0 <= i < |snapshot| ==> snapshot[i].key <= U64_MAX)
  }

  /** The first row at or above a version. */
  function FirstAt<T, E>(snapshot: seq<Row<T, E>>, from: nat, i: nat): (r: nat)
    requires i <= |snapshot|
    ensures i <= r <= |snapshot|
    ensures forall j :: i <= j < r ==> snapshot[j].key < from
    ensures r < |snapshot| ==> from <= snapshot[r].key
    decreases |snapshot| - i
  {
    if i == |snapshot| || snapshot[i].key >= from then i else FirstAt(snapshot, from, i + 1)
  }

  /** Open the scan at a version. */
  function Opened<T, E>(snapshot: seq<Row<T, E>>, from: nat): seq<Row<T, E>> {
    snapshot[FirstAt(snapshot, from, 0)..]
  }

  /** Opening at the version after a row gives the rows behind it. */
  lemma ReopensBehind<T, E>(snapshot: seq<Row<T, E>>, i: nat)
    requires Keyed(snapshot) && i < |snapshot|
    ensures FirstAt(snapshot, snapshot[i].key + 1, 0) == i + 1
  {
    assert i + 1 < |snapshot| ==> snapshot[i].key < snapshot[i + 1].key;
  }

  function Reopened<T, E>(snapshot: seq<Row<T, E>>, next: Option<nat>): seq<Result<T, Error<E>>> {
    if next.None? then [] else Plain(Opened(snapshot, next.value))
  }

  /** The rows of one batch and where to reopen; a row at the version ceiling ends
      the scan. */
  method ExportBatch<T, E>(cursor: seq<Row<T, E>>, from: nat, config: Config)
    returns (next: Option<nat>, rows: seq<Result<T, Error<E>>>)
    requires Usable(config) && Keyed(cursor)
    ensures next.Some? ==>
              && 0 < |rows| <= |cursor|
              && Good(cursor, |rows|)
              && rows == Taken(cursor, |rows|)
              && next.value == cursor[|rows| - 1].key + 1
    ensures next.None? && Countable(cursor, config) ==> rows == Plain(cursor)
    ensures next.None? ==> rows == Plain(cursor) || Overflowed(rows, cursor)
    ensures Bounded(cursor, config, |rows|) && (next.Some? ==> Filled(cursor, config, |rows|))
  {
    hide Plain, Taken, Good, Overflowed, Countable, Keyed;
    var bytes, n := 0, 0;
    rows := [];
    next := Some(from);
    ReadNone(cursor);
    while n < config.rows
      invariant n <= |cursor| && Good(cursor, n) && rows == Taken(cursor, n)
      invariant bytes == Size(cursor, n) < config.bytes && Bounded(cursor, config, n)
      invariant next.Some? && (n > 0 ==> next.value == cursor[n - 1].key + 1)
    {
      PlainAt(cursor, n);
      Lengths(cursor, n);
      if n == |cursor| {
        return None, rows;
      }
      var row := cursor[n];
      CountsRow(cursor, config, n);
      if row.item.Err? {
        return None, rows + [row.item];
      }
      if bytes + row.size > USIZE_MAX {
        return None, rows + [Err(ScanLengthOverflow)];
      }
      ReadNext(cursor, n);
      rows := rows + [row.item];
      if n + 1 < |cursor| {
        BelowCeiling(cursor, n);
      }
      PlainAt(cursor, n + 1);
      Lengths(cursor, n + 1);
      if row.key >= U64_MAX {
        return None, rows;
      }
      next := Some(row.key + 1);
      bytes := bytes + row.size;
      n := n + 1;
      if bytes >= config.bytes {
        break;
      }
    }
    Lengths(cursor, n);
  }

  /** One batch of an export: open behind the last row handed out, on the same
      snapshot. The batch and what reopening gives are the plain rows. */
  method ExportFetch<T, E>(snapshot: seq<Row<T, E>>, from: nat, config: Config)
    returns (next: Option<nat>, rows: seq<Result<T, Error<E>>>)
    requires Usable(config) && Keyed(snapshot)
    ensures next.Some? ==> FirstAt(snapshot, from, 0) < FirstAt(snapshot, next.value, 0)
    ensures Countable(snapshot, config) ==> rows + Reopened(snapshot, next) == Plain(Opened(snapshot, from))
    ensures rows + Reopened(snapshot, next) == Plain(Opened(snapshot, from)) || (next.None? && Overflowed(rows, Opened(snapshot, from)))
  {
    hide Plain, FirstAt, Taken, Good, Countable, Keyed;
    var start := FirstAt(snapshot, from, 0);
    var cursor := snapshot[start..];
    SuffixKeeps(snapshot, start, config);
    next, rows := ExportBatch(cursor, from, config);
    if next.Some? {
      var n := |rows|;
      ReopensBehind(snapshot, start + n - 1);
      PlainSplits(cursor, n);
      assert cursor[n..] == snapshot[start + n..];
    }
  }

  lemma SuffixKeeps<T, E>(snapshot: seq<Row<T, E>>, start: nat, config: Config)
    requires start <= |snapshot| && Keyed(snapshot)
    ensures Keyed(snapshot[start..])
    ensures Countable(snapshot, config) ==> Countable(snapshot[start..], config)
  {
  }

  lemma BelowCeiling<T, E>(snapshot: seq<Row<T, E>>, i: nat)
    requires Keyed(snapshot) && i + 1 < |snapshot|
    ensures snapshot[i].key < U64_MAX
  {
    assert snapshot[i].key < snapshot[i + 1].key;
  }

  lemma NothingLeft<T, E>(snapshot: seq<Row<T, E>>)
    ensures Reopened(snapshot, None) == []
  {
  }

  lemma ReopenedAt<T, E>(snapshot: seq<Row<T, E>>, from: nat)
    ensures Reopened(snapshot, Some(from)) == Plain(Opened(snapshot, from))
  {
  }

  /** An overflow behind rows already handed out. */
  lemma OverflowBehind<T, E>(before: seq<Result<T, Error<E>>>, batch: seq<Result<T, Error<E>>>,
                             cursor: seq<Row<T, E>>, whole: seq<Row<T, E>>)
    requires Overflowed(batch, cursor) && Plain(whole) == before + Plain(cursor)
    ensures Overflowed(before + batch, whole)
  {
    hide Plain;
    assert (before + batch)[..|before + batch| - 1] == before + batch[..|batch| - 1];
  }

  /** A whole export of one stream, batch after batch, gives the plain rows, up to a row
      whose size overflows the byte count if there is one. */
  method Export<T, E>(snapshot: seq<Row<T, E>>, from: nat, config: Config) returns (rows: seq<Result<T, Error<E>>>)
    requires Usable(config) && Keyed(snapshot)
    ensures Countable(snapshot, config) ==> rows == Plain(Opened(snapshot, from))
    ensures rows == Plain(Opened(snapshot, from)) || Overflowed(rows, Opened(snapshot, from))
  {
    hide Plain, FirstAt, Opened, Keyed, Countable, Reopened, Overflowed;
    NothingLeft(snapshot);
    rows := [];
    var next := Some(from);
    ReopenedAt(snapshot, from);
    assert [] + Reopened(snapshot, next) == Reopened(snapshot, next);
    while next.Some?
      invariant rows + Reopened(snapshot, next) == Plain(Opened(snapshot, from)) ||
                (next.None? && !Countable(snapshot, config) && Overflowed(rows, Opened(snapshot, from)))
      decreases if next.None? then 0 else |snapshot| - FirstAt(snapshot, next.value, 0) + 1
    {
      var batch;
      ghost var before, cursor := rows, Opened(snapshot, next.value);
      ReopenedAt(snapshot, next.value);
      next, batch := ExportFetch(snapshot, next.value, config);
      rows := rows + batch;
      assert before + (batch + Reopened(snapshot, next)) == rows + Reopened(snapshot, next);
      if Overflowed(batch, cursor) {
        OverflowBehind(before, batch, cursor, Opened(snapshot, from));
      }
    }
  }
}
