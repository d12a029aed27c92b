/** Row- and byte-bounded pages over an ordered row list. */
module PostgresPage {
  import opened Wrappers

  const I64_MAX: nat := 0x7FFF_FFFF_FFFF_FFFF

  /** `rows` and `bytes` are nonzero types in the original. */
  datatype Limits = Limits(rows: nat, bytes: nat)

  predicate Usable(limits: Limits) {
    0 < limits.rows && 0 < limits.bytes
  }

  datatype SizeError = SizeOverflow | RowLimit(actual: nat, limit: nat)

  function Sum(sizes: seq<nat>): nat {
    if sizes == [] then 0 else Sum(sizes[..|sizes| - 1]) + sizes[|sizes| - 1]
  }

  // ----- the write-side limit ---------------------------------------------------

  /** Bytes the page query accounts to a row: four scalars and the variable fields. */
  function RowBytes(lengths: seq<nat>): nat {
    32 + Sum(lengths)
  }

  lemma {:induction false} SumPrefix(sizes: seq<nat>, k: nat)
    requires k <= |sizes|
    ensures Sum(sizes[..k]) <= Sum(sizes)
    decreases |sizes|
  {
    if k == |sizes| {
      assert sizes[..k] == sizes;
    } else {
      var init := sizes[..|sizes| - 1];
      assert init[..k] == sizes[..k];
      SumPrefix(init, k);
    }
  }

  predicate Within(lengths: seq<nat>, limits: Limits) {
    RowBytes(lengths) <= limits.bytes
  }

  /** Why a row is refused: its size, where that has a signed 64-bit value at all. */
  function Refusal(lengths: seq<nat>, limits: Limits): SizeError {
    if RowBytes(lengths) <= I64_MAX then RowLimit(RowBytes(lengths), limits.bytes) else SizeOverflow
  }

  /** The append's size check, in checked 64-bit arithmetic: it accepts exactly the
      rows whose accounted bytes are within the limit. */
  method ValidateBytes(lengths: seq<nat>, limits: Limits) returns (r: Result<(), SizeError>)
    requires limits.bytes < I64_MAX
    ensures r.Ok? <==> RowBytes(lengths) <= limits.bytes
    ensures limits.bytes < RowBytes(lengths) <= I64_MAX ==> r == Err(RowLimit(RowBytes(lengths), limits.bytes))
    ensures I64_MAX < RowBytes(lengths) ==> r == Err(SizeOverflow)
  {
    var total := 32;
    for i := 0 to |lengths|
      invariant total == 32 + Sum(lengths[..i]) <= I64_MAX
    {
      assert lengths[..i + 1][..i] == lengths[..i];
      SumPrefix(lengths, i + 1);
      if lengths[i] > I64_MAX || total + lengths[i] > I64_MAX {
        return Err(SizeOverflow);
      }
      total := total + lengths[i];
    }
    assert lengths[..|lengths|] == lengths;
    if total > limits.bytes {
      return Err(RowLimit(total, limits.bytes));
    }
    r := Ok(());
  }

  // ----- the page query -----------------------------------------------------------

  /** How many candidates the row limit leaves. */
  function Candidates(sizes: seq<nat>, limits: Limits): nat {
    if |sizes| < limits.rows then |sizes| else limits.rows
  }

  /** The ordinals the query keeps, in order, out of the first `n` candidates. */
  function Kept(sizes: seq<nat>, limits: Limits, n: nat): seq<nat>
    requires n <= |sizes|
  {
    if n == 0 then []
    else
      var init := Kept(sizes, limits, n - 1);
      if Sum(sizes[..n]) <= limits.bytes || n == 1 then init + [n - 1] else init
  }

  /** The page as row indices. */
  function Page(sizes: seq<nat>, limits: Limits): seq<nat> {
    Kept(sizes, limits, Candidates(sizes, limits))
  }

  ghost function UpTo(n: nat): seq<nat> {
    seq(n, i => i)
  }

  lemma {:induction false} KeptIsPrefix(sizes: seq<nat>, limits: Limits, n: nat)
    requires n <= |sizes|
    ensures exists k :: 0 <= k <= n && Kept(sizes, limits, n) == UpTo(k)
                        && (n > 0 ==> k > 0)
                        && (forall j :: 1 < j <= k ==> Sum(sizes[..j]) <= limits.bytes)
                        && (forall j :: k < j <= n ==> Sum(sizes[..j]) > limits.bytes)
  {
    if n == 0 {
      assert Kept(sizes, limits, n) == UpTo(0);
    } else {
      KeptIsPrefix(sizes, limits, n - 1);
      var k :| 0 <= k <= n - 1 && Kept(sizes, limits, n - 1) == UpTo(k)
               && (n - 1 > 0 ==> k > 0)
               && (forall j :: 1 < j <= k ==> Sum(sizes[..j]) <= limits.bytes)
               && (forall j :: k < j <= n - 1 ==> Sum(sizes[..j]) > limits.bytes);
      assert sizes[..n][..n - 1] == sizes[..n - 1];
      if Sum(sizes[..n]) <= limits.bytes || n == 1 {
        assert k == n - 1;
        assert Kept(sizes, limits, n) == UpTo(n);
      }
    }
  }

  /** A page is a nonempty prefix of what remains, within both limits unless it is
      the single leading row that alone exceeds the byte limit, and the longest such. */
  lemma PageIsPrefix(sizes: seq<nat>, limits: Limits)
    requires Usable(limits)
    ensures var page := Page(sizes, limits);
            && |page| <= |sizes|
            && page == UpTo(|page|)
            && |page| <= limits.rows
            && (sizes != [] ==> 0 < |page|)
            && (Sum(sizes[..|page|]) <= limits.bytes || (|page| == 1 && sizes[0] > limits.bytes))
            && (|page| < |sizes| && |page| < limits.rows ==> Sum(sizes[..|page| + 1]) > limits.bytes)
  {
    var n := Candidates(sizes, limits);
    KeptIsPrefix(sizes, limits, n);
    var page := Page(sizes, limits);
    if |page| == 1 {
      assert sizes[..1] == [sizes[0]];
      assert Sum([sizes[0]]) == sizes[0] + Sum([sizes[0]][..0]);
    }
  }

  // ----- a whole paged read ---------------------------------------------------------

  ghost predicate Fits(sizes: seq<nat>, limits: Limits, n: nat)
    requires n <= |sizes|
  {
    forall i :: 0 <= i < n ==> sizes[i] <= limits.bytes
  }

  /** Read a list page by page, stopping at the first row too large to transfer:
      it delivers every row before that one, in order, and reports that one. */
  method ReadPages<T>(rows: seq<T>, sizes: seq<nat>, limits: Limits)
    returns (delivered: seq<T>, error: Option<SizeError>)
    requires |sizes| == |rows| && Usable(limits)
    ensures delivered <= rows && Fits(sizes, limits, |delivered|)
    ensures error.None? ==> delivered == rows
    ensures error.None? <==> Fits(sizes, limits, |rows|)
    ensures error.Some? ==>
              && |delivered| < |rows|
              && sizes[|delivered|] > limits.bytes
              && error.value == RowLimit(sizes[|delivered|], limits.bytes)
  {
    delivered := [];
    while |delivered| < |rows|
      invariant |delivered| <= |rows| && delivered == rows[..|delivered|]
      invariant Fits(sizes, limits, |delivered|)
      decreases |rows| - |delivered|
    {
      var start := |delivered|;
      var page := Page(sizes[start..], limits);
      PageIsPrefix(sizes[start..], limits);
      for i := 0 to |page|
        invariant |delivered| == start + i <= |rows| && delivered == rows[..start + i]
        invariant Fits(sizes, limits, start + i)
      {
        var k := start + page[i];
        if sizes[k] > limits.bytes {
          return delivered, Some(RowLimit(sizes[k], limits.bytes));
        }
        delivered := delivered + [rows[k]];
      }
    }
    return delivered, None;
  }
}
