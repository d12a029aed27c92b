/** Ordered enumerations of finite sets: what an index scan returns. */
module Ordering {
  ghost predicate StrictOrder<T(!new)>(lt: (T, T) -> bool) {
    && (forall a :: !lt(a, a))
    && (forall a, b, c :: lt(a, b) && lt(b, c) ==> lt(a, c))
  }

  ghost predicate TotalOn<T>(lt: (T, T) -> bool, elements: set<T>) {
    forall a, b :: a in elements && b in elements ==> a == b || lt(a, b) || lt(b, a)
  }

  ghost predicate Ascending<T>(lt: (T, T) -> bool, s: seq<T>) {
    forall i, j :: 0 <= i < j < |s| ==> lt(s[i], s[j])
  }

  /** `s` is the set, in order, each element once. */
  ghost predicate Lists<T(!new)>(lt: (T, T) -> bool, s: seq<T>, elements: set<T>) {
    && Ascending(lt, s)
    && (forall x :: x in s <==> x in elements)
  }

  /** An ascending part that misses nothing below any of its elements is a prefix. */
  lemma {:induction false} ClosedIsPrefix<T(!new)>(lt: (T, T) -> bool, part: seq<T>, whole: seq<T>)
    requires StrictOrder(lt) && Ascending(lt, part) && Ascending(lt, whole)
    requires forall x :: x in part ==> x in whole
    requires forall x, y :: x in whole && y in part && lt(x, y) ==> x in part
    ensures part <= whole
  {
    if part != [] {
      var n := |part| - 1;
      var init := part[..n];
      forall x, y | x in whole && y in init && lt(x, y)
        ensures x in init
      {
        assert x in part;
        assert lt(y, part[n]);
      }
      ClosedIsPrefix(lt, init, whole);
      assert part[n] in whole;
      var k :| 0 <= k < |whole| && whole[k] == part[n];
      assert k >= n;
      assert whole[n] == whole[k];
      assert k == n;
    }
  }

  lemma ListingIsUnique<T(!new)>(lt: (T, T) -> bool, a: seq<T>, b: seq<T>, elements: set<T>)
    requires StrictOrder(lt) && Lists(lt, a, elements) && Lists(lt, b, elements)
    ensures a == b
  {
    ClosedIsPrefix(lt, a, b);
    ClosedIsPrefix(lt, b, a);
  }

  lemma {:induction false} LeastExists<T(!new)>(lt: (T, T) -> bool, elements: set<T>) returns (least: T)
    requires StrictOrder(lt) && TotalOn(lt, elements) && elements != {}
    ensures least in elements && forall x :: x in elements && x != least ==> lt(least, x)
    decreases |elements|
  {
    var x :| x in elements;
    var rest := elements - {x};
    assert forall z :: z in elements ==> z == x || z in rest;
    least := x;
    if rest != {} {
      var y := LeastExists(lt, rest);
      assert lt(x, y) || lt(y, x);
      if lt(y, x) {
        least := y;
      }
      forall z | z in rest && z != least
        ensures lt(least, z)
      {
        assert z == y || lt(y, z);
      }
    }
  }

  /** The elements in ascending order. */
  ghost function Listing<T(!new)>(lt: (T, T) -> bool, elements: set<T>): (s: seq<T>)
    requires StrictOrder(lt) && TotalOn(lt, elements)
    ensures Lists(lt, s, elements)
    decreases |elements|
  {
    if elements == {} then []
    else
      assert exists least :: least in elements && (forall x :: x in elements && x != least ==> lt(least, x)) by {
        var _ := LeastExists(lt, elements);
      }
      var least :| least in elements && (forall x :: x in elements && x != least ==> lt(least, x));
      [least] + Listing(lt, elements - {least})
  }
}
