/**
 * Consecutive spans of time. A list of spans tiles an interval when each begins right after the one before it ends;
 * then every instant of the interval lies in exactly one of them. The month windows of the period resolver are such
 * lists, with the last millisecond of a month as the end of its span.
 */
module Spans {

  datatype Span = Span(first: int, last: int) {
    predicate Holds(t: int) {
      first <= t <= last
    }
  }

  /** The spans follow each other without gap or overlap, from first to last. */
  predicate Tile(spans: seq<Span>, first: int, last: int) {
    && |spans| > 0
    && spans[0].first == first && spans[|spans| - 1].last == last
    && (forall k :: 0 <= k < |spans| ==> spans[k].first <= spans[k].last)
    && (forall k :: 0 < k < |spans| ==> spans[k - 1].last + 1 == spans[k].first)
  }

  lemma {:induction false} Ordered(spans: seq<Span>, first: int, last: int, i: nat, j: nat)
    requires Tile(spans, first, last) && i < j < |spans|
    ensures spans[i].last < spans[j].first
    decreases j
  {
    if i == j - 1 {
    } else {
      Ordered(spans, first, last, i, j - 1);
    }
  }

  /** Some span up to the k-th holds a time that is not after the k-th. */
  lemma {:induction false} Find(spans: seq<Span>, first: int, last: int, k: nat, t: int) returns (i: nat)
    requires Tile(spans, first, last) && k < |spans| && first <= t <= spans[k].last
    ensures i < |spans| && spans[i].Holds(t)
  {
    if spans[k].first <= t {
      i := k;
    } else {
      i := Find(spans, first, last, k - 1, t);
    }
  }

  /** Every time from first to last is in exactly one span, and no other time is in any. */
  lemma Partition(spans: seq<Span>, first: int, last: int, t: int)
    requires Tile(spans, first, last)
    ensures first <= t <= last <==> exists i :: 0 <= i < |spans| && spans[i].Holds(t)
    ensures forall i, j :: 0 <= i < j < |spans| && spans[i].Holds(t) ==> !spans[j].Holds(t)
  {
    if first <= t <= last {
      var i := Find(spans, first, last, |spans| - 1, t);
    }
    forall i, j | 0 <= i < j < |spans| ensures spans[i].last < spans[j].first {
      Ordered(spans, first, last, i, j);
    }
  }

  /** The spans between n + 1 rising marks. */
  function Between(mark: int -> int, first: int, n: nat): (spans: seq<Span>)
    ensures |spans| == n
    ensures forall k :: 0 <= k < n ==> spans[k] == Span(mark(first + k), mark(first + k + 1) - 1)
  {
    seq(n, k requires 0 <= k < n => Span(mark(first + k), mark(first + k + 1) - 1))
  }

  predicate Rises(mark: int -> int, k: int) {
    mark(k) < mark(k + 1)
  }

  lemma BetweenTiles(mark: int -> int, first: int, n: nat)
    requires n > 0 && forall k :: Rises(mark, k)
    ensures Tile(Between(mark, first, n), mark(first), mark(first + n) - 1)
  {
    var spans := Between(mark, first, n);
    forall k | 0 <= k < n ensures spans[k].first <= spans[k].last {
      assert Rises(mark, first + k);
    }
  }
}
