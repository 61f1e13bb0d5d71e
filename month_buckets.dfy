/**
 * The twelve monthly buckets of the statistics endpoints. Each endpoint
 * starts from a map holding a zero record for every month 1..12, walks the
 * fetched rows, and adds a row's amount to the bucket of its month when
 * that month lies in 1..12. Here a row's month and amount are what a
 * `post` function reads off it, a bucket column is a `seq<int>` of length
 * 12 (index `m - 1` for month `m`), and the summaries are sums over months.
 */
module MonthBuckets {
  /** What one row contributes: the month it falls in and the amount.
      A row that the source skips posts to month 0. */
  datatype Posting = Posting(month: int, amount: int)

  const Skipped: Posting := Posting(0, 0)

  predicate InYear(m: int) { 1 <= m <= 12 }

  /** What a posting adds to the bucket of month `m`. */
  function AmountFor(p: Posting, m: int): int {
    if InYear(p.month) && p.month == m then p.amount else 0
  }

  /** The total the rows post to month `m`. */
  function MonthTotal<T>(rows: seq<T>, post: T -> Posting, m: int): int
    decreases |rows|
  {
    if rows == [] then 0
    else MonthTotal(rows[..|rows| - 1], post, m) + AmountFor(post(rows[|rows| - 1]), m)
  }

  /** The total of every posting whose month lies in 1..12. */
  function InYearTotal<T>(rows: seq<T>, post: T -> Posting): int
    decreases |rows|
  {
    if rows == [] then 0
    else
      var p := post(rows[|rows| - 1]);
      InYearTotal(rows[..|rows| - 1], post) + (if InYear(p.month) then p.amount else 0)
  }

  /** The totals of months 1..k. */
  function MonthsUpTo<T>(rows: seq<T>, post: T -> Posting, k: nat): int {
    if k == 0 then 0 else MonthsUpTo(rows, post, k - 1) + MonthTotal(rows, post, k)
  }

  /** The twelve zero buckets of a fresh map and the `rows.forEach` loop
      that adds each row's amount to the bucket of its month, leaving the
      buckets alone for months outside 1..12. */
  method Accumulate<T>(rows: seq<T>, post: T -> Posting) returns (out: seq<int>)
    ensures |out| == 12
    ensures forall i :: 0 <= i < 12 ==> out[i] == MonthTotal(rows, post, i + 1)
  {
    out := [0, 0, 0, 0, 0, 0, 0, 0, 0, 0, 0, 0];
    var n := 0;
    assert forall m :: MonthTotal(rows[..0], post, m) == 0 by {
      assert rows[..0] == [];
    }
    while n < |rows|
      invariant 0 <= n <= |rows|
      invariant |out| == 12
      invariant forall i :: 0 <= i < 12 ==> out[i] == MonthTotal(rows[..n], post, i + 1)
    {
      assert rows[..n + 1][..n] == rows[..n];
      var p := post(rows[n]);
      if InYear(p.month) {
        out := out[p.month - 1 := out[p.month - 1] + p.amount];
      }
      n := n + 1;
    }
    assert rows[..n] == rows;
  }

  /** A row posted outside 1..12 changes no bucket. */
  lemma OutOfYearChangesNothing<T>(rows: seq<T>, r: T, post: T -> Posting, m: int)
    requires !InYear(post(r).month)
    ensures MonthTotal(rows + [r], post, m) == MonthTotal(rows, post, m)
  {
    assert (rows + [r])[..|rows|] == rows;
  }

  /** The months' totals together are the in-year total: every in-year
      posting lands in exactly one bucket. */
  lemma {:induction false} MonthsPartitionTotal<T>(rows: seq<T>, post: T -> Posting)
    ensures MonthsUpTo(rows, post, 12) == InYearTotal(rows, post)
    decreases |rows|
  {
    if rows == [] {
      MonthsUpToNoRows(rows, post, 12);
    } else {
      var front := rows[..|rows| - 1];
      var p := post(rows[|rows| - 1]);
      MonthsPartitionTotal(front, post);
      MonthsUpToSnoc(front, rows, post, p, 12);
    }
  }

  lemma {:induction false} MonthsUpToNoRows<T>(rows: seq<T>, post: T -> Posting, k: nat)
    requires rows == []
    ensures MonthsUpTo(rows, post, k) == 0
  {
    if k > 0 {
      MonthsUpToNoRows(rows, post, k - 1);
    }
  }

  lemma {:induction false} MonthsUpToSnoc<T>(front: seq<T>, rows: seq<T>, post: T -> Posting, p: Posting, k: nat)
    requires rows != [] && front == rows[..|rows| - 1] && p == post(rows[|rows| - 1])
    ensures MonthsUpTo(rows, post, k) ==
            MonthsUpTo(front, post, k) + (if InYear(p.month) && p.month <= k then p.amount else 0)
  {
    if k > 0 {
      MonthsUpToSnoc(front, rows, post, p, k - 1);
    }
  }

  // ---------------------------------------------------------------------
  // Sums over the monthly records

  /** `xs.reduce((sum, x) => sum + f(x), 0)`. */
  function SumOf<T>(xs: seq<T>, f: T -> int): int
    decreases |xs|
  {
    if xs == [] then 0 else SumOf(xs[..|xs| - 1], f) + f(xs[|xs| - 1])
  }

  /** A field that is pointwise the sum of two others sums to the sum of
      their sums. */
  lemma {:induction false} SumOfAdd<T>(xs: seq<T>, f: T -> int, g: T -> int, h: T -> int)
    requires forall i :: 0 <= i < |xs| ==> f(xs[i]) == g(xs[i]) + h(xs[i])
    ensures SumOf(xs, f) == SumOf(xs, g) + SumOf(xs, h)
    decreases |xs|
  {
    if xs != [] {
      SumOfAdd(xs[..|xs| - 1], f, g, h);
    }
  }

  /** Likewise for a pointwise difference. */
  lemma {:induction false} SumOfSub<T>(xs: seq<T>, f: T -> int, g: T -> int, h: T -> int)
    requires forall i :: 0 <= i < |xs| ==> f(xs[i]) == g(xs[i]) - h(xs[i])
    ensures SumOf(xs, f) == SumOf(xs, g) - SumOf(xs, h)
    decreases |xs|
  {
    if xs != [] {
      SumOfSub(xs[..|xs| - 1], f, g, h);
    }
  }

  /** A field that is zero in every record sums to zero. */
  lemma {:induction false} SumOfZero<T>(xs: seq<T>, f: T -> int)
    requires forall i :: 0 <= i < |xs| ==> f(xs[i]) == 0
    ensures SumOf(xs, f) == 0
    decreases |xs|
  {
    if xs != [] {
      SumOfZero(xs[..|xs| - 1], f);
    }
  }

  predicate AllNonNegative<T>(xs: seq<T>, f: T -> int) {
    forall i :: 0 <= i < |xs| ==> f(xs[i]) >= 0
  }

  predicate AllZero<T>(xs: seq<T>, f: T -> int) {
    forall i :: 0 <= i < |xs| ==> f(xs[i]) == 0
  }

  /** A sum of non-negative terms is non-negative, and it is zero exactly
      when every term is. */
  lemma {:induction false} SumOfNonNegative<T>(xs: seq<T>, f: T -> int)
    requires AllNonNegative(xs, f)
    ensures SumOf(xs, f) >= 0
    ensures SumOf(xs, f) == 0 <==> AllZero(xs, f)
    decreases |xs|
  {
    if xs != [] {
      var front := xs[..|xs| - 1];
      assert AllNonNegative(front, f) by {
        forall i | 0 <= i < |front| ensures f(front[i]) >= 0 {
          assert front[i] == xs[i];
        }
      }
      SumOfNonNegative(front, f);
      if AllZero(front, f) && f(xs[|xs| - 1]) == 0 {
        forall i | 0 <= i < |xs| ensures f(xs[i]) == 0 {
          if i < |front| {
            assert xs[i] == front[i];
          }
        }
      }
      if AllZero(xs, f) {
        forall i | 0 <= i < |front| ensures f(front[i]) == 0 {
          assert front[i] == xs[i];
        }
      }
    }
  }

  /** When record `i` holds the bucket of month `i + 1`, the sum over the
      records is the total of months 1..|xs|. */
  lemma {:induction false} SumOfBuckets<T, R>(xs: seq<R>, f: R -> int, rows: seq<T>, post: T -> Posting)
    requires forall i :: 0 <= i < |xs| ==> f(xs[i]) == MonthTotal(rows, post, i + 1)
    ensures SumOf(xs, f) == MonthsUpTo(rows, post, |xs|)
    decreases |xs|
  {
    if xs != [] {
      SumOfBuckets(xs[..|xs| - 1], f, rows, post);
    }
  }

  /** The sum over the twelve monthly records of a bucket column is the
      total of the in-year postings. */
  lemma SumOfTwelveBuckets<T, R>(xs: seq<R>, f: R -> int, rows: seq<T>, post: T -> Posting)
    requires |xs| == 12
    requires forall i :: 0 <= i < 12 ==> f(xs[i]) == MonthTotal(rows, post, i + 1)
    ensures SumOf(xs, f) == InYearTotal(rows, post)
  {
    SumOfBuckets(xs, f, rows, post);
    MonthsPartitionTotal(rows, post);
  }
}
