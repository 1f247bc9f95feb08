/**
 * Value-level operations behind the table's structural mutations and layout:
 * inserting and removing a run of rows (or of columns in every row), the
 * anchor clamping of an insertion, and prefix sums of sizes.
 */
module GridOps {
  import opened Records

  /** Java's running maximum `if (acc < v) acc = v`. */
  function Max(a: real, b: real): (r: real)
    ensures r >= a && r >= b && (r == a || r == b)
  {
    if a < b then b else a
  }

  /** Clamp `cur` into [0, count-1]; step back once when inserting before it (ADD_ROWS_TOP / ADD_LINES_LEFT). */
  function Anchor(cur: int, count: int, before: bool): (a: int)
    requires count >= 1
    ensures -1 <= a < count
    ensures !before ==> 0 <= a
    ensures 0 <= cur < count ==> a == (if before then cur - 1 else cur)
    ensures cur < 0 ==> a == (if before then -1 else 0)
    ensures cur >= count ==> a == (if before then count - 2 else count - 1)
  {
    var clamped := if cur < 0 then 0 else if cur >= count then count - 1 else cur;
    if before then clamped - 1 else clamped
  }

  /** `s` with `k` copies of `x` placed right after index `at` (at == -1: at the front). */
  function InsertAt<T>(s: seq<T>, at: int, k: nat, x: T): (r: seq<T>)
    requires -1 <= at < |s|
    ensures |r| == |s| + k
    ensures forall i :: 0 <= i <= at ==> r[i] == s[i]
    ensures forall i :: at < i <= at + k ==> r[i] == x
    ensures forall i :: at + k < i < |r| ==> r[i] == s[i - k]
  {
    s[..at + 1] + Repeat(x, k) + s[at + 1..]
  }

  /** `s` without the inclusive run [start..end]. */
  function RemoveSpan<T>(s: seq<T>, start: int, end: int): (r: seq<T>)
    requires 0 <= start <= end < |s|
    ensures |r| == |s| - (end - start + 1)
    ensures forall i :: 0 <= i < start ==> r[i] == s[i]
    ensures forall i :: start <= i < |r| ==> r[i] == s[i + (end - start + 1)]
  {
    s[..start] + s[end + 1..]
  }

  /** Removing exactly the inserted run gives back the original sequence. */
  lemma RemoveInsertedRestores<T>(s: seq<T>, at: int, k: nat, x: T)
    requires -1 <= at < |s| && k >= 1
    ensures RemoveSpan(InsertAt(s, at, k, x), at + 1, at + k) == s
  {
    var r := RemoveSpan(InsertAt(s, at, k, x), at + 1, at + k);
    assert |r| == |s|;
    forall i | 0 <= i < |s| ensures r[i] == s[i] {
      if i > at {
        assert r[i] == InsertAt(s, at, k, x)[i + k];
      }
    }
  }

  /** Every row of a grid has `n` entries. */
  ghost predicate Rectangular<T>(g: seq<seq<T>>, n: int) {
    forall r :: 0 <= r < |g| ==> |g[r]| == n
  }

  /** Columns inserted after column `at` in every row of an n-column grid. */
  function InsertColumns<T>(g: seq<seq<T>>, n: int, at: int, k: nat, x: T): (r: seq<seq<T>>)
    requires Rectangular(g, n) && -1 <= at < n
    ensures |r| == |g| && Rectangular(r, n + k)
    ensures forall row :: 0 <= row < |g| ==> r[row] == InsertAt(g[row], at, k, x)
  {
    seq(|g|, row requires 0 <= row < |g| => InsertAt(g[row], at, k, x))
  }

  /** The inclusive column run [start..end] removed from every row of an n-column grid. */
  function RemoveColumns<T>(g: seq<seq<T>>, n: int, start: int, end: int): (r: seq<seq<T>>)
    requires Rectangular(g, n) && 0 <= start <= end < n
    ensures |r| == |g| && Rectangular(r, n - (end - start + 1))
    ensures forall row :: 0 <= row < |g| ==> r[row] == RemoveSpan(g[row], start, end)
  {
    seq(|g|, row requires 0 <= row < |g| => RemoveSpan(g[row], start, end))
  }

  lemma RemoveInsertedColumnsRestores<T>(g: seq<seq<T>>, n: int, at: int, k: nat, x: T)
    requires Rectangular(g, n) && -1 <= at < n && k >= 1
    ensures RemoveColumns(InsertColumns(g, n, at, k, x), n + k, at + 1, at + k) == g
  {
    var r := RemoveColumns(InsertColumns(g, n, at, k, x), n + k, at + 1, at + k);
    forall row | 0 <= row < |g| ensures r[row] == g[row] {
      RemoveInsertedRestores(g[row], at, k, x);
    }
  }

  /** Σ s[0..n). */
  function SumTo(s: seq<real>, n: nat): real
    requires n <= |s|
  {
    if n == 0 then 0.0 else SumTo(s, n - 1) + s[n - 1]
  }

  /** Σ s[a..b). */
  function SumRange(s: seq<real>, a: nat, b: nat): real
    requires a <= b <= |s|
  {
    SumTo(s, b) - SumTo(s, a)
  }

  ghost predicate AllNonNegative(s: seq<real>) {
    forall i :: 0 <= i < |s| ==> s[i] >= 0.0
  }

  ghost predicate AllPositive(s: seq<real>) {
    forall i :: 0 <= i < |s| ==> s[i] > 0.0
  }

  /** With non-negative sizes, a later prefix is no shorter; with positive sizes it is longer. */
  lemma {:induction false} SumToMonotone(s: seq<real>, a: nat, b: nat)
    requires a <= b <= |s| && AllNonNegative(s)
    ensures SumTo(s, a) <= SumTo(s, b)
    ensures AllPositive(s) && a < b ==> SumTo(s, a) < SumTo(s, b)
  {
    if a < b {
      SumToMonotone(s, a, b - 1);
    }
  }

  /** A sum of n equal sizes. */
  lemma {:induction false} SumToRepeat(x: real, n: nat, k: nat)
    requires k <= n
    ensures SumTo(Repeat(x, n), k) == (k as real) * x
  {
    if k > 0 {
      SumToRepeat(x, n, k - 1);
    }
  }

  /** Prefix sums only depend on the prefix. */
  lemma {:induction false} SumToPrefix(s: seq<real>, t: seq<real>, n: nat)
    requires n <= |s| && n <= |t| && s[..n] == t[..n]
    ensures SumTo(s, n) == SumTo(t, n)
  {
    if n > 0 {
      assert s[..n - 1] == s[..n][..n - 1];
      assert t[..n - 1] == t[..n][..n - 1];
      assert s[n - 1] == s[..n][n - 1];
      SumToPrefix(s, t, n - 1);
    }
  }

  /**
   * Inserting k sizes x after index `at` leaves every prefix up to at+1 alone
   * and lengthens every later prefix by k*x: the cells left of (above) the
   * insertion keep their origin, the ones after it move by the inserted extent.
   */
  lemma SumToAfterInsert(s: seq<real>, at: int, k: nat, x: real, n: nat)
    requires -1 <= at < |s| && n <= |s| + k
    ensures n <= at + 1 ==> SumTo(InsertAt(s, at, k, x), n) == SumTo(s, n)
    ensures at + 1 + k <= n ==> SumTo(InsertAt(s, at, k, x), n) == SumTo(s, n - k) + (k as real) * x
  {
    var t := InsertAt(s, at, k, x);
    if n <= at + 1 {
      assert t[..n] == s[..n];
      SumToPrefix(t, s, n);
    } else if at + 1 + k <= n {
      SumToPastInsert(s, at, k, x, n);
    }
  }

  lemma {:induction false} SumToPastInsert(s: seq<real>, at: int, k: nat, x: real, n: nat)
    requires -1 <= at < |s| && at + 1 + k <= n <= |s| + k
    ensures SumTo(InsertAt(s, at, k, x), n) == SumTo(s, n - k) + (k as real) * x
  {
    var t := InsertAt(s, at, k, x);
    if n == at + 1 + k {
      InsertedRunSum(s, at, k, x, k);
    } else {
      SumToPastInsert(s, at, k, x, n - 1);
      assert t[n - 1] == s[n - 1 - k];
    }
  }

  lemma {:induction false} InsertedRunSum(s: seq<real>, at: int, k: nat, x: real, j: nat)
    requires -1 <= at < |s| && j <= k
    ensures SumTo(InsertAt(s, at, k, x), at + 1 + j) == SumTo(s, at + 1) + (j as real) * x
  {
    var t := InsertAt(s, at, k, x);
    if j == 0 {
      assert t[..at + 1] == s[..at + 1];
      SumToPrefix(t, s, at + 1);
    } else {
      InsertedRunSum(s, at, k, x, j - 1);
      assert t[at + j] == x;
      assert SumTo(t, at + 1 + j) == SumTo(t, at + j) + x;
      assert ((j - 1) as real) * x + x == (j as real) * x;
    }
  }

  /** The contents of a two-dimensional array, row by row. */
  ghost function GridOf<T>(a: array2<T>): (g: seq<seq<T>>)
    reads a
    ensures |g| == a.Length0 && Rectangular(g, a.Length1)
    ensures forall r, l :: 0 <= r < a.Length0 && 0 <= l < a.Length1 ==> g[r][l] == a[r, l]
  {
    seq(a.Length0, r requires 0 <= r < a.Length0 reads a =>
      seq(a.Length1, l requires 0 <= l < a.Length1 reads a => a[r, l]))
  }

  /** Two grids with the same shape and entries are equal. */
  lemma GridExt<T>(g: seq<seq<T>>, h: seq<seq<T>>, n: int)
    requires |g| == |h| && Rectangular(g, n) && Rectangular(h, n)
    requires forall r, l :: 0 <= r < |g| && 0 <= l < n ==> g[r][l] == h[r][l]
    ensures g == h
  {
    forall r | 0 <= r < |g| ensures g[r] == h[r] {
    }
  }
}
