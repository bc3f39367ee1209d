/**
 * The decoration lists of the bot and the one global index that walks
 * through them (twitter.py:38-51).
 */
module Rotation {

  const HappyEmojis: seq<string> := ["\U{1F973}", "\U{1F60A}", "\U{1F604}"]
  const SadEmojis: seq<string> := ["\U{1F614}", "\U{1F61E}", "\U{1F622}"]
  const SmoothOperatorPhrases: seq<string> := [
    "From a \U{2601}\U{FE0F} Smooth Operator \U{1F60F}",
    "Courtesy of a \U{1F324}\U{FE0F} Smooth Operator \U{1F917}",
    "Brought to you by a \U{1F32C}\U{FE0F} Smooth Operator \U{1F60E}"
  ]

  /** Every decoration list has three entries, so the shared index stays below 3. */
  const ListLength := 3

  /**
   * The item after position `lastIndex`, cyclically, and its position.
   * Python's `%` with a positive divisor agrees with Dafny's, so any
   * integer `lastIndex` is accepted, as in the source.
   */
  function GetNextItem<T>(items: seq<T>, lastIndex: int): (r: (T, int))
    requires |items| > 0
    ensures 0 <= r.1 < |items|
    ensures r.0 == items[r.1]
    ensures 0 <= lastIndex < |items| - 1 ==> r.1 == lastIndex + 1
    ensures lastIndex == |items| - 1 ==> r.1 == 0
  {
    var next := (lastIndex + 1) % |items|;
    (items[next], next)
  }

  /** The index after `k` calls of GetNextItem on lists of length `n`, starting at `i`. */
  function Advanced(n: nat, i: int, k: nat): int
    requires n > 0
  {
    if k == 0 then i else (Advanced(n, i, k - 1) + 1) % n
  }

  /** Advancing k times lands k places further on, modulo the list length. */
  lemma {:induction false} AdvancedIsShift(n: nat, i: int, k: nat)
    requires n > 0 && k > 0
    ensures Advanced(n, i, k) == (i + k) % n
  {
    if k > 1 {
      AdvancedIsShift(n, i, k - 1);
      ModSucc(n, i + k - 1);
    }
  }

  /** ((x % n) + 1) % n == (x + 1) % n */
  lemma ModSucc(n: nat, x: int)
    requires n > 0
    ensures (x % n + 1) % n == (x + 1) % n
  {
    var q, r := x / n, x % n;
    assert x == q * n + r;
    if r + 1 < n {
      ModUnique(n, x + 1, q, r + 1);
      ModUnique(n, r + 1, 0, r + 1);
    } else {
      assert x + 1 == (q + 1) * n;
      ModUnique(n, x + 1, q + 1, 0);
      ModUnique(n, r + 1, 1, 0);
    }
  }

  /** Division with remainder is unique: a quotient and a remainder in range are the ones `/` and `%` give. */
  lemma ModUnique(n: nat, x: int, a: int, r: int)
    requires n > 0 && 0 <= r < n && x == a * n + r
    ensures x % n == r
  {
    var d := a - x / n;
    assert d * n == x % n - r by {
      assert x == (x / n) * n + x % n;
    }
    if d >= 1 {
      MulAtLeast(d, n);
    } else if d <= -1 {
      MulAtLeast(-d, n);
    }
  }

  lemma MulAtLeast(d: int, n: nat)
    requires d >= 1
    ensures d * n >= n
  {
  }
}
