/**
 * `generateIndexTree`: a tree over record positions. A range of width at most 100
 * (end minus start) holds the leaves of its records; a wider range is cut into child
 * ranges of `factor` positions, `factor` being the power of ten that leaves at most ten
 * (roughly) children.
 *
 * The child loop of the source stops at `i < min(size, end)`, which skips a last child
 * that would start at `end`. `AsWritten` models that loop, `Corrected` the loop
 * `i <= min(size - 1, end)` that covers every position of the range.
 */
module IndexTree {
  import opened Wrappers
  import opened Nodes

  /** The widest range (end minus start) whose group holds leaves directly. */
  const LeafSpan := 100

  datatype LoopBound = AsWritten | Corrected

  function Min(a: int, b: int): int
  {
    if a < b then a else b
  }

  function Max(a: int, b: int): int
  {
    if a < b then b else a
  }

  // ----- arithmetic

  function Pow10(k: nat): (r: nat)
    ensures r >= 1
  {
    if k == 0 then 1 else 10 * Pow10(k - 1)
  }

  lemma {:induction false} MulMono(a: int, b: int, c: int)
    requires a <= b && c >= 0
    ensures a * c <= b * c
  {
    assert (b - a) * c >= 0;
  }

  /** A dividend of at least `q` times the divisor has a quotient of at least `q`. */
  lemma {:induction false} DivAtLeast(w: int, p: int, q: int)
    requires p > 0 && w >= q * p
    ensures w / p >= q
  {
    var d := w / p;
    assert w == d * p + w % p;
    if d < q {
      MulMono(d + 1, q, p);
    }
  }

  /** A dividend below `q + 1` times the divisor has a quotient of at most `q`. */
  lemma {:induction false} DivAtMost(w: int, p: int, q: int)
    requires p > 0 && w < (q + 1) * p
    ensures w / p <= q
  {
    var d := w / p;
    assert w == d * p + w % p;
    if d > q {
      MulMono(q + 1, d, p);
    }
  }

  lemma {:induction false} Pow10Grows(i: nat, k: nat)
    requires i <= k
    ensures Pow10(k) >= Pow10(i) * Pow10(k - i)
    decreases k
  {
    if i < k {
      Pow10Grows(i, k - 1);
      assert Pow10(k - i) == 10 * Pow10(k - 1 - i);
    } else {
      assert Pow10(0) == 1;
    }
  }

  /** `m` chunks of `f` positions, as repeated addition so that proofs stay linear. */
  function Times(m: nat, f: nat): nat
  {
    if m == 0 then 0 else Times(m - 1, f) + f
  }

  /** `m` chunks are `m` times a chunk. */
  lemma {:induction false} TimesIsProduct(m: nat, f: nat)
    ensures Times(m, f) == m * f
  {
    if m > 0 {
      TimesIsProduct(m - 1, f);
    }
  }

  /** Only exponents from 3 on give powers of ten above 100. */
  lemma {:induction false} Pow10Above100(k: nat)
    ensures Pow10(k) > 100 ==> k >= 3
  {
    if k < 3 {
      assert Pow10(0) == 1 && Pow10(1) == 10 && Pow10(2) == 100;
    }
  }

  // ----- the factor loop

  /**
   * The factor loop on exponents: from `10^k`, multiply by ten while the width is at
   * least eleven factors; the result is the least such exponent with `w < 11 * 10^j`.
   * `FactorLoop` shows this is the source's test `w / factor > 10`.
   */
  function FactorExp(w: int, k: nat): (j: nat)
    requires k >= 1 && w >= 0
    ensures j >= k
    ensures w < 11 * Pow10(j)
    ensures j == k || 11 * Pow10(j - 1) <= w
    decreases if w > Pow10(k) then w - Pow10(k) else 0
  {
    if w >= 11 * Pow10(k) then FactorExp(w, k + 1) else k
  }

  /**
   * The child width of a range of width `w`: the least power of ten from 10 on with
   * `w < 11 * factor`; for a range wider than 100 it is less than the width.
   */
  function Factor(w: int): (f: nat)
    requires w > LeafSpan
    ensures 10 <= f < w && w < 11 * f
    ensures f == 10 || 11 * (f / 10) <= w
    ensures exists j: nat :: j >= 1 && f == Pow10(j)
  {
    Pow10(FactorExp(w, 1))
  }

  /**
   * `Factor` is where the source's loop `while (w / factor > 10) factor *= 10` stops:
   * its quotient is at most 10, and every smaller power of ten from 10 on had a
   * quotient above 10.
   */
  lemma {:induction false} FactorLoop(w: int)
    requires w > LeafSpan
    ensures w / Factor(w) <= 10
    ensures Factor(w) == 10 || w / (Factor(w) / 10) > 10
  {
    var f := Factor(w);
    DivAtMost(w, f, 10);
    if f != 10 {
      var j: nat :| j >= 1 && f == Pow10(j);
      assert f / 10 == Pow10(j - 1) > 0;
      DivAtLeast(w, f / 10, 11);
    }
  }

  /** The factor of a range `10^k` positions long is `10^(k-1)`: a round range splits into ten. */
  lemma {:induction false} FactorOfRound(k: nat, i: nat)
    requires 1 <= i <= k - 1 && k >= 3
    ensures FactorExp(Pow10(k) - 1, i) == k - 1
    decreases k - i
  {
    var w := Pow10(k) - 1;
    var p := Pow10(i);
    if i == k - 1 {
      assert Pow10(k) == 10 * p;
    } else {
      Pow10Grows(i, k);
      Pow10Grows(2, k - i);
      assert Pow10(2) == 100;
      MulMono(100, Pow10(k - i), p);
      FactorOfRound(k, i + 1);
    }
  }

  // ----- the child loop

  /** Where the child loop stops: before `min(size, end)` as written, after `min(size - 1, end)` corrected. */
  function ChildBound(loop: LoopBound, n: int, end: int): int
  {
    match loop
    case AsWritten => Min(n, end)
    case Corrected => Min(n - 1, end) + 1
  }

  // ----- keys

  function DigitChar(d: nat): char
    requires d < 10
  {
    "0123456789"[d]
  }

  /** Decimal digits, most significant first, as `StringBuilder.append(int)` writes them. */
  function NatToString(n: nat): (s: string)
    ensures |s| >= 1
    decreases n
  {
    if n < 10 then [DigitChar(n)] else NatToString(n / 10) + [DigitChar(n % 10)]
  }

  function IntToString(i: int): string
  {
    if i < 0 then "-" + NatToString(-i) else NatToString(i)
  }

  /** The key and title of a range group: the start, a dash, and the end clamped at 0. */
  function RangeKey(start: int, end: int): string
  {
    IntToString(start) + "-" + IntToString(Max(end, 0))
  }

  // ----- the tree

  /** The leaf slots of `records` with the null leaves skipped. */
  function Present<T, P>(records: seq<T>, leafOf: T -> Option<P>): (r: seq<Option<P>>)
    ensures |r| <= |records|
    decreases |records|
  {
    if |records| == 0 then []
    else if leafOf(records[0]).Some? then [leafOf(records[0])] + Present(records[1..], leafOf)
    else Present(records[1..], leafOf)
  }

  /** The leaf slots of the records at positions `[a, b)`, null leaves skipped. */
  function PresentIn<T, P>(records: seq<T>, leafOf: T -> Option<P>, a: int, b: int): seq<Option<P>>
    requires 0 <= a && b <= |records|
    decreases b - a
  {
    if a >= b then []
    else if leafOf(records[a]).Some? then [leafOf(records[a])] + PresentIn(records, leafOf, a + 1, b)
    else PresentIn(records, leafOf, a + 1, b)
  }

  /** The leaves of a small range's group: one per record of `[a, b)` whose leaf is not null. */
  function LeafRange<T, P>(records: seq<T>, leafOf: T -> Option<P>, a: int, b: int): seq<Node<P>>
    requires 0 <= a && b <= |records|
    decreases b - a
  {
    if a >= b then []
    else
      var rest := LeafRange(records, leafOf, a + 1, b);
      match leafOf(records[a])
      case None => rest
      case Some(p) => [Leaf(p)] + rest
  }

  /** A small range's leaves flatten to the range's present leaves. */
  lemma {:induction false} LeafRangeCovers<T, P>(records: seq<T>, leafOf: T -> Option<P>, a: int, b: int)
    requires 0 <= a && b <= |records|
    ensures Flatten(LeafRange(records, leafOf, a, b)) == PresentIn(records, leafOf, a, b)
    decreases b - a
  {
    if a < b {
      LeafRangeCovers(records, leafOf, a + 1, b);
      var rest := LeafRange(records, leafOf, a + 1, b);
      match leafOf(records[a])
      case None =>
      case Some(p) =>
        assert ([Leaf(p)] + rest)[1..] == rest;
    }
  }

  /**
   * The ranges the source can be called with without reading past the record list:
   * an empty range, or a non-negative start with an end inside the list unless the
   * range is wide (the child loop then clamps the ends to the list).
   */
  predicate Callable(n: int, start: int, end: int)
  {
    start > end || (0 <= start && (end - start > LeafSpan || end < n))
  }

  /** The recursion measure: the width of a non-empty range. */
  function Width(start: int, end: int): nat
  {
    if start <= end then end - start else 0
  }

  /**
   * `generateIndexTree` with the child loop bound `loop`: a group keyed and titled
   * `keyOf(start, end)`, which is `RangeKey` in the source.
   */
  function IndexTreeOf<T, P>(loop: LoopBound, records: seq<T>, leafOf: T -> Option<P>, keyOf: (int, int) -> string, start: int, end: int): Node<P>
    requires Callable(|records|, start, end)
    decreases Width(start, end), 2
  {
    Group(keyOf(start, end), keyOf(start, end), Kids(loop, records, leafOf, keyOf, start, end))
  }

  /** The children of a range's group: its present leaves when small, else its child trees. */
  function Kids<T, P>(loop: LoopBound, records: seq<T>, leafOf: T -> Option<P>, keyOf: (int, int) -> string, start: int, end: int): seq<Node<P>>
    requires Callable(|records|, start, end)
    decreases Width(start, end), 1
  {
    if end - start <= LeafSpan then
      if start <= end then LeafRange(records, leafOf, start, end + 1) else []
    else
      Children(loop, records, leafOf, keyOf, start, ChildBound(loop, |records|, end), Factor(end - start), end - start)
  }

  /**
   * The child loop of a wide range of width `w`: for `i = from, from + f, ...` while
   * `i < bound`, the tree over `[i, min(n - 1, i + f - 1)]`.
   */
  function Children<T, P>(loop: LoopBound, records: seq<T>, leafOf: T -> Option<P>, keyOf: (int, int) -> string, from: int, bound: int, f: nat, w: nat): (r: seq<Node<P>>)
    requires 0 <= from && bound <= |records| && 0 < f < w
    decreases w, 0, if from < bound then bound - from else 0
  {
    if from >= bound then []
    else [IndexTreeOf(loop, records, leafOf, keyOf, from, Min(|records| - 1, from + f - 1))] + Children(loop, records, leafOf, keyOf, from + f, bound, f, w)
  }

  // ----- coverage of the corrected loop

  /** The present leaves of a range split at `mid`. */
  lemma {:induction false} PresentInSplit<T, P>(records: seq<T>, leafOf: T -> Option<P>, a: int, mid: int, b: int)
    requires 0 <= a <= mid <= b <= |records|
    ensures PresentIn(records, leafOf, a, b) == PresentIn(records, leafOf, a, mid) + PresentIn(records, leafOf, mid, b)
    decreases mid - a
  {
    if a < mid {
      PresentInSplit(records, leafOf, a + 1, mid, b);
    }
  }

  /** Over the whole list, the present leaves of a range are those of the list's suffix. */
  lemma {:induction false} PresentInSuffix<T, P>(records: seq<T>, leafOf: T -> Option<P>, a: int)
    requires 0 <= a <= |records|
    ensures PresentIn(records, leafOf, a, |records|) == Present(records[a..], leafOf)
    decreases |records| - a
  {
    if a < |records| {
      assert records[a..][1..] == records[a + 1..];
      PresentInSuffix(records, leafOf, a + 1);
    }
  }

  /**
   * The child at `from` ends at `mid - 1`, with `mid` the bound itself for the last
   * child and `from + f` otherwise; the children after it are the list's tail or
   * `m - 1` whole chunks.
   */
  lemma {:induction false} ChildEnd(from: int, bound: int, f: nat, n: int, m: nat)
    requires 0 <= from < bound <= n && f > 0
    requires bound == n || bound - from == Times(m, f)
    ensures var mid := Min(n - 1, from + f - 1) + 1;
      && from < mid <= bound
      && (from + f >= bound ==> mid == bound)
      && (from + f < bound ==> mid == from + f && (bound == n || (m >= 1 && bound - (from + f) == Times(m - 1, f))))
  {
    if bound != n && m >= 2 {
      assert Times(m, f) == Times(m - 2, f) + f + f;
    }
  }

  /** A first tree covering `a` followed by a forest covering `b` covers `a + b`. */
  lemma {:induction false} Glue<P>(all: seq<Node<P>>, first: Node<P>, rest: seq<Node<P>>, a: seq<Option<P>>, b: seq<Option<P>>, c: seq<Option<P>>)
    requires all == [first] + rest && Flatten([first]) == a && Flatten(rest) == b && c == a + b
    ensures Flatten(all) == c
  {
    FlattenAppend([first], rest);
  }

  // ----- fan-out

  /** The child loop makes one child per started chunk of `f` positions below the bound. */
  lemma {:induction false} ChildrenCount<T, P>(loop: LoopBound, records: seq<T>, leafOf: T -> Option<P>, keyOf: (int, int) -> string, from: int, bound: int, f: nat, w: nat)
    requires 0 <= from && bound <= |records| && 0 < f < w
    ensures |Children(loop, records, leafOf, keyOf, from, bound, f, w)| == if from < bound then (bound - from + f - 1) / f else 0
    decreases if from < bound then bound - from else 0
  {
    if from < bound {
      ChildrenCount(loop, records, leafOf, keyOf, from + f, bound, f, w);
      if from + f < bound {
        assert (bound - from + f - 1) / f == (bound - (from + f) + f - 1) / f + 1 by {
          DivShift(bound - (from + f) + f - 1, f);
        }
      } else {
        DivAtLeast(bound - from + f - 1, f, 1);
        DivAtMost(bound - from + f - 1, f, 1);
      }
    }
  }

  lemma {:induction false} DivShift(a: int, f: int)
    requires a >= 0 && f > 0
    ensures (a + f) / f == a / f + 1
  {
    var q := a / f;
    assert a == q * f + a % f;
    assert (q + 1) * f == q * f + f && (q + 2) * f == q * f + f + f;
    DivAtLeast(a + f, f, q + 1);
    DivAtMost(a + f, f, q + 1);
  }

  /**
   * A wide range has at most eleven children: its width is less than eleven times the
   * factor, and either loop stops by the position after `end`.
   */
  lemma {:induction false} FanOut<T, P>(loop: LoopBound, records: seq<T>, leafOf: T -> Option<P>, keyOf: (int, int) -> string, start: int, end: int)
    requires Callable(|records|, start, end) && end - start > LeafSpan
    ensures |Kids(loop, records, leafOf, keyOf, start, end)| <= 11
  {
    var w := end - start;
    var f := Factor(w);
    var bound := ChildBound(loop, |records|, end);
    ChildrenCount(loop, records, leafOf, keyOf, start, bound, f, w);
    if start < bound {
      DivAtMost(w, f, 10);
      assert bound - start + f - 1 <= w + f;
      DivMono(bound - start + f - 1, w + f, f);
      DivShift(w, f);
    }
  }

  lemma {:induction false} DivMono(a: int, b: int, f: int)
    requires 0 <= a <= b && f > 0
    ensures a / f <= b / f
  {
    var q := a / f;
    assert a == q * f + a % f;
    DivAtLeast(b, f, q);
  }

  /** The empty range `(0, -1)` gives a group keyed `0-0` with no children. */
  lemma {:induction false} EmptyRange<T, P>(records: seq<T>, leafOf: T -> Option<P>)
    ensures IndexTreeAsWritten(records, leafOf, 0, -1) == Group("0-0", "0-0", [])
    ensures IndexTree(records, leafOf, 0, -1) == Group("0-0", "0-0", [])
  {
    assert RangeKey(0, -1) == "0-0";
  }

  /**
   * The ranges the corrected tree is built on: inside the list, and either small, ending
   * at the list's end, or `10^k` positions long (a full chunk of its parent).
   */
  predicate Aligned(n: int, start: int, end: int, k: nat)
  {
    && 0 <= start <= end + 1 && end < n
    && (end - start <= LeafSpan || end == n - 1 || end - start + 1 == Pow10(k))
  }

  /** A range's group flattens to its children's leaf slots. */
  lemma {:induction false} FlattenGroup<T, P>(loop: LoopBound, records: seq<T>, leafOf: T -> Option<P>, keyOf: (int, int) -> string, start: int, end: int)
    requires Callable(|records|, start, end)
    ensures Flatten([IndexTreeOf(loop, records, leafOf, keyOf, start, end)]) == Flatten(Kids(loop, records, leafOf, keyOf, start, end))
  {
    var t := IndexTreeOf(loop, records, leafOf, keyOf, start, end);
    assert [t][1..] == [];
  }

  /** A wide aligned range is the list's tail or exactly ten chunks long. */
  lemma {:induction false} WholeChunks(n: int, start: int, end: int, k: nat)
    requires Aligned(n, start, end, k) && end - start > LeafSpan
    ensures end + 1 == n || end + 1 - start == Times(10, Factor(end - start))
  {
    if end + 1 != n {
      Pow10Above100(k);
      FactorOfRound(k, 1);
      TimesIsProduct(10, Factor(end - start));
    }
  }

  /** A wide range inside the list: its corrected group's children run the child loop up to `end`. */
  lemma {:induction false} WideTree<T, P>(records: seq<T>, leafOf: T -> Option<P>, keyOf: (int, int) -> string, start: int, end: int)
    requires 0 <= start && end < |records| && end - start > LeafSpan
    ensures Kids(Corrected, records, leafOf, keyOf, start, end)
      == Children(Corrected, records, leafOf, keyOf, start, end + 1, Factor(end - start), end - start)
  {
    assert ChildBound(Corrected, |records|, end) == end + 1;
  }

  /** The small branch: the group's leaves are the present leaves of the range. */
  lemma {:induction false} SmallCovers<T, P>(loop: LoopBound, records: seq<T>, leafOf: T -> Option<P>, keyOf: (int, int) -> string, start: int, end: int)
    requires 0 <= start <= end + 1 && end < |records| && end - start <= LeafSpan
    ensures Flatten(Kids(loop, records, leafOf, keyOf, start, end)) == PresentIn(records, leafOf, start, end + 1)
  {
    if start <= end {
      LeafRangeCovers(records, leafOf, start, end + 1);
    }
  }

  /** The child loop's first turn: the tree of the first chunk, then the rest of the loop. */
  lemma {:induction false} ChildrenStep<T, P>(loop: LoopBound, records: seq<T>, leafOf: T -> Option<P>, keyOf: (int, int) -> string, from: int, bound: int, f: nat, w: nat)
    requires 0 <= from < bound <= |records| && 0 < f < w
    ensures Children(loop, records, leafOf, keyOf, from, bound, f, w)
      == [IndexTreeOf(loop, records, leafOf, keyOf, from, Min(|records| - 1, from + f - 1))] + Children(loop, records, leafOf, keyOf, from + f, bound, f, w)
  {
  }

  /** The child loop past its bound adds nothing and covers nothing. */
  lemma {:induction false} NoMoreChildren<T, P>(loop: LoopBound, records: seq<T>, leafOf: T -> Option<P>, keyOf: (int, int) -> string, from: int, bound: int, f: nat, w: nat)
    requires 0 <= bound <= from && bound <= |records| && 0 < f < w
    ensures Flatten(Children(loop, records, leafOf, keyOf, from, bound, f, w)) == PresentIn(records, leafOf, bound, bound)
  {
  }

  /**
   * One turn of the child loop keeps coverage: if the first child covers `[from, last]`
   * and the rest of the loop covers `[s, bound)` with `s = last + 1`, the loop covers
   * `[from, bound)`.
   */
  lemma {:induction false} CoverStep<T, P>(loop: LoopBound, records: seq<T>, leafOf: T -> Option<P>, keyOf: (int, int) -> string, from: int, bound: int, f: nat, w: nat, last: int, s: int)
    requires 0 <= from < bound <= |records| && 0 < f < w
    requires last == Min(|records| - 1, from + f - 1) && s == last + 1 && s <= bound
    requires Flatten(Kids(loop, records, leafOf, keyOf, from, last)) == PresentIn(records, leafOf, from, last + 1)
    requires Flatten(Children(loop, records, leafOf, keyOf, from + f, bound, f, w)) == PresentIn(records, leafOf, s, bound)
    ensures Flatten(Children(loop, records, leafOf, keyOf, from, bound, f, w)) == PresentIn(records, leafOf, from, bound)
  {
    FlattenGroup(loop, records, leafOf, keyOf, from, last);
    ChildrenStep(loop, records, leafOf, keyOf, from, bound, f, w);
    PresentInSplit(records, leafOf, from, s, bound);
    Glue(Children(loop, records, leafOf, keyOf, from, bound, f, w),
      IndexTreeOf(loop, records, leafOf, keyOf, from, last), Children(loop, records, leafOf, keyOf, from + f, bound, f, w),
      PresentIn(records, leafOf, from, last + 1), PresentIn(records, leafOf, s, bound), PresentIn(records, leafOf, from, bound));
  }

  /**
   * The children of the corrected loop with chunks of `f = 10^j` positions from `from`
   * to `bound` (the list's end, or `m` whole chunks after `from`) flatten to the
   * present leaves of `[from, bound)`.
   */
  lemma {:induction false} ChildrenCover<T, P>(records: seq<T>, leafOf: T -> Option<P>, keyOf: (int, int) -> string, from: int, bound: int, f: nat, j: nat, m: nat, w: nat)
    requires 0 <= from <= bound <= |records| && f == Pow10(j) && f < w
    requires bound == |records| || bound - from == Times(m, f)
    ensures Flatten(Children(Corrected, records, leafOf, keyOf, from, bound, f, w)) == PresentIn(records, leafOf, from, bound)
    decreases w, 0, bound - from, 1
  {
    if from == bound {
    } else if from + f >= bound {
      LastChunk(records, leafOf, keyOf, from, bound, f, j, m, w);
    } else {
      ChildEnd(from, bound, f, |records|, m);
      ChildrenCover(records, leafOf, keyOf, from + f, bound, f, j, if m > 0 then m - 1 else 0, w);
      NextChunk(records, leafOf, keyOf, from, bound, f, j, w);
    }
  }

  /** The last turn of the child loop: its child alone covers what is left. */
  lemma {:induction false} LastChunk<T, P>(records: seq<T>, leafOf: T -> Option<P>, keyOf: (int, int) -> string, from: int, bound: int, f: nat, j: nat, m: nat, w: nat)
    requires 0 <= from < bound <= |records| && bound <= from + f && f == Pow10(j) && f < w
    requires bound == |records| || bound - from == Times(m, f)
    ensures Flatten(Children(Corrected, records, leafOf, keyOf, from, bound, f, w)) == PresentIn(records, leafOf, from, bound)
    decreases w, 0, bound - from, 0
  {
    var last := Min(|records| - 1, from + f - 1);
    ChildEnd(from, bound, f, |records|, m);
    CorrectedCovers(records, leafOf, keyOf, from, last, j);
    NoMoreChildren(Corrected, records, leafOf, keyOf, from + f, bound, f, w);
    CoverStep(Corrected, records, leafOf, keyOf, from, bound, f, w, last, bound);
  }

  /** A full turn of the child loop: a whole chunk, then the rest of the loop. */
  lemma {:induction false} NextChunk<T, P>(records: seq<T>, leafOf: T -> Option<P>, keyOf: (int, int) -> string, from: int, bound: int, f: nat, j: nat, w: nat)
    requires 0 <= from && from + f < bound <= |records| && f == Pow10(j) && f < w
    requires Flatten(Children(Corrected, records, leafOf, keyOf, from + f, bound, f, w)) == PresentIn(records, leafOf, from + f, bound)
    ensures Flatten(Children(Corrected, records, leafOf, keyOf, from, bound, f, w)) == PresentIn(records, leafOf, from, bound)
    decreases w, 0, bound - from, 0
  {
    CorrectedCovers(records, leafOf, keyOf, from, from + f - 1, j);
    CoverStep(Corrected, records, leafOf, keyOf, from, bound, f, w, from + f - 1, from + f);
  }


  /** The wide branch: the children of a wide aligned range's group cover the range. */
  lemma {:induction false} WideCovers<T, P>(records: seq<T>, leafOf: T -> Option<P>, keyOf: (int, int) -> string, start: int, end: int, k: nat)
    requires Aligned(|records|, start, end, k) && end - start > LeafSpan
    ensures Flatten(Kids(Corrected, records, leafOf, keyOf, start, end)) == PresentIn(records, leafOf, start, end + 1)
    decreases Width(start, end), 2
  {
    WholeChunks(|records|, start, end, k);
    ChildrenCover(records, leafOf, keyOf, start, end + 1, Factor(end - start), FactorExp(end - start, 1), 10, end - start);
    WideTree(records, leafOf, keyOf, start, end);
  }

  /** The children of the corrected group over an aligned range flatten to the present leaves of the range, in order. */
  lemma {:induction false} CorrectedCovers<T, P>(records: seq<T>, leafOf: T -> Option<P>, keyOf: (int, int) -> string, start: int, end: int, k: nat)
    requires Aligned(|records|, start, end, k)
    ensures Flatten(Kids(Corrected, records, leafOf, keyOf, start, end)) == PresentIn(records, leafOf, start, end + 1)
    decreases Width(start, end), 3
  {
    if end - start <= LeafSpan {
      SmallCovers(Corrected, records, leafOf, keyOf, start, end);
    } else {
      WideCovers(records, leafOf, keyOf, start, end, k);
    }
  }

  /** `generateIndexTree` as written: groups keyed `start-max(end, 0)`, child loop stopping before `min(size, end)`. */
  function IndexTreeAsWritten<T, P>(records: seq<T>, leafOf: T -> Option<P>, start: int, end: int): Node<P>
    requires Callable(|records|, start, end)
  {
    IndexTreeOf(AsWritten, records, leafOf, RangeKey, start, end)
  }

  /**
   * As written, the tree over `[0, 200]` of 201 records has two children, `[0, 99]` and
   * `[100, 199]`: the loop stops before `min(201, 200)`, and the record at 200 is in
   * no child.
   */
  lemma {:induction false} AsWrittenSkipsLast<T, P>(records: seq<T>, leafOf: T -> Option<P>, keyOf: (int, int) -> string)
    requires |records| == 201
    ensures Flatten([IndexTreeOf(AsWritten, records, leafOf, keyOf, 0, 200)]) == PresentIn(records, leafOf, 0, 200)
  {
    AsWrittenLoop(records, leafOf, keyOf);
    AsWrittenChunks(records, leafOf, keyOf);
    FlattenGroup(AsWritten, records, leafOf, keyOf, 0, 200);
  }

  /**
   * A range that is not aligned: the children are cut at the list's end, not at the
   * range's end, so over 300 records the group over `[0, 150]` holds, under either
   * loop bound, the present leaves of positions 0 to 199.
   */
  lemma {:induction false} UnalignedOverreach<T, P>(loop: LoopBound, records: seq<T>, leafOf: T -> Option<P>, keyOf: (int, int) -> string)
    requires |records| == 300
    ensures Flatten(Kids(loop, records, leafOf, keyOf, 0, 150)) == PresentIn(records, leafOf, 0, 200)
  {
    var c0 := IndexTreeOf(loop, records, leafOf, keyOf, 0, 99);
    var c1 := IndexTreeOf(loop, records, leafOf, keyOf, 100, 199);
    UnalignedChildren(loop, records, leafOf, keyOf);
    FlattenAppend([c0], [c1]);
    FlattenGroup(loop, records, leafOf, keyOf, 0, 99);
    FlattenGroup(loop, records, leafOf, keyOf, 100, 199);
    SmallCovers(loop, records, leafOf, keyOf, 0, 99);
    SmallCovers(loop, records, leafOf, keyOf, 100, 199);
    PresentInSplit(records, leafOf, 0, 100, 200);
  }

  /** Over 300 records the group over `[0, 150]` has the children `[0, 99]` and `[100, 199]`. */
  lemma {:induction false} UnalignedChildren<T, P>(loop: LoopBound, records: seq<T>, leafOf: T -> Option<P>, keyOf: (int, int) -> string)
    requires |records| == 300
    ensures Kids(loop, records, leafOf, keyOf, 0, 150)
      == [IndexTreeOf(loop, records, leafOf, keyOf, 0, 99)] + [IndexTreeOf(loop, records, leafOf, keyOf, 100, 199)]
  {
    var bound := ChildBound(loop, 300, 150);
    assert 150 <= bound <= 151;
    assert Factor(150) == 100 by {
      assert Pow10(2) == 100;
      assert FactorExp(150, 2) == 2;
    }
    assert Kids(loop, records, leafOf, keyOf, 0, 150) == Children(loop, records, leafOf, keyOf, 0, bound, 100, 150);
    ChildrenStep(loop, records, leafOf, keyOf, 100, bound, 100, 150);
    assert Children(loop, records, leafOf, keyOf, 200, bound, 100, 150) == [];
    ChildrenStep(loop, records, leafOf, keyOf, 0, bound, 100, 150);
  }

  /** As written, the group over `[0, 200]` of 201 records runs its loop with chunks of 100 up to 200. */
  lemma {:induction false} AsWrittenLoop<T, P>(records: seq<T>, leafOf: T -> Option<P>, keyOf: (int, int) -> string)
    requires |records| == 201
    ensures Kids(AsWritten, records, leafOf, keyOf, 0, 200) == Children(AsWritten, records, leafOf, keyOf, 0, 200, 100, 200)
  {
    assert Factor(200) == 100 by {
      assert Pow10(2) == 100;
      assert FactorExp(200, 2) == 2;
    }
  }


  /** A small whole chunk before a covered rest: the loop from the chunk on covers its range. */
  lemma {:induction false} SmallChunk<T, P>(loop: LoopBound, records: seq<T>, leafOf: T -> Option<P>, keyOf: (int, int) -> string, from: int, next: int, bound: int, f: nat, w: nat)
    requires 0 <= from && next == from + f && next <= bound <= |records| && 0 < f <= LeafSpan + 1 && f < w
    requires Flatten(Children(loop, records, leafOf, keyOf, next, bound, f, w)) == PresentIn(records, leafOf, next, bound)
    ensures Flatten(Children(loop, records, leafOf, keyOf, from, bound, f, w)) == PresentIn(records, leafOf, from, bound)
  {
    var last := from + f - 1;
    SmallCovers(loop, records, leafOf, keyOf, from, last);
    CoverStep(loop, records, leafOf, keyOf, from, bound, f, w, last, next);
  }



  /** The chunks `[0, 99]` and `[100, 199]` cover the first 200 records. */
  lemma {:induction false} AsWrittenChunks<T, P>(records: seq<T>, leafOf: T -> Option<P>, keyOf: (int, int) -> string)
    requires |records| == 201
    ensures Flatten(Children(AsWritten, records, leafOf, keyOf, 0, 200, 100, 200)) == PresentIn(records, leafOf, 0, 200)
  {
    NoMoreChildren(AsWritten, records, leafOf, keyOf, 200, 200, 100, 200);
    SmallChunk(AsWritten, records, leafOf, keyOf, 100, 200, 200, 100, 200);
    SmallChunk(AsWritten, records, leafOf, keyOf, 0, 100, 200, 100, 200);
  }



  /** When no leaf is null, every record of a range has its slot. */
  lemma {:induction false} PresentInAll<T, P>(records: seq<T>, leafOf: T -> Option<P>, a: int, b: int)
    requires 0 <= a <= b <= |records|
    requires forall i :: a <= i < b ==> leafOf(records[i]).Some?
    ensures |PresentIn(records, leafOf, a, b)| == b - a
    decreases b - a
  {
    if a < b {
      PresentInAll(records, leafOf, a + 1, b);
    }
  }

  /** A leaf generator that never returns null. */
  function KeepAll(x: int): Option<int>
  {
    Some(x)
  }

  /**
   * The missed child as a concrete case: records `0..200` whose leaves are never null
   * have 201 present leaves, and the tree the source builds over `[0, 200]` holds 200.
   */
  lemma {:induction false} AsWrittenLosesLastRecord()
    ensures var records := seq(201, i => i);
      && |Flatten([IndexTreeAsWritten(records, KeepAll, 0, 200)])| == 200
      && |Present(records, KeepAll)| == 201
  {
    var records := seq(201, i => i);
    AsWrittenSkipsLast(records, KeepAll, RangeKey);
    PresentInAll(records, KeepAll, 0, 200);
    PresentInAll(records, KeepAll, 0, 201);
    PresentInSuffix(records, KeepAll, 0);
    assert records[0..] == records;
  }

  /** A small range whose leaves are never null has one leaf per position. */
  lemma {:induction false} LeafRangeLength<T, P>(records: seq<T>, leafOf: T -> Option<P>, a: int, b: int)
    requires 0 <= a <= b <= |records|
    requires forall i :: a <= i < b ==> leafOf(records[i]).Some?
    ensures |LeafRange(records, leafOf, a, b)| == b - a
    decreases b - a
  {
    if a < b {
      LeafRangeLength(records, leafOf, a + 1, b);
    }
  }

  /** The loop over 1000 records from chunk `m` on: one child per remaining chunk of 100. */
  lemma {:induction false} ThousandChunks<T, P>(records: seq<T>, leafOf: T -> Option<P>, keyOf: (int, int) -> string, m: nat)
    requires |records| == 1000 && m <= 10
    ensures var kids := Children(AsWritten, records, leafOf, keyOf, 100 * m, 999, 100, 999);
      && |kids| == 10 - m
      && forall i :: 0 <= i < |kids| ==>
           kids[i] == IndexTreeOf(AsWritten, records, leafOf, keyOf, 100 * (m + i), 100 * (m + i) + 99)
    decreases 10 - m
  {
    if m < 10 {
      ThousandChunks(records, leafOf, keyOf, m + 1);
      var rest := Children(AsWritten, records, leafOf, keyOf, 100 * (m + 1), 999, 100, 999);
      var kids := Children(AsWritten, records, leafOf, keyOf, 100 * m, 999, 100, 999);
      assert kids == [IndexTreeOf(AsWritten, records, leafOf, keyOf, 100 * m, 100 * m + 99)] + rest;
      forall i | 0 < i < |kids|
        ensures kids[i] == IndexTreeOf(AsWritten, records, leafOf, keyOf, 100 * (m + i), 100 * (m + i) + 99)
      {
        assert kids[i] == rest[i - 1];
      }
    }
  }

  /** The root over 1000 records is keyed `0-999` and its children run the loop with chunks of 100. */
  lemma {:induction false} ThousandRoot<T, P>(records: seq<T>, leafOf: T -> Option<P>)
    requires |records| == 1000
    ensures var root := IndexTreeAsWritten(records, leafOf, 0, 999);
      && root.key == "0-999" && root.title == "0-999"
      && root.children == Children(AsWritten, records, leafOf, RangeKey, 0, 999, 100, 999)
  {
    ThousandFactor();
    ThousandKey();
  }

  /** The range `[0, 999]` is cut into chunks of 100. */
  lemma {:induction false} ThousandFactor()
    ensures Factor(999) == 100
  {
    assert Pow10(2) == 100;
    assert FactorExp(999, 2) == 2;
  }

  /** The key of the range `[0, 999]`. */
  lemma {:induction false} ThousandKey()
    ensures RangeKey(0, 999) == "0-999"
  {
    assert NatToString(9) == "9";
    assert NatToString(99) == "99";
    assert NatToString(999) == "999";
  }

  /** A chunk of 100 positions is a small range: one leaf per record when no leaf is null. */
  lemma {:induction false} ThousandChild<T, P>(records: seq<T>, leafOf: T -> Option<P>, i: int)
    requires |records| == 1000 && 0 <= i < 10
    requires forall j :: 0 <= j < |records| ==> leafOf(records[j]).Some?
    ensures var c := IndexTreeOf(AsWritten, records, leafOf, RangeKey, 100 * i, 100 * i + 99);
      c.key == RangeKey(100 * i, 100 * i + 99) && c.title == c.key && |c.children| == 100
  {
    LeafRangeLength(records, leafOf, 100 * i, 100 * i + 100);
  }

  /** Child `i` of the loop over 1000 records is the group over chunk `i`. */
  lemma {:induction false} ThousandChildAt<T, P>(records: seq<T>, leafOf: T -> Option<P>, i: int)
    requires |records| == 1000 && 0 <= i < 10
    ensures var kids := Children(AsWritten, records, leafOf, RangeKey, 0, 999, 100, 999);
      |kids| == 10 && kids[i] == IndexTreeOf(AsWritten, records, leafOf, RangeKey, 100 * i, 100 * i + 99)
  {
    ThousandChunks(records, leafOf, RangeKey, 0);
  }

  /** Child `i` of the loop over 1000 records: the group over chunk `i`, with 100 leaves when no leaf is null. */
  lemma {:induction false} ThousandKid<T, P>(records: seq<T>, leafOf: T -> Option<P>, i: int)
    requires |records| == 1000 && 0 <= i < 10
    requires forall j :: 0 <= j < |records| ==> leafOf(records[j]).Some?
    ensures var kids := Children(AsWritten, records, leafOf, RangeKey, 0, 999, 100, 999);
      && |kids| == 10
      && kids[i].Group? && kids[i].key == RangeKey(100 * i, 100 * i + 99) && kids[i].title == kids[i].key
      && |kids[i].children| == 100
  {
    ThousandChildAt(records, leafOf, i);
    ThousandChild(records, leafOf, i);
  }

  /**
   * Test fixture: the tree over 1000 records is keyed and titled `0-999` and has ten
   * children, the `i`-th keyed and titled for positions `100i` to `100i + 99`, each
   * holding 100 leaves when no leaf is null.
   */
  lemma {:induction false} ThousandRecordsFixture<T, P>(records: seq<T>, leafOf: T -> Option<P>)
    requires |records| == 1000
    requires forall j :: 0 <= j < |records| ==> leafOf(records[j]).Some?
    ensures var root := IndexTreeAsWritten(records, leafOf, 0, 999);
      && root.key == "0-999" && root.title == "0-999"
      && |root.children| == 10
      && forall i :: 0 <= i < 10 ==>
           && root.children[i].Group?
           && root.children[i].key == RangeKey(100 * i, 100 * i + 99)
           && root.children[i].title == RangeKey(100 * i, 100 * i + 99)
           && |root.children[i].children| == 100
  {
    ThousandRoot(records, leafOf);
    ThousandKid(records, leafOf, 0);
    forall i | 0 <= i < 10
      ensures var kids := Children(AsWritten, records, leafOf, RangeKey, 0, 999, 100, 999);
        && kids[i].Group? && kids[i].key == RangeKey(100 * i, 100 * i + 99) && kids[i].title == kids[i].key
        && |kids[i].children| == 100
    {
      ThousandKid(records, leafOf, i);
    }
  }

  /** `generateIndexTree` with the child loop running to `min(size - 1, end)` inclusive. */
  function IndexTree<T, P>(records: seq<T>, leafOf: T -> Option<P>, start: int, end: int): Node<P>
    requires Callable(|records|, start, end)
  {
    IndexTreeOf(Corrected, records, leafOf, RangeKey, start, end)
  }

  /**
   * With the corrected child loop, the index tree over all records holds the leaf of
   * every record whose leaf is not null, in record order.
   */
  lemma {:induction false} IndexTreeKeepsAll<T, P>(records: seq<T>, leafOf: T -> Option<P>)
    ensures Flatten([IndexTree(records, leafOf, 0, |records| - 1)]) == Present(records, leafOf)
  {
    var n := |records|;
    FlattenGroup(Corrected, records, leafOf, RangeKey, 0, n - 1);
    CorrectedCovers(records, leafOf, RangeKey, 0, n - 1, 0);
    PresentInSuffix(records, leafOf, 0);
    assert records[0..] == records;
  }
}
