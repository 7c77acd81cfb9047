/**
 * Index arithmetic of the work lightbox: the carousel index is wrapped into the
 * range of the image list with JavaScript's `%` operator, whose result takes the
 * sign of the dividend (unlike Dafny's Euclidean `%`).
 */
module LoopedIndex {

  /** JavaScript's `a % b` for a positive divisor: the divisor is taken away
      from (or added to) the dividend until what is left is smaller than it in
      magnitude, so the remainder keeps the sign of `a`. */
  function JsRemainder(a: int, b: int): (r: int)
    requires b > 0
    ensures -b < r < b
    ensures a >= 0 ==> r >= 0
    ensures a <= 0 ==> r <= 0
    decreases if a >= 0 then a else -a
  {
    if a >= b then JsRemainder(a - b, b)
    else if a <= -b then JsRemainder(a + b, b)
    else a
  }

  /** A non-negative dividend leaves its Euclidean residue. */
  lemma {:induction false} NonNegativeRemainder(a: int, b: int)
    requires a >= 0 && b > 0
    ensures JsRemainder(a, b) == a % b
    decreases a
  {
    if a >= b {
      NonNegativeRemainder(a - b, b);
      var q := (a - b) / b;
      assert a - b == b * q + (a - b) % b;
      UniqueResidue(a, q + 1, (a - b) % b, b);
    } else {
      UniqueResidue(a, 0, a, b);
    }
  }

  /** Negating the dividend negates the remainder. */
  lemma {:induction false} RemainderIsOdd(a: int, b: int)
    requires b > 0
    ensures JsRemainder(-a, b) == -JsRemainder(a, b)
    decreases if a >= 0 then a else -a
  {
    if a >= b {
      RemainderIsOdd(a - b, b);
    } else if a <= -b {
      RemainderIsOdd(a + b, b);
    }
  }

  /** The JavaScript remainder is the truncated one: the Euclidean residue of
      a non-negative dividend, and the negated residue of the dividend's
      magnitude otherwise. */
  lemma JsRemainderTruncates(a: int, b: int)
    requires b > 0
    ensures JsRemainder(a, b) == if a >= 0 then a % b else -((-a) % b)
  {
    if a >= 0 {
      NonNegativeRemainder(a, b);
    } else {
      NonNegativeRemainder(-a, b);
      RemainderIsOdd(-a, b);
    }
  }

  /** A non-zero multiple of a positive number is at least that number away from 0. */
  lemma {:induction false} MultipleIsFarFromZero(d: int, k: int)
    requires d > 0 && k != 0
    ensures k > 0 ==> d * k >= d
    ensures k < 0 ==> d * k <= -d
    decreases if k > 0 then k else -k
  {
    if k > 1 {
      MultipleIsFarFromZero(d, k - 1);
    } else if k < -1 {
      MultipleIsFarFromZero(d, k + 1);
    }
  }

  /** The divisor `imageCount || 1`: an empty image list counts as one image. */
  function LoopDivisor(imageCount: nat): (d: int)
    ensures d >= 1
    ensures imageCount == 0 ==> d == 1
    ensures imageCount > 0 ==> d == imageCount
  {
    if imageCount == 0 then 1 else imageCount
  }

  /** `toLoopedIndex`: `(targetIndex + d) % d` with `d = imageCount || 1`.
      The result is guaranteed to lie in `[0, d)` only for targets at or above
      `-d`; below that the JavaScript remainder is non-positive (0 when `d`
      divides the target, negative otherwise). */
  function ToLoopedIndex(targetIndex: int, imageCount: nat): (r: int)
    ensures -LoopDivisor(imageCount) < r < LoopDivisor(imageCount)
    ensures targetIndex >= -LoopDivisor(imageCount) ==> 0 <= r < LoopDivisor(imageCount)
    ensures targetIndex < -LoopDivisor(imageCount) ==> r <= 0
  {
    var d := LoopDivisor(imageCount);
    JsRemainder(targetIndex + d, d)
  }

  /** Where the guarantee holds, the looped index is the Euclidean residue. */
  lemma LoopedIndexIsResidue(targetIndex: int, imageCount: nat)
    requires targetIndex >= -LoopDivisor(imageCount)
    ensures ToLoopedIndex(targetIndex, imageCount) == targetIndex % LoopDivisor(imageCount)
  {
    var d := LoopDivisor(imageCount);
    JsRemainderTruncates(targetIndex + d, d);
    var r := (targetIndex + d) % d;
    assert targetIndex + d == d * ((targetIndex + d) / d) + r;
    UniqueResidue(targetIndex, (targetIndex + d) / d - 1, r, d);
  }

  /** Euclidean division is unique: a representation `t == d * q + r` with
      `0 <= r < d` fixes the residue. */
  lemma UniqueResidue(t: int, q: int, r: int, d: int)
    requires d > 0 && 0 <= r < d && t == d * q + r
    ensures t % d == r
  {
    var k := q - t / d;
    assert d * k == t % d - r;
    if k != 0 {
      MultipleIsFarFromZero(d, k);
    }
  }

  /** An index already in range is left where it is. */
  lemma InRangeIsFixed(i: int, imageCount: nat)
    requires 0 <= i < LoopDivisor(imageCount)
    ensures ToLoopedIndex(i, imageCount) == i
  {
    LoopedIndexIsResidue(i, imageCount);
  }

  /** Periodicity: adding the image count does not move the looped index,
      for every target from `-count` up. */
  lemma LoopedIndexPeriodic(targetIndex: int, imageCount: nat)
    requires imageCount >= 1
    requires targetIndex + imageCount >= 0
    ensures ToLoopedIndex(targetIndex + imageCount, imageCount) == ToLoopedIndex(targetIndex, imageCount)
  {
    var n := imageCount;
    assert LoopDivisor(n) == n;
    LoopedIndexIsResidue(targetIndex, n);
    LoopedIndexIsResidue(targetIndex + n, n);
    var q, r := targetIndex / n, targetIndex % n;
    assert targetIndex == n * q + r;
    assert n * (q + 1) == n * q + n;
    UniqueResidue(targetIndex + n, q + 1, r, n);
  }

  /** Stepping back from the first image wraps to the last one. */
  lemma PreviousOfFirstIsLast(imageCount: nat)
    requires imageCount >= 1
    ensures ToLoopedIndex(-1, imageCount) == imageCount - 1
  {
    UniqueResidue(imageCount - 1, 0, imageCount - 1, imageCount);
  }

  /** Stepping forward from the last image wraps to the first one. */
  lemma NextOfLastIsFirst(imageCount: nat)
    requires imageCount >= 1
    ensures ToLoopedIndex(imageCount, imageCount) == 0
  {
    LoopedIndexIsResidue(imageCount, imageCount);
    UniqueResidue(imageCount, 1, 0, imageCount);
  }

  /** With no images the divisor is one, so every target loops to 0. */
  lemma EmptyListLoopsToZero(targetIndex: int)
    ensures ToLoopedIndex(targetIndex, 0) == 0
  {
  }

  /** Below `-count` the JavaScript remainder leaves the range: the result is
      negative and the periodicity law fails. */
  lemma BelowRangeLeavesRange(imageCount: nat)
    requires imageCount >= 2
    ensures ToLoopedIndex(-1 - imageCount as int, imageCount) == -1
    ensures ToLoopedIndex(-1, imageCount) != ToLoopedIndex(-1 - imageCount as int, imageCount)
  {
    PreviousOfFirstIsLast(imageCount);
    UniqueResidue(1, 0, 1, imageCount);
  }

  /** One step forward from an index in range. */
  lemma NextIndex(i: int, imageCount: nat)
    requires 0 <= i < LoopDivisor(imageCount)
    ensures ToLoopedIndex(i + 1, imageCount) == if i + 1 == LoopDivisor(imageCount) then 0 else i + 1
  {
    var d := LoopDivisor(imageCount);
    if i + 1 == d {
      NextOfLastIsFirst(d);
    } else {
      InRangeIsFixed(i + 1, imageCount);
    }
  }

  /** One step back from an index in range. */
  lemma PreviousIndex(i: int, imageCount: nat)
    requires 0 <= i < LoopDivisor(imageCount)
    ensures ToLoopedIndex(i - 1, imageCount) == if i == 0 then LoopDivisor(imageCount) - 1 else i - 1
  {
    var d := LoopDivisor(imageCount);
    if i == 0 {
      UniqueResidue(d - 1, 0, d - 1, d);
    } else {
      InRangeIsFixed(i - 1, imageCount);
    }
  }

  /** A step forward followed by a step back returns to the same index, and
      the other way round. */
  lemma StepsUndoEachOther(i: int, imageCount: nat)
    requires 0 <= i < LoopDivisor(imageCount)
    ensures ToLoopedIndex(ToLoopedIndex(i + 1, imageCount) - 1, imageCount) == i
    ensures ToLoopedIndex(ToLoopedIndex(i - 1, imageCount) + 1, imageCount) == i
  {
    NextIndex(i, imageCount);
    PreviousIndex(ToLoopedIndex(i + 1, imageCount), imageCount);
    PreviousIndex(i, imageCount);
    NextIndex(ToLoopedIndex(i - 1, imageCount), imageCount);
  }

  /** Moving by the whole count lands on the same index. */
  lemma FullCountReturns(i: int, imageCount: nat)
    requires imageCount >= 1
    requires 0 <= i < imageCount
    ensures ToLoopedIndex(i + imageCount, imageCount) == i
  {
    LoopedIndexPeriodic(i, imageCount);
    InRangeIsFixed(i, imageCount);
  }
}
