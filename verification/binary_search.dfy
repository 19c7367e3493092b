/**
 * The client's generic binary search (client/src/assets/js/binarySearch.js).
 * `compare(x)` is negative when the target sorts before `x`, positive when it
 * sorts after, and zero on a match. The result is a matching index or the
 * position where the target would be inserted.
 */
module BinarySearch {

  /** JavaScript arrays hold fewer than 2^32 elements. */
  const JsArrayLengthBound: nat := 0x1_0000_0000

  /** `x >>> 1`: the operand is converted to an unsigned 32-bit integer first. */
  function UnsignedShiftRight1(x: int): (r: nat)
    ensures 0 <= x < JsArrayLengthBound ==> r == x / 2
  {
    (x % JsArrayLengthBound) / 2
  }

  /** The index probed on `[begin, end)`. */
  function Middle(begin: nat, end: nat): (m: nat)
    requires begin < end
    requires end - begin < JsArrayLengthBound
    ensures begin <= m < end
  {
    begin + UnsignedShiftRight1(end - begin)
  }

  /**
   * `binarySearchImpl`: on every input (sorted or not) the result is in
   * `[begin, end]` and is either a match, or a local insertion point: the
   * element before it compares positive and the element at it compares
   * negative.
   */
  function BinarySearchImpl<T>(items: seq<T>, compare: T -> int, begin: nat, end: nat): (r: nat)
    requires begin <= end <= |items|
    requires end - begin < JsArrayLengthBound
    decreases end - begin
    ensures begin <= r <= end
    ensures begin == end ==> r == begin
    ensures
      || (r < end && compare(items[r]) == 0)
      || ((r == begin || compare(items[r - 1]) > 0) && (r == end || compare(items[r]) < 0))
  {
    if begin == end then begin
    else
      var middle := Middle(begin, end);
      var order := compare(items[middle]);
      if order < 0 then BinarySearchImpl(items, compare, begin, middle)
      else if order > 0 then BinarySearchImpl(items, compare, middle + 1, end)
      else middle
  }

  /** The default export: search the whole array. */
  function Search<T>(items: seq<T>, compare: T -> int): (r: nat)
    requires |items| < JsArrayLengthBound
    ensures r <= |items|
    ensures |items| == 0 ==> r == 0
  {
    BinarySearchImpl(items, compare, 0, |items|)
  }

  /** `compare` is non-increasing in sign along the array: positives, then zeros, then negatives. */
  ghost predicate SortedFor<T>(items: seq<T>, compare: T -> int) {
    forall i, j :: 0 <= i < j < |items| ==>
      (compare(items[j]) > 0 ==> compare(items[i]) > 0) &&
      (compare(items[i]) < 0 ==> compare(items[j]) < 0)
  }

  /**
   * On an array sorted for `compare` without a matching element, the result
   * is the insertion point: everything before it compares positive and
   * everything from it on compares negative.
   */
  lemma SearchFindsInsertionPoint<T>(items: seq<T>, compare: T -> int)
    requires |items| < JsArrayLengthBound
    requires SortedFor(items, compare)
    requires forall i :: 0 <= i < |items| ==> compare(items[i]) != 0
    ensures var r := Search(items, compare);
      && (forall i :: 0 <= i < r ==> compare(items[i]) > 0)
      && (forall i :: r <= i < |items| ==> compare(items[i]) < 0)
  {
    var r := Search(items, compare);
    forall i | 0 <= i < r
      ensures compare(items[i]) > 0
    {
      assert compare(items[r - 1]) > 0;
    }
    forall i | r <= i < |items|
      ensures compare(items[i]) < 0
    {
      assert compare(items[r]) < 0;
    }
  }

  /** On a sorted array that holds a match, the search returns a match. */
  lemma SearchFindsMatch<T>(items: seq<T>, compare: T -> int, k: nat)
    requires |items| < JsArrayLengthBound
    requires SortedFor(items, compare)
    requires k < |items| && compare(items[k]) == 0
    ensures var r := Search(items, compare);
      r < |items| && compare(items[r]) == 0
  {
  }
}
