/** The comparators of TreeMultimapExplicitTest, and the natural orderings a
    copied TreeMultimap falls back to. A Java null key or value is None. A
    comparator answers an int whose sign tells the order. */
module Comparators {
  import opened IoTypes

  type Key = Option<string>
  type Value = Option<int>

  /** The key comparators: StringLength.COMPARATOR, or natural String order
      (which throws NullPointerException on a null). */
  datatype KeyOrder = StringLength | NaturalKeys

  /** The value comparators: DECREASING_INT_COMPARATOR, or natural Integer
      order (which throws NullPointerException on a null). */
  datatype ValueOrder = DecreasingNullsFirst | NaturalValues

  /** String.compareTo: the difference of the first pair of differing
      chars, or else the difference of the lengths. */
  function CompareTo(a: string, b: string): int
    decreases |a|
  {
    if a == [] || b == [] then |a| - |b|
    else if a[0] != b[0] then a[0] as int - b[0] as int
    else CompareTo(a[1..], b[1..])
  }

  /** Integer.compareTo: -1, 0 or 1. */
  function IntCompare(x: int, y: int): int
  {
    if x < y then -1 else if x == y then 0 else 1
  }

  /** StringLength.compare: null first, then shorter strings first, then
      String.compareTo among strings of one length. */
  function StringLengthCompare(first: Key, second: Key): int
  {
    if first == second then 0
    else if first.None? then -1
    else if second.None? then 1
    else if |first.value| != |second.value| then |first.value| - |second.value|
    else CompareTo(first.value, second.value)
  }

  /** Ordering.natural().reverse().nullsFirst() on Integer: null first, then
      the natural order with its arguments swapped. */
  function DecreasingCompare(a: Value, b: Value): int
  {
    if a == b then 0
    else if a.None? then -1
    else if b.None? then 1
    else IntCompare(b.value, a.value)
  }

  /** Whether the comparator accepts a key rather than throwing NullPointerException. */
  predicate KeyAdmitted(o: KeyOrder, k: Key)
  {
    o == StringLength || k.Some?
  }

  predicate ValueAdmitted(o: ValueOrder, v: Value)
  {
    o == DecreasingNullsFirst || v.Some?
  }

  function CompareKeys(o: KeyOrder, a: Key, b: Key): int
    requires KeyAdmitted(o, a) && KeyAdmitted(o, b)
  {
    match o
    case StringLength => StringLengthCompare(a, b)
    case NaturalKeys => CompareTo(a.value, b.value)
  }

  function CompareValues(o: ValueOrder, a: Value, b: Value): int
    requires ValueAdmitted(o, a) && ValueAdmitted(o, b)
  {
    match o
    case DecreasingNullsFirst => DecreasingCompare(a, b)
    case NaturalValues => IntCompare(a.value, b.value)
  }

  // ------------------------------------------------ reference orders

  /** a and b agree on their first k chars, and there b goes on with a
      greater char, or with any char where a has ended. */
  ghost predicate DivergesBelow(a: string, b: string, k: nat)
  {
    && k <= |a| && k < |b| && a[..k] == b[..k]
    && (k == |a| || a[k] < b[k])
  }

  /** Lexicographic order, stated as the existence of a divergence point. */
  ghost predicate LexLess(a: string, b: string)
  {
    exists k: nat :: DivergesBelow(a, b, k)
  }

  /** The order StringLength describes: null before every string, shorter
      before longer, and lexicographic among strings of one length. */
  ghost predicate ShortLexLess(a: Key, b: Key)
  {
    || (a.None? && b.Some?)
    || (a.Some? && b.Some? && |a.value| < |b.value|)
    || (a.Some? && b.Some? && |a.value| == |b.value| && LexLess(a.value, b.value))
  }

  /** The order DECREASING_INT_COMPARATOR describes: null before every
      integer, greater integers before smaller ones. */
  ghost predicate DecreasingLess(a: Value, b: Value)
  {
    (a.None? && b.Some?) || (a.Some? && b.Some? && a.value > b.value)
  }

  // ------------------------------------------- String.compareTo laws

  lemma {:induction false} DivergesShift(a: string, b: string, k: nat)
    requires a != [] && b != [] && a[0] == b[0]
    ensures DivergesBelow(a, b, k + 1) <==> DivergesBelow(a[1..], b[1..], k)
  {
    if k + 1 <= |a| && k + 1 < |b| {
      assert a[..k + 1] == [a[0]] + a[1..][..k];
      assert b[..k + 1] == [b[0]] + b[1..][..k];
    }
  }

  /** String.compareTo is negative exactly when the first string comes
      first in lexicographic order. */
  lemma {:induction false} CompareToLess(a: string, b: string)
    ensures CompareTo(a, b) < 0 <==> LexLess(a, b)
    decreases |a|
  {
    if a == [] {
      if b != [] {
        assert DivergesBelow(a, b, 0);
      }
    } else if b == [] {
      assert !LexLess(a, b);
    } else if a[0] != b[0] {
      if a[0] < b[0] {
        assert DivergesBelow(a, b, 0);
      }
    } else {
      CompareToLess(a[1..], b[1..]);
      if LexLess(a[1..], b[1..]) {
        var k: nat :| DivergesBelow(a[1..], b[1..], k);
        DivergesShift(a, b, k);
      }
      if LexLess(a, b) {
        var k: nat :| DivergesBelow(a, b, k);
        assert k != 0;
        DivergesShift(a, b, k - 1);
      }
    }
  }

  /** Swapping the arguments of String.compareTo negates the answer. */
  lemma {:induction false} CompareToSwap(a: string, b: string)
    ensures CompareTo(b, a) == -CompareTo(a, b)
    decreases |a|
  {
    if a != [] && b != [] && a[0] == b[0] {
      CompareToSwap(a[1..], b[1..]);
    }
  }

  /** String.compareTo answers 0 exactly on equal strings. */
  lemma {:induction false} CompareToZero(a: string, b: string)
    ensures CompareTo(a, b) == 0 <==> a == b
    decreases |a|
  {
    if a != [] && b != [] && a[0] == b[0] {
      CompareToZero(a[1..], b[1..]);
      if a[1..] == b[1..] {
        assert a == [a[0]] + a[1..] && b == [b[0]] + b[1..];
      }
    }
  }

  lemma {:induction false} CompareToTransitive(a: string, b: string, c: string)
    requires CompareTo(a, b) < 0 && CompareTo(b, c) < 0
    ensures CompareTo(a, c) < 0
    decreases |a|
  {
    if a != [] && b != [] && c != [] && a[0] == b[0] && b[0] == c[0] {
      CompareToTransitive(a[1..], b[1..], c[1..]);
    }
  }

  // ------------------------------------------------- the comparators

  /** StringLength.compare orders keys exactly as ShortLexLess says. */
  lemma StringLengthOrders(a: Key, b: Key)
    ensures StringLengthCompare(a, b) < 0 <==> ShortLexLess(a, b)
  {
    if a.Some? && b.Some? {
      CompareToLess(a.value, b.value);
      if a == b {
        assert !LexLess(a.value, b.value) by {
          CompareToZero(a.value, b.value);
        }
      }
    }
  }

  /** DECREASING_INT_COMPARATOR orders values exactly as DecreasingLess says. */
  lemma DecreasingOrders(a: Value, b: Value)
    ensures DecreasingCompare(a, b) < 0 <==> DecreasingLess(a, b)
  {
  }

  /** Each key comparator is a total order consistent with equality: 0
      exactly on equal keys, the opposite sign for swapped arguments, and
      transitive. */
  lemma KeyOrderLaws(o: KeyOrder, a: Key, b: Key, c: Key)
    requires KeyAdmitted(o, a) && KeyAdmitted(o, b) && KeyAdmitted(o, c)
    ensures CompareKeys(o, a, b) == 0 <==> a == b
    ensures CompareKeys(o, a, b) < 0 <==> CompareKeys(o, b, a) > 0
    ensures CompareKeys(o, a, b) < 0 && CompareKeys(o, b, c) < 0 ==> CompareKeys(o, a, c) < 0
  {
    if a.Some? && b.Some? {
      CompareToZero(a.value, b.value);
      CompareToSwap(a.value, b.value);
    }
    if a.Some? && b.Some? && c.Some? && CompareKeys(o, a, b) < 0 && CompareKeys(o, b, c) < 0 {
      if o == NaturalKeys || (|a.value| == |b.value| && |b.value| == |c.value|) {
        CompareToTransitive(a.value, b.value, c.value);
      }
    }
  }

  /** Each value comparator is a total order consistent with equality. */
  lemma ValueOrderLaws(o: ValueOrder, a: Value, b: Value, c: Value)
    requires ValueAdmitted(o, a) && ValueAdmitted(o, b) && ValueAdmitted(o, c)
    ensures CompareValues(o, a, b) == 0 <==> a == b
    ensures CompareValues(o, a, b) < 0 <==> CompareValues(o, b, a) > 0
    ensures CompareValues(o, a, b) < 0 && CompareValues(o, b, c) < 0 ==> CompareValues(o, a, c) < 0
  {
  }
}
