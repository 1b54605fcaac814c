/**
 * Ring identifiers (ID.java): fixed-width big-endian bit strings, their order,
 * modular "add a power of two", Chord's wraparound interval tests, the hex
 * rendering and the inclusive identifier span used by retrieval.
 */
module Identifier {
  import opened Failures
  import Descriptors

  /** Bits per semantic slot; the number of semantic slots is that of ServiceId. */
  const SemanticPartBitLen: nat := 6
  const SemanticTotalBitLen: nat := SemanticPartBitLen * Descriptors.PartsSemantic
  /**
   * The provider width is computed at class-load time as
   * ceil(log2(1023) - log2(100000) + 24) = ceil(17.39) = 18; it is fixed here.
   */
  const ProviderBitLen: nat := 18
  const TotalBitLen: nat := SemanticTotalBitLen + ProviderBitLen

  /** A bit string; index 0 is the most significant bit. */
  type Bits = seq<bool>

  /** An identifier of the ring: exactly TotalBitLen bits. */
  type Id = b: Bits | |b| == TotalBitLen witness seq(TotalBitLen, _ => false)

  function Pow2(k: nat): (r: nat)
    ensures r >= 1
  {
    if k == 0 then 1 else 2 * Pow2(k - 1)
  }

  lemma {:induction false} Pow2Monotone(a: nat, b: nat)
    requires a < b
    ensures Pow2(a) < Pow2(b)
  {
    if a + 1 < b {
      Pow2Monotone(a, b - 1);
    }
  }

  /** The unsigned number a big-endian bit string denotes. */
  function Value(b: Bits): (v: nat)
    ensures v < Pow2(|b|)
  {
    if |b| == 0 then 0 else (if b[0] then Pow2(|b| - 1) else 0) + Value(b[1..])
  }

  // ---------------------------------------------------------------------
  // Order (compareTo, equals)
  // ---------------------------------------------------------------------

  /** Lexicographic comparison from bit 0: the sign of the first difference. */
  function Compare(a: Bits, b: Bits): int
    requires |a| == |b|
  {
    if |a| == 0 then 0
    else if a[0] != b[0] then (if a[0] then 1 else -1)
    else Compare(a[1..], b[1..])
  }

  /** Lexicographic order on equal-width bit strings is the numeric order of their values. */
  lemma {:induction false} CompareIsNumericOrder(a: Bits, b: Bits)
    requires |a| == |b|
    ensures Compare(a, b) in {-1, 0, 1}
    ensures Compare(a, b) < 0 <==> Value(a) < Value(b)
    ensures Compare(a, b) > 0 <==> Value(a) > Value(b)
    ensures Compare(a, b) == 0 <==> a == b
  {
    if |a| > 0 {
      assert a == [a[0]] + a[1..];
      assert b == [b[0]] + b[1..];
      if a[0] == b[0] {
        CompareIsNumericOrder(a[1..], b[1..]);
      }
    }
  }

  /** Equal-width bit strings with equal values are equal. */
  lemma ValueInjective(a: Bits, b: Bits)
    requires |a| == |b| && Value(a) == Value(b)
    ensures a == b
  {
    CompareIsNumericOrder(a, b);
  }

  lemma {:induction false} CompareSkipsEqualPrefix(a: Bits, b: Bits, i: nat)
    requires |a| == |b| && i < |a| && a[i] == b[i]
    ensures Compare(a[i..], b[i..]) == Compare(a[i + 1..], b[i + 1..])
  {
    assert a[i..][1..] == a[i + 1..];
    assert b[i..][1..] == b[i + 1..];
  }

  /**
   * compareTo: throws ClassCastException for different lengths, otherwise scans
   * from bit 0 and answers +1 or -1 at the first differing bit, 0 if none.
   */
  method CompareTo(a: Bits, b: Bits) returns (r: Result<int>)
    ensures |a| != |b| ==> r == Err(ClassCast)
    ensures |a| == |b| ==> r.Ok? && r.value in {-1, 0, 1}
    ensures |a| == |b| ==> (r.value < 0 <==> Value(a) < Value(b))
    ensures |a| == |b| ==> (r.value > 0 <==> Value(a) > Value(b))
    ensures |a| == |b| ==> (r.value == 0 <==> a == b)
  {
    if |a| != |b| {
      return Err(ClassCast);
    }
    CompareIsNumericOrder(a, b);
    assert a[0..] == a && b[0..] == b;
    for i := 0 to |a|
      invariant Compare(a[i..], b[i..]) == Compare(a, b)
    {
      if a[i] != b[i] {
        return Ok(if a[i] then 1 else -1);
      }
      CompareSkipsEqualPrefix(a, b, i);
    }
    return Ok(0);
  }

  /** equals: defined through compareTo. */
  function Equals(a: Id, b: Id): (r: bool)
    ensures r <==> a == b
  {
    CompareIsNumericOrder(a, b);
    Compare(a, b) == 0
  }

  // ---------------------------------------------------------------------
  // The extreme identifiers
  // ---------------------------------------------------------------------

  /** The all-zero identifier. */
  function IdMin(): Id { seq(TotalBitLen, _ => false) }

  /** The all-one identifier that the declaration of idMax documents. */
  function IdMax(): Id { seq(TotalBitLen, _ => true) }

  /**
   * idMax as the static initialiser builds it: set(0, length()) on a fresh
   * BitSet, whose logical length is 0, sets no bit, so it stays all zero.
   */
  function IdMaxAsWritten(): Id { seq(TotalBitLen, _ => false) }

  lemma {:induction false} AllZeroValue(b: Bits)
    requires forall i :: 0 <= i < |b| ==> !b[i]
    ensures Value(b) == 0
  {
    if |b| > 0 {
      AllZeroValue(b[1..]);
    }
  }

  lemma {:induction false} AllOneValue(b: Bits)
    requires forall i :: 0 <= i < |b| ==> b[i]
    ensures Value(b) == Pow2(|b|) - 1
  {
    if |b| > 0 {
      AllOneValue(b[1..]);
    }
  }

  /**
   * IdMin denotes 0 and IdMax 2^TotalBitLen - 1, so every identifier lies
   * between them; the idMax the source builds denotes 0.
   */
  lemma ExtremeValues()
    ensures Value(IdMin()) == 0
    ensures Value(IdMax()) == Pow2(|IdMax()|) - 1
    ensures forall x: Id :: Value(x) <= Value(IdMax())
    ensures Value(IdMaxAsWritten()) == 0
  {
    AllZeroValue(IdMin());
    AllOneValue(IdMax());
    AllZeroValue(IdMaxAsWritten());
  }

  // ---------------------------------------------------------------------
  // addPowerOfTwo
  // ---------------------------------------------------------------------

  /** Changing one bit changes the value by that bit's weight. */
  lemma {:induction false} ValueUpdate(b: Bits, k: nat, v: bool)
    requires k < |b|
    ensures Value(b[k := v]) ==
            Value(b) - (if b[k] then Pow2(|b| - 1 - k) else 0) + (if v then Pow2(|b| - 1 - k) else 0)
  {
    if k == 0 {
      assert b[k := v][1..] == b[1..];
    } else {
      assert b[k := v][1..] == b[1..][k - 1 := v];
      ValueUpdate(b[1..], k - 1, v);
    }
  }

  /**
   * addPowerOfTwo: rejects a power outside [0, length - 1]; otherwise flips the
   * bits of a copy from weight 2^powerOfTwo upwards until a flip produces a one
   * (ripple carry), which adds 2^powerOfTwo modulo 2^length.
   */
  method AddPowerOfTwo(id: Id, powerOfTwo: int) returns (r: Result<Id>)
    ensures !(0 <= powerOfTwo < |id|) ==> r.Err? && r.error.IllegalArgument?
    ensures 0 <= powerOfTwo < |id| ==>
              r.Ok? && Value(r.value) == (Value(id) + Pow2(powerOfTwo)) % Pow2(|id|)
  {
    if powerOfTwo < 0 || powerOfTwo >= |id| {
      return Err(IllegalArgument("The power of two is out of range! It must be in the interval [0, length-1]"));
    }
    var n := |id|;
    var copy := new bool[n](i requires 0 <= i < n => id[i]);
    assert copy[..] == id;
    RippleCarry(copy, powerOfTwo);
    return Ok(copy[..]);
  }

  /** The carry loop of addPowerOfTwo, in place on the copied bits. */
  method RippleCarry(copy: array<bool>, powerOfTwo: nat)
    requires powerOfTwo < copy.Length
    modifies copy
    ensures Value(copy[..]) == (Value(old(copy[..])) + Pow2(powerOfTwo)) % Pow2(copy.Length)
  {
    ghost var start := copy[..];
    var n := copy.Length;
    var i := powerOfTwo;
    while i < n
      invariant powerOfTwo <= i <= n
      invariant Value(copy[..]) + Pow2(i) == Value(start) + Pow2(powerOfTwo)
    {
      var idx := n - i - 1;
      ghost var before := copy[..];
      copy[idx] := !copy[idx];
      assert copy[..] == before[idx := !before[idx]];
      CarryStep(before, i);
      if copy[idx] {
        // the flipped bit was zero: no carry remains
        break;
      }
      i := i + 1;
    }
    Pow2Monotone(powerOfTwo, n);
    CarryOutcome(Value(copy[..]), Value(start), Pow2(powerOfTwo), Pow2(n));
  }

  /**
   * Flipping the bit of weight 2^i: a zero becomes one and adds 2^i; a one
   * becomes zero and leaves 2^(i+1) still to add.
   */
  lemma CarryStep(b: Bits, i: nat)
    requires i < |b|
    ensures var idx := |b| - 1 - i;
            if b[idx] then Value(b[idx := false]) + Pow2(i + 1) == Value(b) + Pow2(i)
            else Value(b[idx := true]) == Value(b) + Pow2(i)
  {
    ValueUpdate(b, |b| - 1 - i, !b[|b| - 1 - i]);
  }

  /**
   * The loop ends with the sum itself, or with the sum less 2^length when the
   * carry ran off the top bit: either way the sum modulo 2^length.
   */
  lemma CarryOutcome(v: nat, x: nat, add: nat, m: nat)
    requires x < m && add < m && v < m
    requires v == x + add || v + m == x + add
    ensures v == (x + add) % m
  {
    if v == x + add {
      assert (x + add) % m == x + add;
    } else {
      assert x + add == m * 1 + v;
    }
  }

  // ---------------------------------------------------------------------
  // Interval tests
  // ---------------------------------------------------------------------

  /**
   * The body of isInInterval, with the greatest identifier as a parameter so
   * that the source's idMax and the documented all-one idMax can be compared.
   */
  function IntervalTest(x: Id, from: Id, to: Id, maxId: Id): bool
  {
    if Equals(from, to) then
      // every identifier except the bound itself
      !Equals(x, from)
    else if Compare(from, to) < 0 then
      Compare(x, from) > 0 && Compare(x, to) < 0
    else
      // the interval wraps: (from, maxId] or [IdMin, to)
      (!Equals(from, maxId) && Compare(x, from) > 0 && Compare(x, maxId) <= 0) ||
      (!Equals(IdMin(), to) && Compare(x, IdMin()) >= 0 && Compare(x, to) < 0)
  }

  /** isInInterval: the open interval (from, to) of the ring; the whole ring but `from` when from == to. */
  function IsInInterval(x: Id, from: Id, to: Id): (r: bool)
    ensures r ==> x != from && x != to
  {
    IntervalTestValues(x, from, to, IdMax());
    IntervalTest(x, from, to, IdMax())
  }

  /** isInInterval as the source builds it, with its all-zero idMax. */
  function IsInIntervalAsWritten(x: Id, from: Id, to: Id): bool
  {
    IntervalTest(x, from, to, IdMaxAsWritten())
  }

  /** isInIntervalInclusive: the open test, or one of the two bounds. */
  function IsInIntervalInclusive(x: Id, from: Id, to: Id): (r: bool)
    ensures IsInInterval(x, from, to) ==> r
    ensures x == from || x == to ==> r
  {
    CompareIsNumericOrder(x, from);
    CompareIsNumericOrder(x, to);
    IsInInterval(x, from, to) || Equals(x, from) || Equals(x, to)
  }

  /** The body of isInInterval in terms of values, for any choice of the greatest identifier. */
  lemma IntervalTestValues(x: Id, from: Id, to: Id, maxId: Id)
    ensures IntervalTest(x, from, to, maxId) <==>
            if from == to then x != from
            else if Value(from) < Value(to) then Value(from) < Value(x) < Value(to)
            else (from != maxId && Value(from) < Value(x) <= Value(maxId)) ||
                 (to != IdMin() && Value(x) < Value(to))
  {
    CompareIsNumericOrder(from, to);
    if from != to {
      CompareIsNumericOrder(x, from);
      if Value(from) < Value(to) {
        CompareIsNumericOrder(x, to);
      } else {
        WrapTestValues(x, from, to, maxId);
      }
    }
  }

  lemma WrapTestValues(x: Id, from: Id, to: Id, maxId: Id)
    ensures ((!Equals(from, maxId) && Compare(x, from) > 0 && Compare(x, maxId) <= 0) ||
             (!Equals(IdMin(), to) && Compare(x, IdMin()) >= 0 && Compare(x, to) < 0)) <==>
            (from != maxId && Value(from) < Value(x) <= Value(maxId)) ||
            (to != IdMin() && Value(x) < Value(to))
  {
    UpperPieceValues(x, from, maxId);
    LowerPieceValues(x, to);
  }

  lemma UpperPieceValues(x: Id, from: Id, maxId: Id)
    ensures (!Equals(from, maxId) && Compare(x, from) > 0 && Compare(x, maxId) <= 0) <==>
            (from != maxId && Value(from) < Value(x) <= Value(maxId))
  {
    CompareIsNumericOrder(x, from);
    CompareIsNumericOrder(x, maxId);
  }

  lemma LowerPieceValues(x: Id, to: Id)
    ensures (!Equals(IdMin(), to) && Compare(x, IdMin()) >= 0 && Compare(x, to) < 0) <==>
            (to != IdMin() && Value(x) < Value(to))
  {
    var lo := IdMin();
    AllZeroValue(lo);
    CompareIsNumericOrder(x, lo);
    CompareIsNumericOrder(x, to);
  }

  /**
   * The open interval in terms of values: when the bounds coincide, all but
   * the bound; when from < to, strictly between; otherwise the wrapped pieces
   * (from, max] and [0, to).
   */
  lemma IsInIntervalValues(x: Id, from: Id, to: Id)
    ensures IsInInterval(x, from, to) <==>
            if from == to then x != from
            else if Value(from) < Value(to) then Value(from) < Value(x) < Value(to)
            else Value(from) < Value(x) || Value(x) < Value(to)
  {
    ExtremeValues();
    TrueMaxTestValues(x, from, to, IdMax());
  }

  /** The interval test over a greatest identifier of the full value. */
  lemma TrueMaxTestValues(x: Id, from: Id, to: Id, maxId: Id)
    requires Value(maxId) == Pow2(|maxId|) - 1
    ensures IntervalTest(x, from, to, maxId) <==>
            if from == to then x != from
            else if Value(from) < Value(to) then Value(from) < Value(x) < Value(to)
            else Value(from) < Value(x) || Value(x) < Value(to)
  {
    IntervalTestValues(x, from, to, maxId);
    UpperPieceBelowTrueMax(x, from, maxId);
    if to == IdMin() {
      AllZeroValue(to);
    }
  }

  /** Below a greatest identifier of the full value, the upper piece (from, max] is all above from. */
  lemma UpperPieceBelowTrueMax(x: Id, from: Id, maxId: Id)
    requires Value(maxId) == Pow2(|maxId|) - 1
    ensures (from != maxId && Value(from) < Value(x) <= Value(maxId)) <==> Value(from) < Value(x)
  {
    if from == maxId {
      assert Value(x) <= Value(from);
    }
  }

  /** Neither bound of the open interval is ever inside it. */
  lemma BoundsExcluded(from: Id, to: Id)
    ensures !IsInInterval(from, from, to)
    ensures !IsInInterval(to, from, to)
  {
    IsInIntervalValues(from, from, to);
    IsInIntervalValues(to, from, to);
  }

  /**
   * The closed interval in terms of values: the whole ring when the bounds
   * coincide, otherwise [from, to], wrapping through the maximum when from > to.
   */
  lemma IsInIntervalInclusiveValues(x: Id, from: Id, to: Id)
    ensures IsInIntervalInclusive(x, from, to) <==>
            if from == to then true
            else if Value(from) < Value(to) then Value(from) <= Value(x) <= Value(to)
            else Value(from) <= Value(x) || Value(x) <= Value(to)
  {
    IsInIntervalValues(x, from, to);
    if Value(x) == Value(from) { ValueInjective(x, from); }
    if Value(x) == Value(to) { ValueInjective(x, to); }
    if Value(from) == Value(to) { ValueInjective(from, to); }
  }

  /**
   * With the all-zero idMax of the source, a wrapping interval loses its upper
   * piece (from, max]: only [0, to) is left.
   */
  lemma WrapAsWrittenKeepsOnlyLowerPiece(x: Id, from: Id, to: Id)
    requires Value(to) < Value(from)
    ensures IsInIntervalAsWritten(x, from, to) <==> Value(x) < Value(to)
  {
    AllZeroValue(IdMaxAsWritten());
    IntervalTestValues(x, from, to, IdMaxAsWritten());
  }

  /** The identifier whose value is one. */
  function IdOne(): Id { seq(TotalBitLen, i => i == TotalBitLen - 1) }

  lemma IdOneValue()
    ensures Value(IdOne()) == 1
  {
    var prefix := seq(TotalBitLen - 1, _ => false);
    assert IdOne() == prefix + [true];
    AllZeroValue(prefix);
    ValueAppend(prefix, true);
  }

  /**
   * Whenever to < from < x, x lies in the upper piece of the wrapping interval
   * (from, to): the documented test accepts it and the source's test rejects it.
   */
  lemma UpperPieceLostAsWritten(x: Id, from: Id, to: Id)
    requires Value(to) < Value(from) < Value(x)
    ensures !IsInIntervalAsWritten(x, from, to)
    ensures IsInInterval(x, from, to)
  {
    assert from != to;
    WrapAsWrittenKeepsOnlyLowerPiece(x, from, to);
    IsInIntervalValues(x, from, to);
  }

  /** A concrete input on which the source's test and the documented one differ. */
  lemma MaxIdInWrappedIntervalAsWritten()
    ensures !IsInIntervalAsWritten(IdMax(), IdOne(), IdMin())
    ensures IsInInterval(IdMax(), IdOne(), IdMin())
  {
    AllZeroValue(IdMin());
    AllOneValue(IdMax());
    IdOneValue();
    Pow2Monotone(1, |IdMax()|);
    UpperPieceLostAsWritten(IdMax(), IdOne(), IdMin());
  }

  lemma {:induction false} ValueAppend(b: Bits, v: bool)
    ensures Value(b + [v]) == 2 * Value(b) + (if v then 1 else 0)
  {
    if |b| > 0 {
      assert (b + [v])[1..] == b[1..] + [v];
      ValueAppend(b[1..], v);
    }
  }

  // ---------------------------------------------------------------------
  // toHexString
  // ---------------------------------------------------------------------

  /** A little-endian group of at most eight bits as a byte value. */
  function ByteValue(bits: seq<bool>): (v: nat)
    ensures v < Pow2(|bits|)
  {
    if |bits| == 0 then 0 else (if bits[0] then 1 else 0) + 2 * ByteValue(bits[1..])
  }

  /** Consecutive groups of eight bits, the last one possibly shorter. */
  function Chunks(bits: seq<bool>): (ary: seq<nat>)
    ensures forall k :: 0 <= k < |ary| ==> ary[k] < 256
    ensures |ary| == 0 <==> |bits| == 0
    ensures |ary| <= |bits|
  {
    if |bits| == 0 then []
    else if |bits| <= 8 then
      Pow2Monotone2(|bits|, 8);
      [ByteValue(bits)]
    else
      [ByteValue(bits[..8])] + Chunks(bits[8..])
  }

  lemma Pow2Monotone2(a: nat, b: nat)
    requires a <= b
    ensures Pow2(a) <= Pow2(b)
  {
    if a < b { Pow2Monotone(a, b); }
  }

  /** Index one past the highest set bit (BitSet.length()). */
  function LogicalLength(b: Bits): (n: nat)
    ensures n <= |b|
    ensures n > 0 ==> b[n - 1]
    ensures forall i :: n <= i < |b| ==> !b[i]
  {
    if |b| == 0 then 0
    else if b[|b| - 1] then |b|
    else LogicalLength(b[..|b| - 1])
  }

  /**
   * BitSet.toByteArray: byte k holds bits 8k..8k+7, bit 8k as its lowest, and
   * the array stops at the byte holding the highest set bit.
   */
  function ByteArray(b: Bits): seq<nat>
  {
    Chunks(b[..LogicalLength(b)])
  }

  /** End of the k-th group of eight among n bits: 8k + 8, or n for a shorter last group. */
  function ChunkEnd(k: nat, n: nat): nat
  {
    if 8 * k + 8 <= n then 8 * k + 8 else n
  }

  /** Group k holds bits 8k up to ChunkEnd(k, n), and there are ceil(n / 8) groups. */
  lemma {:induction false} ChunksLayout(bits: seq<bool>)
    ensures |Chunks(bits)| == (|bits| + 7) / 8
    ensures forall k :: 0 <= k < |Chunks(bits)| ==>
              8 * k < ChunkEnd(k, |bits|) <= |bits| &&
              Chunks(bits)[k] == ByteValue(bits[8 * k..ChunkEnd(k, |bits|)])
  {
    if 0 < |bits| <= 8 {
      assert bits[0..ChunkEnd(0, |bits|)] == bits;
    } else if |bits| > 8 {
      var rest := bits[8..];
      ChunksLayout(rest);
      assert Chunks(bits) == [ByteValue(bits[..8])] + Chunks(rest);
      assert bits[0..ChunkEnd(0, |bits|)] == bits[..8];
      forall k | 0 < k < |Chunks(bits)|
        ensures 8 * k < ChunkEnd(k, |bits|) <= |bits|
        ensures Chunks(bits)[k] == ByteValue(bits[8 * k..ChunkEnd(k, |bits|)])
      {
        var lo, hi := 8 * (k - 1), ChunkEnd(k - 1, |rest|);
        assert Chunks(bits)[k] == Chunks(rest)[k - 1];
        assert hi + 8 == ChunkEnd(k, |bits|);
        assert lo + 8 == 8 * k;
        SliceOfSuffix(bits, 8, lo, hi);
      }
    }
  }

  /**
   * toByteArray byte by byte: byte k is the little-endian value of the
   * identifier's bits 8k up to 8k + 8, cut at the logical length, and there
   * are ceil(length() / 8) bytes.
   */
  lemma ByteArrayLayout(b: Bits)
    ensures |ByteArray(b)| == (LogicalLength(b) + 7) / 8
    ensures forall k :: 0 <= k < |ByteArray(b)| ==>
              8 * k < ChunkEnd(k, LogicalLength(b)) <= LogicalLength(b) &&
              ByteArray(b)[k] == ByteValue(b[8 * k..ChunkEnd(k, LogicalLength(b))])
  {
    var n := LogicalLength(b);
    ChunksLayout(b[..n]);
    forall k | 0 <= k < |ByteArray(b)|
      ensures b[..n][8 * k..ChunkEnd(k, n)] == b[8 * k..ChunkEnd(k, n)]
    {
      SliceOfPrefix(b, n, 8 * k, ChunkEnd(k, n));
    }
  }

  /** A slice of a suffix is the shifted slice of the whole. */
  lemma SliceOfSuffix(s: seq<bool>, d: nat, lo: nat, hi: nat)
    requires d <= |s| && lo <= hi <= |s| - d
    ensures s[d..][lo..hi] == s[lo + d..hi + d]
  {
    assert forall i :: 0 <= i < hi - lo ==> s[d..][lo..hi][i] == s[lo + d + i];
  }

  /** A slice inside a prefix is the same slice of the whole. */
  lemma SliceOfPrefix(s: seq<bool>, n: nat, lo: nat, hi: nat)
    requires lo <= hi <= n <= |s|
    ensures s[..n][lo..hi] == s[lo..hi]
  {
  }

  /** A digit 0..15 as an upper-case hexadecimal character. */
  function HexDigit(d: nat): char
    requires d < 16
  {
    if d < 10 then (48 + d) as char else (55 + d) as char
  }

  /** A byte as exactly two upper-case hexadecimal characters. */
  function HexByte(v: nat): string
    requires v < 256
  {
    [HexDigit(v / 16), HexDigit(v % 16)]
  }

  /** Reads back one hexadecimal character. */
  function ParseHexDigit(c: char): nat
  {
    if '0' <= c <= '9' then c as nat - 48
    else if 'A' <= c <= 'F' then c as nat - 55
    else 0
  }

  /** Reads back a two-character block. */
  function ParseHexByte(s: string): nat
    requires |s| == 2
  {
    16 * ParseHexDigit(s[0]) + ParseHexDigit(s[1])
  }

  /** Every byte's block reads back as that byte. */
  lemma HexByteRoundTrip(v: nat)
    requires v < 256
    ensures ParseHexByte(HexByte(v)) == v
  {
  }

  function DisplayBytes(numberOfBytes: int, available: nat): int
  {
    if numberOfBytes < available then (if 1 < numberOfBytes then numberOfBytes else 1)
    else (if 1 < available then available else 1)
  }

  /** Each byte as two upper-case digits followed by a space. */
  function HexBlocks(bytes: seq<nat>): string
    requires forall k :: 0 <= k < |bytes| ==> bytes[k] < 256
  {
    if |bytes| == 0 then ""
    else HexBlocks(bytes[..|bytes| - 1]) + HexByte(bytes[|bytes| - 1]) + " "
  }

  /** Block i of the rendering occupies characters 3i..3i+2 and shows byte i. */
  lemma {:induction false} HexBlocksLayout(bytes: seq<nat>)
    requires forall k :: 0 <= k < |bytes| ==> bytes[k] < 256
    ensures |HexBlocks(bytes)| == 3 * |bytes|
    ensures forall i :: 0 <= i < |bytes| ==> HexBlocks(bytes)[3 * i..3 * i + 3] == HexByte(bytes[i]) + " "
  {
    if |bytes| > 0 {
      var init := bytes[..|bytes| - 1];
      HexBlocksLayout(init);
      var s := HexBlocks(bytes);
      assert s == HexBlocks(init) + (HexByte(bytes[|bytes| - 1]) + " ");
      forall i | 0 <= i < |bytes|
        ensures s[3 * i..3 * i + 3] == HexByte(bytes[i]) + " "
      {
        if i < |init| {
          assert s[3 * i..3 * i + 3] == HexBlocks(init)[3 * i..3 * i + 3];
        }
      }
    }
  }

  /** Integer.toHexString(v).toUpperCase() for a byte: no leading zero. */
  function UpperHex(v: nat): string
    requires v < 256
  {
    if v < 16 then [HexDigit(v)] else [HexDigit(v / 16), HexDigit(v % 16)]
  }

  /** Padding a one-digit rendering with a leading zero gives the two-digit block. */
  lemma PaddedHexIsHexByte(v: nat)
    requires v < 256
    ensures (if |UpperHex(v)| < 2 then "0" + UpperHex(v) else UpperHex(v)) == HexByte(v)
  {
  }

  /**
   * toHexString(n): the first max(1, min(n, ary.length)) bytes of
   * toByteArray, each as two upper-case digits and a space. For the all-zero
   * identifier the byte array is empty and reading its first byte throws.
   */
  method ToHexString(id: Id, numberOfBytes: int) returns (r: Result<string>)
    ensures r.Err? <==> ByteArray(id) == []
    ensures r.Err? ==> r.error == IndexOutOfBounds
    ensures r.Ok? ==> r.value == HexBlocks(ByteArray(id)[..DisplayBytes(numberOfBytes, |ByteArray(id)|)])
  {
    var ary := ByteArray(id);
    var displayBytes := DisplayBytes(numberOfBytes, |ary|);
    var result := "";
    for i := 0 to displayBytes
      invariant i <= |ary|
      invariant result == HexBlocks(ary[..i])
    {
      if i >= |ary| {
        return Err(IndexOutOfBounds);
      }
      var v := ary[i];
      var block := UpperHex(v);
      if |block| < 2 {
        block := "0" + block;
      }
      PaddedHexIsHexByte(v);
      assert ary[..i + 1][..i] == ary[..i];
      result := result + block + " ";
    }
    return Ok(result);
  }

  /** The all-zero identifier has no bytes to show. */
  lemma ZeroIdHasNoBytes(id: Id)
    ensures ByteArray(id) == [] <==> Value(id) == 0
  {
    var n := LogicalLength(id);
    if n == 0 {
      AllZeroValue(id);
    } else {
      assert id[n - 1];
      BitSetMeansPositive(id, n - 1);
    }
  }

  lemma {:induction false} BitSetMeansPositive(b: Bits, k: nat)
    requires k < |b| && b[k]
    ensures Value(b) > 0
  {
    if k > 0 {
      BitSetMeansPositive(b[1..], k - 1);
    }
  }

  /**
   * toHexString(): every byte of toByteArray, each as two upper-case digits
   * and a space; the identifier denoting 0 has no byte and fails.
   */
  method ToHexStringAll(id: Id) returns (r: Result<string>)
    ensures r.Err? <==> Value(id) == 0
    ensures r.Err? ==> r.error == IndexOutOfBounds
    ensures r.Ok? ==> r.value == HexBlocks(ByteArray(id))
    ensures r.Ok? ==> |r.value| == 3 * |ByteArray(id)|
  {
    ZeroIdHasNoBytes(id);
    r := ToHexString(id, 2147483647);
    if r.Ok? {
      var ary := ByteArray(id);
      assert |ary| <= TotalBitLen;
      assert ary[..DisplayBytes(2147483647, |ary|)] == ary;
      HexBlocksLayout(ary);
    }
  }

  // ---------------------------------------------------------------------
  // IdSpan
  // ---------------------------------------------------------------------

  /** An inclusive identifier span [bgn, endIncl], possibly wrapping, or the empty span. */
  datatype IdSpan = IdSpan(bgn: Id, endIncl: Id, isEmpty: bool)

  /** Membership in a span: inclusive at both ends, wrapping through the maximum when bgn > endIncl. */
  function Contains(span: IdSpan, x: Id): (r: bool)
    ensures r <==> !span.isEmpty &&
                   if Value(span.bgn) <= Value(span.endIncl) then Value(span.bgn) <= Value(x) <= Value(span.endIncl)
                   else Value(span.bgn) <= Value(x) || Value(x) <= Value(span.endIncl)
  {
    CompareIsNumericOrder(span.bgn, span.endIncl);
    CompareIsNumericOrder(span.bgn, x);
    CompareIsNumericOrder(x, span.endIncl);
    !span.isEmpty &&
    if Compare(span.bgn, span.endIncl) <= 0 then
      Compare(span.bgn, x) <= 0 && Compare(x, span.endIncl) <= 0
    else
      Compare(span.bgn, x) <= 0 || Compare(x, span.endIncl) <= 0
  }

  /** Both ends of a non-empty span are inside it. */
  lemma SpanEndsContained(span: IdSpan)
    requires !span.isEmpty
    ensures Contains(span, span.bgn) && Contains(span, span.endIncl)
  {
    CompareIsNumericOrder(span.bgn, span.endIncl);
    CompareIsNumericOrder(span.bgn, span.bgn);
    CompareIsNumericOrder(span.endIncl, span.endIncl);
  }

  /** subsetMin: raise the lower bound to newMin, or the empty span when newMin is outside. */
  function SubsetMin(span: IdSpan, newMin: Id): (s: IdSpan)
    ensures s.endIncl == span.endIncl
    ensures Contains(s, newMin) <==> Contains(span, newMin)
    ensures !Contains(span, newMin) ==> s.isEmpty
  {
    if Contains(span, newMin) then IdSpan(newMin, span.endIncl, false)
    else IdSpan(span.bgn, span.endIncl, true)
  }

  /** Narrowing never widens: every identifier of the narrowed span was in the original one. */
  lemma SubsetMinNarrows(span: IdSpan, newMin: Id, x: Id)
    ensures Contains(SubsetMin(span, newMin), x) ==> Contains(span, x)
    ensures Contains(span, newMin) ==> Contains(SubsetMin(span, newMin), newMin)
    ensures SubsetMin(span, newMin).endIncl == span.endIncl
  {
    CompareIsNumericOrder(span.bgn, span.endIncl);
    CompareIsNumericOrder(span.bgn, x);
    CompareIsNumericOrder(x, span.endIncl);
    CompareIsNumericOrder(span.bgn, newMin);
    CompareIsNumericOrder(newMin, span.endIncl);
    CompareIsNumericOrder(newMin, x);
    CompareIsNumericOrder(newMin, newMin);
  }
}
