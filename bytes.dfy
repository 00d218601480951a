/**
 * Byte frames and the byte comparison every classifier relies on
 * (ByteArrayExtensions), plus the network-order integer encoding the
 * commented sends put in their comment frame.
 */
module Bytes {
  import opened Wrappers

  newtype byte = x: int | 0 <= x < 256

  /** One frame of a multipart message: an opaque byte sequence. */
  type Frame = seq<byte>

  /**
   * A read-only span over bytes. Converting a null array gives the
   * default span `NullSpan`; converting any other array, even an empty
   * one, gives a span over its contents.
   */
  datatype ByteSpan = NullSpan | Over(bytes: seq<byte>)

  /** The bytes a span lets one read (none for the default span). */
  function SpanBytes(s: ByteSpan): seq<byte>
  {
    if s.NullSpan? then [] else s.bytes
  }

  /** The implicit conversion of a (possibly null) byte array to a span. */
  function AsSpan(arr: Option<seq<byte>>): (s: ByteSpan)
    ensures s.NullSpan? <==> arr.None?
    ensures SpanBytes(s) == if arr.None? then [] else arr.value
  {
    match arr
    case None => NullSpan
    case Some(b) => Over(b)
  }

  /**
   * The span overload: a first argument equal to the default span is
   * equal only to the default span; any other first argument is compared
   * element by element with whatever the second one lets one read.
   */
  function SpanSequenceEqual(a: ByteSpan, b: ByteSpan): (r: bool)
    ensures a.NullSpan? ==> (r <==> b.NullSpan?)
    ensures a.Over? ==> (r <==> a.bytes == SpanBytes(b))
  {
    if a == NullSpan then b == NullSpan else a.bytes == SpanBytes(b)
  }

  /** The byte[] overload: both arrays converted to spans. */
  function ByteArraySequenceEqual(a: Option<seq<byte>>, b: Option<seq<byte>>): (r: bool)
    ensures a.None? ==> (r <==> b.None?)
    ensures a.Some? && b.Some? ==> (r <==> a.value == b.value)
    ensures a.Some? && b.None? ==> (r <==> a.value == [])
  {
    SpanSequenceEqual(AsSpan(a), AsSpan(b))
  }

  /** A null first array compares equal exactly to a null second array. */
  lemma NullEqualsOnlyNull(b: Option<seq<byte>>)
    ensures ByteArraySequenceEqual(None, b) <==> b.None?
  {
  }

  /** A non-null first array: exact length-and-content equality (a null second array reads as empty). */
  lemma NonNullIsContentEquality(x: seq<byte>, b: Option<seq<byte>>)
    ensures ByteArraySequenceEqual(Some(x), b) <==> (|x| == |SpanBytes(AsSpan(b))| && forall i :: 0 <= i < |x| ==> x[i] == SpanBytes(AsSpan(b))[i])
  {
  }

  /** On two non-null arrays the comparison is plain sequence equality. */
  lemma NonNullArraysCompareByContent(x: seq<byte>, y: seq<byte>)
    ensures ByteArraySequenceEqual(Some(x), Some(y)) <==> x == y
  {
  }

  lemma ByteArrayEqualReflexive(x: seq<byte>)
    ensures ByteArraySequenceEqual(Some(x), Some(x))
  {
  }

  lemma ByteArrayEqualSymmetric(x: seq<byte>, y: seq<byte>)
    ensures ByteArraySequenceEqual(Some(x), Some(y)) == ByteArraySequenceEqual(Some(y), Some(x))
  {
  }

  /** The byte[] overload gives the span overload's answer on the converted arguments. */
  lemma ArrayOverloadAgreesWithSpan(a: Option<seq<byte>>, b: Option<seq<byte>>)
    ensures ByteArraySequenceEqual(a, b) == SpanSequenceEqual(AsSpan(a), AsSpan(b))
  {
  }

  /**
   * The one place the comparison is not symmetric: a non-null empty
   * array equals a null one, but a null array does not equal an empty one.
   */
  lemma EmptyAndNullCompareOneWay()
    ensures ByteArraySequenceEqual(Some([]), None)
    ensures !ByteArraySequenceEqual(None, Some([]))
  {
  }

  // ----- network byte order (big-endian, two's complement) -----

  /** The 64-bit signed integer of a `long` comment. */
  newtype int64 = x: int | -0x8000_0000_0000_0000 <= x < 0x8000_0000_0000_0000

  function Pow256(n: nat): (r: nat)
    ensures r >= 1
  {
    if n == 0 then 1 else 256 * Pow256(n - 1)
  }

  /**
   * The `width` low-order bytes of `value` in two's complement, most
   * significant byte first: what the network-order converter yields for a
   * 4-byte int (width 4) or an 8-byte long (width 8).
   */
  function NetworkOrderBytes(value: int, width: nat): (f: Frame)
    ensures |f| == width
    decreases width
  {
    if width == 0 then [] else NetworkOrderBytes(value / 256, width - 1) + [(value % 256) as byte]
  }

  /** Reads a big-endian unsigned number back from its bytes. */
  function FromNetworkOrder(f: Frame): nat
  {
    if f == [] then 0 else FromNetworkOrder(f[..|f| - 1]) * 256 + f[|f| - 1] as int
  }

  lemma MulAtLeast(m: int, d: int)
    requires m > 0 && d >= 1
    ensures m * d >= m
  {
    assert m * d == m * (d - 1) + m;
    assert m * (d - 1) >= 0;
  }

  lemma DivModUnique(v: int, m: int, q: int, r: int)
    requires m > 0 && 0 <= r < m && v == m * q + r
    ensures v % m == r && v / m == q
  {
    var q', r' := v / m, v % m;
    assert v == m * q' + r';
    assert m * (q' - q) == r - r';
    if q' > q {
      MulAtLeast(m, q' - q);
    } else if q' < q {
      MulAtLeast(m, q - q');
    }
  }

  /** Peeling the last byte off a modulus that is a power of 256. */
  lemma ModPeel(value: int, p: int)
    requires p >= 1
    ensures (value / 256 % p) * 256 + value % 256 == value % (256 * p)
  {
    var q, r := value / 256, value % 256;
    var a, b := q / p, q % p;
    assert q == p * a + b;
    assert value == 256 * q + r;
    assert 256 * q == (256 * p) * a + 256 * b;
    assert value == (256 * p) * a + (256 * b + r);
    assert 256 * b <= 256 * (p - 1);
    DivModUnique(value, 256 * p, a, 256 * b + r);
  }

  /** Decoding the encoded bytes gives the value modulo 256^width: the round trip of the comment frames. */
  lemma {:induction false} NetworkOrderRoundTrip(value: int, width: nat)
    ensures FromNetworkOrder(NetworkOrderBytes(value, width)) == value % Pow256(width)
    decreases width
  {
    if width > 0 {
      var f := NetworkOrderBytes(value, width);
      assert f[..|f| - 1] == NetworkOrderBytes(value / 256, width - 1);
      assert f[|f| - 1] as int == value % 256;
      NetworkOrderRoundTrip(value / 256, width - 1);
      ModPeel(value, Pow256(width - 1));
    }
  }
}
