/** The BSON codec of MongoDate: the UTC datetime element (type 0x09 of the BSON
    specification version 1.1), eight little-endian bytes of signed milliseconds. */
module MongoDate {
  type byte = b: int | 0 <= b < 256

  datatype BsonType = DateTime | Int64 | Int32 | OtherType

  const MILLISECOND := 1_000_000
  const SECOND := 1_000_000_000
  const TWO_63 := 0x8000_0000_0000_0000
  const TWO_64 := 0x1_0000_0000_0000_0000
  const TWO_31 := 0x8000_0000
  const TWO_32 := 0x1_0000_0000

  // ----- machine integers -----

  /** What is left of x in a signed 64-bit integer. */
  function Wrap64(x: int): int {
    var u := x % TWO_64;
    if u < TWO_63 then u else u - TWO_64
  }

  function Wrap32(x: int): int {
    var u := x % TWO_32;
    if u < TWO_31 then u else u - TWO_32
  }

  predicate IsInt64(x: int) { -TWO_63 <= x < TWO_63 }

  /** Go's division rounds toward zero. */
  function TruncatedDiv(x: int, d: int): int
    requires d > 0
  {
    if x >= 0 then x / d else -(-x / d)
  }

  // ----- little-endian bytes -----

  function Unsigned(data: seq<byte>): nat {
    if data == [] then 0 else data[0] + 256 * Unsigned(data[1..])
  }

  function Digits(n: int, count: nat): (r: seq<byte>)
    ensures |r| == count
    decreases count
  {
    if count == 0 then [] else [n % 256] + Digits(n / 256, count - 1)
  }

  function Power256(k: nat): nat {
    if k == 0 then 1 else 256 * Power256(k - 1)
  }

  lemma {:induction false} UnsignedIsBounded(data: seq<byte>)
    ensures 0 <= Unsigned(data) < Power256(|data|)
  {
    if data != [] {
      UnsignedIsBounded(data[1..]);
    }
  }

  /** The low bytes of a number are read back from any number that differs by a multiple of what they can hold. */
  lemma {:induction false} DigitsOfUnsigned(data: seq<byte>, carry: int, n: int)
    requires n == Unsigned(data) + carry * Power256(|data|)
    ensures Digits(n, |data|) == data
    decreases data
  {
    if data != [] {
      var high := Unsigned(data[1..]) + carry * Power256(|data| - 1);
      ProductAssociates(carry, 256, Power256(|data| - 1));
      assert n == data[0] as int + 256 * high;
      LowByte(data[0] as int, high);
      DigitsOfUnsigned(data[1..], carry, high);
    }
  }

  lemma LowByte(low: int, high: int)
    requires 0 <= low < 256
    ensures (low + 256 * high) % 256 == low && (low + 256 * high) / 256 == high
  {}

  lemma ProductAssociates(a: int, b: int, c: int)
    ensures a * (b * c) == b * (a * c)
  {}

  lemma {:induction false} UnsignedOfDigits(n: int, count: nat)
    ensures exists carry: int :: n == Unsigned(Digits(n, count)) + carry * Power256(count)
    decreases count
  {
    if count == 0 {
      assert n == Unsigned(Digits(n, 0)) + n * Power256(0);
    } else {
      UnsignedOfDigits(n / 256, count - 1);
      var carry :| n / 256 == Unsigned(Digits(n / 256, count - 1)) + carry * Power256(count - 1);
      assert Digits(n, count)[1..] == Digits(n / 256, count - 1);
      ProductAssociates(carry, 256, Power256(count - 1));
      assert n == Unsigned(Digits(n, count)) + carry * Power256(count);
    }
  }

  lemma Power256Values()
    ensures Power256(8) == TWO_64 && Power256(4) == TWO_32
  {
    assert Power256(4) == 256 * (256 * (256 * (256 * Power256(0))));
    assert Power256(8) == 256 * (256 * (256 * (256 * Power256(4))));
  }

  // ----- specification of the codec -----

  /** The instant, in nanoseconds since the epoch, that a stored value decodes to. */
  function Decoded(t: BsonType, data: seq<byte>): int
    requires (t.DateTime? || t.Int64?) ==> |data| >= 8
    requires t.Int32? ==> |data| >= 4
    requires !t.OtherType?
  {
    if t.Int32? then Wrap32(Unsigned(data[..4])) * SECOND
    else Wrap64(Wrap64(Unsigned(data[..8])) * MILLISECOND)
  }

  function Encoded(nanos: int): seq<byte> { Digits(TruncatedDiv(nanos, MILLISECOND), 8) }

  class Date {
    /** Nanoseconds since the epoch; marshalling is defined where they fit 64 bits. */
    var nanos: int

    constructor (nanos: int)
      ensures this.nanos == nanos
    {
      this.nanos := nanos;
    }

    /** Bytes after the value are ignored; on failure the date keeps its value. */
    method UnmarshalBSONValue(t: BsonType, data: seq<byte>) returns (failed: bool)
      modifies this
      ensures failed <==> t.OtherType? || (t.Int32? && |data| < 4) || (!t.Int32? && |data| < 8)
      ensures nanos == if failed then old(nanos) else Decoded(t, data)
    {
      match t
      case DateTime =>
        if |data| < 8 {
          return true;
        }
        var milliseconds := Read64(data);
        nanos := Wrap64(milliseconds * MILLISECOND);
        failed := false;
      case Int64 =>
        if |data| < 8 {
          return true;
        }
        var milliseconds := Read64(data);
        nanos := Wrap64(milliseconds * MILLISECOND);
        failed := false;
      case Int32 =>
        if |data| < 4 {
          return true;
        }
        var seconds := Read32(data);
        nanos := seconds * SECOND;
        failed := false;
      case OtherType =>
        failed := true;
    }

    method MarshalBSONValue() returns (t: BsonType, data: array<byte>)
      ensures t == DateTime && fresh(data) && data[..] == Encoded(nanos)
    {
      var milliseconds := TruncatedDiv(nanos, MILLISECOND);
      data := new byte[8];
      data[0] := milliseconds % 256;
      data[1] := milliseconds / 0x100 % 256;
      data[2] := milliseconds / 0x1_0000 % 256;
      data[3] := milliseconds / 0x100_0000 % 256;
      data[4] := milliseconds / 0x1_0000_0000 % 256;
      data[5] := milliseconds / 0x100_0000_0000 % 256;
      data[6] := milliseconds / 0x1_0000_0000_0000 % 256;
      data[7] := milliseconds / 0x100_0000_0000_0000 % 256;
      EightDigits(milliseconds);
      assert data[..] == Digits(milliseconds, 8);
      t := DateTime;
    }
  }

  method Read64(data: seq<byte>) returns (n: int)
    requires |data| >= 8
    ensures n == Wrap64(Unsigned(data[..8]))
  {
    EightBytes(data);
    n := Wrap64(data[0] + data[1] as int * 0x100 + data[2] as int * 0x1_0000 + data[3] as int * 0x100_0000
                + data[4] as int * 0x1_0000_0000 + data[5] as int * 0x100_0000_0000
                + data[6] as int * 0x1_0000_0000_0000 + data[7] as int * 0x100_0000_0000_0000);
  }

  method Read32(data: seq<byte>) returns (n: int)
    requires |data| >= 4
    ensures n == Wrap32(Unsigned(data[..4]))
  {
    FourBytes(data);
    n := Wrap32(data[0] + data[1] as int * 0x100 + data[2] as int * 0x1_0000 + data[3] as int * 0x100_0000);
  }

  lemma FourBytes(data: seq<byte>)
    requires |data| >= 4
    ensures Unsigned(data[..4]) == data[0] + data[1] as int * 0x100
                                   + data[2] as int * 0x1_0000 + data[3] as int * 0x100_0000
  {
    var d := data[..4];
    assert d[1..] == data[1..4] && d[1..][1..] == data[2..4] && d[1..][1..][1..] == data[3..4];
    assert Unsigned(data[3..4]) == data[3] by { assert data[3..4][1..] == []; }
    assert Unsigned(data[2..4]) == data[2] + 256 * (data[3] as int) by { assert data[2..4][1..] == data[3..4]; }
    assert Unsigned(data[1..4]) == data[1] + 256 * Unsigned(data[2..4]) by { assert data[1..4][1..] == data[2..4]; }
  }

  lemma EightBytes(data: seq<byte>)
    requires |data| >= 8
    ensures Unsigned(data[..8]) == data[0] + data[1] as int * 0x100
                                   + data[2] as int * 0x1_0000 + data[3] as int * 0x100_0000
                                   + data[4] as int * 0x1_0000_0000 + data[5] as int * 0x100_0000_0000
                                   + data[6] as int * 0x1_0000_0000_0000 + data[7] as int * 0x100_0000_0000_0000
  {
    FourBytes(data[4..]);
    assert data[4..][..4] == data[4..8];
    assert Unsigned(data[3..8]) == data[3] + 256 * Unsigned(data[4..8]) by { assert data[3..8][1..] == data[4..8]; }
    assert Unsigned(data[2..8]) == data[2] + 256 * Unsigned(data[3..8]) by { assert data[2..8][1..] == data[3..8]; }
    assert Unsigned(data[1..8]) == data[1] + 256 * Unsigned(data[2..8]) by { assert data[1..8][1..] == data[2..8]; }
    assert data[..8][1..] == data[1..8];
  }

  lemma EightDigits(n: int)
    ensures Digits(n, 8) == [n % 256, n / 0x100 % 256, n / 0x1_0000 % 256, n / 0x100_0000 % 256,
                             n / 0x1_0000_0000 % 256, n / 0x100_0000_0000 % 256,
                             n / 0x1_0000_0000_0000 % 256, n / 0x100_0000_0000_0000 % 256]
  {
    FourDigits(n, 4);
    var high := n / 0x1_0000_0000;
    FourDigits(high, 0);
    assert Digits(high, 0) == [];
    assert high / 0x100 == n / 0x100_0000_0000;
    assert high / 0x1_0000 == n / 0x1_0000_0000_0000;
    assert high / 0x100_0000 == n / 0x100_0000_0000_0000;
  }

  lemma Quotients(n: int)
    ensures n / 256 / 256 == n / 0x1_0000
    ensures n / 256 / 256 / 256 == n / 0x100_0000
    ensures n / 256 / 256 / 256 / 256 == n / 0x1_0000_0000
  {}

  lemma FourDigits(n: int, more: nat)
    ensures Digits(n, 4 + more) == [n % 256, n / 0x100 % 256, n / 0x1_0000 % 256, n / 0x100_0000 % 256]
                                   + Digits(n / 0x1_0000_0000, more)
  {
    var n1 := n / 256;
    var n2 := n1 / 256;
    var n3 := n2 / 256;
    Quotients(n);
    assert Digits(n3, 1 + more) == [n3 % 256] + Digits(n3 / 256, more);
    assert Digits(n2, 2 + more) == [n2 % 256] + Digits(n3, 1 + more);
    assert Digits(n1, 3 + more) == [n1 % 256] + Digits(n2, 2 + more);
  }

  // ----- round trips -----

  const LARGEST_MS := 9_223_372_036_854

  /** Signed milliseconds and their eight bytes determine each other. */
  lemma SignedBytes(ms: int)
    requires IsInt64(ms)
    ensures Wrap64(Unsigned(Digits(ms, 8))) == ms
  {
    UnsignedOfDigits(ms, 8);
    Power256Values();
    var u := Unsigned(Digits(ms, 8));
    var carry :| ms == u + carry * Power256(8);
    UnsignedIsBounded(Digits(ms, 8));
    WrapsBack(ms, u, carry);
  }

  lemma WrapsBack(x: int, u: int, carry: int)
    requires IsInt64(x) && 0 <= u < TWO_64 && x == u + carry * TWO_64
    ensures Wrap64(u) == x
  {
    assert carry == 0 || carry == -1;
  }

  lemma BytesOfSigned(data: seq<byte>)
    requires |data| == 8
    ensures IsInt64(Wrap64(Unsigned(data))) && Digits(Wrap64(Unsigned(data)), 8) == data
  {
    Power256Values();
    var u := Unsigned(data);
    UnsignedIsBounded(data);
    WrapUnsigned(u);
    var carry := if u < TWO_63 then 0 else -1;
    assert u + carry * Power256(|data|) == Wrap64(u);
    DigitsOfUnsigned(data, carry, Wrap64(u));
  }

  lemma WrapUnsigned(u: nat)
    requires u < TWO_64
    ensures IsInt64(Wrap64(u)) && Wrap64(u) == if u < TWO_63 then u else u - TWO_64
  {}

  /** Wrapped multiplication by a million comes back exactly where it does not wrap. */
  lemma ScalingComesBack(ms: int)
    requires IsInt64(ms)
    ensures IsInt64(TruncatedDiv(Wrap64(ms * MILLISECOND), MILLISECOND))
    ensures TruncatedDiv(Wrap64(ms * MILLISECOND), MILLISECOND) == ms <==> -LARGEST_MS <= ms <= LARGEST_MS
  {
    assert -LARGEST_MS <= TruncatedDiv(Wrap64(ms * MILLISECOND), MILLISECOND) <= LARGEST_MS;
  }

  /** Decoding and encoding again returns the same bytes exactly for milliseconds whose
      nanoseconds fit 64 bits. */
  lemma BytesRoundTrip(data: seq<byte>)
    requires |data| == 8
    ensures Encoded(Decoded(DateTime, data)) == data <==> -LARGEST_MS <= Wrap64(Unsigned(data)) <= LARGEST_MS
  {
    BytesOfSigned(data);
    assert data[..8] == data;
    var ms := Wrap64(Unsigned(data));
    var back := TruncatedDiv(Wrap64(ms * MILLISECOND), MILLISECOND);
    ScalingComesBack(ms);
    if Digits(back, 8) == Digits(ms, 8) {
      SignedBytes(back);
      SignedBytes(ms);
    }
  }

  /** Encoding and decoding again truncates an instant to milliseconds, toward zero. */
  lemma InstantRoundTrip(nanos: int)
    requires IsInt64(nanos)
    ensures Decoded(DateTime, Encoded(nanos)) == TruncatedDiv(nanos, MILLISECOND) * MILLISECOND
    ensures var back := Decoded(DateTime, Encoded(nanos));
            && (nanos >= 0 ==> nanos - MILLISECOND < back <= nanos)
            && (nanos <= 0 ==> nanos <= back < nanos + MILLISECOND)
  {
    var ms := TruncatedDiv(nanos, MILLISECOND);
    TruncationFits(nanos);
    SignedBytes(ms);
    assert Encoded(nanos)[..8] == Digits(ms, 8);
    assert Decoded(DateTime, Encoded(nanos)) == Wrap64(ms * MILLISECOND);
  }

  lemma TruncationFits(nanos: int)
    requires IsInt64(nanos)
    ensures var ms := TruncatedDiv(nanos, MILLISECOND);
            && IsInt64(ms) && Wrap64(ms * MILLISECOND) == ms * MILLISECOND
            && (nanos >= 0 ==> nanos - MILLISECOND < ms * MILLISECOND <= nanos)
            && (nanos <= 0 ==> nanos <= ms * MILLISECOND < nanos + MILLISECOND)
  {}

  lemma WrapsBack32(x: int, u: int, carry: int)
    requires -TWO_31 <= x < TWO_31 && 0 <= u < TWO_32 && x == u + carry * TWO_32
    ensures Wrap32(u) == x
  {
    assert carry == 0 || carry == -1;
  }

  /** The lowest byte comes first. */
  function FourOf(n: int): seq<byte> { [n % 256, n / 0x100 % 256, n / 0x1_0000 % 256, n / 0x100_0000 % 256] }

  /** Eight bytes hold signed milliseconds, */
  lemma EightAreMilliseconds(ms: int)
    requires -LARGEST_MS <= ms <= LARGEST_MS
    ensures var bytes := FourOf(ms) + FourOf(ms / 0x1_0000_0000);
            Encoded(1_000_000 * ms) == bytes && Decoded(DateTime, bytes) == Decoded(Int64, bytes) == 1_000_000 * ms
  {
    DigitsAreFourAndFour(ms);
    DigitsAreMilliseconds(ms, Digits(ms, 8));
  }

  lemma DigitsAreFourAndFour(n: int)
    ensures Digits(n, 8) == FourOf(n) + FourOf(n / 0x1_0000_0000)
  {
    FourDigits(n, 4);
    var high := n / 0x1_0000_0000;
    FourDigits(high, 0);
    NoDigits(high / 0x1_0000_0000);
  }

  lemma DigitsAreMilliseconds(ms: int, bytes: seq<byte>)
    requires -LARGEST_MS <= ms <= LARGEST_MS && bytes == Digits(ms, 8)
    ensures Encoded(1_000_000 * ms) == bytes && Decoded(DateTime, bytes) == Decoded(Int64, bytes) == 1_000_000 * ms
  {
    SignedBytes(ms);
    assert bytes[..8] == bytes;
    TruncationOfWhole(ms);
    assert Wrap64(ms * MILLISECOND) == ms * MILLISECOND;
  }

  lemma TruncationOfWhole(ms: int)
    ensures TruncatedDiv(1_000_000 * ms, MILLISECOND) == ms
  {}

  lemma NoDigits(n: int)
    ensures Digits(n, 0) == []
  {}

  /** and four bytes signed seconds. */
  lemma FourAreSeconds(seconds: int)
    requires -TWO_31 <= seconds < TWO_31
    ensures Decoded(Int32, FourOf(seconds)) == 1_000_000_000 * seconds
  {
    FourDigits(seconds, 0);
    NoDigits(seconds / 0x1_0000_0000);
    var four := Digits(seconds, 4);
    assert four == FourOf(seconds) && four[..4] == four;
    UnsignedOfDigits(seconds, 4);
    UnsignedIsBounded(four);
    Power256Values();
    var carry :| seconds == Unsigned(four) + carry * Power256(4);
    WrapsBack32(seconds, Unsigned(four), carry);
  }
}
