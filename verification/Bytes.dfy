/** Bytes and the little-endian form of 64-bit numbers. */
module Bytes {

  type Byte = b: int | 0 <= b < 256

  const U64_LIMIT: nat := 0x1_0000_0000_0000_0000

  /** The low `count` bytes of `value`, least significant first. */
  function LittleEndian(value: nat, count: nat): (r: seq<Byte>)
    ensures |r| == count
  {
    if count == 0 then [] else [value % 256] + LittleEndian(value / 256, count - 1)
  }

  function FromLittleEndian(bytes: seq<Byte>): nat {
    if bytes == [] then 0 else bytes[0] + 256 * FromLittleEndian(bytes[1..])
  }

  function Power256(count: nat): (r: nat)
    ensures r > 0
  {
    if count == 0 then 1 else 256 * Power256(count - 1)
  }

  lemma {:induction false} LittleEndianRoundTrip(value: nat, count: nat)
    requires value < Power256(count)
    ensures FromLittleEndian(LittleEndian(value, count)) == value
  {
    if count > 0 {
      LittleEndianRoundTrip(value / 256, count - 1);
      assert LittleEndian(value, count)[1..] == LittleEndian(value / 256, count - 1);
    }
  }

  /** Byte `i` holds the digit of weight 256^i: the least significant byte comes first. */
  lemma {:induction false} ByteWeight(value: nat, count: nat, i: nat)
    requires i < count
    ensures LittleEndian(value, count)[i] == (value / Power256(i)) % 256
  {
    if i > 0 {
      ByteWeight(value / 256, count - 1, i - 1);
      DivideTwice(value, Power256(i - 1));
    }
  }

  lemma DivideTwice(value: nat, power: nat)
    requires power > 0
    ensures value / (256 * power) == (value / 256) / power
  {
    var high := value / 256;
    var q, r := high / power, high % power;
    assert high == power * q + r;
    var low := 256 * r + value % 256;
    assert value == 256 * (power * q + r) + value % 256;
    assert value == (256 * power) * q + low by { assert 256 * (power * q) == (256 * power) * q; }
    assert low < 256 * power by { assert r + 1 <= power; assert 256 * (r + 1) <= 256 * power; }
    Quotient(value, 256 * power, q, low);
  }

  lemma Quotient(value: nat, divisor: nat, q: nat, r: nat)
    requires divisor > 0 && value == divisor * q + r && r < divisor
    ensures value / divisor == q
  {
    var p := value / divisor;
    assert p < q ==> divisor * (p + 1) <= divisor * q;
    assert p > q ==> divisor * (q + 1) <= divisor * p;
  }

  lemma Digit(low: Byte, high: nat)
    ensures (low + 256 * high) % 256 == low && (low + 256 * high) / 256 == high
  {
  }

  lemma {:induction false} FromLittleEndianRoundTrip(bytes: seq<Byte>)
    ensures FromLittleEndian(bytes) < Power256(|bytes|)
    ensures LittleEndian(FromLittleEndian(bytes), |bytes|) == bytes
  {
    if bytes != [] {
      FromLittleEndianRoundTrip(bytes[1..]);
      Digit(bytes[0], FromLittleEndian(bytes[1..]));
      assert bytes == [bytes[0]] + bytes[1..];
    }
  }

  lemma Power256Is64()
    ensures Power256(8) == U64_LIMIT
  {
    assert Power256(2) == 0x1_0000;
    assert Power256(4) == 256 * Power256(3) == 0x1_0000_0000;
    assert Power256(6) == 256 * Power256(5) == 0x1_0000_0000_0000;
  }

  /** A 64-bit number in eight bytes. */
  function U64(value: nat): (r: seq<Byte>)
    ensures |r| == 8
  {
    LittleEndian(value, 8)
  }

  lemma U64RoundTrip(value: nat)
    requires value < U64_LIMIT
    ensures FromLittleEndian(U64(value)) == value
  {
    Power256Is64();
    LittleEndianRoundTrip(value, 8);
  }

  lemma U64Decodes(bytes: seq<Byte>)
    requires |bytes| == 8
    ensures FromLittleEndian(bytes) < U64_LIMIT && U64(FromLittleEndian(bytes)) == bytes
  {
    Power256Is64();
    FromLittleEndianRoundTrip(bytes);
  }

  lemma U64Injective(a: nat, b: nat)
    requires a < U64_LIMIT && b < U64_LIMIT && U64(a) == U64(b)
    ensures a == b
  {
    U64RoundTrip(a);
    U64RoundTrip(b);
  }
}
