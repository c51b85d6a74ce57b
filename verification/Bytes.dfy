/** Bytes, XOR checksums, little-endian fields and JavaScript strings as bytes. */
module Bytes {

  type Byte = bv8

  function ToByte(n: int): Byte
    requires 0 <= n < 256
  {
    n as bv8
  }

  lemma ConversionKeepsValue(n: int)
    requires 0 <= n < 256
    ensures (n as bv8) as int == n
  {
    if n < 128 {
      if n < 64 {
        if n < 32 {} else {}
      } else {
        if n < 96 {} else {}
      }
    } else {
      if n < 192 {
        if n < 160 {} else {}
      } else {
        if n < 224 {} else {}
      }
    }
  }

  lemma ToByteKeepsValue(n: int)
    requires 0 <= n < 256
    ensures ToByte(n) as int == n
  {
    ConversionKeepsValue(n);
  }

  lemma ByteKeepsValue(b: Byte)
    ensures 0 <= b as int < 256 && ToByte(b as int) == b
  {
  }

  /** The running XOR of a byte string. */
  function XorAll(bytes: seq<Byte>): Byte {
    if |bytes| == 0 then 0 else XorAll(bytes[..|bytes| - 1]) ^ bytes[|bytes| - 1]
  }

  lemma XorAppend(a: seq<Byte>, x: Byte)
    ensures XorAll(a + [x]) == XorAll(a) ^ x
  {
    assert (a + [x])[..|a|] == a;
  }

  lemma XorAssociates(a: Byte, b: Byte, c: Byte)
    ensures (a ^ b) ^ c == a ^ (b ^ c)
  {
  }

  function Power256(n: nat): (p: nat)
    ensures p > 0
  {
    if n == 0 then 1 else 256 * Power256(n - 1)
  }

  /** `_le_bytes`: `count` little-endian bytes of `value`, which may be negative. */
  function LittleEndian(value: int, count: nat): (bytes: seq<Byte>)
    ensures |bytes| == count
    decreases count
  {
    if count == 0 then [] else [ToByte(value % 256)] + LittleEndian(value / 256, count - 1)
  }

  /** The sum of `bytes[k] << (8 * k)`. */
  function FromLittleEndian(bytes: seq<Byte>): nat {
    if |bytes| == 0 then 0 else bytes[0] as int + 256 * FromLittleEndian(bytes[1..])
  }

  lemma ModuloSplit(value: int, p: nat)
    requires p > 0
    ensures value % (256 * p) == value % 256 + 256 * ((value / 256) % p)
  {
    var q, r := value / 256, value % 256;
    var s, t := q / p, q % p;
    assert value == 256 * (p * s + t) + r;
    assert value == (256 * p) * s + (256 * t + r);
    assert 0 <= 256 * t + r < 256 * p;
    UniqueRemainder(value, 256 * p, s, 256 * t + r);
  }

  lemma UniqueRemainder(value: int, m: nat, s: int, r: int)
    requires m > 0 && 0 <= r < m && value == m * s + r
    ensures value % m == r
  {
    var d := value / m - s;
    assert m * d == r - value % m;
    MultipleIsFar(m, d);
  }

  lemma MultipleIsFar(m: int, d: int)
    requires m > 0
    ensures d >= 1 ==> m * d >= m
    ensures d <= -1 ==> m * d <= -m
  {
  }

  /** Reading back a little-endian field recovers the value modulo its width. */
  lemma {:induction false} LittleEndianRoundTrip(value: int, count: nat)
    ensures FromLittleEndian(LittleEndian(value, count)) == value % Power256(count)
    decreases count
  {
    if count == 0 {
    } else {
      LittleEndianRoundTrip(value / 256, count - 1);
      ToByteKeepsValue(value % 256);
      ModuloSplit(value, Power256(count - 1));
      assert LittleEndian(value, count)[1..] == LittleEndian(value / 256, count - 1);
    }
  }

  /** `js_bytes`: one byte per UTF-16 unit below U+0100, two big-endian bytes above. */
  function JsBytes(units: seq<bv16>): seq<Byte> {
    if |units| == 0 then [] else JsBytes(units[..|units| - 1]) + UnitBytes(units[|units| - 1])
  }

  function HighByte(unit: bv16): Byte { (unit >> 8) as bv8 }

  function LowByte(unit: bv16): Byte { (unit & 0xFF) as bv8 }

  function UnitBytes(unit: bv16): seq<Byte> {
    if unit & 0xFF00 != 0 then [HighByte(unit), LowByte(unit)] else [LowByte(unit)]
  }

  lemma JsBytesAppend(units: seq<bv16>, unit: bv16)
    ensures JsBytes(units + [unit]) == JsBytes(units) + UnitBytes(unit)
  {
    assert (units + [unit])[..|units|] == units;
  }

  method ComputeJsBytes(units: seq<bv16>) returns (out: seq<Byte>)
    ensures out == JsBytes(units)
  {
    out := [];
    for index := 0 to |units|
      invariant out == JsBytes(units[..index])
    {
      var code := units[index];
      if code & 0xFF00 != 0 {
        out := out + [HighByte(code)];
      }
      out := out + [LowByte(code)];
      JsBytesAppend(units[..index], code);
      assert units[..index + 1] == units[..index] + [code];
    }
    assert units[..|units|] == units;
  }

  ghost predicate IsLatin1(units: seq<bv16>) {
    forall k :: 0 <= k < |units| ==> units[k] < 0x100
  }

  /** On text below U+0100 the bytes are exactly the code units. */
  lemma {:induction false} JsBytesOfLatin1(units: seq<bv16>)
    requires IsLatin1(units)
    ensures |JsBytes(units)| == |units|
    ensures forall k :: 0 <= k < |units| ==> JsBytes(units)[k] as bv16 == units[k]
  {
    if |units| == 0 {
    } else {
      JsBytesOfLatin1(units[..|units| - 1]);
    }
  }
}
