/** ASCII text as bytes and as UTF-16 code units. */
module Ascii {
  import opened Bytes
  import opened Wrappers

  predicate IsAscii(s: string) { forall k :: 0 <= k < |s| ==> s[k] < 128 as char }

  /** `text.encode("ascii")`, for ASCII text. */
  function AsciiBytes(s: string): (r: seq<Byte>)
    ensures |r| == |s|
  {
    seq(|s|, k requires 0 <= k < |s| => ToByte(s[k] as int % 256))
  }

  function AsciiUnits(s: string): (units: seq<bv16>)
    requires IsAscii(s)
    ensures |units| == |s|
  {
    seq(|s|, k requires 0 <= k < |s| => ToUnit(s[k]))
  }

  function ToUnit(c: char): bv16
    requires c < 128 as char
  {
    c as int as bv16
  }

  function ToChar(b: Byte): char { b as int as char }

  /** `bytes.decode("ascii")`. */
  function AsciiText(data: seq<Byte>): Option<string> {
    if forall k :: 0 <= k < |data| ==> data[k] < 128
    then Some(seq(|data|, k requires 0 <= k < |data| => ToChar(data[k])))
    else None
  }

  lemma AsciiByte(c: char)
    requires c < 128 as char
    ensures ToByte(c as int % 256) < 128 && ToChar(ToByte(c as int % 256)) == c
  {
    ConversionKeepsValue(c as int);
  }

  lemma UnitIsByte(c: char)
    requires c < 128 as char
    ensures ToUnit(c) == ToByte(c as int) as bv16
  {
  }

  lemma UnitIsSmall(c: char)
    requires c < 128 as char
    ensures ToUnit(c) < 0x100
  {
  }

  lemma SameUnit(a: Byte, b: Byte)
    requires a as bv16 == b as bv16
    ensures a == b
  {
  }

  lemma AsciiRoundTrip(s: string)
    requires IsAscii(s)
    ensures AsciiText(AsciiBytes(s)) == Some(s)
  {
    hide ToByte, ToChar;
    var data := AsciiBytes(s);
    forall k | 0 <= k < |s|
      ensures data[k] < 128 && ToChar(data[k]) == s[k]
    {
      AsciiByte(s[k]);
    }
    assert AsciiText(data).Some? && AsciiText(data).value == s;
  }

  /** ASCII text put into JavaScript bytes is read back. */
  lemma JsAsciiRoundTrip(s: string)
    requires IsAscii(s)
    ensures AsciiText(JsBytes(AsciiUnits(s))) == Some(s)
  {
    hide ToByte, ToChar, JsBytes, AsciiText;
    var units := AsciiUnits(s);
    forall k | 0 <= k < |s|
      ensures units[k] < 0x100
    {
      UnitIsSmall(s[k]);
    }
    JsBytesOfLatin1(units);
    forall k | 0 <= k < |s|
      ensures JsBytes(units)[k] == AsciiBytes(s)[k]
    {
      UnitIsByte(s[k]);
      SameUnit(JsBytes(units)[k], ToByte(s[k] as int));
    }
    assert JsBytes(units) == AsciiBytes(s);
    AsciiRoundTrip(s);
  }
}
