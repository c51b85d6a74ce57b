/** The generator and the checker of `Signature`, as the loops that run them. */
module Signer {
  import opened Ascii
  import opened Bytes
  import opened Noise
  import opened Wrappers
  import opened Signature
  import Base64
  import Cipher

  /** The checksum loops: over the version block, then over the fields in order. */
  method ComputeChecksum(version: seq<Byte>, fields: seq<Byte>) returns (checksum: Byte)
    ensures checksum == Checksum(version, fields)
  {
    checksum := 0;
    for k := 0 to |version|
      invariant checksum == XorAll(version[..k])
    {
      XorAppend(version[..k], version[k]);
      assert version[..k + 1] == version[..k] + [version[k]];
      checksum := checksum ^ version[k];
    }
    assert version[..|version|] == version;
    ghost var seen := XorAll(version);
    for k := 0 to |fields|
      invariant checksum == seen ^ XorAll(fields[..k])
    {
      XorAppend(fields[..k], fields[k]);
      assert fields[..k + 1] == fields[..k] + [fields[k]];
      XorAssociates(seen, XorAll(fields[..k]), fields[k]);
      checksum := checksum ^ fields[k];
    }
    assert fields[..|fields|] == fields;
  }

  /** `bytes(values)`: refuses the first value that is not a byte. */
  method PackBytes(values: seq<int>) returns (r: Result<seq<Byte>>)
    ensures r == if AllBytes(values) then Ok(ToBytes(values)) else Err("bytes must be in range(0, 256)")
  {
    hide ToByte;
    var out := [];
    for k := 0 to |values|
      invariant AllBytes(values[..k]) && out == ToBytes(values[..k])
    {
      if values[k] < 0 || values[k] > 255 {
        return Err("bytes must be in range(0, 256)");
      }
      assert forall j :: 0 <= j < k ==> values[..k + 1][j] == values[..k][j];
      out := out + [ToByte(values[k])];
    }
    assert values[..|values|] == values;
    r := Ok(out);
  }

  /** `ABogus.get_value`, with every layer computed by its own loop. */
  method Sign(r: Request, draws: Draws) returns (value: Result<string>)
    ensures value == GetValue(r, draws)
  {
    hide FIELD_ORDER, FieldValues, AllBytes, ToBytes, Base64.S4;
    if r.now < EPOCH_MS {
      return Err("clock is before the a_bogus epoch");
    }
    var packed := PackBytes(FieldValues(r, FIELD_ORDER));
    match packed {
      case Err(e) => value := Err(e);
      case Ok(fields) =>
        var payload := SealInSteps(r, draws, fields);
        Base64.AlphabetsAreValid();
        var text := Base64.EncodeBase64(payload, Base64.S4);
        value := Ok(text);
    }
  }

  method SealInSteps(r: Request, draws: Draws, fields: seq<Byte>) returns (payload: seq<Byte>)
    ensures payload == Seal(r, draws, fields)
  {
    hide VersionBlock, Header, Checksum, Expand, Cipher.Crypt, JsBytes, AsciiUnits;
    var version := VersionBlock(draws);
    var checksum := ComputeChecksum(version, fields);
    var info := ComputeJsBytes(r.id.browserInfo);
    var tail := ComputeJsBytes(AsciiUnits(TailText(r.now)));
    var frame := ExpandNoise(fields + info + tail + [checksum], draws, 6);
    var sealed := Cipher.Rc4(Cipher.Sdk, PAYLOAD_KEY, version + frame);
    payload := Header(r.id, draws) + sealed;
  }

  /** `structure_error`, likewise. */
  method CheckStructure(value: string) returns (problem: Option<string>)
    ensures problem == StructureError(value)
  {
    hide Base64.S4, Base64.Decode, PayloadError;
    Base64.AlphabetsAreValid();
    var body := Base64.StripPads(value);
    if |body| == 0 || '=' in body || !Base64.OverAlphabet(body, Base64.S4) {
      return Some("alphabet");
    }
    if |value| % 4 != 0 {
      return Some("length not a multiple of four");
    }
    Base64.DecodeAccepts(value, Base64.S4);
    var decoded := Base64.DecodeBase64(value, Base64.S4);
    problem := CheckPayload(decoded.value);
  }

  method CheckPayload(payload: seq<Byte>) returns (problem: Option<string>)
    ensures problem == PayloadError(payload)
  {
    hide UnmaskPair, Cipher.Crypt, Collapse, FrameError;
    if |payload| < 80 {
      return Some("payload too short");
    }
    if UnmaskPair(payload[..4]) != HEADER_MAGIC {
      return Some("header magic");
    }
    var plain := Cipher.Rc4(Cipher.Sdk, PAYLOAD_KEY, payload[4..]);
    if UnmaskPair(plain[..4]) != (1, 0) || UnmaskPair(plain[4..8]) != (1, 0) {
      return Some("sdk version");
    }
    var unpacked := CollapseNoise(plain[8..]);
    problem := CheckFrame(plain[..8], unpacked);
  }

  method CheckFrame(version: seq<Byte>, unpacked: seq<Byte>) returns (problem: Option<string>)
    ensures problem == FrameError(version, unpacked)
  {
    hide FIELD_ORDER, Zip, NamedBytes, Length16, Checksum;
    LengthFieldsNamed();
    if |unpacked| < 51 {
      return Some("frame too short");
    }
    var fields := Zip(FIELD_ORDER, unpacked);
    var end := 50 + Length16(fields[79], fields[80]) + Length16(fields[84], fields[85]);
    if end + 1 > |unpacked| {
      return Some("declared lengths overrun the frame");
    }
    if |unpacked| - (end + 1) > 2 {
      return Some("declared lengths leave a tail");
    }
    var checksum := ComputeChecksum(version, NamedBytes(fields, FIELD_ORDER));
    problem := if unpacked[end] != checksum then Some("checksum") else None;
  }
}
