/**
  The `a_bogus` signature: fifty scalar fields in a fixed permutation, a checksum, noise
  expansion, a stream cipher and base64, together with the checker and decoder that take
  it apart. SM3 and UTF-8 are arbitrary functions; every random draw is arbitrary.
 */
module Signature {
  import opened Ascii
  import opened Bytes
  import opened Noise
  import opened Numerals
  import opened Wrappers
  import Base64
  import Cipher

  const HEADER_MAGIC: (Byte, Byte) := (3, 82)
  const PAYLOAD_KEY: seq<Byte> := [0xD3]
  const EPOCH_MS: int := 1_721_836_800_000
  const FORTNIGHT_MS: int := 1000 * 60 * 60 * 24 * 14

  /** The field names, `L34` written 34, in the order they are shuffled into the body. */
  const FIELD_ORDER: seq<nat> :=
    [34, 44, 56, 61, 73, 29, 70, 45, 35, 49]
    + [38, 66, 51, 68, 28, 48, 64, 47, 30, 71]
    + [26, 55, 31, 69, 59, 40, 62, 63, 27, 72]
    + [41, 74, 57, 52, 42, 39, 33, 67, 53, 43]
    + [65, 46, 36, 24, 60, 32, 79, 80, 84, 85]

  // -------------------------------------------------------------------- inputs

  datatype Family = Chrome | Firefox | Safari | Edge | Huawei | Other {
    function HeaderBase(): (base: nat)
      ensures base <= 210
    {
      match this
      case Chrome => 0
      case Firefox => 40
      case Safari => 81
      case Edge => 125
      case Huawei => 170
      case Other => 210
    }
  }

  /** `userAgent` is already stripped; text is given as UTF-16 code units. */
  datatype Identity = Identity(
    userAgent: seq<bv16>, family: Family, browserInfo: seq<bv16>, pageId: int, aid: int)

  type Digest = d: seq<Byte> | |d| == 32 witness seq(32, _ => 0)

  datatype Hashing = Hashing(sm3: seq<Byte> -> Digest, utf8: seq<bv16> -> seq<Byte>)

  datatype Request = Request(
    hashing: Hashing, id: Identity, query: seq<bv16>, body: seq<bv16>, multipart: bool, now: int)

  // ------------------------------------------------------------------- digests

  /** First byte that is not the sentinel; the sentinel itself is never reported. */
  function Canary(digest: seq<Byte>, sentinel: Byte, fallback: Byte): (r: Byte)
    requires fallback != sentinel
    ensures r != sentinel && (r in digest || r == fallback)
  {
    if |digest| == 0 then fallback
    else if digest[0] != sentinel then digest[0]
    else Canary(digest[1..], sentinel, fallback)
  }

  const SALT: string := "dhzx"

  function DigestOf(h: Hashing, text: seq<bv16>): Digest {
    h.sm3(h.sm3(h.utf8(text + AsciiUnits(SALT))))
  }

  /** RC4 of the User-Agent under the three probe bytes, base64, one hash. */
  function UserAgentDigest(h: Hashing, userAgent: seq<bv16>): Digest {
    Base64.AlphabetsAreValid();
    h.sm3(AsciiBytes(Base64.Encode(Cipher.Crypt(Cipher.Sdk, [0, 1, 14], JsBytes(userAgent)), Base64.S3)))
  }

  // -------------------------------------------------------------------- fields

  function HashedBody(r: Request): seq<bv16> { if r.multipart then [] else r.body }

  function TailText(now: int): (s: string)
    ensures IsAscii(s)
  {
    Decimal((now + 3) % 256) + ","
  }

  function InfoBytes(r: Request): seq<Byte> { JsBytes(r.id.browserInfo) }

  function TailBytes(r: Request): seq<Byte> { JsBytes(AsciiUnits(TailText(r.now))) }

  function ByteOf(value: int, k: nat): (b: int)
    ensures 0 <= b < 256
  {
    value / Power256(k) % 256
  }

  /** The scalar stored under one field name. */
  function FieldValue(r: Request, name: nat): int {
    if name == 24 then 41
    else if name == 26 then (r.now - EPOCH_MS) / FORTNIGHT_MS
    else if name == 27 then 6
    else if name == 28 || name == 66 then 3
    else if 29 <= name <= 34 then ByteOf(r.now, name - 29)
    else if name == 35 then 1
    else if name == 38 then 0x21
    else if 44 <= name <= 47 then ByteOf(14, name - 44)
    else if name == 48 then DigestOf(r.hashing, r.query)[9] as int
    else if name == 49 then DigestOf(r.hashing, r.query)[18] as int
    else if name == 51 then Canary(DigestOf(r.hashing, r.query)[3..], 11, 12) as int
    else if name == 52 then DigestOf(r.hashing, HashedBody(r))[10] as int
    else if name == 53 then DigestOf(r.hashing, HashedBody(r))[19] as int
    else if name == 55 then Canary(DigestOf(r.hashing, HashedBody(r))[4..], 8, 9) as int
    else if name == 56 then UserAgentDigest(r.hashing, r.id.userAgent)[11] as int
    else if name == 57 then UserAgentDigest(r.hashing, r.id.userAgent)[21] as int
    else if name == 59 then Canary(UserAgentDigest(r.hashing, r.id.userAgent)[5..], 12, 13) as int
    else if 60 <= name <= 65 then ByteOf(r.now - 1, name - 60)
    else if 67 <= name <= 70 then ByteOf(r.id.pageId, name - 67)
    else if 71 <= name <= 74 then ByteOf(r.id.aid, name - 71)
    else if name == 79 then ByteOf(|InfoBytes(r)|, 0)
    else if name == 80 then ByteOf(|InfoBytes(r)|, 1)
    else if name == 84 then ByteOf(|TailBytes(r)|, 0)
    else if name == 85 then ByteOf(|TailBytes(r)|, 1)
    else 0
  }

  /** Every field but the fortnight counter fits a byte by construction. */
  lemma FieldFitsByte(r: Request, name: nat)
    requires name == 26 ==> 0 <= (r.now - EPOCH_MS) / FORTNIGHT_MS < 256
    ensures 0 <= FieldValue(r, name) < 256
  {
  }

  /** The fields in body order, before they are turned into bytes. */
  function FieldValues(r: Request, names: seq<nat>): (values: seq<int>)
    ensures |values| == |names|
  {
    seq(|names|, k requires 0 <= k < |names| => FieldValue(r, names[k]))
  }

  predicate AllBytes(values: seq<int>) {
    forall k :: 0 <= k < |values| ==> 0 <= values[k] < 256
  }

  function ToBytes(values: seq<int>): (bytes: seq<Byte>)
    requires AllBytes(values)
    ensures |bytes| == |values|
  {
    seq(|values|, k requires 0 <= k < |values| => ToByte(values[k]))
  }

  // ----------------------------------------------------------------- generator

  function VersionBlock(draws: Draws): (version: seq<Byte>)
    ensures |version| == 8
  {
    MaskPair(1, 0, LowNoise(draws(0)), HighNoise(draws(0)))
    + MaskPair(1, 0, ProbeNoise(draws(1)), TripwireNoise(draws(2)))
  }

  function Header(id: Identity, draws: Draws): (header: seq<Byte>)
    ensures |header| == 4
  {
    MaskPair(HEADER_MAGIC.0, HEADER_MAGIC.1, LowNoise(draws(5)),
             HeaderNoise(id.family.HeaderBase(), draws(4)))
  }

  function Checksum(version: seq<Byte>, fields: seq<Byte>): Byte {
    XorAll(version) ^ XorAll(fields)
  }

  /** Fields, geometry, tail and checksum: what the noise layer expands. */
  function BodyBytes(r: Request, draws: Draws, fields: seq<Byte>): seq<Byte> {
    fields + InfoBytes(r) + TailBytes(r) + [Checksum(VersionBlock(draws), fields)]
  }

  function Seal(r: Request, draws: Draws, fields: seq<Byte>): (payload: seq<Byte>)
    ensures |payload| >= 12
  {
    Header(r.id, draws)
    + Cipher.Crypt(Cipher.Sdk, PAYLOAD_KEY, VersionBlock(draws) + Expand(BodyBytes(r, draws, fields), draws, 6))
  }

  /** `ABogus.get_value`; a raised `ValueError` is an `Err`. */
  function GetValue(r: Request, draws: Draws): Result<string> {
    var values := FieldValues(r, FIELD_ORDER);
    if r.now < EPOCH_MS then Err("clock is before the a_bogus epoch")
    else if !AllBytes(values) then Err("bytes must be in range(0, 256)")
    else
      Base64.AlphabetsAreValid();
      Ok(Base64.Encode(Seal(r, draws, ToBytes(values)), Base64.S4))
  }

  // ------------------------------------------------------------------- checker

  /** `dict(zip(names, values, strict=False))`. */
  function Zip(names: seq<nat>, values: seq<Byte>): (fields: map<nat, Byte>)
    ensures |names| <= |values| ==> forall name :: name in names ==> name in fields
  {
    if |names| == 0 || |values| == 0 then map[]
    else if |names| <= |values| then
      Zip(names[..|names| - 1], values[..|names| - 1])[names[|names| - 1] := values[|names| - 1]]
    else Zip(names[..|values|], values)
  }

  /** `fields[low] | (fields[high] << 8)`. */
  function Length16(low: Byte, high: Byte): nat { low as int + 256 * (high as int) }

  function NamedBytes(fields: map<nat, Byte>, names: seq<nat>): (bytes: seq<Byte>)
    requires forall name :: name in names ==> name in fields
    ensures |bytes| == |names|
  {
    seq(|names|, k requires 0 <= k < |names| => fields[names[k]])
  }

  lemma LengthFieldsNamed()
    ensures |FIELD_ORDER| == 50
    ensures 79 in FIELD_ORDER && 80 in FIELD_ORDER && 84 in FIELD_ORDER && 85 in FIELD_ORDER
  {
    assert FIELD_ORDER[46] == 79 && FIELD_ORDER[47] == 80 && FIELD_ORDER[48] == 84 && FIELD_ORDER[49] == 85;
  }

  /** The checks on the decrypted version block and the collapsed frame, in order. */
  function FrameError(version: seq<Byte>, unpacked: seq<Byte>): Option<string> {
    LengthFieldsNamed();
    if |unpacked| < 51 then Some("frame too short")
    else
      var fields := Zip(FIELD_ORDER, unpacked);
      var end := 50 + Length16(fields[79], fields[80]) + Length16(fields[84], fields[85]);
      if end + 1 > |unpacked| then Some("declared lengths overrun the frame")
      else if |unpacked| - (end + 1) > 2 then Some("declared lengths leave a tail")
      else if unpacked[end] != Checksum(version, NamedBytes(fields, FIELD_ORDER)) then Some("checksum")
      else None
  }

  /** Everything after base64. */
  function PayloadError(payload: seq<Byte>): Option<string> {
    if |payload| < 80 then Some("payload too short")
    else if UnmaskPair(payload[..4]) != HEADER_MAGIC then Some("header magic")
    else
      var plain := Cipher.Crypt(Cipher.Sdk, PAYLOAD_KEY, payload[4..]);
      if UnmaskPair(plain[..4]) != (1, 0) || UnmaskPair(plain[4..8]) != (1, 0) then Some("sdk version")
      else FrameError(plain[..8], Collapse(plain[8..]))
  }

  /** `structure_error` with the default alphabet: the first problem, or `None`. */
  function StructureError(value: string): Option<string> {
    Base64.AlphabetsAreValid();
    var body := Base64.StripPads(value);
    if |body| == 0 || '=' in body || !Base64.OverAlphabet(body, Base64.S4) then Some("alphabet")
    else if |value| % 4 != 0 then Some("length not a multiple of four")
    else
      Base64.DecodeAccepts(value, Base64.S4);
      PayloadError(Base64.Decode(value, Base64.S4).value)
  }

  // ------------------------------------------------------------------- decoder

  datatype Decoded = Decoded(
    sdkVersion: seq<Byte>, fields: map<nat, Byte>, nowMs: nat, inkMs: nat, pageId: nat, aid: nat,
    browserInfo: seq<Byte>, tail: seq<Byte>)

  /** Python's `s[start : start + length]`, which clips at the end. */
  function Slice(s: seq<Byte>, start: nat, length: nat): seq<Byte> {
    var from := if start <= |s| then start else |s|;
    var to := if start + length <= |s| then start + length else |s|;
    s[from..to]
  }

  function Name(first: nat, k: nat): nat { first + k }

  ghost predicate NamesFrom(names: set<nat>, first: nat, count: nat) {
    forall k: nat :: k < count ==> Name(first, k) in names
  }

  /** The sum of `fields[first + k] << (8 * k)`. */
  function ReadNumber(fields: map<nat, Byte>, first: nat, count: nat): nat
    requires NamesFrom(fields.Keys, first, count)
  {
    FromLittleEndian(seq(count, k requires 0 <= k < count => fields[Name(first, k)]))
  }

  lemma NumberFieldsNamed(keys: set<nat>)
    requires forall name :: name in FIELD_ORDER ==> name in keys
    ensures NamesFrom(keys, 29, 6) && NamesFrom(keys, 60, 6)
    ensures NamesFrom(keys, 67, 4) && NamesFrom(keys, 71, 4)
  {
    var f := FIELD_ORDER;
    assert f[5] == 29 && f[18] == 30 && f[22] == 31 && f[45] == 32 && f[36] == 33 && f[0] == 34;
    assert f[44] == 60 && f[3] == 61 && f[26] == 62 && f[27] == 63 && f[16] == 64 && f[40] == 65;
    assert f[37] == 67 && f[13] == 68 && f[23] == 69 && f[6] == 70;
    assert f[19] == 71 && f[29] == 72 && f[4] == 73 && f[31] == 74;
  }

  function PairBytes(pair: (Byte, Byte)): seq<Byte> { [pair.0, pair.1] }

  function DecodeFrame(version: seq<Byte>, unpacked: seq<Byte>): Decoded
    requires |version| == 8 && FrameError(version, unpacked).None?
  {
    LengthFieldsNamed();
    var fields := Zip(FIELD_ORDER, unpacked);
    NumberFieldsNamed(fields.Keys);
    var info := Length16(fields[79], fields[80]);
    var tail := Length16(fields[84], fields[85]);
    Decoded(
      PairBytes(UnmaskPair(version[..4])) + PairBytes(UnmaskPair(version[4..8])), fields,
      ReadNumber(fields, 29, 6), ReadNumber(fields, 60, 6),
      ReadNumber(fields, 67, 4), ReadNumber(fields, 71, 4),
      Slice(unpacked, 50, info), Slice(unpacked, 50 + info, tail))
  }

  /** What `decode` reads from a payload that passed the checker. */
  function DecodePayload(payload: seq<Byte>): Decoded
    requires PayloadError(payload).None?
  {
    hide FrameError, DecodeFrame, Collapse;
    var plain := Cipher.Crypt(Cipher.Sdk, PAYLOAD_KEY, payload[4..]);
    DecodeFrame(plain[..8], Collapse(plain[8..]))
  }

  /** `decode`: refuses what `structure_error` refuses. */
  function Decode(value: string): Result<Decoded> {
    match StructureError(value)
    case Some(problem) => Err(problem)
    case None =>
      Base64.AlphabetsAreValid();
      Base64.DecodeAccepts(value, Base64.S4);
      Ok(DecodePayload(Base64.Decode(value, Base64.S4).value))
  }
}
