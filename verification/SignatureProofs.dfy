/** The round trip of the `a_bogus` signature, for every input and every random stream. */
module SignatureProofs {
  import opened Ascii
  import opened Bytes
  import opened Noise
  import opened Numerals
  import opened Wrappers
  import opened Signature
  import Base64
  import Cipher

  // ------------------------------------------------------------------- numbers

  lemma DivideTwice(value: int, p: nat)
    requires p > 0
    ensures value / 256 / p == value / (256 * p)
  {
    var q, r := value / 256, value % 256;
    var s, t := q / p, q % p;
    assert value == 256 * (p * s + t) + r;
    assert value == (256 * p) * s + (256 * t + r);
    assert 0 <= 256 * t + r < 256 * p;
    UniqueRemainder(value, 256 * p, s, 256 * t + r);
    UniqueQuotient(256 * p, value / (256 * p), s);
  }

  lemma UniqueQuotient(m: nat, a: int, b: int)
    requires m > 0 && m * a == m * b
    ensures a == b
  {
    MultipleIsFar(m, a - b);
  }

  lemma {:induction false} LittleEndianByte(value: int, count: nat, k: nat)
    requires k < count
    ensures LittleEndian(value, count)[k] == ToByte(ByteOf(value, k))
    decreases count
  {
    if k == 0 {
    } else {
      LittleEndianByte(value / 256, count - 1, k - 1);
      DivideTwice(value, Power256(k - 1));
    }
  }

  /** Reading the byte fields of a number gives it back modulo its width. */
  lemma NumberIsRead(fields: map<nat, Byte>, first: nat, count: nat, value: int)
    requires NamesFrom(fields.Keys, first, count)
    requires forall k: nat :: k < count ==> fields[Name(first, k)] == ToByte(ByteOf(value, k))
    ensures ReadNumber(fields, first, count) == value % Power256(count)
  {
    var bytes := seq(count, k requires 0 <= k < count => fields[Name(first, k)]);
    forall k: nat | k < count ensures bytes[k] == LittleEndian(value, count)[k] {
      LittleEndianByte(value, count, k);
    }
    assert bytes == LittleEndian(value, count);
    LittleEndianRoundTrip(value, count);
  }

  lemma LengthIsRead(n: nat)
    ensures Length16(ToByte(ByteOf(n, 0)), ToByte(ByteOf(n, 1))) == n % 65536
  {
    assert Power256(0) == 1 && Power256(1) == 256;
    ToByteKeepsValue(n % 256);
    ToByteKeepsValue(n / 256 % 256);
    ModuloSplit(n, 256);
  }

  // -------------------------------------------------------------------- fields

  function FieldByte(r: Request, name: nat): Byte { ToByte(FieldValue(r, name) % 256) }

  lemma FieldBytesAre(r: Request, names: seq<nat>, k: nat)
    requires k < |names| && AllBytes(FieldValues(r, names))
    ensures ToBytes(FieldValues(r, names))[k] == FieldByte(r, names[k])
  {
    assert FieldValues(r, names)[k] == FieldValue(r, names[k]);
  }

  lemma FortnightRange(now: int)
    requires now >= EPOCH_MS
    ensures 0 <= (now - EPOCH_MS) / FORTNIGHT_MS
    ensures (now - EPOCH_MS) / FORTNIGHT_MS < 256 <==> now < EPOCH_MS + 256 * FORTNIGHT_MS
  {
  }

  lemma FortnightFieldNamed(r: Request)
    ensures |FIELD_ORDER| == 50 && FIELD_ORDER[20] == 26
    ensures FieldValue(r, 26) == (r.now - EPOCH_MS) / FORTNIGHT_MS
  {
  }

  /** The fields are bytes exactly while the fortnight counter is. */
  lemma FieldsAreBytes(r: Request)
    requires r.now >= EPOCH_MS
    ensures AllBytes(FieldValues(r, FIELD_ORDER)) <==> r.now < EPOCH_MS + 256 * FORTNIGHT_MS
  {
    hide FIELD_ORDER, FieldValue, FieldValues, EPOCH_MS, FORTNIGHT_MS;
    FortnightRange(r.now);
    FortnightFieldNamed(r);
    SomeFieldOutOfRange(r, FIELD_ORDER, 20);
    if r.now < EPOCH_MS + 256 * FORTNIGHT_MS {
      AllFieldsFit(r, FIELD_ORDER);
    }
  }

  lemma SomeFieldOutOfRange(r: Request, names: seq<nat>, k: nat)
    requires k < |names|
    ensures AllBytes(FieldValues(r, names)) ==> 0 <= FieldValue(r, names[k]) < 256
  {
    hide FieldValue;
    assert FieldValues(r, names)[k] == FieldValue(r, names[k]);
  }

  lemma AllFieldsFit(r: Request, names: seq<nat>)
    requires 0 <= (r.now - EPOCH_MS) / FORTNIGHT_MS < 256
    ensures AllBytes(FieldValues(r, names))
  {
    hide FieldValue;
    forall k | 0 <= k < |names| ensures 0 <= FieldValues(r, names)[k] < 256 {
      FieldFitsByte(r, names[k]);
    }
  }

  lemma {:induction false} ZipRecovers(r: Request, names: seq<nat>, values: seq<Byte>, name: nat)
    requires |names| <= |values| && name in names
    requires forall k :: 0 <= k < |names| ==> values[k] == FieldByte(r, names[k])
    ensures name in Zip(names, values) && Zip(names, values)[name] == FieldByte(r, name)
    decreases |names|
  {
    hide FieldByte;
    var last := |names| - 1;
    if name != names[last] {
      assert name in names[..last];
      ZipRecovers(r, names[..last], values[..last], name);
    }
  }

  lemma NamedBytesRecovered(r: Request, names: seq<nat>, values: seq<Byte>)
    requires |names| <= |values|
    requires forall k :: 0 <= k < |names| ==> values[k] == FieldByte(r, names[k])
    ensures NamedBytes(Zip(names, values), names) == values[..|names|]
  {
    hide FieldByte, Zip;
    forall k | 0 <= k < |names| ensures NamedBytes(Zip(names, values), names)[k] == values[k] {
      ZipRecovers(r, names, values, names[k]);
    }
  }

  // ------------------------------------------------------------------ the frame

  lemma TailLength(r: Request)
    ensures 2 <= |TailBytes(r)| <= 4
  {
    var text := TailText(r.now);
    JsBytesOfLatin1(AsciiUnits(text));
    SmallDecimalLength((r.now + 3) % 256);
  }

  lemma SmallDecimalLength(n: nat)
    requires n < 1000
    ensures 1 <= |Decimal(n)| <= 3
  {
    if n >= 10 {
      assert |Decimal(n)| == |Decimal(n / 10)| + 1;
      if n >= 100 {
        assert |Decimal(n / 10)| == |Decimal(n / 10 / 10)| + 1;
      }
    }
  }

  /** The fifty field bytes of a request whose clock the format can carry. */
  function FieldBytes(r: Request): (fields: seq<Byte>)
    requires AllBytes(FieldValues(r, FIELD_ORDER))
    ensures |fields| == |FIELD_ORDER|
  {
    ToBytes(FieldValues(r, FIELD_ORDER))
  }

  ghost predicate CarriesFields(r: Request, unpacked: seq<Byte>) {
    |FIELD_ORDER| <= |unpacked|
    && forall k :: 0 <= k < |FIELD_ORDER| ==> unpacked[k] == FieldByte(r, FIELD_ORDER[k])
  }

  lemma FieldBytesCarry(r: Request, rest: seq<Byte>)
    requires AllBytes(FieldValues(r, FIELD_ORDER))
    ensures CarriesFields(r, FieldBytes(r) + rest)
  {
    hide FieldByte, FieldValues, ToBytes, FIELD_ORDER;
    forall k | 0 <= k < |FIELD_ORDER|
      ensures (FieldBytes(r) + rest)[k] == FieldByte(r, FIELD_ORDER[k])
    {
      FieldBytesAre(r, FIELD_ORDER, k);
    }
  }

  /** Declared lengths are the true lengths modulo 65536. */
  lemma DeclaredLengths(r: Request, unpacked: seq<Byte>)
    requires CarriesFields(r, unpacked)
    ensures
      var fields := Zip(FIELD_ORDER, unpacked);
      && 79 in fields && 80 in fields && 84 in fields && 85 in fields
      && Length16(fields[79], fields[80]) == |InfoBytes(r)| % 65536
      && Length16(fields[84], fields[85]) == |TailBytes(r)|
  {
    hide FIELD_ORDER, FieldByte, InfoBytes, TailBytes, ByteOf, Length16, ToByte, Zip;
    LengthFieldsNamed();
    LengthBytesAre(r);
    ZipRecovers(r, FIELD_ORDER, unpacked, 79);
    ZipRecovers(r, FIELD_ORDER, unpacked, 80);
    ZipRecovers(r, FIELD_ORDER, unpacked, 84);
    ZipRecovers(r, FIELD_ORDER, unpacked, 85);
    LengthIsRead(|InfoBytes(r)|);
    LengthIsRead(|TailBytes(r)|);
    TailLength(r);
  }

  lemma LengthBytesAre(r: Request)
    ensures FieldByte(r, 79) == ToByte(ByteOf(|InfoBytes(r)|, 0))
    ensures FieldByte(r, 80) == ToByte(ByteOf(|InfoBytes(r)|, 1))
    ensures FieldByte(r, 84) == ToByte(ByteOf(|TailBytes(r)|, 0))
    ensures FieldByte(r, 85) == ToByte(ByteOf(|TailBytes(r)|, 1))
  {
    hide ToByte, ByteOf, InfoBytes, TailBytes, DigestOf, UserAgentDigest, Canary;
  }

  /** The geometry is too long for its two length bytes. */
  predicate GeometryTooLong(r: Request) { |InfoBytes(r)| >= 65536 }

  /**
    The body loses its checksum in the noise layer: its length, which only the geometry and
    the clock's tail decide, leaves two bytes over, and the checksum happens to be zero.
   */
  predicate ChecksumDropped(r: Request, draws: Draws)
    requires AllBytes(FieldValues(r, FIELD_ORDER))
  {
    |InfoBytes(r)| % 3 == (2 - (51 + |TailBytes(r)|)) % 3
    && Checksum(VersionBlock(draws), FieldBytes(r)) == 0
  }

  function ExpectedProblem(r: Request, draws: Draws): Option<string>
    requires AllBytes(FieldValues(r, FIELD_ORDER))
  {
    if GeometryTooLong(r) then Some("declared lengths leave a tail")
    else if ChecksumDropped(r, draws) then Some("declared lengths overrun the frame")
    else None
  }

  lemma DroppedIsLost(r: Request, draws: Draws)
    requires AllBytes(FieldValues(r, FIELD_ORDER))
    ensures |BodyBytes(r, draws, FieldBytes(r))| == 51 + |InfoBytes(r)| + |TailBytes(r)|
    ensures LosesLastByte(BodyBytes(r, draws, FieldBytes(r))) <==> ChecksumDropped(r, draws)
  {
    hide FieldBytes, InfoBytes, TailBytes, Checksum, VersionBlock, FieldValues;
    LengthFieldsNamed();
    hide FIELD_ORDER;
    Remainders(|InfoBytes(r)|, |TailBytes(r)|);
  }

  lemma Remainders(info: nat, tail: nat)
    ensures (51 + info + tail) % 3 == 2 <==> info % 3 == (2 - (51 + tail)) % 3
  {
  }

  /** The verdict on a frame whose true lengths, declared lengths and checksum are known. */
  lemma VerdictOf(version: seq<Byte>, unpacked: seq<Byte>, info: nat, tail: nat, lost: bool)
    requires 2 <= tail <= 4 && |unpacked| == 51 + info + tail - (if lost then 1 else 0)
    requires
      var fields := Zip(FIELD_ORDER, unpacked);
      && (forall name :: name in FIELD_ORDER ==> name in fields)
      && 79 in fields && 80 in fields && 84 in fields && 85 in fields
      && Length16(fields[79], fields[80]) == info % 65536
      && Length16(fields[84], fields[85]) == tail
      && (!lost ==> unpacked[|unpacked| - 1] == Checksum(version, NamedBytes(fields, FIELD_ORDER)))
    ensures FrameError(version, unpacked)
         == if info >= 65536 then Some("declared lengths leave a tail")
            else if lost then Some("declared lengths overrun the frame")
            else None
  {
    hide FIELD_ORDER, Zip, Length16, Checksum, NamedBytes;
    if info >= 65536 {
      assert info - info % 65536 >= 65536;
    }
  }

  /** The frame checks give exactly the expected verdict. */
  lemma FrameVerdict(r: Request, draws: Draws)
    requires AllBytes(FieldValues(r, FIELD_ORDER))
    ensures FrameError(VersionBlock(draws), Collapse(Expand(BodyBytes(r, draws, FieldBytes(r)), draws, 6)))
         == ExpectedProblem(r, draws)
  {
    hide FieldBytes, InfoBytes, TailBytes, Checksum, VersionBlock, FieldValues, FIELD_ORDER, Expand, Collapse;
    hide Zip, Length16, NamedBytes, BodyBytes, FieldByte, FrameError, ChecksumDropped, LosesLastByte;
    var body := BodyBytes(r, draws, FieldBytes(r));
    var unpacked := Collapse(Expand(body, draws, 6));
    CollapseOfExpand(body, draws, 6);
    DroppedIsLost(r, draws);
    TailLength(r);
    BodyCarries(r, draws, unpacked);
    DeclaredLengths(r, unpacked);
    NamedBytesRecovered(r, FIELD_ORDER, unpacked);
    BodyEndsInChecksum(r, draws);
    VerdictOf(VersionBlock(draws), unpacked, |InfoBytes(r)|, |TailBytes(r)|, ChecksumDropped(r, draws));
  }

  lemma BodyCarries(r: Request, draws: Draws, unpacked: seq<Byte>)
    requires AllBytes(FieldValues(r, FIELD_ORDER))
    requires
      var body := BodyBytes(r, draws, FieldBytes(r));
      unpacked == body || unpacked == body[..|body| - 1]
    ensures CarriesFields(r, unpacked) && unpacked[..|FIELD_ORDER|] == FieldBytes(r)
  {
    hide FieldBytes, InfoBytes, TailBytes, Checksum, VersionBlock, FieldValues, FIELD_ORDER, FieldByte;
    var fields := FieldBytes(r);
    var rest := unpacked[|fields|..];
    assert unpacked == fields + rest;
    FieldBytesCarry(r, rest);
  }

  lemma BodyEndsInChecksum(r: Request, draws: Draws)
    requires AllBytes(FieldValues(r, FIELD_ORDER))
    ensures
      var body := BodyBytes(r, draws, FieldBytes(r));
      |body| > 0 && body[|body| - 1] == Checksum(VersionBlock(draws), FieldBytes(r))
  {
    hide FieldBytes, InfoBytes, TailBytes, Checksum, VersionBlock, FieldValues, FIELD_ORDER;
  }

  // ---------------------------------------------------------------- the payload

  lemma VersionUnmasks(draws: Draws)
    ensures UnmaskPair(VersionBlock(draws)[..4]) == (1, 0)
    ensures UnmaskPair(VersionBlock(draws)[4..8]) == (1, 0)
  {
    MaskPairRoundTrip(1, 0, LowNoise(draws(0)), HighNoise(draws(0)));
    MaskPairRoundTrip(1, 0, ProbeNoise(draws(1)), TripwireNoise(draws(2)));
    var first := MaskPair(1, 0, LowNoise(draws(0)), HighNoise(draws(0)));
    var second := MaskPair(1, 0, ProbeNoise(draws(1)), TripwireNoise(draws(2)));
    hide *;
    VersionBlockIs(draws);
    assert VersionBlock(draws)[..4] == first && VersionBlock(draws)[4..8] == second;
  }

  lemma VersionBlockIs(draws: Draws)
    ensures VersionBlock(draws) == MaskPair(1, 0, LowNoise(draws(0)), HighNoise(draws(0)))
      + MaskPair(1, 0, ProbeNoise(draws(1)), TripwireNoise(draws(2)))
  {
  }

  lemma HeaderUnmasks(id: Identity, draws: Draws)
    ensures UnmaskPair(Header(id, draws)) == HEADER_MAGIC
  {
    MaskPairRoundTrip(3, 82, LowNoise(draws(5)), HeaderNoise(id.family.HeaderBase(), draws(4)));
    hide MaskPair, UnmaskPair, LowNoise, HeaderNoise;
  }

  lemma FrameIsLongEnough(r: Request, draws: Draws)
    requires AllBytes(FieldValues(r, FIELD_ORDER))
    ensures |Expand(BodyBytes(r, draws, FieldBytes(r)), draws, 6)| >= 68
  {
    DroppedIsLost(r, draws);
    TailLength(r);
    var body := BodyBytes(r, draws, FieldBytes(r));
    ExpandedLength(body, draws, 6);
    hide *;
  }

  /** Undoing the cipher leaves the version block and the frame. */
  lemma SealOpens(r: Request, draws: Draws)
    requires AllBytes(FieldValues(r, FIELD_ORDER))
    ensures
      var payload := Seal(r, draws, FieldBytes(r));
      && |payload| >= 80
      && payload[..4] == Header(r.id, draws)
      && Cipher.Crypt(Cipher.Sdk, PAYLOAD_KEY, payload[4..])
         == VersionBlock(draws) + Expand(BodyBytes(r, draws, FieldBytes(r)), draws, 6)
  {
    hide Cipher.Crypt, Expand, BodyBytes, FieldBytes, VersionBlock, Header;
    FrameIsLongEnough(r, draws);
    var plain := VersionBlock(draws) + Expand(BodyBytes(r, draws, FieldBytes(r)), draws, 6);
    var sealed := Cipher.Crypt(Cipher.Sdk, PAYLOAD_KEY, plain);
    Cipher.CryptIsInvolution(Cipher.Sdk, PAYLOAD_KEY, plain);
    assert Seal(r, draws, FieldBytes(r)) == Header(r.id, draws) + sealed;
    assert (Header(r.id, draws) + sealed)[4..] == sealed;
  }

  lemma PayloadVerdict(r: Request, draws: Draws)
    requires AllBytes(FieldValues(r, FIELD_ORDER))
    ensures PayloadError(Seal(r, draws, FieldBytes(r))) == ExpectedProblem(r, draws)
  {
    hide Cipher.Crypt, Expand, BodyBytes, FieldBytes, VersionBlock, Header, Seal, FrameError, Collapse, UnmaskPair;
    hide ExpectedProblem;
    SealOpens(r, draws);
    HeaderUnmasks(r.id, draws);
    VersionUnmasks(draws);
    FrameVerdict(r, draws);
    var version, frame := VersionBlock(draws), Expand(BodyBytes(r, draws, FieldBytes(r)), draws, 6);
    assert (version + frame)[..8] == version && (version + frame)[8..] == frame;
    assert (version + frame)[..4] == version[..4] && (version + frame)[4..8] == version[4..8];
  }

  /** On encoder output the checker judges the payload alone. */
  lemma EncodedVerdict(payload: seq<Byte>)
    requires |payload| > 0
    ensures Base64.IsAlphabet(Base64.S4)
    ensures StructureError(Base64.Encode(payload, Base64.S4)) == PayloadError(payload)
    ensures Base64.Decode(Base64.Encode(payload, Base64.S4), Base64.S4) == Ok(payload)
  {
    Base64.AlphabetsAreValid();
    Base64.RoundTrip(payload, Base64.S4);
    Base64.DecodeAccepts(Base64.Encode(payload, Base64.S4), Base64.S4);
    NoPadInBody(Base64.StripPads(Base64.Encode(payload, Base64.S4)), Base64.S4);
    hide Base64.Encode, Base64.Decode, Base64.StripPads, Base64.S4, Base64.IsAlphabet, Base64.OverAlphabet;
    hide PayloadError;
  }

  lemma NoPadInBody(body: string, table: string)
    requires Base64.IsAlphabet(table) && Base64.OverAlphabet(body, table)
    ensures '=' !in body
  {
  }

  // ------------------------------------------------------------- the main results

  /** A signature is produced exactly for clocks from the epoch on, for 256 fortnights. */
  lemma SignableClocks(r: Request, draws: Draws)
    ensures GetValue(r, draws).Ok? <==> EPOCH_MS <= r.now < EPOCH_MS + 256 * FORTNIGHT_MS
  {
    if r.now >= EPOCH_MS {
      FieldsAreBytes(r);
    }
    hide FIELD_ORDER, FieldValues, Base64.S4, Seal;
  }

  /**
    The checker's verdict on every signature the generator produces. It accepts unless the
    geometry overflows its two length bytes, or the noise layer drops a zero checksum; each
    of the two has its own problem text.
   */
  lemma SignatureVerdict(r: Request, draws: Draws)
    requires EPOCH_MS <= r.now < EPOCH_MS + 256 * FORTNIGHT_MS
    ensures AllBytes(FieldValues(r, FIELD_ORDER)) && GetValue(r, draws).Ok?
    ensures StructureError(GetValue(r, draws).value) == ExpectedProblem(r, draws)
    ensures StructureError(GetValue(r, draws).value).None?
       <==> !GeometryTooLong(r) && !ChecksumDropped(r, draws)
  {
    FieldsAreBytes(r);
    hide FIELD_ORDER, FieldValues, Base64.S4, Seal, GeometryTooLong, ChecksumDropped;
    PayloadVerdict(r, draws);
    EncodedVerdict(Seal(r, draws, FieldBytes(r)));
    hide Base64.Encode, StructureError, PayloadError;
  }

  lemma ReadField(r: Request, fields: map<nat, Byte>, first: nat, count: nat, value: int)
    requires NamesFrom(fields.Keys, first, count)
    requires forall k: nat :: k < count ==> fields[Name(first, k)] == FieldByte(r, Name(first, k))
    requires forall k: nat :: k < count ==> FieldValue(r, Name(first, k)) == ByteOf(value, k)
    ensures ReadNumber(fields, first, count) == value % Power256(count)
  {
    hide FieldValue, ReadNumber, ByteOf;
    forall k: nat | k < count ensures fields[Name(first, k)] == ToByte(ByteOf(value, k)) {
      assert FieldByte(r, Name(first, k)) == ToByte(ByteOf(value, k) % 256);
    }
    NumberIsRead(fields, first, count, value);
  }

  lemma NumberFields(r: Request)
    ensures forall k: nat :: k < 6 ==> FieldValue(r, Name(29, k)) == ByteOf(r.now, k)
    ensures forall k: nat :: k < 6 ==> FieldValue(r, Name(60, k)) == ByteOf(r.now - 1, k)
    ensures forall k: nat :: k < 4 ==> FieldValue(r, Name(67, k)) == ByteOf(r.id.pageId, k)
    ensures forall k: nat :: k < 4 ==> FieldValue(r, Name(71, k)) == ByteOf(r.id.aid, k)
  {
    hide ByteOf;
  }

  lemma Widths()
    ensures Power256(4) == 0x1_0000_0000 && Power256(6) == 0x1_0000_0000_0000
  {
    assert Power256(2) == 65536 && Power256(4) == 256 * (256 * Power256(2));
    assert Power256(6) == 256 * (256 * Power256(4));
  }

  ghost predicate FieldsRecovered(r: Request, fields: map<nat, Byte>) {
    forall name :: name in FIELD_ORDER ==> name in fields && fields[name] == FieldByte(r, name)
  }

  lemma ZipRecoversAll(r: Request, unpacked: seq<Byte>)
    requires CarriesFields(r, unpacked)
    ensures FieldsRecovered(r, Zip(FIELD_ORDER, unpacked))
  {
    hide FIELD_ORDER, FieldByte, Zip;
    forall name | name in FIELD_ORDER
      ensures name in Zip(FIELD_ORDER, unpacked) && Zip(FIELD_ORDER, unpacked)[name] == FieldByte(r, name)
    {
      ZipRecovers(r, FIELD_ORDER, unpacked, name);
    }
  }

  lemma AllNamesRecovered(r: Request, fields: map<nat, Byte>, first: nat, count: nat)
    requires FieldsRecovered(r, fields)
    requires forall k: nat :: k < count ==> Name(first, k) in FIELD_ORDER
    ensures NamesFrom(fields.Keys, first, count)
    ensures forall k: nat :: k < count ==> fields[Name(first, k)] == FieldByte(r, Name(first, k))
  {
    hide FIELD_ORDER, FieldByte;
  }

  lemma NumberNamesOrdered()
    ensures forall k: nat :: k < 6 ==> Name(29, k) in FIELD_ORDER
    ensures forall k: nat :: k < 6 ==> Name(60, k) in FIELD_ORDER
    ensures forall k: nat :: k < 4 ==> Name(67, k) in FIELD_ORDER
    ensures forall k: nat :: k < 4 ==> Name(71, k) in FIELD_ORDER
  {
    NumberFieldsNamed(set name | name in FIELD_ORDER);
    hide FIELD_ORDER;
    assert forall k: nat :: k < 6 ==> Name(29, k) in (set name | name in FIELD_ORDER);
  }

  lemma ClockFits(now: int)
    requires EPOCH_MS <= now < EPOCH_MS + 256 * FORTNIGHT_MS
    ensures now % 0x1_0000_0000_0000 == now && (now - 1) % 0x1_0000_0000_0000 == now - 1
  {
  }

  lemma ReadRecovered(r: Request, fields: map<nat, Byte>, first: nat, count: nat, value: int)
    requires FieldsRecovered(r, fields)
    requires forall k: nat :: k < count ==> Name(first, k) in FIELD_ORDER
    requires forall k: nat :: k < count ==> FieldValue(r, Name(first, k)) == ByteOf(value, k)
    ensures NamesFrom(fields.Keys, first, count)
    ensures ReadNumber(fields, first, count) == value % Power256(count)
  {
    hide FIELD_ORDER, FieldByte, FieldValue, ByteOf, FieldsRecovered, ReadNumber;
    AllNamesRecovered(r, fields, first, count);
    ReadField(r, fields, first, count, value);
  }

  /** The numbers read back from recovered fields. */
  lemma NumbersRecovered(r: Request, fields: map<nat, Byte>)
    requires EPOCH_MS <= r.now < EPOCH_MS + 256 * FORTNIGHT_MS
    requires FieldsRecovered(r, fields)
    ensures NamesFrom(fields.Keys, 29, 6) && ReadNumber(fields, 29, 6) == r.now
    ensures NamesFrom(fields.Keys, 60, 6) && ReadNumber(fields, 60, 6) == r.now - 1
    ensures NamesFrom(fields.Keys, 67, 4) && ReadNumber(fields, 67, 4) == r.id.pageId % 0x1_0000_0000
    ensures NamesFrom(fields.Keys, 71, 4) && ReadNumber(fields, 71, 4) == r.id.aid % 0x1_0000_0000
  {
    hide *;
    Widths();
    ClockFits(r.now);
    NumberNamesOrdered();
    NumberFields(r);
    ReadRecovered(r, fields, 29, 6, r.now);
    ReadRecovered(r, fields, 60, 6, r.now - 1);
    ReadRecovered(r, fields, 67, 4, r.id.pageId);
    ReadRecovered(r, fields, 71, 4, r.id.aid);
  }

  ghost predicate Recovers(r: Request, d: Decoded) {
    && FieldsRecovered(r, d.fields)
    && d.sdkVersion == [1, 0, 1, 0]
    && d.nowMs == r.now && d.inkMs == r.now - 1
    && d.pageId == r.id.pageId % 0x1_0000_0000 && d.aid == r.id.aid % 0x1_0000_0000
    && d.browserInfo == InfoBytes(r) && d.tail == TailBytes(r)
  }

  lemma SlicesOf(fields: seq<Byte>, info: seq<Byte>, tail: seq<Byte>, checksum: Byte)
    requires |fields| == 50
    ensures
      var body := fields + info + tail + [checksum];
      Slice(body, 50, |info|) == info && Slice(body, 50 + |info|, |tail|) == tail
  {
    var body := fields + info + tail + [checksum];
    assert body[50..50 + |info|] == info;
    assert body[50 + |info|..50 + |info| + |tail|] == tail;
  }

  /** `decode` on a frame that passed, from what its fields and slices are. */
  lemma DecodeFrameIs(r: Request, version: seq<Byte>, unpacked: seq<Byte>)
    requires |version| == 8 && FrameError(version, unpacked).None?
    requires UnmaskPair(version[..4]) == (1, 0) && UnmaskPair(version[4..8]) == (1, 0)
    requires
      var fields := Zip(FIELD_ORDER, unpacked);
      && FieldsRecovered(r, fields)
      && NamesFrom(fields.Keys, 29, 6) && ReadNumber(fields, 29, 6) == r.now
      && NamesFrom(fields.Keys, 60, 6) && ReadNumber(fields, 60, 6) == r.now - 1
      && NamesFrom(fields.Keys, 67, 4) && ReadNumber(fields, 67, 4) == r.id.pageId % 0x1_0000_0000
      && NamesFrom(fields.Keys, 71, 4) && ReadNumber(fields, 71, 4) == r.id.aid % 0x1_0000_0000
      && 79 in fields && 80 in fields && 84 in fields && 85 in fields
      && Length16(fields[79], fields[80]) == |InfoBytes(r)|
      && Length16(fields[84], fields[85]) == |TailBytes(r)|
    requires Slice(unpacked, 50, |InfoBytes(r)|) == InfoBytes(r)
    requires Slice(unpacked, 50 + |InfoBytes(r)|, |TailBytes(r)|) == TailBytes(r)
    ensures Recovers(r, DecodeFrame(version, unpacked))
  {
    hide FIELD_ORDER, Zip, FrameError, FieldsRecovered, ReadNumber, Slice, InfoBytes, TailBytes, Length16;
    hide UnmaskPair, NamesFrom;
  }

  lemma FrameDecodes(r: Request, draws: Draws)
    requires EPOCH_MS <= r.now < EPOCH_MS + 256 * FORTNIGHT_MS
    requires AllBytes(FieldValues(r, FIELD_ORDER))
    requires !GeometryTooLong(r) && !ChecksumDropped(r, draws)
    ensures
      var unpacked := Collapse(Expand(BodyBytes(r, draws, FieldBytes(r)), draws, 6));
      FrameError(VersionBlock(draws), unpacked).None?
      && Recovers(r, DecodeFrame(VersionBlock(draws), unpacked))
  {
    hide FIELD_ORDER, FieldValues, FieldBytes, Zip, Collapse, Expand, VersionBlock, FrameError, FieldsRecovered;
    hide ReadNumber, Slice, InfoBytes, TailBytes, Checksum, UnmaskPair, ChecksumDropped, LosesLastByte, Length16;
    hide DecodeFrame, Recovers, CarriesFields, NamesFrom;
    var body := BodyBytes(r, draws, FieldBytes(r));
    LengthFieldsNamed();
    FrameVerdict(r, draws);
    CollapseOfExpand(body, draws, 6);
    DroppedIsLost(r, draws);
    BodyCarries(r, draws, body);
    DeclaredLengths(r, body);
    ZipRecoversAll(r, body);
    NumbersRecovered(r, Zip(FIELD_ORDER, body));
    VersionUnmasks(draws);
    SlicesOf(FieldBytes(r), InfoBytes(r), TailBytes(r), Checksum(VersionBlock(draws), FieldBytes(r)));
    hide BodyBytes;
    DecodeFrameIs(r, VersionBlock(draws), body);
  }

  /**
    Round trip: whenever the checker accepts, decoding returns every one of the fifty
    fields, the clock, the clock before it, the page and application ids modulo 2^32, the
    version, and the geometry and tail byte for byte.
   */
  lemma SignatureRoundTrip(r: Request, draws: Draws)
    requires EPOCH_MS <= r.now < EPOCH_MS + 256 * FORTNIGHT_MS
    ensures GetValue(r, draws).Ok?
    ensures AllBytes(FieldValues(r, FIELD_ORDER))
    ensures !GeometryTooLong(r) && !ChecksumDropped(r, draws) ==>
      Decode(GetValue(r, draws).value).Ok? && Recovers(r, Decode(GetValue(r, draws).value).value)
    ensures GeometryTooLong(r) || ChecksumDropped(r, draws) ==> Decode(GetValue(r, draws).value).Err?
  {
    hide FIELD_ORDER, FieldValues, Base64.S4, Seal, GeometryTooLong, ChecksumDropped, StructureError, Recovers;
    hide DecodePayload, Base64.Encode, Base64.Decode, PayloadError, FieldBytes;
    FieldsAreBytes(r);
    SignatureVerdict(r, draws);
    var payload := Seal(r, draws, FieldBytes(r));
    GetValueIs(r, draws);
    EncodedVerdict(payload);
    if !GeometryTooLong(r) && !ChecksumDropped(r, draws) {
      PayloadDecodes(r, draws);
    }
  }

  /** The geometry and the tail as text: an ASCII geometry comes back as it was given, and
      the tail is the clock's. */
  lemma GeometryText(r: Request, draws: Draws, text: string)
    requires EPOCH_MS <= r.now < EPOCH_MS + 256 * FORTNIGHT_MS
    requires IsAscii(text) && r.id.browserInfo == AsciiUnits(text)
    requires GetValue(r, draws).Ok? && StructureError(GetValue(r, draws).value).None?
    ensures Decode(GetValue(r, draws).value).Ok?
    ensures var d := Decode(GetValue(r, draws).value).value;
            AsciiText(d.browserInfo) == Some(text) && AsciiText(d.tail) == Some(TailText(r.now))
  {
    hide FIELD_ORDER, FieldValues, Base64.S4, GetValue, StructureError, Decode, FieldsRecovered, AsciiText, JsBytes;
    hide GeometryTooLong, ChecksumDropped, AsciiUnits, TailText;
    SignatureVerdict(r, draws);
    SignatureRoundTrip(r, draws);
    JsAsciiRoundTrip(text);
    JsAsciiRoundTrip(TailText(r.now));
  }

  lemma GetValueIs(r: Request, draws: Draws)
    requires EPOCH_MS <= r.now && AllBytes(FieldValues(r, FIELD_ORDER))
    ensures |Base64.S4| == 64
    ensures GetValue(r, draws) == Ok(Base64.Encode(Seal(r, draws, FieldBytes(r)), Base64.S4))
  {
    hide FIELD_ORDER, FieldValues, Seal, Base64.Encode;
    Base64.AlphabetsAreValid();
  }

  lemma PayloadDecodes(r: Request, draws: Draws)
    requires EPOCH_MS <= r.now < EPOCH_MS + 256 * FORTNIGHT_MS
    requires AllBytes(FieldValues(r, FIELD_ORDER))
    requires !GeometryTooLong(r) && !ChecksumDropped(r, draws)
    ensures
      var payload := Seal(r, draws, FieldBytes(r));
      PayloadError(payload).None? && Recovers(r, DecodePayload(payload))
  {
    hide FIELD_ORDER, FieldValues, FieldBytes, Collapse, Expand, VersionBlock, FrameError, DecodeFrame;
    hide Recovers, ChecksumDropped, Seal, Header, BodyBytes, Cipher.Crypt, GeometryTooLong, PayloadError;
    PayloadVerdict(r, draws);
    SealOpens(r, draws);
    FrameDecodes(r, draws);
    var version, frame := VersionBlock(draws), Expand(BodyBytes(r, draws, FieldBytes(r)), draws, 6);
    assert (version + frame)[..8] == version && (version + frame)[8..] == frame;
  }

  // -------------------------------------------- the exception is reached in practice

  lemma {:induction false} XorJoin(a: seq<Byte>, b: seq<Byte>)
    ensures XorAll(a + b) == XorAll(a) ^ XorAll(b)
    decreases |b|
  {
    if |b| == 0 {
      assert a + b == a;
    } else {
      var front, last := b[..|b| - 1], b[|b| - 1];
      XorJoin(a, front);
      assert (a + b)[..|a + b| - 1] == a + front;
      XorAssociates(XorAll(a), XorAll(front), last);
    }
  }

  lemma XorOfFour(a: Byte, b: Byte, c: Byte, d: Byte)
    ensures XorAll([a, b, c, d]) == 0 ^ a ^ b ^ c ^ d
  {
    assert XorAll([]) == 0;
    hide XorAll;
    XorAppend([], a);
    XorAppend([a], b);
    XorAppend([a, b], c);
    XorAppend([a, b, c], d);
    assert [] + [a] == [a] && [a] + [b] == [a, b] && [a, b] + [c] == [a, b, c];
    assert [a, b, c] + [d] == [a, b, c, d];
  }

  lemma PairBits(first: Byte, second: Byte, low: Byte, high: Byte)
    ensures
      var p := MaskPair(first, second, low, high);
      0 ^ p[0] ^ p[1] ^ p[2] ^ p[3] == low ^ first ^ high ^ second
  {
  }

  lemma XorOfPair(first: Byte, second: Byte, low: Byte, high: Byte)
    ensures XorAll(MaskPair(first, second, low, high)) == low ^ first ^ high ^ second
  {
    PairBits(first, second, low, high);
    var p := MaskPair(first, second, low, high);
    hide MaskPair;
    XorOfFour(p[0], p[1], p[2], p[3]);
    assert p == [p[0], p[1], p[2], p[3]];
  }

  lemma VersionBits(l: Byte, h: Byte, p: Byte, t: Byte)
    ensures (l ^ 1 ^ h ^ 0) ^ (p ^ 1 ^ t ^ 0) == l ^ h ^ p ^ t
  {
  }

  /** The version block's share of the checksum is the XOR of its four noise bytes. */
  lemma VersionXor(draws: Draws)
    ensures XorAll(VersionBlock(draws))
         == LowNoise(draws(0)) ^ HighNoise(draws(0)) ^ ProbeNoise(draws(1)) ^ TripwireNoise(draws(2))
  {
    var l, h, p, t := LowNoise(draws(0)), HighNoise(draws(0)), ProbeNoise(draws(1)), TripwireNoise(draws(2));
    VersionBlockIs(draws);
    hide *;
    XorOfPair(1, 0, l, h);
    XorOfPair(1, 0, p, t);
    XorJoin(MaskPair(1, 0, l, h), MaskPair(1, 0, p, t));
    VersionBits(l, h, p, t);
  }

  /** A draw whose two noise bytes are any wanted low byte and zero. */
  function DrawFor(low: nat): (u: Unit)
    requires low < 256
    ensures Scaled(u, 65535) == low
  {
    var u := (low as real + 0.5) / 65535.0;
    assert u * 65535.0 == low as real + 0.5;
    u
  }

  lemma NoiseOfScaled(u: Unit, low: nat)
    requires low < 256 && Scaled(u, 65535) == low
    ensures LowNoise(u) == ToByte(low) && HighNoise(u) == ToByte(0)
  {
    hide Scaled, ToByte;
    assert low % 256 == low && low / 256 % 256 == 0;
  }

  lemma DrawForGives(low: Byte)
    ensures 0 <= low as int < 256
    ensures LowNoise(DrawFor(low as int)) == low && HighNoise(DrawFor(low as int)) == 0
  {
    ByteKeepsValue(low);
    ZeroByte();
    hide *;
    NoiseOfScaled(DrawFor(low as int), low as int);
  }

  lemma ZeroByte()
    ensures ToByte(0) == 0
  {
  }

  function SteeredDraws(low: nat): Draws
    requires low < 256
  {
    (n: nat) => if n == 0 then DrawFor(low) else 0.0
  }

  lemma CancelBits(p: Byte, t: Byte, x: Byte)
    ensures ((p ^ t ^ x) ^ 0 ^ p ^ t) ^ x == 0
  {
  }

  lemma ZeroChecksum(draws: Draws, fields: seq<Byte>)
    requires HighNoise(draws(0)) == 0
    requires LowNoise(draws(0)) == ProbeNoise(draws(1)) ^ TripwireNoise(draws(2)) ^ XorAll(fields)
    ensures Checksum(VersionBlock(draws), fields) == 0
  {
    hide LowNoise, HighNoise, ProbeNoise, TripwireNoise, VersionBlock, XorAll;
    VersionXor(draws);
    CancelBits(ProbeNoise(draws(1)), TripwireNoise(draws(2)), XorAll(fields));
  }

  function SteeringByte(fields: seq<Byte>): Byte { ProbeNoise(0.0) ^ TripwireNoise(0.0) ^ XorAll(fields) }

  /** Some random stream makes the checksum zero. */
  lemma DroppingDraws(r: Request)
    requires AllBytes(FieldValues(r, FIELD_ORDER))
    requires |InfoBytes(r)| % 3 == (2 - (51 + |TailBytes(r)|)) % 3
    ensures exists draws: Draws :: ChecksumDropped(r, draws)
  {
    var low := SteeringByte(FieldBytes(r));
    hide FIELD_ORDER, FieldValues, FieldBytes, InfoBytes, TailBytes, LowNoise, HighNoise, ProbeNoise, TripwireNoise;
    hide VersionBlock, DrawFor, Checksum, XorAll;
    DrawForGives(low);
    var draws := SteeredDraws(low as int);
    assert draws(0) == DrawFor(low as int) && draws(1) == 0.0 && draws(2) == 0.0;
    ZeroChecksum(draws, FieldBytes(r));
    assert ChecksumDropped(r, draws);
  }

  /**
    For every request whose body leaves two bytes over, some random stream makes the
    generator print a signature that its own checker refuses.
   */
  lemma DropHappens(r: Request)
    requires EPOCH_MS <= r.now < EPOCH_MS + 256 * FORTNIGHT_MS
    requires |InfoBytes(r)| % 3 == (2 - (51 + |TailBytes(r)|)) % 3
    ensures exists draws: Draws :: GetValue(r, draws).Ok? && StructureError(GetValue(r, draws).value).Some?
  {
    hide FIELD_ORDER, FieldValues, Base64.S4, GetValue, StructureError, ChecksumDropped, InfoBytes, TailBytes;
    FieldsAreBytes(r);
    DroppingDraws(r);
    var draws: Draws :| ChecksumDropped(r, draws);
    SignatureVerdict(r, draws);
  }
}
