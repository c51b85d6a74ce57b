/**
  What an accepted signature says, read off its decoded fields: which hash leaves its bytes
  in which slots, and the slots that never change.
 */
module SignatureFields {
  import opened Ascii
  import opened Bytes
  import opened Noise
  import opened Numerals
  import opened Wrappers
  import opened Signature
  import opened SignatureProofs
  import Base64
  import Cipher

  /** "dhzx" in code units. */
  const DHZX: seq<bv16> := [0x64, 0x68, 0x7A, 0x78]

  /** `b` is the first of the bytes that is not the sentinel, or the fallback if all are. */
  ghost predicate FirstOther(bytes: seq<Byte>, sentinel: Byte, fallback: Byte, b: Byte) {
    || (exists k :: 0 <= k < |bytes| && bytes[k] == b && b != sentinel
                    && forall j :: 0 <= j < k ==> bytes[j] == sentinel)
    || (b == fallback && forall j :: 0 <= j < |bytes| ==> bytes[j] == sentinel)
  }

  /** Three slots hold two bytes of the hash, and its first byte from `start` on that is not
      the sentinel. */
  ghost predicate Sealed(fields: map<nat, Byte>, slots: (nat, nat, nat), hash: seq<Byte>, places: (nat, nat),
                         start: nat, sentinel: Byte, fallback: Byte)
    requires places.0 < |hash| && places.1 < |hash| && start <= |hash|
  {
    && {slots.0, slots.1, slots.2} <= fields.Keys
    && fields[slots.0] == hash[places.0]
    && fields[slots.1] == hash[places.1]
    && FirstOther(hash[start..], sentinel, fallback, fields[slots.2])
  }

  lemma {:induction false} CanaryIsFirst(digest: seq<Byte>, sentinel: Byte, fallback: Byte)
    requires fallback != sentinel
    ensures FirstOther(digest, sentinel, fallback, Canary(digest, sentinel, fallback))
    decreases |digest|
  {
    if |digest| == 0 || digest[0] != sentinel {
    } else {
      var rest := digest[1..];
      var b := Canary(rest, sentinel, fallback);
      CanaryIsFirst(rest, sentinel, fallback);
      if k :| 0 <= k < |rest| && rest[k] == b && b != sentinel && forall j :: 0 <= j < k ==> rest[j] == sentinel {
        assert digest[k + 1] == b;
        assert forall j :: 0 <= j < k + 1 ==> digest[j] == if j == 0 then sentinel else rest[j - 1];
      } else {
        assert forall j :: 0 <= j < |digest| ==> digest[j] == if j == 0 then sentinel else rest[j - 1];
      }
    }
  }

  lemma ByteIsItself(b: Byte)
    ensures ToByte(b as int % 256) == b
  {
    ToByteKeepsValue(b as int);
    SameValue(ToByte(b as int % 256), b);
  }

  lemma SameValue(a: Byte, b: Byte)
    requires a as int == b as int
    ensures a == b
  {
  }

  /** What the checker accepts decodes to the fields of its request. */
  lemma AcceptedFields(r: Request, draws: Draws)
    requires EPOCH_MS <= r.now < EPOCH_MS + 256 * FORTNIGHT_MS
    requires GetValue(r, draws).Ok? && StructureError(GetValue(r, draws).value).None?
    ensures Decode(GetValue(r, draws).value).Ok?
    ensures FieldsRecovered(r, Decode(GetValue(r, draws).value).value.fields)
  {
    hide FIELD_ORDER, FieldValues, Base64.S4, GetValue, StructureError, Decode, FieldsRecovered;
    hide GeometryTooLong, ChecksumDropped;
    SignatureVerdict(r, draws);
    SignatureRoundTrip(r, draws);
  }

  // ------------------------------------------------------------------ digest slots

  lemma SaltIs()
    ensures AsciiUnits(SALT) == DHZX
  {
  }

  lemma DigestNames()
    ensures 48 in FIELD_ORDER && 49 in FIELD_ORDER && 51 in FIELD_ORDER
    ensures 52 in FIELD_ORDER && 53 in FIELD_ORDER && 55 in FIELD_ORDER
    ensures 56 in FIELD_ORDER && 57 in FIELD_ORDER && 59 in FIELD_ORDER
  {
    var f := FIELD_ORDER;
    assert f[15] == 48 && f[9] == 49 && f[12] == 51;
    assert f[33] == 52 && f[38] == 53 && f[21] == 55;
    assert f[2] == 56 && f[32] == 57 && f[24] == 59;
  }

  lemma QuerySlots(r: Request)
    ensures var hash := r.hashing.sm3(r.hashing.sm3(r.hashing.utf8(r.query + DHZX)));
            && FieldByte(r, 48) == hash[9] && FieldByte(r, 49) == hash[18]
            && FirstOther(hash[3..], 11, 12, FieldByte(r, 51))
  {
    hide ToByte, ByteOf, UserAgentDigest, Canary, FirstOther;
    SaltIs();
    var hash := DigestOf(r.hashing, r.query);
    ByteIsItself(hash[9]);
    ByteIsItself(hash[18]);
    ByteIsItself(Canary(hash[3..], 11, 12));
    CanaryIsFirst(hash[3..], 11, 12);
  }

  lemma BodySlots(r: Request)
    ensures var hash := r.hashing.sm3(r.hashing.sm3(r.hashing.utf8((if r.multipart then [] else r.body) + DHZX)));
            && FieldByte(r, 52) == hash[10] && FieldByte(r, 53) == hash[19]
            && FirstOther(hash[4..], 8, 9, FieldByte(r, 55))
  {
    hide ToByte, ByteOf, UserAgentDigest, Canary, FirstOther;
    SaltIs();
    var hash := DigestOf(r.hashing, HashedBody(r));
    ByteIsItself(hash[10]);
    ByteIsItself(hash[19]);
    ByteIsItself(Canary(hash[4..], 8, 9));
    CanaryIsFirst(hash[4..], 8, 9);
  }

  /** The user agent is enciphered under the bytes 0, 1 and 14, printed and hashed once. */
  function AgentHash(r: Request): Digest {
    Base64.AlphabetsAreValid();
    r.hashing.sm3(AsciiBytes(Base64.Encode(Cipher.Crypt(Cipher.Sdk, [0, 1, 14], JsBytes(r.id.userAgent)), Base64.S3)))
  }

  lemma AgentHashIs(r: Request)
    ensures AgentHash(r) == UserAgentDigest(r.hashing, r.id.userAgent)
  {
    hide Base64.Encode, Cipher.Crypt, Base64.S3, JsBytes, AsciiBytes;
  }

  lemma AgentSlots(r: Request)
    ensures FieldByte(r, 56) == AgentHash(r)[11] && FieldByte(r, 57) == AgentHash(r)[21]
    ensures FirstOther(AgentHash(r)[5..], 12, 13, FieldByte(r, 59))
  {
    hide ToByte, ByteOf, DigestOf, Canary, FirstOther, AgentHash, UserAgentDigest;
    AgentHashIs(r);
    var hash := UserAgentDigest(r.hashing, r.id.userAgent);
    ByteIsItself(hash[11]);
    ByteIsItself(hash[21]);
    ByteIsItself(Canary(hash[5..], 12, 13));
    CanaryIsFirst(hash[5..], 12, 13);
  }

  /**
    The nine digest slots of an accepted signature: the query's hash in 48, 49 and 51, the
    body's (of nothing, for a multipart one) in 52, 53 and 55, and the user agent's in 56,
    57 and 59.
   */
  lemma DigestsAreSealed(r: Request, draws: Draws)
    requires EPOCH_MS <= r.now < EPOCH_MS + 256 * FORTNIGHT_MS
    requires GetValue(r, draws).Ok? && StructureError(GetValue(r, draws).value).None?
    ensures Decode(GetValue(r, draws).value).Ok?
    ensures var fields := Decode(GetValue(r, draws).value).value.fields;
            var query := r.hashing.sm3(r.hashing.sm3(r.hashing.utf8(r.query + DHZX)));
            var body := r.hashing.sm3(r.hashing.sm3(r.hashing.utf8((if r.multipart then [] else r.body) + DHZX)));
            && Sealed(fields, (48, 49, 51), query, (9, 18), 3, 11, 12)
            && Sealed(fields, (52, 53, 55), body, (10, 19), 4, 8, 9)
            && Sealed(fields, (56, 57, 59), AgentHash(r), (11, 21), 5, 12, 13)
  {
    hide FIELD_ORDER, FieldByte, Base64.S4, GetValue, StructureError, Decode, FirstOther, AgentHash;
    AcceptedFields(r, draws);
    DigestNames();
    QuerySlots(r);
    BodySlots(r);
    AgentSlots(r);
  }

  // ----------------------------------------------------------------- binding

  lemma OneFirstOther(bytes: seq<Byte>, sentinel: Byte, fallback: Byte, a: Byte, b: Byte)
    requires FirstOther(bytes, sentinel, fallback, a) && FirstOther(bytes, sentinel, fallback, b)
    ensures a == b
  {
  }

  /** The two decode to the same bytes in these slots. */
  predicate SameSlots(a: map<nat, Byte>, b: map<nat, Byte>, slots: set<nat>) {
    forall name :: name in slots ==> name in a && name in b && a[name] == b[name]
  }

  lemma SealedSame(a: map<nat, Byte>, b: map<nat, Byte>, slots: (nat, nat, nat), hash: seq<Byte>, places: (nat, nat),
                   start: nat, sentinel: Byte, fallback: Byte)
    requires places.0 < |hash| && places.1 < |hash| && start <= |hash|
    requires Sealed(a, slots, hash, places, start, sentinel, fallback)
    requires Sealed(b, slots, hash, places, start, sentinel, fallback)
    ensures SameSlots(a, b, {slots.0, slots.1, slots.2})
  {
    hide FirstOther;
    OneFirstOther(hash[start..], sentinel, fallback, a[slots.2], b[slots.2]);
  }

  /**
    Each input is bound to its own slots: two accepted signatures agree on the query's slots
    if their queries agree, on the body's if their bodies do, and on the user agent's if
    their user agents do, whatever else differs.
   */
  lemma SlotsAreBound(q: Request, r: Request, draws: Draws, others: Draws)
    requires EPOCH_MS <= q.now < EPOCH_MS + 256 * FORTNIGHT_MS
    requires EPOCH_MS <= r.now < EPOCH_MS + 256 * FORTNIGHT_MS
    requires q.hashing == r.hashing
    requires GetValue(q, draws).Ok? && StructureError(GetValue(q, draws).value).None?
    requires GetValue(r, others).Ok? && StructureError(GetValue(r, others).value).None?
    ensures Decode(GetValue(q, draws).value).Ok? && Decode(GetValue(r, others).value).Ok?
    ensures var a := Decode(GetValue(q, draws).value).value.fields;
            var b := Decode(GetValue(r, others).value).value.fields;
            && (q.query == r.query ==> SameSlots(a, b, {48, 49, 51}))
            && (q.body == r.body && q.multipart == r.multipart ==> SameSlots(a, b, {52, 53, 55}))
            && (q.multipart && r.multipart ==> SameSlots(a, b, {52, 53, 55}))
            && (q.id.userAgent == r.id.userAgent ==> SameSlots(a, b, {56, 57, 59}))
  {
    hide GetValue, StructureError, Decode, Sealed, SameSlots;
    DigestsAreSealed(q, draws);
    DigestsAreSealed(r, others);
    var a := Decode(GetValue(q, draws).value).value.fields;
    var b := Decode(GetValue(r, others).value).value.fields;
    var query := q.hashing.sm3(q.hashing.sm3(q.hashing.utf8(q.query + DHZX)));
    var body := q.hashing.sm3(q.hashing.sm3(q.hashing.utf8((if q.multipart then [] else q.body) + DHZX)));
    if q.query == r.query {
      SealedSame(a, b, (48, 49, 51), query, (9, 18), 3, 11, 12);
    }
    if q.multipart == r.multipart && (q.multipart || q.body == r.body) {
      SealedSame(a, b, (52, 53, 55), body, (10, 19), 4, 8, 9);
    }
    if q.id.userAgent == r.id.userAgent {
      SealedSame(a, b, (56, 57, 59), AgentHash(q), (11, 21), 5, 12, 13);
    }
  }

  // ------------------------------------------------------------------ other slots

  lemma FixedNames()
    ensures forall name :: name in {24, 26, 27, 28, 35, 36, 38, 39, 40, 41, 42, 43, 44, 45, 46, 47, 66} ==>
              name in FIELD_ORDER
  {
    var f := FIELD_ORDER;
    assert f[43] == 24 && f[20] == 26 && f[28] == 27 && f[14] == 28 && f[8] == 35 && f[42] == 36;
    assert f[10] == 38 && f[35] == 39 && f[25] == 40 && f[30] == 41 && f[34] == 42 && f[39] == 43;
    assert f[1] == 44 && f[7] == 45 && f[41] == 46 && f[17] == 47 && f[11] == 66;
  }

  lemma FixedValues(r: Request)
    ensures FieldValue(r, 24) == 41 && FieldValue(r, 27) == 6 && FieldValue(r, 28) == 3 && FieldValue(r, 66) == 3
    ensures FieldValue(r, 35) == 1 && FieldValue(r, 38) == 0x21
    ensures FieldValue(r, 36) == FieldValue(r, 39) == FieldValue(r, 40) == FieldValue(r, 41) == 0
    ensures FieldValue(r, 42) == FieldValue(r, 43) == 0
    ensures forall k: nat :: k < 4 ==> FieldValue(r, Name(44, k)) == ByteOf(14, k)
  {
    hide ByteOf, DigestOf, UserAgentDigest, Canary;
  }

  lemma DetectValues()
    ensures ByteOf(14, 0) == 14 && ByteOf(14, 1) == ByteOf(14, 2) == ByteOf(14, 3) == 0
  {
    assert Power256(0) == 1 && Power256(1) == 256 && Power256(2) == 65536 && Power256(3) == 16777216;
  }

  lemma ByteOfValue(r: Request, name: nat, b: Byte)
    requires FieldValue(r, name) == b as int
    ensures FieldByte(r, name) == b
  {
    hide FieldValue;
    ByteIsItself(b);
  }

  lemma FixedBytes(r: Request)
    ensures FieldByte(r, 24) == 41 && FieldByte(r, 27) == 6 && FieldByte(r, 28) == 3 && FieldByte(r, 66) == 3
    ensures FieldByte(r, 35) == 1 && FieldByte(r, 38) == 0x21
    ensures FieldByte(r, 36) == FieldByte(r, 39) == FieldByte(r, 40) == FieldByte(r, 41) == 0
    ensures FieldByte(r, 42) == FieldByte(r, 43) == 0
  {
    hide FieldValue, FieldByte, ByteOf;
    FixedValues(r);
    ByteOfValue(r, 24, 41);
    ByteOfValue(r, 27, 6);
    ByteOfValue(r, 28, 3);
    ByteOfValue(r, 66, 3);
    ByteOfValue(r, 35, 1);
    ByteOfValue(r, 38, 0x21);
    ByteOfValue(r, 36, 0);
    ByteOfValue(r, 39, 0);
    ByteOfValue(r, 40, 0);
    ByteOfValue(r, 41, 0);
    ByteOfValue(r, 42, 0);
    ByteOfValue(r, 43, 0);
  }

  lemma DetectBytes(r: Request)
    ensures FieldByte(r, 44) == 14 && FieldByte(r, 45) == 0 && FieldByte(r, 46) == 0 && FieldByte(r, 47) == 0
  {
    hide FieldValue, FieldByte, ByteOf;
    FixedValues(r);
    DetectValues();
    assert Name(44, 0) == 44 && Name(44, 1) == 45 && Name(44, 2) == 46 && Name(44, 3) == 47;
    ByteOfValue(r, 44, 14);
    ByteOfValue(r, 45, 0);
    ByteOfValue(r, 46, 0);
    ByteOfValue(r, 47, 0);
  }

  lemma FortnightByte(r: Request)
    requires EPOCH_MS <= r.now < EPOCH_MS + 256 * FORTNIGHT_MS
    ensures FieldByte(r, 26) as int == (r.now - 1_721_836_800_000) / 1_209_600_000
  {
    hide ByteOf, DigestOf, UserAgentDigest, Canary;
    FortnightRange(r.now);
    ToByteKeepsValue((r.now - EPOCH_MS) / FORTNIGHT_MS);
  }

  /** The slots that never change, and the one that counts fortnights from the epoch. */
  lemma FixedSlots(r: Request, draws: Draws)
    requires EPOCH_MS <= r.now < EPOCH_MS + 256 * FORTNIGHT_MS
    requires GetValue(r, draws).Ok? && StructureError(GetValue(r, draws).value).None?
    ensures Decode(GetValue(r, draws).value).Ok?
    ensures var fields := Decode(GetValue(r, draws).value).value.fields;
            && {24, 26, 27, 28, 35, 36, 38, 39, 40, 41, 42, 43, 44, 45, 46, 47, 66} <= fields.Keys
            && fields[26] as int == (r.now - 1_721_836_800_000) / 1_209_600_000
            && fields[24] == 41 && fields[27] == 6 && fields[28] == 3 && fields[66] == 3
            && fields[35] == 1 && fields[36] == 0 && fields[38] == 0x21 && fields[39] == 0
            && fields[40] == fields[41] == fields[42] == fields[43] == 0
            && fields[44] == 14 && fields[45] == fields[46] == fields[47] == 0
  {
    hide FIELD_ORDER, FieldByte, GetValue, StructureError, Decode;
    AcceptedFields(r, draws);
    FixedNames();
    FixedBytes(r);
    DetectBytes(r);
    FortnightByte(r);
  }

  /** The tail is the clock's low byte after three milliseconds, and a comma. */
  lemma TailIs(r: Request, draws: Draws)
    requires EPOCH_MS <= r.now < EPOCH_MS + 256 * FORTNIGHT_MS
    requires GetValue(r, draws).Ok? && StructureError(GetValue(r, draws).value).None?
    ensures Decode(GetValue(r, draws).value).Ok?
    ensures AsciiText(Decode(GetValue(r, draws).value).value.tail) == Some(Decimal((r.now + 3) % 256) + ",")
  {
    hide FIELD_ORDER, FieldValues, Base64.S4, GetValue, StructureError, Decode, FieldsRecovered, AsciiText, JsBytes;
    hide GeometryTooLong, ChecksumDropped, AsciiUnits;
    SignatureVerdict(r, draws);
    SignatureRoundTrip(r, draws);
    JsAsciiRoundTrip(TailText(r.now));
  }

  /** The header's noise tells the browser family by its band. */
  lemma HeaderTellsFamily(id: Identity, draws: Draws)
    ensures var noise := PairNoise(Header(id, draws)).1 as int;
            match id.family
            case Chrome => 0 <= noise < 40
            case Firefox => 40 <= noise < 80
            case Safari => 81 <= noise < 121
            case Edge => 125 <= noise < 165
            case Huawei => 170 <= noise < 210
            case Other => 210 <= noise < 250
  {
    hide MaskPair, PairNoise, HeaderNoise, LowNoise;
    var base := id.family.HeaderBase();
    MaskPairRoundTrip(3, 82, LowNoise(draws(5)), HeaderNoise(base, draws(4)));
    HeaderNoiseInBand(base, draws(4));
  }

  /** The version block carries the version twice over, and in its second half the reports
      of the probe and of the tripwire. */
  lemma VersionReports(draws: Draws)
    ensures var v := VersionBlock(draws);
            && UnmaskPair(v[..4]) == (1, 0) && UnmaskPair(v[4..8]) == (1, 0)
            && var (probe, tripwire) := PairNoise(v[4..8]);
            && (probe as int <= 109 || (probe as int % 2 == 1 && probe as int <= 241))
            && tripwire & 0xB2 == 0xB2
  {
    hide MaskPair, UnmaskPair, PairNoise, ProbeNoise, TripwireNoise, LowNoise, HighNoise;
    MaskPairRoundTrip(1, 0, LowNoise(draws(0)), HighNoise(draws(0)));
    MaskPairRoundTrip(1, 0, ProbeNoise(draws(1)), TripwireNoise(draws(2)));
    ProbeNoiseReachable(draws(1));
    TripwireBitsSet(draws(2));
    var v := VersionBlock(draws);
    assert v[..4] == MaskPair(1, 0, LowNoise(draws(0)), HighNoise(draws(0)));
    assert v[4..8] == MaskPair(1, 0, ProbeNoise(draws(1)), TripwireNoise(draws(2)));
  }
}
