/** Base64 over a substituted alphabet (section 4 of RFC 4648), as both signers use it. */
module Base64 {
  import opened Bytes
  import opened Wrappers

  const S3: string :=
    ("ckdp1h4ZKsUB80/M" + "fvw36XIgR25+WQAl") + ("Ei7NLboqYTOPuzmF" + "jJnryx9HVGDaStCe")

  const S4: string :=
    ("Dkdpgh2ZmsQB80/M" + "fvV36XI1R45-WUAl") + ("EixNLwoqYTOPuzKF" + "jJnry79HbGcaStCe")

  const STANDARD: string :=
    ("ABCDEFGHIJKLMNOP" + "QRSTUVWXYZabcdef") + ("ghijklmnopqrstuv" + "wxyz0123456789+/")

  const URL_SAFE: string :=
    ("ABCDEFGHIJKLMNOP" + "QRSTUVWXYZabcdef") + ("ghijklmnopqrstuv" + "wxyz0123456789-_")

  // ---------------------------------------------------------------- alphabets

  /** Different characters, none of them the pad. */
  ghost predicate Fresh(s: string) {
    && (forall i :: 0 <= i < |s| ==> s[i] != '=')
    && (forall i, j :: 0 <= i < j < |s| ==> s[i] != s[j])
  }

  ghost predicate Apart(s: string, t: string) {
    forall i, j :: 0 <= i < |s| && 0 <= j < |t| ==> s[i] != t[j]
  }

  /** 64 different digits, none of them the pad character. */
  ghost predicate IsAlphabet(table: string) { |table| == 64 && Fresh(table) }

  lemma FreshJoin(s: string, t: string)
    requires Fresh(s) && Fresh(t) && Apart(s, t)
    ensures Fresh(s + t)
  {
  }

  lemma ApartJoin(s: string, t: string, u: string, v: string)
    requires Apart(s, u) && Apart(s, v) && Apart(t, u) && Apart(t, v)
    ensures Apart(s + t, u + v)
  {
  }

  lemma S3Front()
    ensures Fresh("ckdp1h4ZKsUB80/M" + "fvw36XIgR25+WQAl")
  {
    FreshJoin("ckdp1h4ZKsUB80/M", "fvw36XIgR25+WQAl");
  }

  lemma S3Back()
    ensures Fresh("Ei7NLboqYTOPuzmF" + "jJnryx9HVGDaStCe")
  {
    FreshJoin("Ei7NLboqYTOPuzmF", "jJnryx9HVGDaStCe");
  }

  lemma S3Across()
    ensures Apart("ckdp1h4ZKsUB80/M" + "fvw36XIgR25+WQAl", "Ei7NLboqYTOPuzmF" + "jJnryx9HVGDaStCe")
  {
    ApartJoin("ckdp1h4ZKsUB80/M", "fvw36XIgR25+WQAl", "Ei7NLboqYTOPuzmF", "jJnryx9HVGDaStCe");
  }

  lemma S4Front()
    ensures Fresh("Dkdpgh2ZmsQB80/M" + "fvV36XI1R45-WUAl")
  {
    FreshJoin("Dkdpgh2ZmsQB80/M", "fvV36XI1R45-WUAl");
  }

  lemma S4Back()
    ensures Fresh("EixNLwoqYTOPuzKF" + "jJnry79HbGcaStCe")
  {
    FreshJoin("EixNLwoqYTOPuzKF", "jJnry79HbGcaStCe");
  }

  lemma S4Across()
    ensures Apart("Dkdpgh2ZmsQB80/M" + "fvV36XI1R45-WUAl", "EixNLwoqYTOPuzKF" + "jJnry79HbGcaStCe")
  {
    ApartJoin("Dkdpgh2ZmsQB80/M", "fvV36XI1R45-WUAl", "EixNLwoqYTOPuzKF", "jJnry79HbGcaStCe");
  }

  lemma StandardFront()
    ensures Fresh("ABCDEFGHIJKLMNOP" + "QRSTUVWXYZabcdef")
  {
    FreshJoin("ABCDEFGHIJKLMNOP", "QRSTUVWXYZabcdef");
  }

  lemma StandardBack()
    ensures Fresh("ghijklmnopqrstuv" + "wxyz0123456789+/")
  {
    FreshJoin("ghijklmnopqrstuv", "wxyz0123456789+/");
  }

  lemma StandardAcross()
    ensures Apart("ABCDEFGHIJKLMNOP" + "QRSTUVWXYZabcdef", "ghijklmnopqrstuv" + "wxyz0123456789+/")
  {
    ApartJoin("ABCDEFGHIJKLMNOP", "QRSTUVWXYZabcdef", "ghijklmnopqrstuv", "wxyz0123456789+/");
  }

  lemma UrlSafeBack()
    ensures Fresh("ghijklmnopqrstuv" + "wxyz0123456789-_")
  {
    FreshJoin("ghijklmnopqrstuv", "wxyz0123456789-_");
  }

  lemma UrlSafeAcross()
    ensures Apart("ABCDEFGHIJKLMNOP" + "QRSTUVWXYZabcdef", "ghijklmnopqrstuv" + "wxyz0123456789-_")
  {
    ApartJoin("ABCDEFGHIJKLMNOP", "QRSTUVWXYZabcdef", "ghijklmnopqrstuv", "wxyz0123456789-_");
  }

  /** Every alphabet the two signers and the result cursors use is a set of 64 digits. */
  lemma AlphabetsAreValid()
    ensures IsAlphabet(S3) && IsAlphabet(S4) && IsAlphabet(STANDARD) && IsAlphabet(URL_SAFE)
  {
    hide Fresh, Apart;
    S3Front(); S3Back(); S3Across();
    FreshJoin("ckdp1h4ZKsUB80/M" + "fvw36XIgR25+WQAl", "Ei7NLboqYTOPuzmF" + "jJnryx9HVGDaStCe");
    S4Front(); S4Back(); S4Across();
    FreshJoin("Dkdpgh2ZmsQB80/M" + "fvV36XI1R45-WUAl", "EixNLwoqYTOPuzKF" + "jJnry79HbGcaStCe");
    StandardFront(); StandardBack(); StandardAcross();
    FreshJoin("ABCDEFGHIJKLMNOP" + "QRSTUVWXYZabcdef", "ghijklmnopqrstuv" + "wxyz0123456789+/");
    StandardFront(); UrlSafeBack(); UrlSafeAcross();
    FreshJoin("ABCDEFGHIJKLMNOP" + "QRSTUVWXYZabcdef", "ghijklmnopqrstuv" + "wxyz0123456789-_");
  }

  /** The dictionary `{char: value for value, char in enumerate(table)}`. */
  function IndexOf(table: string, c: char): (r: Option<nat>)
    ensures r.Some? ==> r.value < |table| && table[r.value] == c
  {
    if |table| == 0 then None
    else if table[|table| - 1] == c then Some(|table| - 1)
    else IndexOf(table[..|table| - 1], c)
  }

  lemma {:induction false} IndexOfDigit(table: string, v: nat)
    requires v < |table| && forall i, j :: 0 <= i < j < |table| ==> table[i] != table[j]
    ensures IndexOf(table, table[v]) == Some(v)
  {
    if v < |table| - 1 {
      IndexOfDigit(table[..|table| - 1], v);
    }
  }

  // ----------------------------------------------------------------- encoding

  /** `int.from_bytes(chunk + zeros, "big")`. */
  function Block(chunk: seq<Byte>): bv24
    requires 1 <= |chunk| <= 3
  {
    (chunk[0] as bv24 << 16)
    | (if |chunk| > 1 then chunk[1] as bv24 << 8 else 0)
    | (if |chunk| > 2 then chunk[2] as bv24 else 0)
  }

  function SixBits(block: bv24): (digits: seq<bv6>)
    ensures |digits| == 4
  {
    [((block >> 18) & 0x3F) as bv6, ((block >> 12) & 0x3F) as bv6,
     ((block >> 6) & 0x3F) as bv6, (block & 0x3F) as bv6]
  }

  function Lookup(digits: seq<bv6>, table: string): (s: string)
    requires |table| == 64
    ensures |s| == |digits|
    ensures forall k :: 0 <= k < |digits| ==> s[k] == table[digits[k] as int]
  {
    seq(|digits|, k requires 0 <= k < |digits| => table[digits[k] as int])
  }

  function EncodeChunk(chunk: seq<Byte>, table: string): (s: string)
    requires 1 <= |chunk| <= 3 && |table| == 64
    ensures |s| == |chunk| + 1
  {
    Lookup(SixBits(Block(chunk))[..|chunk| + 1], table)
  }

  function Min(a: nat, b: nat): nat { if a < b then a else b }

  function EncodeBody(data: seq<Byte>, table: string): string
    requires |table| == 64
    decreases |data|
  {
    if |data| == 0 then ""
    else
      var n := Min(3, |data|);
      EncodeChunk(data[..n], table) + EncodeBody(data[n..], table)
  }

  function Pads(n: nat): (s: string)
    ensures |s| == n && forall k :: 0 <= k < n ==> s[k] == '='
  {
    seq(n, _ => '=')
  }

  function PadTo4(body: string): (s: string)
    ensures |s| % 4 == 0
  {
    body + Pads((4 - |body| % 4) % 4)
  }

  /** `encode_base64`. */
  function Encode(data: seq<Byte>, table: string): (s: string)
    requires |table| == 64
    ensures |s| % 4 == 0
  {
    PadTo4(EncodeBody(data, table))
  }

  lemma EncodeStep(done: string, data: seq<Byte>, offset: nat, stop: nat, table: string)
    requires |table| == 64 && offset < |data|
    requires stop == if offset + 3 < |data| then offset + 3 else |data|
    ensures done + EncodeBody(data[offset..], table)
         == done + EncodeChunk(data[offset..stop], table) + EncodeBody(data[stop..], table)
  {
    hide EncodeChunk;
    var left := data[offset..];
    assert left[..stop - offset] == data[offset..stop] && left[stop - offset..] == data[stop..];
    assert EncodeBody(left, table) == EncodeChunk(data[offset..stop], table) + EncodeBody(data[stop..], table);
  }

  lemma EncodeDone(data: seq<Byte>, table: string)
    requires |table| == 64
    ensures EncodeBody(data[|data|..], table) == ""
    ensures data[0..] == data
  {
  }

  method EncodeBase64(data: seq<Byte>, table: string) returns (s: string)
    requires |table| == 64
    ensures s == Encode(data, table)
  {
    hide EncodeChunk, EncodeBody;
    EncodeDone(data, table);
    s := "";
    var offset := 0;
    while offset < |data|
      invariant 0 <= offset <= |data|
      invariant s + EncodeBody(data[offset..], table) == EncodeBody(data, table)
    {
      var stop := if offset + 3 < |data| then offset + 3 else |data|;
      EncodeStep(s, data, offset, stop, table);
      s := s + EncodeChunk(data[offset..stop], table);
      offset := stop;
    }
    s := s + Pads((4 - |s| % 4) % 4);
  }

  // ----------------------------------------------------------------- decoding

  function StripPads(text: string): (body: string)
    ensures body <= text
    ensures |body| > 0 ==> body[|body| - 1] != '='
  {
    if |text| > 0 && text[|text| - 1] == '=' then StripPads(text[..|text| - 1]) else text
  }

  function DigitsOf(chunk: string, table: string): (r: Result<seq<bv6>>)
    requires |table| == 64
    ensures r.Ok? ==> |r.value| == |chunk|
  {
    if |chunk| == 0 then Ok([])
    else
      match IndexOf(table, chunk[0])
      case None => Err("foreign digit")
      case Some(v) =>
        match DigitsOf(chunk[1..], table)
        case Err(e) => Err(e)
        case Ok(rest) => Ok([v as bv6] + rest)
  }

  /** Up to four digits, left-aligned in 24 bits. */
  function Unblock(digits: seq<bv6>): bv24
    requires 1 <= |digits| <= 4
  {
    (digits[0] as bv24 << 18)
    | (if |digits| > 1 then digits[1] as bv24 << 12 else 0)
    | (if |digits| > 2 then digits[2] as bv24 << 6 else 0)
    | (if |digits| > 3 then digits[3] as bv24 else 0)
  }

  function ThreeBytes(block: bv24): (bytes: seq<Byte>)
    ensures |bytes| == 3
  {
    [((block >> 16) & 0xFF) as bv8, ((block >> 8) & 0xFF) as bv8, (block & 0xFF) as bv8]
  }

  function DecodeChunk(digits: seq<bv6>): seq<Byte>
    requires 1 <= |digits| <= 4
  {
    ThreeBytes(Unblock(digits))[..|digits| - 1]
  }

  function DecodeBody(body: string, table: string): Result<seq<Byte>>
    requires |table| == 64
    decreases |body|
  {
    if |body| == 0 then Ok([])
    else
      var n := Min(4, |body|);
      match DigitsOf(body[..n], table)
      case Err(e) => Err(e)
      case Ok(digits) =>
        match DecodeBody(body[n..], table)
        case Err(e) => Err(e)
        case Ok(rest) => Ok(DecodeChunk(digits) + rest)
  }

  /** `decode_base64`. */
  function Decode(text: string, table: string): Result<seq<Byte>>
    requires |table| == 64
  {
    DecodeBody(StripPads(text), table)
  }

  method DecodeBase64(text: string, table: string) returns (r: Result<seq<Byte>>)
    requires |table| == 64
    ensures r == Decode(text, table)
  {
    var body := StripPads(text);
    var out: seq<Byte> := [];
    var offset := 0;
    assert body[0..] == body;
    PrependNothing(DecodeBody(body, table));
    while offset < |body|
      invariant 0 <= offset <= |body|
      invariant Prepend(out, DecodeBody(body[offset..], table)) == DecodeBody(body, table)
    {
      var stop := if offset + 4 < |body| then offset + 4 else |body|;
      var chunk := body[offset..stop];
      assert body[offset..][..stop - offset] == chunk && body[offset..][stop - offset..] == body[stop..];
      match DigitsOf(chunk, table) {
        case Err(e) =>
          return Err(e);
        case Ok(digits) =>
          PrependTwice(out, DecodeChunk(digits), DecodeBody(body[stop..], table));
          out := out + DecodeChunk(digits);
      }
      offset := stop;
    }
    assert out + [] == out;
    r := Ok(out);
  }

  function Prepend(out: seq<Byte>, r: Result<seq<Byte>>): Result<seq<Byte>> {
    match r
    case Err(e) => Err(e)
    case Ok(rest) => Ok(out + rest)
  }

  lemma PrependNothing(r: Result<seq<Byte>>)
    ensures Prepend([], r) == r
  {
    if r.Ok? {
      assert [] + r.value == r.value;
    }
  }

  lemma PrependTwice(a: seq<Byte>, b: seq<Byte>, r: Result<seq<Byte>>)
    ensures Prepend(a, Prepend(b, r)) == Prepend(a + b, r)
  {
    if r.Ok? {
      assert a + (b + r.value) == a + b + r.value;
    }
  }

  // --------------------------------------------------------------- round trip

  lemma SixBitsRoundTrip(block: bv24)
    ensures Unblock(SixBits(block)) == block
  {
  }

  lemma BytesOfBlock(a: Byte, b: Byte, c: Byte)
    ensures ThreeBytes((a as bv24 << 16) | (b as bv24 << 8) | c as bv24) == [a, b, c]
  {
  }

  lemma LastDigitOfTwo(a: Byte, b: Byte)
    ensures SixBits((a as bv24 << 16) | (b as bv24 << 8))[3] == 0
  {
  }

  lemma LastDigitsOfOne(a: Byte)
    ensures SixBits(a as bv24 << 16)[2] == 0 && SixBits(a as bv24 << 16)[3] == 0
  {
  }

  lemma BlockOfChunk(chunk: seq<Byte>)
    requires 1 <= |chunk| <= 3
    ensures Block(chunk) == (chunk[0] as bv24 << 16)
      | ((if |chunk| > 1 then chunk[1] else 0) as bv24 << 8)
      | (if |chunk| > 2 then chunk[2] else 0) as bv24
    ensures |chunk| == 1 ==> Block(chunk) == chunk[0] as bv24 << 16
    ensures |chunk| == 2 ==> Block(chunk) == (chunk[0] as bv24 << 16) | (chunk[1] as bv24 << 8)
  {
  }

  lemma BytesOfChunk(chunk: seq<Byte>)
    requires 1 <= |chunk| <= 3
    ensures ThreeBytes(Block(chunk))[..|chunk|] == chunk
  {
    BlockOfChunk(chunk);
    BytesOfBlock(chunk[0], if |chunk| > 1 then chunk[1] else 0, if |chunk| > 2 then chunk[2] else 0);
  }

  lemma UnusedDigits(chunk: seq<Byte>)
    requires 1 <= |chunk| <= 3
    ensures |chunk| < 3 ==> SixBits(Block(chunk))[3] == 0
    ensures |chunk| < 2 ==> SixBits(Block(chunk))[2] == 0
  {
    BlockOfChunk(chunk);
    if |chunk| == 2 {
      LastDigitOfTwo(chunk[0], chunk[1]);
    } else if |chunk| == 1 {
      LastDigitsOfOne(chunk[0]);
    }
  }

  lemma DecodeOfDigits(digits: seq<bv6>, n: nat)
    requires |digits| == 4 && 1 <= n <= 3
    requires n < 3 ==> digits[3] == 0
    requires n < 2 ==> digits[2] == 0
    ensures DecodeChunk(digits[..n + 1]) == ThreeBytes(Unblock(digits))[..n]
  {
    assert Unblock(digits[..n + 1]) == Unblock(digits);
  }

  lemma ChunkRoundTrip(chunk: seq<Byte>)
    requires 1 <= |chunk| <= 3
    ensures DecodeChunk(SixBits(Block(chunk))[..|chunk| + 1]) == chunk
  {
    SixBitsRoundTrip(Block(chunk));
    UnusedDigits(chunk);
    BytesOfChunk(chunk);
    DecodeOfDigits(SixBits(Block(chunk)), |chunk|);
  }

  lemma {:induction false} DigitsOfLookup(digits: seq<bv6>, table: string)
    requires IsAlphabet(table)
    ensures DigitsOf(Lookup(digits, table), table) == Ok(digits)
  {
    if |digits| == 0 {
    } else {
      var v := digits[0] as int;
      IndexOfDigit(table, v);
      assert Lookup(digits, table)[1..] == Lookup(digits[1..], table);
      DigitsOfLookup(digits[1..], table);
      assert v as bv6 == digits[0];
      assert [digits[0]] + digits[1..] == digits;
    }
  }

  lemma {:induction false} BodyRoundTrip(data: seq<Byte>, table: string)
    requires IsAlphabet(table)
    ensures DecodeBody(EncodeBody(data, table), table) == Ok(data)
    decreases |data|
  {
    hide Block, SixBits, DecodeChunk, Lookup, DigitsOf;
    if |data| == 0 {
    } else {
      var n := Min(3, |data|);
      var chunk, rest := data[..n], data[n..];
      var text := EncodeChunk(chunk, table);
      var tail := EncodeBody(rest, table);
      BodyRoundTrip(rest, table);
      DigitsOfLookup(SixBits(Block(chunk))[..n + 1], table);
      ChunkRoundTrip(chunk);
      assert n < 3 ==> rest == [] && tail == "";
      assert (text + tail)[..n + 1] == text && (text + tail)[n + 1..] == tail;
      assert Min(4, |text + tail|) == n + 1;
      assert chunk + rest == data;
    }
  }

  predicate OverAlphabet(s: string, table: string) {
    forall k :: 0 <= k < |s| ==> s[k] in table
  }

  lemma {:induction false} BodyShape(data: seq<Byte>, table: string)
    requires IsAlphabet(table)
    ensures OverAlphabet(EncodeBody(data, table), table)
    ensures |EncodeBody(data, table)| == |data| / 3 * 4 + (if |data| % 3 == 0 then 0 else |data| % 3 + 1)
    decreases |data|
  {
    if |data| == 0 {
    } else {
      var n := Min(3, |data|);
      BodyShape(data[n..], table);
      if n == 3 {
        assert |data[n..]| / 3 == |data| / 3 - 1 && |data[n..]| % 3 == |data| % 3;
      }
    }
  }

  lemma {:induction false} StripOfPadded(body: string, n: nat)
    requires forall k :: 0 <= k < |body| ==> body[k] != '='
    ensures StripPads(body + Pads(n)) == body
  {
    if n > 0 {
      assert (body + Pads(n))[..|body + Pads(n)| - 1] == body + Pads(n - 1);
      StripOfPadded(body, n - 1);
    } else {
      assert body + Pads(0) == body;
    }
  }

  lemma StripOfEncode(data: seq<Byte>, table: string)
    requires IsAlphabet(table)
    ensures StripPads(Encode(data, table)) == EncodeBody(data, table)
  {
    hide EncodeBody;
    var body := EncodeBody(data, table);
    BodyShape(data, table);
    forall k | 0 <= k < |body| ensures body[k] != '=' {
      assert body[k] in table;
    }
    StripOfPadded(body, (4 - |body| % 4) % 4);
  }

  /**
    Decoding gives back every byte string, over any alphabet; the text is a multiple of
    four long, its digits are all from the alphabet and `=` only pads the end.
   */
  lemma RoundTrip(data: seq<Byte>, table: string)
    requires IsAlphabet(table)
    ensures Decode(Encode(data, table), table) == Ok(data)
    ensures |Encode(data, table)| == (|data| + 2) / 3 * 4
    ensures OverAlphabet(StripPads(Encode(data, table)), table)
    ensures |StripPads(Encode(data, table))| > 0 <==> |data| > 0
  {
    hide EncodeBody, DecodeBody, StripPads;
    BodyShape(data, table);
    BodyRoundTrip(data, table);
    StripOfEncode(data, table);
    PaddedLength(|data|, |EncodeBody(data, table)|);
  }

  lemma PaddedLength(n: nat, body: nat)
    requires body == n / 3 * 4 + (if n % 3 == 0 then 0 else n % 3 + 1)
    ensures body + (4 - body % 4) % 4 == (n + 2) / 3 * 4
    ensures body > 0 <==> n > 0
  {
  }

  lemma {:induction false} IndexOfMember(table: string, c: char)
    ensures IndexOf(table, c).Some? <==> c in table
  {
    if |table| > 0 && table[|table| - 1] != c {
      IndexOfMember(table[..|table| - 1], c);
      assert table == table[..|table| - 1] + [table[|table| - 1]];
    }
  }

  lemma {:induction false} DigitsOfAccepts(chunk: string, table: string)
    requires |table| == 64
    ensures DigitsOf(chunk, table).Ok? <==> OverAlphabet(chunk, table)
  {
    if |chunk| == 0 {
    } else {
      IndexOfMember(table, chunk[0]);
      DigitsOfAccepts(chunk[1..], table);
      assert forall k :: 0 <= k < |chunk| - 1 ==> chunk[1..][k] == chunk[k + 1];
      assert forall k :: 0 < k < |chunk| ==> chunk[k] == chunk[1..][k - 1];
    }
  }

  lemma {:induction false} BodyAccepts(body: string, table: string)
    requires |table| == 64
    ensures DecodeBody(body, table).Ok? <==> OverAlphabet(body, table)
    decreases |body|
  {
    hide DigitsOf, DecodeChunk;
    if |body| == 0 {
    } else {
      var n := Min(4, |body|);
      DigitsOfAccepts(body[..n], table);
      BodyAccepts(body[n..], table);
      assert body == body[..n] + body[n..];
    }
  }

  /** Decoding raises exactly on a foreign digit. */
  lemma DecodeAccepts(text: string, table: string)
    requires |table| == 64
    ensures Decode(text, table).Ok? <==> OverAlphabet(StripPads(text), table)
  {
    BodyAccepts(StripPads(text), table);
  }

  // ------------------------------------------------- the older signer's encoders

  /** `str.maketrans(from, to)` applied to each character. */
  function Translate(s: string, from: string, to: string): (t: string)
    requires |from| == |to|
    ensures |t| == |s|
    ensures forall k :: 0 <= k < |s| ==>
      t[k] == match IndexOf(from, s[k]) { case None => s[k] case Some(v) => to[v] }
  {
    if |s| == 0 then ""
    else
      [match IndexOf(from, s[0]) { case None => s[0] case Some(v) => to[v] }]
      + Translate(s[1..], from, to)
  }

  /** `_custom_base64`: standard base64, then a character translation. */
  function CustomBase64(data: seq<Byte>, standard: string, alphabet: string): string
    requires |standard| == |alphabet| == 64
  {
    Translate(Encode(data, standard), standard, alphabet)
  }

  /** The four digits `_abogus_encode` selects with masks from one 24-bit group. */
  function MaskedDigits(first: Byte, second: Byte, third: Byte): (digits: seq<bv6>)
    ensures |digits| == 4
  {
    var combined := (first as bv24 << 16) | (second as bv24 << 8) | third as bv24;
    [((combined & 0xFC0000) >> 18) as bv6, ((combined & 0x03F000) >> 12) as bv6,
     ((combined & 0x0FC0) >> 6) as bv6, (combined & 0x3F) as bv6]
  }

  lemma MaskedDigitsAgree(first: Byte, second: Byte, third: Byte)
    ensures MaskedDigits(first, second, third)
         == SixBits((first as bv24 << 16) | (second as bv24 << 8) | third as bv24)
  {
  }

  /** The digits `_abogus_encode` appends for one group of up to three bytes. */
  method AbogusPiece(group: seq<Byte>, table: string) returns (piece: string)
    requires 1 <= |group| <= 3 && |table| == 64
    ensures piece == EncodeChunk(group, table)
  {
    hide MaskedDigits, SixBits, Block;
    var first := group[0];
    var second := if |group| > 1 then group[1] else 0;
    var third := if |group| > 2 then group[2] else 0;
    var digits := MaskedDigits(first, second, third);
    piece := [table[digits[0] as int], table[digits[1] as int]];
    if |group| > 1 {
      piece := piece + [table[digits[2] as int]];
    }
    if |group| > 2 {
      piece := piece + [table[digits[3] as int]];
    }
    DigitsAgree(group, first, second, third);
    PieceIsLookup(digits, |group|, table, piece);
  }

  /** `_abogus_encode` on a stream of bytes; the source's table is `S4`. */
  method AbogusEncode(values: seq<Byte>, table: string) returns (encoded: string)
    requires |table| == 64
    ensures encoded == Encode(values, table)
  {
    hide MaskedDigits, EncodeBody, EncodeChunk;
    EncodeDone(values, table);
    encoded := "";
    var offset := 0;
    while offset < |values|
      invariant 0 <= offset <= |values|
      invariant encoded + EncodeBody(values[offset..], table) == EncodeBody(values, table)
    {
      var remaining := |values| - offset;
      var stop := if remaining > 3 then offset + 3 else |values|;
      var piece := AbogusPiece(values[offset..stop], table);
      EncodeStep(encoded, values, offset, stop, table);
      encoded := encoded + piece;
      offset := stop;
    }
    encoded := encoded + Pads((4 - |encoded| % 4) % 4);
  }

  lemma DigitsAgree(chunk: seq<Byte>, first: Byte, second: Byte, third: Byte)
    requires 1 <= |chunk| <= 3 && first == chunk[0]
    requires second == if |chunk| > 1 then chunk[1] else 0
    requires third == if |chunk| > 2 then chunk[2] else 0
    ensures MaskedDigits(first, second, third) == SixBits(Block(chunk))
  {
    MaskedDigitsAgree(first, second, third);
    BlockOfChunk(chunk);
  }

  lemma PieceIsLookup(digits: seq<bv6>, n: nat, table: string, piece: string)
    requires |digits| == 4 && 1 <= n <= 3 && |table| == 64
    requires piece == [table[digits[0] as int], table[digits[1] as int]]
      + (if n > 1 then [table[digits[2] as int]] else [])
      + (if n > 2 then [table[digits[3] as int]] else [])
    ensures piece == Lookup(digits[..n + 1], table)
  {
  }

  /** Translating the output of one alphabet is encoding with the other. */
  lemma CustomIsEncode(data: seq<Byte>, standard: string, alphabet: string)
    requires IsAlphabet(standard) && |alphabet| == 64
    ensures CustomBase64(data, standard, alphabet) == Encode(data, alphabet)
  {
    hide EncodeBody;
    TranslateBody(data, standard, alphabet);
    var body := EncodeBody(data, standard);
    var pads := Pads((4 - |body| % 4) % 4);
    TranslateJoin(body, pads, standard, alphabet);
    assert Translate(pads, standard, alphabet) == pads;
  }

  lemma TranslateJoin(a: string, b: string, from: string, to: string)
    requires |from| == |to|
    ensures Translate(a + b, from, to) == Translate(a, from, to) + Translate(b, from, to)
  {
  }

  lemma TranslateLookup(digits: seq<bv6>, standard: string, alphabet: string)
    requires IsAlphabet(standard) && |alphabet| == 64
    ensures Translate(Lookup(digits, standard), standard, alphabet) == Lookup(digits, alphabet)
  {
    forall k | 0 <= k < |digits|
      ensures Translate(Lookup(digits, standard), standard, alphabet)[k] == alphabet[digits[k] as int]
    {
      IndexOfDigit(standard, digits[k] as int);
    }
  }

  lemma {:induction false} TranslateBody(data: seq<Byte>, standard: string, alphabet: string)
    requires IsAlphabet(standard) && |alphabet| == 64
    ensures Translate(EncodeBody(data, standard), standard, alphabet) == EncodeBody(data, alphabet)
    decreases |data|
  {
    if |data| == 0 {
    } else {
      var n := Min(3, |data|);
      TranslateBody(data[n..], standard, alphabet);
      TranslateLookup(SixBits(Block(data[..n]))[..n + 1], standard, alphabet);
      TranslateJoin(EncodeChunk(data[..n], standard), EncodeBody(data[n..], standard), standard, alphabet);
    }
  }

  /** The two encoders of the older signer agree on every byte stream. */
  lemma EncodersAgree(values: seq<Byte>)
    ensures |S4| == |STANDARD| == 64
    ensures CustomBase64(values, STANDARD, S4) == Encode(values, S4)
  {
    AlphabetsAreValid();
    CustomIsEncode(values, STANDARD, S4);
  }
}
