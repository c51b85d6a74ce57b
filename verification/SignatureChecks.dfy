/**
  Which texts the checker accepts, in one flat condition, and which problem it reports for
  the rest.
 */
module SignatureChecks {
  import opened Ascii
  import opened Bytes
  import opened Noise
  import opened Wrappers
  import opened Signature
  import opened SignatureProofs
  import Base64
  import Cipher

  // ------------------------------------------------------------------- field names

  predicate Different(names: seq<nat>) { forall i, j :: 0 <= i < j < |names| ==> names[i] != names[j] }

  predicate Apart(a: seq<nat>, b: seq<nat>) {
    forall i, j :: 0 <= i < |a| && 0 <= j < |b| ==> a[i] != b[j]
  }

  lemma DifferentJoin(a: seq<nat>, b: seq<nat>)
    requires Different(a) && Different(b) && Apart(a, b)
    ensures Different(a + b)
  {
  }

  const FRONT: seq<nat> :=
    [34, 44, 56, 61, 73, 29, 70, 45, 35, 49] + [38, 66, 51, 68, 28, 48, 64, 47, 30, 71]

  const MIDDLE: seq<nat> := [26, 55, 31, 69, 59, 40, 62, 63, 27, 72]

  const BACK: seq<nat> :=
    [41, 74, 57, 52, 42, 39, 33, 67, 53, 43] + [65, 46, 36, 24, 60, 32, 79, 80, 84, 85]

  lemma FrontDifferent()
    ensures Different(FRONT)
  {
    DifferentJoin([34, 44, 56, 61, 73, 29, 70, 45, 35, 49], [38, 66, 51, 68, 28, 48, 64, 47, 30, 71]);
  }

  lemma BackDifferent()
    ensures Different(BACK)
  {
    DifferentJoin([41, 74, 57, 52, 42, 39, 33, 67, 53, 43], [65, 46, 36, 24, 60, 32, 79, 80, 84, 85]);
  }

  lemma MiddleDifferent()
    ensures Different(MIDDLE) && Apart(FRONT, MIDDLE)
  {
  }

  lemma MiddleBackApart()
    ensures Apart(MIDDLE, BACK)
  {
  }

  lemma FrontBackApart()
    ensures Apart(FRONT, BACK)
  {
  }

  lemma OrderParts()
    ensures FIELD_ORDER == FRONT + MIDDLE + BACK
  {
  }

  /** No slot is written twice. */
  lemma NamesAreDifferent()
    ensures Different(FIELD_ORDER)
  {
    OrderParts();
    hide FRONT, MIDDLE, BACK, FIELD_ORDER;
    FrontDifferent();
    MiddleDifferent();
    BackDifferent();
    MiddleBackApart();
    FrontBackApart();
    DifferentJoin(FRONT, MIDDLE);
    DifferentJoin(FRONT + MIDDLE, BACK);
  }

  // ---------------------------------------------------------------------- the frame

  lemma {:induction false} ZipAt(names: seq<nat>, values: seq<Byte>, k: nat)
    requires Different(names) && |names| <= |values| && k < |names|
    ensures names[k] in Zip(names, values) && Zip(names, values)[names[k]] == values[k]
    decreases |names|
  {
    var last := |names| - 1;
    if k < last {
      ZipAt(names[..last], values[..last], k);
    }
  }

  lemma NamedInOrder(values: seq<Byte>)
    requires |values| >= 50 && |FIELD_ORDER| == 50
    ensures forall name :: name in FIELD_ORDER ==> name in Zip(FIELD_ORDER, values)
    ensures NamedBytes(Zip(FIELD_ORDER, values), FIELD_ORDER) == values[..50]
  {
    NamesAreDifferent();
    hide FIELD_ORDER, Zip;
    forall k | 0 <= k < 50
      ensures NamedBytes(Zip(FIELD_ORDER, values), FIELD_ORDER)[k] == values[k]
    {
      ZipAt(FIELD_ORDER, values, k);
    }
  }

  /** What the four length bytes declare. */
  function InfoLength(frame: seq<Byte>): nat
    requires |frame| >= 50
  {
    frame[46] as int + 256 * (frame[47] as int)
  }

  function TailLength16(frame: seq<Byte>): nat
    requires |frame| >= 50
  {
    frame[48] as int + 256 * (frame[49] as int)
  }

  lemma LengthsAreRead(frame: seq<Byte>)
    requires |frame| >= 51
    ensures |FIELD_ORDER| == 50 && forall name :: name in FIELD_ORDER ==> name in Zip(FIELD_ORDER, frame)
    ensures 79 in FIELD_ORDER && 80 in FIELD_ORDER && 84 in FIELD_ORDER && 85 in FIELD_ORDER
    ensures var fields := Zip(FIELD_ORDER, frame);
            && Length16(fields[79], fields[80]) == InfoLength(frame)
            && Length16(fields[84], fields[85]) == TailLength16(frame)
  {
    LengthFieldsNamed();
    NamesAreDifferent();
    NamedInOrder(frame);
    assert FIELD_ORDER[46] == 79 && FIELD_ORDER[47] == 80 && FIELD_ORDER[48] == 84 && FIELD_ORDER[49] == 85;
    hide FIELD_ORDER, Zip;
    ZipAt(FIELD_ORDER, frame, 46);
    ZipAt(FIELD_ORDER, frame, 47);
    ZipAt(FIELD_ORDER, frame, 48);
    ZipAt(FIELD_ORDER, frame, 49);
  }

  /** The problem of a decrypted frame, as the first of four conditions that fails. */
  lemma FrameVerdictExactly(version: seq<Byte>, frame: seq<Byte>)
    ensures FrameError(version, frame) == Some("frame too short") <==> |frame| < 51
    ensures |frame| >= 51 ==>
              var need := 51 + InfoLength(frame) + TailLength16(frame);
              && (FrameError(version, frame) == Some("declared lengths overrun the frame") <==> |frame| < need)
              && (FrameError(version, frame) == Some("declared lengths leave a tail") <==> need + 2 < |frame|)
              && (need <= |frame| <= need + 2 ==>
                    && FrameError(version, frame) in {None, Some("checksum")}
                    && (FrameError(version, frame) == None <==>
                        frame[need - 1] == XorAll(version) ^ XorAll(frame[..50])))
  {
    hide FIELD_ORDER, Zip, Length16, NamedBytes, XorAll;
    if |frame| >= 51 {
      LengthsAreRead(frame);
      NamedInOrder(frame);
    }
  }

  // ---------------------------------------------------------------------- the payload

  /** The first four problems of a payload, before the frame is looked at. */
  lemma PayloadVerdictExactly(payload: seq<Byte>)
    ensures PayloadError(payload) == Some("payload too short") <==> |payload| < 80
    ensures |payload| >= 80 ==>
              var plain := Cipher.Crypt(Cipher.Sdk, [0xD3], payload[4..]);
              && (PayloadError(payload) == Some("header magic") <==> UnmaskPair(payload[..4]) != (3, 82))
              && (PayloadError(payload) == Some("sdk version") <==>
                    && UnmaskPair(payload[..4]) == (3, 82)
                    && !(UnmaskPair(plain[..4]) == (1, 0) && UnmaskPair(plain[4..8]) == (1, 0)))
              && (UnmaskPair(payload[..4]) == (3, 82)
                  && UnmaskPair(plain[..4]) == (1, 0) && UnmaskPair(plain[4..8]) == (1, 0) ==>
                    PayloadError(payload) == FrameError(plain[..8], Collapse(plain[8..])))
  {
    hide Cipher.Crypt, Collapse, UnmaskPair, InfoLength, TailLength16, XorAll, FrameError;
    if |payload| >= 80 {
      var plain := Cipher.Crypt(Cipher.Sdk, [0xD3], payload[4..]);
      FrameVerdictExactly(plain[..8], Collapse(plain[8..]));
    }
  }

  // ------------------------------------------------------------------------- the text

  /** Digits of the alphabet, at least one, and then only pads. */
  ghost predicate Printed(value: string) {
    exists n :: 0 < n <= |value| && Printable(value, n)
  }

  predicate Printable(value: string, n: nat)
    requires n <= |value|
  {
    && (forall k :: 0 <= k < n ==> value[k] in Base64.S4)
    && (forall k :: n <= k < |value| ==> value[k] == '=')
  }

  lemma {:induction false} StripIs(value: string, n: nat)
    requires n <= |value| && '=' !in Base64.S4 && Printable(value, n)
    ensures Base64.StripPads(value) == value[..n]
    decreases |value|
  {
    hide Base64.S4;
    if n < |value| {
      var m := |value| - 1;
      StripIs(value[..m], n);
      assert value[..m][..n] == value[..n];
    } else {
      assert value[..n] == value;
    }
  }

  lemma {:induction false} StripLeaves(value: string)
    ensures forall k :: |Base64.StripPads(value)| <= k < |value| ==> value[k] == '='
    decreases |value|
  {
    if |value| > 0 && value[|value| - 1] == '=' {
      StripLeaves(value[..|value| - 1]);
    }
  }

  lemma PadIsNoDigit()
    ensures '=' !in Base64.S4
  {
    Base64.AlphabetsAreValid();
    hide Base64.S4;
  }

  /** The first two problems of a text; a text without them has the problems of its
      payload. */
  lemma TextVerdictExactly(value: string)
    ensures StructureError(value) == Some("alphabet") <==> !Printed(value)
    ensures StructureError(value) == Some("length not a multiple of four") <==> Printed(value) && |value| % 4 != 0
    ensures Printed(value) && |value| % 4 == 0 ==>
              && |Base64.S4| == 64
              && Base64.Decode(value, Base64.S4).Ok?
              && StructureError(value) == PayloadError(Base64.Decode(value, Base64.S4).value)
  {
    PadIsNoDigit();
    Base64.AlphabetsAreValid();
    hide Base64.S4, PayloadError, Base64.Decode, Base64.StripPads;
    StripLeaves(value);
    Base64.DecodeAccepts(value, Base64.S4);
    var body := Base64.StripPads(value);
    if n :| 0 < n <= |value| && Printable(value, n) {
      StripIs(value, n);
      assert '=' !in body;
    }
    if |body| > 0 && Base64.OverAlphabet(body, Base64.S4) {
      assert Printable(value, |body|);
    }
    if Printed(value) && |value| % 4 == 0 {
      PayloadProblems(Base64.Decode(value, Base64.S4).value);
    }
  }

  /** The magic, the version, lengths that account for the frame give or take two bytes, and
      the checksum of version block and fields. */
  predicate Sound(payload: seq<Byte>) {
    && |payload| >= 80
    && UnmaskPair(payload[..4]) == (3, 82)
    && var plain := Cipher.Crypt(Cipher.Sdk, [0xD3], payload[4..]);
    && var frame := Collapse(plain[8..]);
    && UnmaskPair(plain[..4]) == (1, 0) && UnmaskPair(plain[4..8]) == (1, 0)
    && |frame| >= 51
    && var end := 50 + InfoLength(frame) + TailLength16(frame);
    && end + 1 <= |frame| <= end + 3
    && frame[end] == XorAll(plain[..8]) ^ XorAll(frame[..50])
  }

  /** The checker accepts a text exactly when it is printed over the alphabet, padded to a
      multiple of four, and its payload is sound. */
  lemma AcceptedExactly(value: string)
    ensures StructureError(value).None? <==>
            && Printed(value) && |value| % 4 == 0
            && |Base64.S4| == 64 && Base64.Decode(value, Base64.S4).Ok?
            && Sound(Base64.Decode(value, Base64.S4).value)
  {
    hide Base64.S4, PayloadError, FrameError, Base64.Decode, StructureError, Printed;
    hide Cipher.Crypt, Collapse, UnmaskPair, InfoLength, TailLength16, XorAll;
    TextVerdictExactly(value);
    if Printed(value) && |value| % 4 == 0 {
      var payload := Base64.Decode(value, Base64.S4).value;
      PayloadVerdictExactly(payload);
      if |payload| >= 80 {
        var plain := Cipher.Crypt(Cipher.Sdk, [0xD3], payload[4..]);
        FrameVerdictExactly(plain[..8], Collapse(plain[8..]));
      }
    }
  }

  lemma PayloadProblems(payload: seq<Byte>)
    ensures PayloadError(payload) != Some("alphabet")
    ensures PayloadError(payload) != Some("length not a multiple of four")
  {
    hide Cipher.Crypt, Collapse, UnmaskPair, FIELD_ORDER, Zip, Length16, NamedBytes, XorAll;
  }
}
