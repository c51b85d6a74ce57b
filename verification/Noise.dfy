/**
  The two reversible noise layers: a pair of bytes spread over four carriers, and three
  body bytes mixed with one noise byte. Random draws are an arbitrary stream in [0, 1).
 */
module Noise {
  import opened Bytes

  type Unit = r: real | 0.0 <= r < 1.0

  /** `rng.random()`: the value of each successive draw. */
  type Draws = nat -> Unit

  /** `int(draw * bound)`. */
  function Scaled(draw: Unit, bound: nat): (n: nat)
    requires bound > 0
    ensures n < bound
  {
    ScaledBounds(draw, bound);
    (draw * bound as real).Floor
  }

  lemma ScaledBounds(draw: Unit, bound: nat)
    requires bound > 0
    ensures 0 <= (draw * bound as real).Floor < bound
  {
    var b := bound as real;
    assert 0.0 <= draw * b;
    assert draw * b < 1.0 * b;
  }

  // ------------------------------------------------------- environment reports

  const TRIPWIRE_SET: Byte := 0xB2
  const TRIPWIRE_FREE: Byte := 0x4D

  /** `_header_noise`, given the base of the browser family's band. */
  function HeaderNoise(base: nat, draw: Unit): Byte {
    ToByte((base + Scaled(draw, 40)) % 256)
  }

  function ProbeNoise(draw: Unit): Byte {
    var value := Scaled(draw, 240);
    ToByte(if value > 109 then value + value % 2 + 1 else value)
  }

  function TripwireNoise(draw: Unit): Byte {
    (ToByte(Scaled(draw, 255)) & TRIPWIRE_FREE) | TRIPWIRE_SET
  }

  // -------------------------------------------------------------- paired bytes

  /** `_mask_pair` with its two noise bytes chosen. */
  function MaskPair(first: Byte, second: Byte, low: Byte, high: Byte): (carrier: seq<Byte>)
    ensures |carrier| == 4
  {
    [(low & 0xAA) | (first & 0x55), (low & 0x55) | (first & 0xAA),
     (high & 0xAA) | (second & 0x55), (high & 0x55) | (second & 0xAA)]
  }

  /** The noise byte `_mask_pair` draws when the caller supplies none. */
  function LowNoise(draw: Unit): Byte { ToByte(Scaled(draw, 65535) % 256) }

  function HighNoise(draw: Unit): Byte { ToByte(Scaled(draw, 65535) / 256 % 256) }

  function UnmaskPair(carrier: seq<Byte>): (Byte, Byte)
    requires |carrier| >= 4
  {
    ((carrier[0] & 0x55) | (carrier[1] & 0xAA), (carrier[2] & 0x55) | (carrier[3] & 0xAA))
  }

  /** The noise halves, read with the masks swapped. */
  function PairNoise(carrier: seq<Byte>): (Byte, Byte)
    requires |carrier| >= 4
  {
    ((carrier[0] & 0xAA) | (carrier[1] & 0x55), (carrier[2] & 0xAA) | (carrier[3] & 0x55))
  }

  /** Four carriers give back the pair, and the noise as well, whatever the noise is. */
  lemma MaskPairRoundTrip(first: Byte, second: Byte, low: Byte, high: Byte)
    ensures UnmaskPair(MaskPair(first, second, low, high)) == (first, second)
    ensures PairNoise(MaskPair(first, second, low, high)) == (low, high)
  {
  }

  // ------------------------------------------------------------- body expansion

  const NOISE_MASK_0: Byte := 0x91
  const NOISE_MASK_1: Byte := 0x42
  const NOISE_MASK_2: Byte := 0x2C
  const DATA_MASK_0: Byte := 0x6E
  const DATA_MASK_1: Byte := 0xBD
  const DATA_MASK_2: Byte := 0xD3

  function ExpandGroup(a: Byte, b: Byte, c: Byte, noise: Byte): (carriers: seq<Byte>)
    ensures |carriers| == 4
  {
    [(noise & NOISE_MASK_0) | (a & DATA_MASK_0),
     (noise & NOISE_MASK_1) | (b & DATA_MASK_1),
     (noise & NOISE_MASK_2) | (c & DATA_MASK_2),
     (a & NOISE_MASK_0) | (b & NOISE_MASK_1) | (c & NOISE_MASK_2)]
  }

  function CollapseGroup(w: Byte, x: Byte, y: Byte, z: Byte): (group: seq<Byte>)
    ensures |group| == 3
  {
    [(w & DATA_MASK_0) | (z & NOISE_MASK_0),
     (x & DATA_MASK_1) | (z & NOISE_MASK_1),
     (y & DATA_MASK_2) | (z & NOISE_MASK_2)]
  }

  /** This is where the three noise masks must partition a byte. */
  lemma GroupRoundTrip(a: Byte, b: Byte, c: Byte, noise: Byte)
    ensures
      var e := ExpandGroup(a, b, c, noise);
      CollapseGroup(e[0], e[1], e[2], e[3]) == [a, b, c]
  {
  }

  /** The tail branch: a final zero second byte is dropped. */
  function ExpandTail(group: seq<Byte>): seq<Byte>
    requires |group| < 3
  {
    if |group| == 0 then []
    else if |group| > 1 && group[1] != 0 then [group[0], group[1]]
    else [group[0]]
  }

  function GroupNoise(draw: Unit): Byte { ToByte(Scaled(draw, 1000) % 256) }

  /** `_expand_noise`, taking its draws from position `at` of the stream on. */
  function Expand(body: seq<Byte>, draws: Draws, at: nat): (frame: seq<Byte>) {
    if |body| < 3 then ExpandTail(body)
    else ExpandGroup(body[0], body[1], body[2], GroupNoise(draws(at))) + Expand(body[3..], draws, at + 1)
  }

  method ExpandNoise(body: seq<Byte>, draws: Draws, at: nat) returns (out: seq<Byte>)
    ensures out == Expand(body, draws, at)
  {
    hide ExpandGroup, GroupNoise;
    out := [];
    var offset, draw := 0, at;
    assert body[0..] == body;
    while |body| - offset >= 3
      invariant 0 <= offset <= |body| && draw >= 0
      invariant out + Expand(body[offset..], draws, draw) == Expand(body, draws, at)
    {
      var group := ExpandGroup(body[offset], body[offset + 1], body[offset + 2], GroupNoise(draws(draw)));
      assert body[offset..][3..] == body[offset + 3..];
      out := out + group;
      offset, draw := offset + 3, draw + 1;
    }
    if offset < |body| {
      out := out + [body[offset]];
      if |body| - offset > 1 && body[offset + 1] != 0 {
        out := out + [body[offset + 1]];
      }
    }
  }

  /** `_collapse_noise`. */
  function Collapse(frame: seq<Byte>): seq<Byte> {
    if |frame| < 4 then frame
    else CollapseGroup(frame[0], frame[1], frame[2], frame[3]) + Collapse(frame[4..])
  }

  method CollapseNoise(frame: seq<Byte>) returns (out: seq<Byte>)
    ensures out == Collapse(frame)
  {
    hide CollapseGroup;
    out := [];
    var offset := 0;
    assert frame[0..] == frame;
    while |frame| - offset >= 4
      invariant 0 <= offset <= |frame|
      invariant out + Collapse(frame[offset..]) == Collapse(frame)
    {
      var group := CollapseGroup(frame[offset], frame[offset + 1], frame[offset + 2], frame[offset + 3]);
      assert frame[offset..][4..] == frame[offset + 4..];
      out := out + group;
      offset := offset + 4;
    }
    out := out + frame[offset..];
  }

  /** The bodies the tail branch damages: two bytes left over, the second one zero. */
  predicate LosesLastByte(body: seq<Byte>) {
    |body| % 3 == 2 && body[|body| - 1] == 0
  }

  /**
    Collapsing undoes expanding for every draw, except that a body of length 2 mod 3 that
    ends in a zero byte comes back without it.
   */
  lemma {:induction false} CollapseOfExpand(body: seq<Byte>, draws: Draws, at: nat)
    ensures Collapse(Expand(body, draws, at)) == if LosesLastByte(body) then body[..|body| - 1] else body
    decreases |body|
  {
    hide ExpandGroup, CollapseGroup, GroupNoise, Collapse, LosesLastByte;
    if |body| < 3 {
      TailCollapses(body);
    } else {
      var noise := GroupNoise(draws(at));
      var rest := Expand(body[3..], draws, at + 1);
      CollapseOfExpand(body[3..], draws, at + 1);
      LosesWithRest(body);
      GroupCollapses(body[0], body[1], body[2], noise, rest);
      assert [body[0], body[1], body[2]] + body[3..] == body;
    }
  }

  lemma TailCollapses(body: seq<Byte>)
    requires |body| < 3
    ensures Collapse(ExpandTail(body)) == if LosesLastByte(body) then body[..|body| - 1] else body
  {
    hide CollapseGroup;
  }

  lemma GroupCollapses(a: Byte, b: Byte, c: Byte, noise: Byte, rest: seq<Byte>)
    ensures Collapse(ExpandGroup(a, b, c, noise) + rest) == [a, b, c] + Collapse(rest)
  {
    hide ExpandGroup, CollapseGroup;
    GroupRoundTrip(a, b, c, noise);
    assert (ExpandGroup(a, b, c, noise) + rest)[4..] == rest;
  }

  lemma LosesWithRest(body: seq<Byte>)
    requires |body| >= 3
    ensures LosesLastByte(body[3..]) <==> LosesLastByte(body)
    ensures [body[0], body[1], body[2]] + body[3..][..|body| - 3] == body
    ensures LosesLastByte(body) ==>
              [body[0], body[1], body[2]] + body[3..][..|body| - 4] == body[..|body| - 1]
  {
  }

  lemma {:induction false} ExpandedLength(body: seq<Byte>, draws: Draws, at: nat)
    ensures |Expand(body, draws, at)|
         == |body| / 3 * 4 + |body| % 3 - (if LosesLastByte(body) then 1 else 0)
    decreases |body|
  {
    hide ExpandGroup, GroupNoise;
    if |body| >= 3 {
      ExpandedLength(body[3..], draws, at + 1);
    }
  }

  // ------------------------------------------------- what the reports may contain

  /** The header noise stays in the 40-wide band of its browser family. */
  lemma HeaderNoiseInBand(base: nat, draw: Unit)
    requires base <= 210
    ensures base <= HeaderNoise(base, draw) as int < base + 40
  {
    var value := (base + Scaled(draw, 40)) % 256;
    assert value == base + Scaled(draw, 40);
    ToByteKeepsValue(value);
    hide *;
    assert HeaderNoise(base, draw) == ToByte(value) by { HeaderNoiseIs(base, draw); }
  }

  lemma HeaderNoiseIs(base: nat, draw: Unit)
    ensures HeaderNoise(base, draw) == ToByte((base + Scaled(draw, 40)) % 256)
  {
  }

  /** The probe byte is at most 109, or odd: the values in between are never written. */
  lemma ProbeNoiseReachable(draw: Unit)
    ensures
      var p := ProbeNoise(draw) as int;
      p <= 109 || (p % 2 == 1 && p <= 241)
  {
    var value := Scaled(draw, 240);
    var sent := if value > 109 then value + value % 2 + 1 else value;
    ProbeNoiseIs(draw);
    ToByteKeepsValue(sent);
    hide *;
  }

  lemma ProbeNoiseIs(draw: Unit)
    ensures
      var value := Scaled(draw, 240);
      var sent := if value > 109 then value + value % 2 + 1 else value;
      0 <= sent < 256 && ProbeNoise(draw) == ToByte(sent)
  {
  }

  /** All four tripwire bits are set in every report. */
  lemma TripwireBitsSet(draw: Unit)
    ensures TripwireNoise(draw) & TRIPWIRE_SET == TRIPWIRE_SET
  {
    SetBitsStay(ToByte(Scaled(draw, 255)));
  }

  lemma SetBitsStay(noise: Byte)
    ensures ((noise & TRIPWIRE_FREE) | TRIPWIRE_SET) & TRIPWIRE_SET == TRIPWIRE_SET
  {
  }

  lemma ScaledIs(draw: Unit, bound: nat)
    requires bound > 0
    ensures Scaled(draw, bound) == (draw * bound as real).Floor < bound
  {
  }

  lemma ByteIs(n: nat)
    ensures ToByte(n % 256) as int == n % 256
  {
    ToByteKeepsValue(n % 256);
  }

  /** Every report in terms of its draws: the number drawn is the draw times its bound,
      rounded down. */
  lemma DrawnExactly(draw: Unit)
    ensures LowNoise(draw) as int == (draw * 65535.0).Floor % 256
    ensures HighNoise(draw) as int == (draw * 65535.0).Floor / 256 % 256
    ensures GroupNoise(draw) as int == (draw * 1000.0).Floor % 256
  {
    hide ToByte, Scaled;
    ScaledIs(draw, 65535);
    ScaledIs(draw, 1000);
    ByteIs(Scaled(draw, 65535));
    ByteIs(Scaled(draw, 65535) / 256);
    ByteIs(Scaled(draw, 1000));
  }

  lemma SmallIs(n: nat)
    requires n < 256
    ensures n % 256 == n
  {
  }

  lemma HeaderDrawn(draw: Unit, base: nat)
    requires base <= 210
    ensures HeaderNoise(base, draw) as int == base + (draw * 40.0).Floor
  {
    hide ToByte, Scaled, HeaderNoise;
    ScaledIs(draw, 40);
    HeaderNoiseIs(base, draw);
    SmallIs(base + Scaled(draw, 40));
    ToByteKeepsValue(base + Scaled(draw, 40));
  }

  lemma ProbeDrawn(draw: Unit)
    ensures var n := (draw * 240.0).Floor;
            ProbeNoise(draw) as int == if n <= 109 then n else if n % 2 == 0 then n + 1 else n + 2
  {
    hide ToByte, Scaled, ProbeNoise;
    ScaledIs(draw, 240);
    var n := Scaled(draw, 240);
    ProbeNoiseIs(draw);
    ToByteKeepsValue(if n > 109 then n + n % 2 + 1 else n);
  }

  lemma TripwireDrawn(draw: Unit)
    ensures 0 <= (draw * 255.0).Floor < 256
    ensures TripwireNoise(draw) == (((draw * 255.0).Floor as bv8) & 0x4D) | 0xB2
  {
    ScaledBounds(draw, 255);
  }
}
