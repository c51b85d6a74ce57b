/**
  The stream ciphers of the two signers: textbook RC4, the SDK's variant of it, and
  `_transform_bytes`. Each mutates a 256-entry table in place while it walks the data.
 */
module Cipher {
  import opened Bytes

  // ------------------------------------------------------------------- tables

  ghost predicate IsTable(table: seq<int>) {
    |table| == 256 && forall k :: 0 <= k < 256 ==> 0 <= table[k] < 256
  }

  ghost predicate IsPermutationOf(table: seq<int>, start: seq<int>) {
    multiset(table) == multiset(start)
  }

  function Swap(s: seq<int>, i: nat, j: nat): (t: seq<int>)
    requires i < |s| && j < |s|
    ensures |t| == |s|
  {
    s[i := s[j]][j := s[i]]
  }

  method SwapInPlace(a: array<int>, i: nat, j: nat)
    requires i < a.Length && j < a.Length
    modifies a
    ensures a[..] == Swap(old(a[..]), i, j)
  {
    a[i], a[j] := a[j], a[i];
  }

  lemma SwapPermutes(s: seq<int>, i: nat, j: nat)
    requires i < |s| && j < |s|
    ensures IsPermutationOf(Swap(s, i, j), s)
  {
    assert multiset(s[i := s[j]]) == multiset(s) - multiset{s[i]} + multiset{s[j]};
  }

  // ------------------------------------------------------------- RC4 variants

  /** `Sdk` seeds its box descending and multiplies in its key schedule. */
  datatype Variant = Textbook | Sdk

  function Seed(variant: Variant): (box: seq<int>)
    ensures IsTable(box) && |box| == 256
  {
    seq(256, i => if variant.Sdk? then 255 - i else i)
  }

  function Mix(variant: Variant, j: nat, entry: nat, keyByte: nat): (r: nat)
    ensures r < 256
  {
    if variant.Sdk? then (j * entry + j + keyByte) % 256 else (j + entry + keyByte) % 256
  }

  datatype Walk = Walk(box: seq<int>, i: nat, j: nat) {
    ghost predicate Valid() { IsTable(box) && i < 256 && j < 256 }
  }

  /** The box after `n` rounds of the key schedule. */
  function Schedule(variant: Variant, key: seq<Byte>, n: nat): (w: Walk)
    requires |key| > 0 && n <= 256
    ensures w.Valid()
  {
    if n == 0 then Walk(Seed(variant), 0, 0)
    else
      var w := Schedule(variant, key, n - 1);
      var j := Mix(variant, w.j, w.box[n - 1], key[(n - 1) % |key|] as int);
      Walk(Swap(w.box, n - 1, j), 0, j)
  }

  function Prepared(variant: Variant, key: seq<Byte>): (box: seq<int>)
    requires |key| > 0
    ensures IsTable(box)
  {
    Schedule(variant, key, |Seed(variant)|).box
  }

  /** One turn of the generator. */
  function Step(w: Walk): (next: Walk)
    requires w.Valid()
    ensures next.Valid()
  {
    var i := (w.i + 1) % 256;
    var j := (w.j + w.box[i]) % 256;
    Walk(Swap(w.box, i, j), i, j)
  }

  /** The mask entry read after a turn. */
  function Emit(w: Walk): (entry: nat)
    requires w.Valid()
    ensures entry < 256
  {
    w.box[(w.box[w.i] + w.box[w.j]) % 256]
  }

  /** The generator after it has produced `n` bytes. */
  function Generate(variant: Variant, key: seq<Byte>, n: nat): (w: Walk)
    requires |key| > 0
    ensures w.Valid()
  {
    if n == 0 then Walk(Prepared(variant, key), 0, 0) else Step(Generate(variant, key, n - 1))
  }

  /** Byte `n` of the keystream: a function of the key alone, never of the data. */
  function KeyByte(variant: Variant, key: seq<Byte>, n: nat): (m: nat)
    requires |key| > 0
    ensures m < 256
  {
    Emit(Generate(variant, key, n + 1))
  }

  function Keystream(variant: Variant, key: seq<Byte>): nat -> Byte
    requires |key| > 0
  {
    (n: nat) => ToByte(KeyByte(variant, key, n))
  }

  function Xor(a: Byte, b: Byte): Byte { a ^ b }

  function MaskWith(masks: nat -> Byte, data: seq<Byte>): (out: seq<Byte>)
    ensures |out| == |data|
  {
    seq(|data|, n requires 0 <= n < |data| => Xor(data[n], masks(n)))
  }

  lemma MaskAppend(masks: nat -> Byte, data: seq<Byte>, byte: Byte)
    ensures MaskWith(masks, data + [byte]) == MaskWith(masks, data) + [Xor(byte, masks(|data|))]
  {
    var whole := data + [byte];
    var left, right := MaskWith(masks, whole), MaskWith(masks, data) + [Xor(byte, masks(|data|))];
    forall n | 0 <= n < |whole| ensures left[n] == right[n] {
      if n < |data| {
        assert whole[n] == data[n];
        assert right[n] == MaskWith(masks, data)[n];
      }
    }
  }

  lemma MaskTwice(masks: nat -> Byte, data: seq<Byte>)
    ensures MaskWith(masks, MaskWith(masks, data)) == data
  {
    forall n | 0 <= n < |data| ensures MaskWith(masks, MaskWith(masks, data))[n] == data[n] {
      XorTwice(data[n], masks(n));
    }
  }

  lemma XorTwice(a: Byte, b: Byte)
    ensures Xor(Xor(a, b), b) == a
  {
  }

  function Crypt(variant: Variant, key: seq<Byte>, data: seq<Byte>): (out: seq<Byte>)
    requires |key| > 0
    ensures |out| == |data|
  {
    MaskWith(Keystream(variant, key), data)
  }

  /** The key schedule loop, swapping in place. */
  method PrepareBox(variant: Variant, key: seq<Byte>, box: array<int>)
    requires |key| > 0 && box[..] == Seed(variant)
    modifies box
    ensures box[..] == Prepared(variant, key)
  {
    var j: nat := 0;
    for i := 0 to 256
      invariant box[..] == Schedule(variant, key, i).box && j == Schedule(variant, key, i).j
    {
      ghost var before := box[..];
      assert box[i] == before[i];
      j := Mix(variant, j, box[i], key[i % |key|] as int);
      SwapInPlace(box, i, j);
    }
  }

  /** One turn of the generator loop: advance, swap in place, read the mask entry. */
  method Advance(box: array<int>, i: nat, j: nat, ghost w: Walk) returns (i': nat, j': nat, entry: nat)
    requires w.Valid() && w == Walk(box[..], i, j)
    modifies box
    ensures Walk(box[..], i', j') == Step(w)
    ensures entry == Emit(Step(w))
  {
    i' := (i + 1) % 256;
    assert box[i'] == w.box[i'];
    j' := (j + box[i']) % 256;
    SwapInPlace(box, i', j');
    ghost var next := Step(w);
    assert box[..] == next.box;
    assert box[i'] == next.box[i'] && box[j'] == next.box[j'];
    hide Step, Swap;
    var at := (box[i'] + box[j']) % 256;
    assert box[at] == next.box[at];
    entry := box[at];
  }

  method SeedBox(variant: Variant) returns (box: array<int>)
    ensures fresh(box) && box[..] == Seed(variant)
  {
    box := new int[256];
    for i := 0 to 256
      invariant variant.Sdk? ==> forall k :: 256 - i <= k < 256 ==> box[k] == 255 - k
      invariant variant.Textbook? ==> forall k :: 0 <= k < i ==> box[k] == k
    {
      if variant.Sdk? {
        box[255 - i] := i;
      } else {
        box[i] := i;
      }
    }
  }

  method NextMask(box: array<int>, i: nat, j: nat, ghost variant: Variant, ghost key: seq<Byte>, ghost n: nat)
    returns (i': nat, j': nat, mask: Byte)
    requires |key| > 0 && Walk(box[..], i, j) == Generate(variant, key, n)
    modifies box
    ensures Walk(box[..], i', j') == Generate(variant, key, n + 1)
    ensures mask == Keystream(variant, key)(n)
  {
    hide Step, Emit;
    var entry;
    i', j', entry := Advance(box, i, j, Generate(variant, key, n));
    mask := ToByte(entry);
  }

  /** The output loop, from a prepared box. */
  method MaskInPlace(box: array<int>, ghost variant: Variant, ghost key: seq<Byte>, data: seq<Byte>)
    returns (out: seq<Byte>)
    requires |key| > 0 && Walk(box[..], 0, 0) == Generate(variant, key, 0)
    modifies box
    ensures out == MaskWith(Keystream(variant, key), data)
  {
    hide *;
    ghost var masks := Keystream(variant, key);
    var i, j := 0, 0;
    out := [];
    for index := 0 to |data|
      invariant Walk(box[..], i, j) == Generate(variant, key, index)
      invariant out == MaskWith(masks, data[..index])
    {
      var mask;
      i, j, mask := NextMask(box, i, j, variant, key, index);
      MaskAppend(masks, data[..index], data[index]);
      assert data[..index] + [data[index]] == data[..index + 1];
      out := out + [Xor(data[index], mask)];
    }
    assert data[..|data|] == data;
  }

  /** Both `rc4` functions: the box is an array and every swap happens in place. */
  method Rc4(variant: Variant, key: seq<Byte>, data: seq<Byte>) returns (out: seq<Byte>)
    requires |key| > 0
    ensures out == Crypt(variant, key, data)
  {
    var box := SeedBox(variant);
    PrepareBox(variant, key, box);
    hide Prepared, Keystream, MaskWith;
    out := MaskInPlace(box, variant, key, data);
  }

  /** At every step of both loops the box is a permutation of its seed. */
  lemma {:induction false} ScheduleStaysPermutation(variant: Variant, key: seq<Byte>, n: nat)
    requires |key| > 0 && n <= 256
    ensures IsPermutationOf(Schedule(variant, key, n).box, Seed(variant))
  {
    if n == 0 {
    } else {
      ScheduleStaysPermutation(variant, key, n - 1);
      SwapPermutes(Schedule(variant, key, n - 1).box, n - 1, Schedule(variant, key, n).j);
    }
  }

  lemma PermutationsCompose(a: seq<int>, b: seq<int>, c: seq<int>)
    requires IsPermutationOf(a, b) && IsPermutationOf(b, c)
    ensures IsPermutationOf(a, c)
  {
  }

  lemma StepPermutes(w: Walk)
    requires w.Valid()
    ensures IsPermutationOf(Step(w).box, w.box)
  {
    SwapPermutes(w.box, Step(w).i, Step(w).j);
  }

  lemma {:induction false} BoxStaysPermutation(variant: Variant, key: seq<Byte>, n: nat)
    requires |key| > 0
    ensures IsPermutationOf(Generate(variant, key, n).box, Seed(variant))
    decreases n
  {
    hide Step, Schedule, Seed, IsPermutationOf;
    if n == 0 {
      ScheduleStaysPermutation(variant, key, |Seed(variant)|);
    } else {
      var before := Generate(variant, key, n - 1);
      BoxStaysPermutation(variant, key, n - 1);
      StepPermutes(before);
      PermutationsCompose(Step(before).box, before.box, Seed(variant));
    }
  }

  /** Encrypting twice with one key gives the data back. */
  lemma CryptIsInvolution(variant: Variant, key: seq<Byte>, data: seq<Byte>)
    requires |key| > 0
    ensures Crypt(variant, key, Crypt(variant, key, data)) == data
  {
    MaskTwice(Keystream(variant, key), data);
  }

  // -------------------------------------------------------- `_transform_bytes`

  const PERMUTATION_0: seq<int> :=
    [121, 243, 55, 234, 103, 36, 47, 228, 30, 231, 106, 6, 115, 95, 78, 101]
    + [250, 207, 198, 50, 139, 227, 220, 105, 97, 143, 34, 28, 194, 215, 18, 100]
    + [159, 160, 43, 8, 169, 217, 180, 120, 247, 45, 90, 11, 27, 197, 46, 3]
    + [84, 72, 5, 68, 62, 56, 221, 75, 144, 79, 73, 161, 178, 81, 64, 187]

  const PERMUTATION_1: seq<int> :=
    [134, 117, 186, 118, 16, 241, 130, 71, 89, 147, 122, 129, 65, 40, 88, 150]
    + [110, 219, 199, 255, 181, 254, 48, 4, 195, 248, 208, 32, 116, 167, 69, 201]
    + [17, 124, 125, 104, 96, 83, 80, 127, 236, 108, 154, 126, 204, 15, 20, 135]
    + [112, 158, 13, 1, 188, 164, 210, 237, 222, 98, 212, 77, 253, 42, 170, 202]

  const PERMUTATION_2: seq<int> :=
    [26, 22, 29, 182, 251, 10, 173, 152, 58, 138, 54, 141, 185, 33, 157, 31]
    + [252, 132, 233, 235, 102, 196, 191, 223, 240, 148, 39, 123, 92, 82, 128, 109]
    + [57, 24, 38, 113, 209, 245, 2, 119, 153, 229, 189, 214, 230, 174, 232, 63]
    + [52, 205, 86, 140, 66, 175, 111, 171, 246, 133, 238, 193, 99, 60, 74, 91]

  const PERMUTATION_3: seq<int> :=
    [225, 51, 76, 37, 145, 211, 166, 151, 213, 206, 0, 200, 244, 176, 218, 44]
    + [184, 172, 49, 216, 93, 168, 53, 21, 183, 41, 67, 85, 224, 155, 226, 242]
    + [87, 177, 146, 70, 190, 12, 162, 19, 137, 114, 25, 165, 163, 192, 23, 59]
    + [9, 94, 179, 107, 35, 7, 142, 131, 239, 203, 149, 136, 61, 249, 14, 156]

  const PERMUTATION: seq<int> := PERMUTATION_0 + PERMUTATION_1 + PERMUTATION_2 + PERMUTATION_3

  ghost predicate InRange(part: seq<int>) {
    |part| == 64 && forall k :: 0 <= k < 64 ==> 0 <= part[k] < 256
  }

  lemma Range0() ensures InRange(PERMUTATION_0) {}
  lemma Range1() ensures InRange(PERMUTATION_1) {}
  lemma Range2() ensures InRange(PERMUTATION_2) {}
  lemma Range3() ensures InRange(PERMUTATION_3) {}

  lemma JoinRanges(a: seq<int>, b: seq<int>, c: seq<int>, d: seq<int>)
    requires InRange(a) && InRange(b) && InRange(c) && InRange(d)
    ensures IsTable(a + b + c + d)
  {
  }

  lemma PermutationIsTable()
    ensures IsTable(PERMUTATION)
  {
    Range0();
    Range1();
    Range2();
    Range3();
    JoinRanges(PERMUTATION_0, PERMUTATION_1, PERMUTATION_2, PERMUTATION_3);
  }

  datatype Drift = Drift(table: seq<int>, indexB: nat, initial: nat, valueE: nat) {
    ghost predicate Valid() { IsTable(table) && indexB < 256 && initial < 256 && valueE < 256 }
  }

  /** The swap that precedes the first byte only. */
  function Opened(start: seq<int>): (d: Drift)
    requires IsTable(start)
    ensures d.Valid()
  {
    var b := start[1];
    Drift(Swap(start, 1, b), b, start[b], 0)
  }

  /** What one byte does to the table and the indices; `n` is its position. */
  function Drifted(d: Drift, n: nat): (next: Drift)
    requires d.Valid()
    ensures next.Valid()
  {
    var ahead := (n + 2) % 256;
    var at := (d.indexB + d.table[ahead]) % 256;
    Drift(Swap(d.table, at, ahead), at, d.table[at], d.table[ahead])
  }

  /** The entry that masks byte `n`. */
  function MaskEntry(d: Drift, n: nat): (m: nat)
    requires d.Valid()
    ensures m < 256
  {
    d.table[((if n == 0 then d.indexB else d.valueE) + d.initial) % 256]
  }

  /** The table, the two indices and the carried entry before byte `n` is masked. */
  function Transform(start: seq<int>, n: nat): (d: Drift)
    requires IsTable(start)
    ensures d.Valid()
  {
    if n == 0 then Opened(start) else Drifted(Transform(start, n - 1), n - 1)
  }

  function Mask(start: seq<int>, n: nat): (m: nat)
    requires IsTable(start)
    ensures m < 256
  {
    MaskEntry(Transform(start, n), n)
  }

  function MaskStream(start: seq<int>): nat -> bv16
    requires IsTable(start)
  {
    (n: nat) => Mask(start, n) as bv16
  }

  function XorWord(a: bv16, b: bv16): bv16 { a ^ b }

  function MaskWords(masks: nat -> bv16, values: seq<bv16>): (out: seq<bv16>)
    ensures |out| == |values|
  {
    seq(|values|, n requires 0 <= n < |values| => XorWord(values[n], masks(n)))
  }

  lemma MaskWordsAppend(masks: nat -> bv16, values: seq<bv16>, value: bv16)
    ensures MaskWords(masks, values + [value]) == MaskWords(masks, values) + [XorWord(value, masks(|values|))]
  {
    var whole := values + [value];
    var left, right := MaskWords(masks, whole), MaskWords(masks, values) + [XorWord(value, masks(|values|))];
    forall n | 0 <= n < |whole| ensures left[n] == right[n] {
      if n < |values| {
        assert whole[n] == values[n];
        assert right[n] == MaskWords(masks, values)[n];
      }
    }
  }

  lemma MaskWordsTwice(masks: nat -> bv16, values: seq<bv16>)
    ensures MaskWords(masks, MaskWords(masks, values)) == values
  {
    forall n | 0 <= n < |values| ensures MaskWords(masks, MaskWords(masks, values))[n] == values[n] {
      XorWordTwice(values[n], masks(n));
    }
  }

  lemma XorWordTwice(a: bv16, b: bv16)
    ensures XorWord(XorWord(a, b), b) == a
  {
  }

  /** The two lines of the loop that only run for the first byte. */
  method OpenInPlace(table: array<int>, indexB: nat)
    requires IsTable(table[..]) && indexB == table[1]
    modifies table
    ensures table[..] == Opened(old(table[..])).table
  {
    ghost var before := table[..];
    var initial := table[indexB];
    table[1] := initial;
    table[indexB] := indexB;
    assert table[..] == Swap(before, 1, indexB);
  }

  /** The rest of one turn: read the mask entry, then swap and move on. */
  method Shift(table: array<int>, n: nat, indexB: nat, initial: nat, valueE: nat, ghost d: Drift)
    returns (entry: nat, indexB': nat, initial': nat, valueE': nat)
    requires d.Valid() && d == Drift(table[..], indexB, initial, valueE)
    modifies table
    ensures entry == MaskEntry(d, n)
    ensures Drift(table[..], indexB', initial', valueE') == Drifted(d, n)
  {
    var sum := ((if n == 0 then indexB else valueE) + initial) % 256;
    assert table[sum] == d.table[sum];
    entry := table[sum];
    var ahead := (n + 2) % 256;
    assert table[ahead] == d.table[ahead];
    valueE' := table[ahead];
    indexB' := (indexB + valueE') % 256;
    assert table[indexB'] == d.table[indexB'];
    initial' := table[indexB'];
    SwapInPlace(table, indexB', ahead);
  }

  /** What the loop variables of `_transform_bytes` hold before byte `index`. */
  ghost predicate AtByte(start: seq<int>, index: nat, d: Drift)
    requires IsTable(start)
  {
    if index == 0 then d.table == start && d.indexB == start[1] && d.valueE == 0
    else d == Transform(start, index)
  }

  method Turn(table: array<int>, index: nat, indexB: nat, initial: nat, valueE: nat, ghost start: seq<int>)
    returns (entry: nat, indexB': nat, initial': nat, valueE': nat)
    requires IsTable(start) && AtByte(start, index, Drift(table[..], indexB, initial, valueE))
    modifies table
    ensures entry == Mask(start, index)
    ensures AtByte(start, index + 1, Drift(table[..], indexB', initial', valueE'))
  {
    hide Drifted, MaskEntry;
    var first := initial;
    if index == 0 {
      first := table[indexB];
      assert first == start[indexB];
      OpenInPlace(table, indexB);
    }
    entry, indexB', initial', valueE' := Shift(table, index, indexB, first, valueE, Transform(start, index));
  }

  method NextWord(table: array<int>, index: nat, indexB: nat, initial: nat, valueE: nat, ghost start: seq<int>)
    returns (mask: bv16, indexB': nat, initial': nat, valueE': nat)
    requires IsTable(start) && AtByte(start, index, Drift(table[..], indexB, initial, valueE))
    modifies table
    ensures mask == MaskStream(start)(index)
    ensures AtByte(start, index + 1, Drift(table[..], indexB', initial', valueE'))
  {
    hide AtByte, Mask;
    var entry;
    entry, indexB', initial', valueE' := Turn(table, index, indexB, initial, valueE, start);
    mask := entry as bv16;
  }

  /** `_transform_bytes`, with the table copied once and then mutated in place. */
  method TransformInPlace(start: seq<int>, values: seq<bv16>) returns (result: seq<bv16>)
    requires IsTable(start)
    ensures result == MaskWords(MaskStream(start), values)
  {
    var table := new int[256](k requires 0 <= k < 256 => start[k]);
    assert table[..] == start;
    var indexB: nat, initial: nat, valueE: nat := table[1], 0, 0;
    assert AtByte(start, 0, Drift(table[..], indexB, initial, valueE));
    hide *;
    ghost var masks := MaskStream(start);
    result := [];
    for index := 0 to |values|
      invariant AtByte(start, index, Drift(table[..], indexB, initial, valueE))
      invariant result == MaskWords(masks, values[..index])
    {
      var mask;
      mask, indexB, initial, valueE := NextWord(table, index, indexB, initial, valueE, start);
      MaskWordsAppend(masks, values[..index], values[index]);
      assert values[..index] + [values[index]] == values[..index + 1];
      result := result + [XorWord(values[index], mask)];
    }
    assert values[..|values|] == values;
  }

  lemma DriftPermutes(d: Drift, n: nat)
    requires d.Valid()
    ensures IsPermutationOf(Drifted(d, n).table, d.table)
  {
    SwapPermutes(d.table, Drifted(d, n).indexB, (n + 2) % 256);
  }

  lemma OpenedPermutes(start: seq<int>)
    requires IsTable(start)
    ensures IsPermutationOf(Opened(start).table, start)
  {
    SwapPermutes(start, 1, start[1]);
  }

  lemma {:induction false} TransformStaysPermutation(start: seq<int>, n: nat)
    requires IsTable(start)
    ensures IsPermutationOf(Transform(start, n).table, start)
    decreases n
  {
    hide Drifted, Opened, IsPermutationOf;
    if n == 0 {
      OpenedPermutes(start);
    } else {
      var before := Transform(start, n - 1);
      TransformStaysPermutation(start, n - 1);
      DriftPermutes(before, n - 1);
      PermutationsCompose(Drifted(before, n - 1).table, before.table, start);
    }
  }

  /** Transforming twice gives the words back, whatever the start table. */
  lemma TransformIsInvolution(start: seq<int>, values: seq<bv16>)
    requires IsTable(start)
    ensures MaskWords(MaskStream(start), MaskWords(MaskStream(start), values)) == values
  {
    MaskWordsTwice(MaskStream(start), values);
  }
}
