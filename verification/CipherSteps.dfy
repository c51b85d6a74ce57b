/** The three mutating tables entry by entry: what every turn reads, moves and prints. */
module CipherSteps {
  import opened Bytes
  import opened Cipher

  /** `t` is `s` with the entries at `i` and `j` exchanged. */
  predicate Exchanged(s: seq<int>, t: seq<int>, i: nat, j: nat)
    requires i < |s| && j < |s|
  {
    && |t| == |s|
    && t[i] == s[j] && t[j] == s[i]
    && forall k :: 0 <= k < |s| && k != i && k != j ==> t[k] == s[k]
  }

  /** The key schedule starts from the ascending table, the SDK's variant from the
      descending one, and the variant multiplies where the textbook adds. */
  lemma ScheduleRuns(variant: Variant, key: seq<Byte>, n: nat)
    requires |key| > 0 && n < 256
    ensures var w, x := Schedule(variant, key, n), Schedule(variant, key, n + 1);
            && Exchanged(w.box, x.box, n, x.j)
            && x.j == (if variant.Textbook?
                       then w.j + w.box[n] + key[n % |key|] as int
                       else w.j * w.box[n] + w.j + key[n % |key|] as int) % 256
    ensures Schedule(variant, key, 0).j == 0
    ensures forall k :: 0 <= k < 256 ==>
              Schedule(variant, key, 0).box[k] == if variant.Textbook? then k else 255 - k
  {
  }

  lemma NextPlace(n: nat)
    ensures (n % 256 + 1) % 256 == (n + 1) % 256
  {
  }

  lemma TurnRuns(w: Walk)
    requires w.Valid()
    ensures var x, i := Step(w), (w.i + 1) % 256;
            && x.i == i && x.j == (w.j + w.box[i]) % 256
            && Exchanged(w.box, x.box, i, x.j)
            && Emit(x) == x.box[(x.box[i] + x.box[x.j]) % 256]
  {
  }

  lemma {:induction false} PlaceOfTurn(variant: Variant, key: seq<Byte>, n: nat)
    requires |key| > 0
    ensures Generate(variant, key, n).i == n % 256
    decreases n
  {
    hide Prepared, Step;
    if n == 0 {
    } else {
      PlaceOfTurn(variant, key, n - 1);
      NextPlace(n - 1);
      TurnRuns(Generate(variant, key, n - 1));
    }
  }

  lemma CryptRuns(variant: Variant, key: seq<Byte>, data: seq<Byte>, n: nat)
    requires |key| > 0 && n < |data|
    ensures Crypt(variant, key, data)[n] == data[n] ^ ToByte(Emit(Generate(variant, key, n + 1)))
    ensures Generate(variant, key, n + 1) == Step(Generate(variant, key, n))
  {
    hide Prepared, Step, Emit;
    assert Keystream(variant, key)(n) == ToByte(KeyByte(variant, key, n));
    assert Crypt(variant, key, data)[n] == Xor(data[n], Keystream(variant, key)(n));
  }

  lemma GeneratorStarts(variant: Variant, key: seq<Byte>)
    requires |key| > 0
    ensures Generate(variant, key, 0).box == Schedule(variant, key, 256).box && Generate(variant, key, 0).j == 0
  {
    hide Schedule;
  }

  /** The generator starts from the scheduled box and walks it once around in 256 turns;
      byte `n` of the output is the data's byte under the entry at the sum of the two
      entries just exchanged. */
  lemma GeneratorRuns(variant: Variant, key: seq<Byte>, data: seq<Byte>, n: nat)
    requires |key| > 0 && n < |data|
    ensures var w, x := Generate(variant, key, n), Generate(variant, key, n + 1);
            var i := (n + 1) % 256;
            && x.j == (w.j + w.box[i]) % 256
            && Exchanged(w.box, x.box, i, x.j)
            && Crypt(variant, key, data)[n] == data[n] ^ ToByte(x.box[(x.box[i] + x.box[x.j]) % 256])
    ensures Generate(variant, key, 0).box == Schedule(variant, key, 256).box && Generate(variant, key, 0).j == 0
  {
    hide Generate, Crypt, Step, Emit, ToByte, Schedule, Exchanged;
    NextPlace(n);
    PlaceOfTurn(variant, key, n);
    CryptRuns(variant, key, data, n);
    GeneratorStarts(variant, key);
    TurnRuns(Generate(variant, key, n));
  }

  lemma DriftRuns(d: Drift, n: nat)
    requires d.Valid()
    ensures var e, ahead := Drifted(d, n), (n + 2) % 256;
            && e.valueE == d.table[ahead]
            && e.indexB == (d.indexB + d.table[ahead]) % 256
            && e.initial == d.table[e.indexB]
            && Exchanged(d.table, e.table, ahead, e.indexB)
    ensures MaskEntry(d, n) == d.table[((if n == 0 then d.indexB else d.valueE) + d.initial) % 256]
  {
  }

  lemma WordRuns(start: seq<int>, values: seq<bv16>, n: nat)
    requires IsTable(start) && n < |values|
    ensures MaskWords(MaskStream(start), values)[n] == values[n] ^ (MaskEntry(Transform(start, n), n) as bv16)
    ensures Transform(start, n + 1) == Drifted(Transform(start, n), n)
  {
    hide Drifted, MaskEntry, Opened;
  }

  /** `_transform_bytes` exchanges two entries before its first word; at word `n` it prints
      under one entry, reads the entry two ahead, and exchanges that with the one it leads
      to. */
  lemma TransformRuns(start: seq<int>, values: seq<bv16>, n: nat)
    requires IsTable(start) && n < |values|
    ensures var d, e := Transform(start, n), Transform(start, n + 1);
            var ahead := (n + 2) % 256;
            && e.valueE == d.table[ahead]
            && e.indexB == (d.indexB + d.table[ahead]) % 256
            && e.initial == d.table[e.indexB]
            && Exchanged(d.table, e.table, ahead, e.indexB)
            && MaskWords(MaskStream(start), values)[n]
               == values[n] ^ (d.table[((if n == 0 then d.indexB else d.valueE) + d.initial) % 256] as bv16)
  {
    hide Transform, Drifted, MaskEntry, MaskWords, MaskStream, Exchanged;
    DriftRuns(Transform(start, n), n);
    WordRuns(start, values, n);
  }

  lemma TransformStarts(start: seq<int>)
    requires IsTable(start)
    ensures var d := Transform(start, 0);
            d.indexB == start[1] && d.initial == start[start[1]] && Exchanged(start, d.table, 1, start[1])
  {
  }
}
