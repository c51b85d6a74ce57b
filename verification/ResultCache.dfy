/**
  The result cache: entries in order of use, dropped from the old end when they have
  expired or when a limit is exceeded, and counted in bytes.
 */
module ResultCache {
  import opened Wrappers

  datatype Entry = Entry(key: string, expires: real, size: nat, value: string)

  datatype Limits = Limits(maxEntries: nat, maxBytes: nat) {
    predicate Accepted() { 0 < maxEntries && 0 < maxBytes }
  }

  function Total(entries: seq<Entry>): nat {
    if |entries| == 0 then 0 else entries[0].size + Total(entries[1..])
  }

  predicate Within(limits: Limits, entries: seq<Entry>) {
    |entries| <= limits.maxEntries && Total(entries) <= limits.maxBytes
  }

  /** How many entries at the old end have expired. */
  function Stale(entries: seq<Entry>, now: real): (k: nat)
    ensures k <= |entries|
    ensures k < |entries| ==> entries[k].expires > now
    ensures forall j :: 0 <= j < k ==> entries[j].expires <= now
    decreases |entries|
  {
    if |entries| > 0 && entries[0].expires <= now then 1 + Stale(entries[1..], now) else 0
  }

  function IndexOf(entries: seq<Entry>, key: string): (r: Option<nat>)
    ensures r.None? <==> forall e :: e in entries ==> e.key != key
    ensures r.Some? ==> r.value < |entries| && entries[r.value].key == key
    decreases |entries|
  {
    if |entries| == 0 then None
    else if entries[0].key == key then Some(0)
    else match IndexOf(entries[1..], key)
      case None => None
      case Some(i) => Some(i + 1)
  }

  function RemoveAt(entries: seq<Entry>, i: nat): seq<Entry>
    requires i < |entries|
  {
    entries[..i] + entries[i + 1..]
  }

  function Pop(entries: seq<Entry>, key: string): seq<Entry> {
    match IndexOf(entries, key)
    case None => entries
    case Some(i) => RemoveAt(entries, i)
  }

  /** The value found, if it is still valid, and the entries with it made the newest. */
  function Lookup(entries: seq<Entry>, key: string, now: real): (seq<Entry>, Option<string>) {
    var live := entries[Stale(entries, now)..];
    match IndexOf(live, key)
    case None => (live, None)
    case Some(i) =>
      if live[i].expires > now
      then (RemoveAt(live, i) + [live[i]], Some(live[i].value))
      else (live, None)
  }

  /** How many entries must go, oldest first, until the rest fits. */
  function Excess(limits: Limits, entries: seq<Entry>): (k: nat)
    ensures k <= |entries|
    decreases |entries|
  {
    if |entries| == 0 || Within(limits, entries) then 0 else 1 + Excess(limits, entries[1..])
  }

  function Evict(limits: Limits, entries: seq<Entry>): seq<Entry> {
    entries[Excess(limits, entries)..]
  }

  function Store(limits: Limits, entries: seq<Entry>, e: Entry): seq<Entry> {
    Evict(limits, Pop(entries, e.key) + [e])
  }

  // --------------------------------------------------------------------- eviction

  /** Eviction drops the fewest entries that will do, oldest first. */
  lemma {:induction false} EvictsLeast(limits: Limits, entries: seq<Entry>)
    ensures Within(limits, Evict(limits, entries))
    ensures forall j :: 0 <= j < Excess(limits, entries) ==> !Within(limits, entries[j..])
    decreases |entries|
  {
    hide Total;
    if |entries| == 0 {
      NothingWithin(limits);
    } else if Within(limits, entries) {
      assert entries[0..] == entries;
    } else {
      EvictsLeast(limits, entries[1..]);
      var k := Excess(limits, entries);
      assert entries[1..][k - 1..] == entries[k..];
      forall j | 0 <= j < k
        ensures !Within(limits, entries[j..])
      {
        if j == 0 {
          assert entries[0..] == entries;
        } else {
          assert entries[j..] == entries[1..][j - 1..];
        }
      }
    }
  }

  lemma {:induction false} TotalOfSuffix(entries: seq<Entry>, k: nat)
    requires k < |entries|
    ensures Total(entries[k..]) >= entries[|entries| - 1].size
    decreases |entries|
  {
    if k > 0 {
      TotalOfSuffix(entries[1..], k - 1);
      assert entries[1..][k - 1..] == entries[k..];
    } else if |entries| > 1 {
      assert entries[0..] == entries;
      TotalOfSuffix(entries[1..], 0);
      assert entries[1..][0..] == entries[1..];
    } else {
      assert entries[0..] == entries;
    }
  }

  /** A stored result stays exactly when it fits by itself; one larger than the byte
      limit empties the cache, and itself is not kept. */
  lemma StoredOrTooLarge(limits: Limits, entries: seq<Entry>, e: Entry)
    requires limits.Accepted()
    ensures e.size <= limits.maxBytes ==>
              Store(limits, entries, e) != [] && Store(limits, entries, e)[|Store(limits, entries, e)| - 1] == e
    ensures e.size > limits.maxBytes ==> Store(limits, entries, e) == []
  {
    hide Excess, Pop, Total;
    var all := Pop(entries, e.key) + [e];
    var k := Excess(limits, all);
    EvictsLeast(limits, all);
    if e.size <= limits.maxBytes {
      var n := |all| - 1;
      assert all[n..] == [e];
      OneTotal(e);
      assert Within(limits, all[n..]);
    } else if k < |all| {
      TotalOfSuffix(all, k);
    }
  }

  // ------------------------------------------------------------------- the counter

  lemma {:induction false} TotalOfAppend(a: seq<Entry>, b: seq<Entry>)
    ensures Total(a + b) == Total(a) + Total(b)
    decreases |a|
  {
    if |a| == 0 {
      assert a + b == b;
    } else {
      assert (a + b)[1..] == a[1..] + b;
      TotalOfAppend(a[1..], b);
    }
  }

  lemma TotalOfRemove(entries: seq<Entry>, i: nat)
    requires i < |entries|
    ensures Total(RemoveAt(entries, i)) == Total(entries) - entries[i].size
  {
    TotalOfAppend(entries[..i], entries[i..]);
    assert entries == entries[..i] + entries[i..];
    assert entries[i..][1..] == entries[i + 1..];
    TotalOfAppend(entries[..i], entries[i + 1..]);
  }

  // ------------------------------------------------------------ runs against a map

  datatype Op = Get(key: string, now: real) | Put(entry: Entry)

  function Step(limits: Limits, entries: seq<Entry>, op: Op): seq<Entry> {
    match op
    case Get(key, now) => Lookup(entries, key, now).0
    case Put(e) => Store(limits, entries, e)
  }

  function Run(limits: Limits, ops: seq<Op>): seq<Entry> {
    if |ops| == 0 then []
    else Step(limits, Run(limits, ops[..|ops| - 1]), ops[|ops| - 1])
  }

  /** What a map that never forgets holds for each key: the last entry put. */
  function Plain(ops: seq<Op>): map<string, Entry> {
    if |ops| == 0 then map[]
    else
      var before := Plain(ops[..|ops| - 1]);
      match ops[|ops| - 1]
      case Get(_, _) => before
      case Put(e) => before[e.key := e]
  }

  /** Whether the operation uses the key: stores it, or finds it. */
  predicate Uses(entries: seq<Entry>, op: Op, key: string) {
    match op
    case Get(k, now) => k == key && Lookup(entries, k, now).1.Some?
    case Put(e) => e.key == key
  }

  /** One more than the position of the last operation that used the key. */
  function LastUse(limits: Limits, ops: seq<Op>, key: string): (n: nat)
    ensures n <= |ops|
  {
    if |ops| == 0 then 0
    else
      var before := ops[..|ops| - 1];
      if Uses(Run(limits, before), ops[|ops| - 1], key) then |ops| else LastUse(limits, before, key)
  }

  predicate DistinctKeys(entries: seq<Entry>) {
    forall i, j :: 0 <= i < j < |entries| ==> entries[i].key != entries[j].key
  }

  predicate PartOf(entries: seq<Entry>, plain: map<string, Entry>) {
    forall e :: e in entries ==> e.key in plain && plain[e.key] == e
  }

  ghost predicate ByUse(limits: Limits, entries: seq<Entry>, ops: seq<Op>) {
    forall i, j :: 0 <= i < j < |entries| ==>
      LastUse(limits, ops, entries[i].key) < LastUse(limits, ops, entries[j].key)
  }

  /** One entry, of key `key`, is newest; the others keep their order. */
  lemma MovedToEnd(before: seq<Entry>, after: seq<Entry>, key: string)
    requires DistinctKeys(before)
    requires forall e :: e in before ==> e.key != key
    requires |after| == |before| + 1 && after[..|before|] == before && after[|before|].key == key
    ensures DistinctKeys(after)
  {
    forall i, j | 0 <= i < j < |after|
      ensures after[i].key != after[j].key
    {
      assert after[i] == before[i];
      if j == |before| {
        assert before[i] in before;
      }
    }
  }

  lemma PopKeeps(entries: seq<Entry>, key: string)
    requires DistinctKeys(entries)
    ensures DistinctKeys(Pop(entries, key))
    ensures forall e :: e in Pop(entries, key) <==> e in entries && e.key != key
  {
    hide IndexOf;
    if i: nat :| IndexOf(entries, key) == Some(i) {
      var r := RemoveAt(entries, i);
      forall k | 0 <= k < |r|
        ensures r[k] == entries[if k < i then k else k + 1] && r[k].key != key
      {
      }
      forall e | e in entries && e.key != key
        ensures e in r
      {
        var k :| 0 <= k < |entries| && entries[k] == e;
        assert e == r[if k < i then k else k - 1];
      }
    }
  }

  /** Distinct keys, only what was last put, and within the limits, after every run. */
  lemma {:induction false} CacheIsPartOfMap(limits: Limits, ops: seq<Op>)
    ensures DistinctKeys(Run(limits, ops))
    ensures PartOf(Run(limits, ops), Plain(ops))
    ensures Within(limits, Run(limits, ops))
    decreases |ops|
  {
    hide Lookup, Store, Within, Total;
    if |ops| > 0 {
      var before := ops[..|ops| - 1];
      var entries := Run(limits, before);
      CacheIsPartOfMap(limits, before);
      match ops[|ops| - 1]
      case Get(key, now) =>
        LookupKeeps(limits, entries, key, now);
      case Put(e) =>
        StoreKeeps(limits, entries, e);
    } else {
      NothingWithin(limits);
    }
  }

  lemma NothingWithin(limits: Limits)
    ensures Within(limits, [])
  {
  }

  lemma LookupKeeps(limits: Limits, entries: seq<Entry>, key: string, now: real)
    requires DistinctKeys(entries)
    ensures DistinctKeys(Lookup(entries, key, now).0)
    ensures forall e :: e in Lookup(entries, key, now).0 ==> e in entries
    ensures Within(limits, entries) ==> Within(limits, Lookup(entries, key, now).0)
  {
    hide Stale, IndexOf, Total;
    var k := Stale(entries, now);
    var live := entries[k..];
    TotalOfAppend(entries[..k], entries[k..]);
    assert entries == entries[..k] + entries[k..];
    TouchKeeps(live, key);
  }

  lemma TouchKeeps(live: seq<Entry>, key: string)
    requires DistinctKeys(live)
    ensures var found := IndexOf(live, key);
            found.Some? ==>
              var after := RemoveAt(live, found.value) + [live[found.value]];
              && DistinctKeys(after)
              && (forall e :: e in after ==> e in live)
              && |after| == |live| && Total(after) == Total(live)
  {
    hide IndexOf, Total;
    match IndexOf(live, key)
    case None =>
    case Some(i) =>
      PopKeeps(live, key);
      var rest := RemoveAt(live, i);
      MovedToEnd(rest, rest + [live[i]], key);
      TotalOfRemove(live, i);
      TotalOfAppend(rest, [live[i]]);
      OneTotal(live[i]);
  }

  lemma OneTotal(e: Entry)
    ensures Total([e]) == e.size
  {
    assert [e][1..] == [];
  }

  lemma StoreKeeps(limits: Limits, entries: seq<Entry>, e: Entry)
    requires DistinctKeys(entries)
    ensures DistinctKeys(Store(limits, entries, e))
    ensures forall x :: x in Store(limits, entries, e) ==> x == e || (x in entries && x.key != e.key)
    ensures Within(limits, Store(limits, entries, e))
  {
    hide Excess, Pop, Total;
    var rest := Pop(entries, e.key);
    PopKeeps(entries, e.key);
    MovedToEnd(rest, rest + [e], e.key);
    EvictsLeast(limits, rest + [e]);
  }

  /** A hit is an unexpired result, the last one stored under that same key. */
  lemma HitIsLastStored(limits: Limits, ops: seq<Op>, key: string, now: real)
    ensures var found := Lookup(Run(limits, ops), key, now).1;
            found.Some? ==>
              && key in Plain(ops)
              && Plain(ops)[key].value == found.value
              && Plain(ops)[key].expires > now
  {
    hide Run, Plain, Stale, IndexOf;
    CacheIsPartOfMap(limits, ops);
    var entries := Run(limits, ops);
    var live := entries[Stale(entries, now)..];
    if i: nat :| IndexOf(live, key) == Some(i) {
      assert live[i] in entries;
    }
  }

  /** Where the entries of `after` come from: increasing places of `before`, none of them
      used by the step, and then perhaps the one entry the step used. */
  ghost predicate Origins(before: seq<Entry>, after: seq<Entry>, op: Op, origin: seq<nat>, newest: bool) {
    && |after| == |origin| + (if newest then 1 else 0)
    && (forall i :: 0 <= i < |origin| ==>
          origin[i] < |before| && after[i] == before[origin[i]] && !Uses(before, op, after[i].key))
    && (forall i, j :: 0 <= i < j < |origin| ==> origin[i] < origin[j])
    && (newest ==> Uses(before, op, after[|origin|].key))
  }

  function Skip(i: nat, x: nat): nat { if x < i then x else x + 1 }

  /** Removing one entry leaves the others in order, under other keys. */
  lemma RemoveOrigins(entries: seq<Entry>, i: nat, x: nat)
    requires DistinctKeys(entries) && i < |entries| && x < |entries| - 1
    ensures RemoveAt(entries, i)[x] == entries[Skip(i, x)]
    ensures entries[Skip(i, x)].key != entries[i].key
  {
  }

  lemma MissOrigins(entries: seq<Entry>, key: string, now: real) returns (origin: seq<nat>)
    requires Lookup(entries, key, now).1.None?
    ensures Origins(entries, Lookup(entries, key, now).0, Get(key, now), origin, false)
  {
    hide Stale, IndexOf;
    var k := Stale(entries, now);
    origin := seq(|entries| - k, x requires 0 <= x < |entries| - k => k + x);
  }

  lemma HitOrigins(entries: seq<Entry>, key: string, now: real) returns (origin: seq<nat>)
    requires DistinctKeys(entries) && Lookup(entries, key, now).1.Some?
    ensures Origins(entries, Lookup(entries, key, now).0, Get(key, now), origin, true)
  {
    hide Stale, IndexOf, RemoveAt;
    var k := Stale(entries, now);
    var live := entries[k..];
    var i := IndexOf(live, key).value;
    var rest := RemoveAt(live, i);
    assert |rest| == |live| - 1 by { RemovedLength(live, i); }
    origin := seq(|rest|, x requires 0 <= x < |rest| => k + Skip(i, x));
    forall x | 0 <= x < |rest|
      ensures rest[x] == entries[origin[x]] && rest[x].key != key
    {
      RemoveOrigins(live, i, x);
    }
  }

  lemma RemovedLength(entries: seq<Entry>, i: nat)
    requires i < |entries|
    ensures |RemoveAt(entries, i)| == |entries| - 1
  {
  }

  lemma PopOrigins(entries: seq<Entry>, key: string) returns (origin: seq<nat>)
    requires DistinctKeys(entries)
    ensures |origin| == |Pop(entries, key)|
    ensures forall x :: 0 <= x < |origin| ==>
      origin[x] < |entries| && Pop(entries, key)[x] == entries[origin[x]] && entries[origin[x]].key != key
    ensures forall x, y :: 0 <= x < y < |origin| ==> origin[x] < origin[y]
  {
    hide IndexOf, RemoveAt;
    match IndexOf(entries, key)
    case None => origin := seq(|entries|, x requires 0 <= x < |entries| => x);
    case Some(i) =>
      RemovedLength(entries, i);
      origin := seq(|entries| - 1, x requires 0 <= x < |entries| - 1 => Skip(i, x));
      forall x | 0 <= x < |origin|
        ensures RemoveAt(entries, i)[x] == entries[origin[x]] && entries[origin[x]].key != key
      {
        RemoveOrigins(entries, i, x);
      }
  }

  lemma PutOrigins(limits: Limits, entries: seq<Entry>, e: Entry) returns (origin: seq<nat>, newest: bool)
    requires DistinctKeys(entries)
    ensures Origins(entries, Store(limits, entries, e), Put(e), origin, newest)
  {
    hide Excess, Pop;
    var all := Pop(entries, e.key) + [e];
    var places := PopOrigins(entries, e.key);
    var k := Excess(limits, all);
    newest := k < |all|;
    origin := if newest then places[k..] else [];
  }

  /** Entries stand in the order of their last use, so what is evicted is the least
      recently used. */
  lemma {:induction false} OrderedByUse(limits: Limits, ops: seq<Op>)
    ensures ByUse(limits, Run(limits, ops), ops)
    decreases |ops|
  {
    hide Lookup, Store;
    if |ops| == 0 {
    } else {
      var before, op := ops[..|ops| - 1], ops[|ops| - 1];
      var entries := Run(limits, before);
      OrderedByUse(limits, before);
      CacheIsPartOfMap(limits, before);
      var origin: seq<nat>, newest: bool;
      match op {
        case Get(key, now) =>
          newest := Lookup(entries, key, now).1.Some?;
          if newest {
            origin := HitOrigins(entries, key, now);
          } else {
            origin := MissOrigins(entries, key, now);
          }
        case Put(e) => origin, newest := PutOrigins(limits, entries, e);
      }
      StepOrder(limits, before, op, entries, Run(limits, ops), origin, newest);
      assert before + [op] == ops;
    }
  }

  lemma StepOrder(limits: Limits, ops: seq<Op>, op: Op, before: seq<Entry>, after: seq<Entry>,
                  origin: seq<nat>, newest: bool)
    requires before == Run(limits, ops) && ByUse(limits, before, ops)
    requires Origins(before, after, op, origin, newest)
    ensures ByUse(limits, after, ops + [op])
  {
    hide Run, Uses;
    var more := ops + [op];
    assert more[..|ops|] == ops;
    forall i, j | 0 <= i < j < |after|
      ensures LastUse(limits, more, after[i].key) < LastUse(limits, more, after[j].key)
    {
      assert LastUse(limits, more, after[i].key) == LastUse(limits, ops, before[origin[i]].key);
      if j < |origin| {
        assert LastUse(limits, more, after[j].key) == LastUse(limits, ops, before[origin[j]].key);
        assert origin[i] < origin[j];
      }
    }
  }
}
