/** When the cache answers, and how long what was stored stays there to be found. */
module CacheHits {
  import opened ResultCache
  import opened Wrappers

  /** The cache holds this value under the key, not yet expired. */
  predicate Fresh(entries: seq<Entry>, key: string, value: string, now: real) {
    exists e :: e in entries && e.key == key && e.value == value && now < e.expires
  }

  lemma LookupFinds(entries: seq<Entry>, key: string, now: real, value: string)
    requires DistinctKeys(entries)
    ensures Lookup(entries, key, now).1 == Some(value) <==> Fresh(entries, key, value, now)
    ensures Lookup(entries, key, now).1 == None <==> forall e :: e in entries && e.key == key ==> e.expires <= now
  {
    hide Stale, IndexOf, RemoveAt;
    var k := Stale(entries, now);
    var live := entries[k..];
    assert entries == entries[..k] + live;
    var found := IndexOf(live, key);
    if found.Some? {
      assert live[found.value] in entries;
    }
    forall e | e in entries && e.key == key && now < e.expires
      ensures found.Some? && live[found.value] == e
    {
      var j :| 0 <= j < |entries| && entries[j] == e;
      assert e == live[j - k] && e in live;
    }
  }

  /** After any run a look-up answers with a value exactly when the cache holds an entry of
      that key and value that has not expired. */
  lemma HitsExactly(limits: Limits, ops: seq<Op>, key: string, now: real, value: string)
    ensures Lookup(Run(limits, ops), key, now).1 == Some(value) <==> Fresh(Run(limits, ops), key, value, now)
  {
    hide Run, Lookup, Fresh;
    CacheIsPartOfMap(limits, ops);
    LookupFinds(Run(limits, ops), key, now, value);
  }

  /** A look-up removes nothing that has not expired, and adds nothing. */
  lemma LookupKeepsFresh(entries: seq<Entry>, key: string, now: real)
    ensures forall e :: e in entries && now < e.expires ==> e in Lookup(entries, key, now).0
    ensures forall e :: e in Lookup(entries, key, now).0 ==> e in entries
  {
    hide Stale, IndexOf;
    var k := Stale(entries, now);
    var live := entries[k..];
    assert entries == entries[..k] + live;
    if i: nat :| IndexOf(live, key) == Some(i) {
      assert live == live[..i] + [live[i]] + live[i + 1..];
    }
  }

  /** Storing with room to spare replaces the key's entry and keeps every other. */
  lemma StoreWithRoom(limits: Limits, entries: seq<Entry>, e: Entry)
    requires DistinctKeys(entries)
    requires |entries| + 1 <= limits.maxEntries && Total(entries) + e.size <= limits.maxBytes
    ensures forall x :: x in Store(limits, entries, e) <==> x == e || (x in entries && x.key != e.key)
  {
    hide IndexOf, Total, RemoveAt, DistinctKeys;
    var rest := Pop(entries, e.key);
    PopKeeps(entries, e.key);
    PopFits(entries, e.key);
    TotalOfAppend(rest, [e]);
    OneTotal(e);
    assert Within(limits, rest + [e]);
    assert (rest + [e])[0..] == rest + [e];
  }

  lemma PopFits(entries: seq<Entry>, key: string)
    ensures |Pop(entries, key)| <= |entries| && Total(Pop(entries, key)) <= Total(entries)
  {
    hide IndexOf, Total;
    if i: nat :| IndexOf(entries, key) == Some(i) {
      TotalOfRemove(entries, i);
    }
  }

  lemma {:induction false} StaysThroughGets(limits: Limits, ops: seq<Op>, gets: seq<Op>, e: Entry)
    requires e in Run(limits, ops)
    requires forall k :: 0 <= k < |gets| ==> gets[k].Get? && gets[k].now < e.expires
    ensures e in Run(limits, ops + gets)
    decreases |gets|
  {
    hide Lookup;
    if |gets| == 0 {
      assert ops + gets == ops;
    } else {
      var n := |gets| - 1;
      StaysThroughGets(limits, ops, gets[..n], e);
      assert (ops + gets)[..|ops| + n] == ops + gets[..n];
      LookupKeepsFresh(Run(limits, ops + gets[..n]), gets[n].key, gets[n].now);
    }
  }

  /** A stored result that fits is what every look-up of its key returns before it expires,
      however often anything is looked up meanwhile. */
  lemma StoredIsFound(limits: Limits, before: seq<Op>, e: Entry, gets: seq<Op>, now: real)
    requires limits.Accepted() && e.size <= limits.maxBytes && now < e.expires
    requires forall k :: 0 <= k < |gets| ==> gets[k].Get? && gets[k].now < e.expires
    ensures Lookup(Run(limits, before + [Put(e)] + gets), e.key, now).1 == Some(e.value)
  {
    hide Lookup, Store;
    var ops := before + [Put(e)];
    assert ops[..|ops| - 1] == before;
    StoredOrTooLarge(limits, Run(limits, before), e);
    assert e in Run(limits, ops);
    StaysThroughGets(limits, ops, gets, e);
    HitsExactly(limits, ops + gets, e.key, now, e.value);
  }
}
