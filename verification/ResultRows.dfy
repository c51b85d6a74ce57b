/** Result rows read in sequence order from an offset, a page at a time. */
module ResultRows {
  import opened JobModel

  ghost predicate IsLeast(keys: set<nat>, k: nat) { k in keys && forall j :: j in keys ==> k <= j }

  ghost function Least(keys: set<nat>): (k: nat)
    requires keys != {}
    ensures IsLeast(keys, k)
  {
    LeastExists(keys);
    var k :| IsLeast(keys, k);
    k
  }

  lemma {:induction false} LeastExists(keys: set<nat>)
    requires keys != {}
    ensures exists k :: IsLeast(keys, k)
    decreases |keys|
  {
    var k :| k in keys;
    var rest := keys - {k};
    assert forall j :: j in keys ==> j == k || j in rest;
    if rest == {} {
      assert IsLeast(keys, k);
    } else {
      LeastExists(rest);
      var m :| IsLeast(rest, m);
      if k < m {
        assert IsLeast(keys, k);
      } else {
        assert IsLeast(keys, m);
      }
    }
  }

  function KeysFrom(results: map<nat, ItemResult>, offset: nat): set<nat> {
    set k | k in results && k >= offset
  }

  /** The first `limit` rows with these keys, smallest key first. */
  ghost function InOrder(results: map<nat, ItemResult>, keys: set<nat>, limit: nat): seq<ItemResult>
    requires keys <= results.Keys
    decreases limit
  {
    if keys == {} || limit == 0 then []
    else
      var k := Least(keys);
      [results[k]] + InOrder(results, keys - {k}, limit - 1)
  }

  ghost function PageOf(results: map<nat, ItemResult>, offset: nat, limit: nat): seq<ItemResult> {
    InOrder(results, KeysFrom(results, offset), limit)
  }

  /** On consecutive keys the page is a slice. */
  lemma {:induction false} InOrderOfRange(results: map<nat, ItemResult>, keys: set<nat>, lo: nat, hi: nat, limit: nat)
    requires lo <= hi && keys <= results.Keys
    requires forall k :: k in keys <==> lo <= k < hi
    ensures |InOrder(results, keys, limit)| == Min(limit, hi - lo)
    ensures forall k :: 0 <= k < Min(limit, hi - lo) ==> InOrder(results, keys, limit)[k] == results[lo + k]
    decreases limit
  {
    if lo < hi && limit > 0 {
      assert lo in keys;
      assert Least(keys) == lo;
      var rest := InOrder(results, keys - {lo}, limit - 1);
      InOrderOfRange(results, keys - {lo}, lo + 1, hi, limit - 1);
      assert InOrder(results, keys, limit) == [results[lo]] + rest;
      forall k | 0 <= k < Min(limit, hi - lo)
        ensures ([results[lo]] + rest)[k] == results[lo + k]
      {
        if k > 0 {
          assert rest[k - 1] == results[(lo + 1) + (k - 1)];
        }
      }
    } else if lo == hi {
      assert keys == {};
    }
  }

  /** Pages of rows numbered 0..n-1. */
  lemma PageIsSlice(results: map<nat, ItemResult>, offset: nat, limit: nat)
    requires forall k :: k in results <==> 0 <= k < |results|
    ensures var size := if offset < |results| then Min(limit, |results| - offset) else 0;
            && |PageOf(results, offset, limit)| == size
            && forall k :: 0 <= k < size ==> PageOf(results, offset, limit)[k] == results[offset + k]
  {
    if offset < |results| {
      InOrderOfRange(results, KeysFrom(results, offset), offset, |results|, limit);
    } else {
      assert KeysFrom(results, offset) == {};
    }
  }

  method Smallest(keys: set<nat>) returns (k: nat)
    requires keys != {}
    ensures k == Least(keys)
  {
    k :| k in keys;
    var rest := keys - {k};
    while rest != {}
      invariant k in keys && rest <= keys
      invariant forall j :: j in keys ==> j in rest || k <= j
      decreases |rest|
    {
      var j :| j in rest;
      if j < k {
        k := j;
      }
      rest := rest - {j};
    }
    assert IsLeast(keys, k);
  }

  /** `sorted(results)`, filtered by the offset and cut at the limit. */
  method ReadPage(results: map<nat, ItemResult>, offset: nat, limit: nat) returns (page: seq<ItemResult>)
    ensures page == PageOf(results, offset, limit)
  {
    page := [];
    var keys := set k | k in results && k >= offset;
    var left := limit;
    ghost var whole := PageOf(results, offset, limit);
    while keys != {} && left > 0
      invariant keys <= results.Keys
      invariant page + InOrder(results, keys, left) == whole
      decreases left
    {
      var k := Smallest(keys);
      assert k in keys;
      page := page + [results[k]];
      keys := keys - {k};
      left := left - 1;
    }
  }
}
