/** The in-memory job repository: dictionaries of jobs, requests and numbered results. */
module JobRepository {
  import opened JobModel
  import opened ResultRows

  class MemoryJobRepository {
    var jobs: map<string, Record>
    var requests: map<string, seq<Item>>
    var results: map<string, map<nat, ItemResult>>

    constructor ()
      ensures jobs == map[] && requests == map[] && results == map[]
    {
      jobs, requests, results := map[], map[], map[];
    }

    /** `self._results.get(job_id, {})`. */
    function Rows(jobId: string): map<nat, ItemResult>
      reads this
    {
      if jobId in results then results[jobId] else map[]
    }

    method CreateJob(jobId: string, record: Record, request: seq<Item>)
      modifies this
      ensures jobs == old(jobs)[jobId := record]
      ensures requests == old(requests)[jobId := request]
      ensures results == old(results)[jobId := map[]]
    {
      jobs := jobs[jobId := record];
      requests := requests[jobId := request];
      results := results[jobId := map[]];
    }

    method UpdateJob(jobId: string, record: Record)
      modifies this`jobs
      ensures jobs == if jobId in old(jobs) then old(jobs)[jobId := record] else old(jobs)
    {
      if jobId in jobs {
        jobs := jobs[jobId := record];
      }
    }

    method AppendResult(jobId: string, sequence: nat, result: ItemResult)
      modifies this`results
      ensures Rows(jobId) == old(Rows(jobId))[sequence := result]
      ensures forall id :: id != jobId ==> Rows(id) == old(Rows(id))
    {
      if jobId !in results {
        results := results[jobId := map[]];
      }
      var rows: map<nat, ItemResult> := results[jobId][sequence := result];
      results := results[jobId := rows];
    }

    method GetResults(jobId: string, offset: nat, limit: nat) returns (page: seq<ItemResult>)
      ensures page == PageOf(Rows(jobId), offset, limit)
    {
      page := ReadPage(Rows(jobId), offset, limit);
    }

    method CountSuccesses(jobId: string) returns (n: nat)
      ensures n == |SuccessKeys(Rows(jobId))|
    {
      var rows := Rows(jobId);
      var left := rows.Keys;
      n := 0;
      while left != {}
        invariant left <= rows.Keys
        invariant n == |SuccessKeys(rows) - left|
        decreases |left|
      {
        var k :| k in left;
        ghost var done := SuccessKeys(rows) - left;
        if rows[k].success {
          n := n + 1;
          assert SuccessKeys(rows) - (left - {k}) == done + {k};
        } else {
          assert SuccessKeys(rows) - (left - {k}) == done;
        }
        left := left - {k};
      }
      assert SuccessKeys(rows) - left == SuccessKeys(rows);
    }

    /** Every job left queued or running is failed, with its counts taken from its rows. */
    method RecoverInterrupted()
      modifies this`jobs
      ensures jobs.Keys == old(jobs.Keys)
      ensures forall id :: id in jobs ==> jobs[id] == Recovered(old(jobs)[id], Rows(id))
    {
      hide SuccessKeys;
      var left := jobs.Keys;
      while left != {}
        invariant left <= jobs.Keys == old(jobs.Keys)
        invariant forall id :: id in jobs ==>
          jobs[id] == if id in left then old(jobs)[id] else Recovered(old(jobs)[id], Rows(id))
        decreases |left|
      {
        var id :| id in left;
        var record := jobs[id];
        if record.Open() {
          var completed := |Rows(id)|;
          var success := CountSuccesses(id);
          SuccessesWithin(Rows(id));
          jobs := jobs[id := record.(status := Failed, completed := completed, success := success,
                                     failed := completed - success)];
        }
        left := left - {id};
      }
    }
  }
}
