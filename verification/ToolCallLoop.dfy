/** The executor of one wave: the ready requests go to the gateway one after the
    other, or to a pool of workers that finish in an order of their own. */
module ToolCallLoop {
  import opened ToolPlan
  import opened WaveRun

  datatype Execution = Execution(id: StepId, ok: bool)

  /** What the records of `ids` must be: one per request, in request order. */
  function Records(ids: seq<StepId>, ok: Oracle): seq<Execution> {
    seq(|ids|, i requires 0 <= i < |ids| => Execution(ids[i], ok(ids[i])))
  }

  method ExecuteSequentially(ids: seq<StepId>, ok: Oracle) returns (records: seq<Execution>)
    ensures records == Records(ids, ok)
  {
    records := [];
    for i := 0 to |ids|
      invariant records == Records(ids[..i], ok)
    {
      assert Records(ids[..i + 1], ok) == Records(ids[..i], ok) + [Execution(ids[i], ok(ids[i]))];
      records := records + [Execution(ids[i], ok(ids[i]))];
    }
    assert ids[..|ids|] == ids;
  }

  /** The pool: any outstanding request may be the next to finish; results are
      put where their request stood, and zipped with the requests at the end. */
  method ExecuteConcurrently(ids: seq<StepId>, ok: Oracle) returns (records: seq<Execution>)
    ensures records == Records(ids, ok)
  {
    var results := new bool[|ids|];
    var outstanding := set i {:trigger ids[i]} | 0 <= i < |ids| :: i;
    while outstanding != {}
      invariant forall i :: i in outstanding ==> 0 <= i < |ids|
      invariant forall i :: 0 <= i < |ids| && i !in outstanding ==> results[i] == ok(ids[i])
      decreases outstanding
    {
      var i :| i in outstanding;
      results[i] := ok(ids[i]);
      outstanding := outstanding - {i};
    }
    records := [];
    for i := 0 to |ids|
      invariant forall k :: 0 <= k < |ids| ==> results[k] == ok(ids[k])
      invariant records == Records(ids[..i], ok)
    {
      assert Records(ids[..i + 1], ok) == Records(ids[..i], ok) + [Execution(ids[i], results[i])];
      records := records + [Execution(ids[i], results[i])];
    }
    assert ids[..|ids|] == ids;
  }

  /** Record order does not depend on the concurrency limit. */
  method ExecuteRecords(ids: seq<StepId>, ok: Oracle, maxConcurrency: int) returns (records: seq<Execution>)
    ensures records == Records(ids, ok)
  {
    if maxConcurrency > 1 && |ids| > 1 {
      records := ExecuteConcurrently(ids, ok);
    } else {
      records := ExecuteSequentially(ids, ok);
    }
  }
}
