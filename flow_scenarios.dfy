/**
 * Client-side sequences of flow library calls, each proving a promise that
 * spans more than one call: a flow is reported aged at most once and stays
 * removable, an entry is freed once, a control pipe stops accepting entries
 * at its limit, and nothing of a destroyed port can be queried.
 */
module FlowScenarios {
  import opened Wrappers
  import opened Flow

  /**
   * Two aging sweeps of a queue never report the same flow twice, and a flow reported by the
   * first sweep is still live afterwards.
   */
  method AgingReportsOnce(eng: FlowEngine, queue: QueueId, budget1: nat, budget2: nat,
                          expired1: set<Handle>, expired2: set<Handle>,
                          out1: array<AgedQuery>, len1: int, out2: array<AgedQuery>, len2: int)
    returns (r1: int, r2: int, ghost first: seq<Handle>, ghost second: seq<Handle>)
    requires eng.Valid()
    requires len1 <= out1.Length && len2 <= out2.Length
    modifies eng, out1, out2
    ensures eng.Valid()
    ensures r1 > 0 ==> |first| == r1
    ensures r2 > 0 ==> |second| == r2
    ensures forall i, j :: 0 <= i < |first| && 0 <= j < |second| ==> first[i] != second[j]
    ensures forall i :: 0 <= i < |first| ==> first[i] in eng.entries && first[i] !in eng.aging
  {
    ghost var scanned;
    r1, first, scanned := eng.HandleAging(queue, budget1, expired1, out1, len1);
    ghost var tracked, cycle := eng.aging, eng.Unswept(queue);
    assert forall i :: 0 <= i < |first| ==> first[i] !in tracked;
    assert cycle <= tracked;
    r2, second, scanned := eng.HandleAging(queue, budget2, expired2, out2, len2);
    assert forall j :: 0 <= j < |second| ==> second[j] in cycle;
  }

  /**
   * When no entry carries a user context, the aging report holds the entry handles themselves,
   * and removing each reported flow succeeds: an aged flow stays live until it is removed.
   */
  method RemoveAgedEntries(eng: FlowEngine, queue: QueueId, budget: nat, expired: set<Handle>,
                           out: array<AgedQuery>, len: int)
    returns (r: int, rcs: seq<int>)
    requires eng.Valid()
    requires len <= out.Length
    requires forall e :: e in eng.entries && eng.entries[e].monitor.Some? ==> eng.entries[e].monitor.value.userData.None?
    modifies eng, out
    ensures eng.Valid()
    ensures r > 0 ==> |rcs| == r && forall i :: 0 <= i < |rcs| ==> rcs[i] == 0
    ensures r <= 0 ==> rcs == []
  {
    ghost var reported, scanned;
    r, reported, scanned := eng.HandleAging(queue, budget, expired, out, len);
    rcs := [];
    if r > 0 {
      var i := 0;
      while i < r
        invariant 0 <= i <= r == |reported| <= out.Length
        invariant eng.Valid()
        invariant |rcs| == i && forall k :: 0 <= k < i ==> rcs[k] == 0
        invariant forall k :: i <= k < |reported| ==> reported[k] in eng.entries && out[k].userData == reported[k]
        invariant forall k, l :: 0 <= k < l < |reported| ==> reported[k] != reported[l]
      {
        var rc := eng.PipeRmEntry(queue, out[i].userData);
        rcs := rcs + [rc];
        i := i + 1;
      }
    }
  }

  /**
   * Calling the aging handler again and again, with a positive budget and room for at least one
   * report, finishes the cycle: every call either reports or examines something new, so a call
   * eventually returns -1, and the cycle then starts over with every tracked flow.
   */
  method SweepUntilCycleDone(eng: FlowEngine, queue: QueueId, budget: nat, expired: set<Handle>,
                             out: array<AgedQuery>, len: int)
    returns (calls: nat)
    requires eng.Valid()
    requires 0 < budget && 0 < len <= out.Length
    modifies eng, out
    ensures eng.Valid()
    ensures 0 < calls
    ensures eng.Unswept(queue) == eng.TrackedOn(queue)
  {
    var r := 0;
    calls := 0;
    while r != -1
      invariant eng.Valid()
      invariant r == -1 ==> 0 < calls && eng.Unswept(queue) == eng.TrackedOn(queue)
      decreases if r == -1 then 0 else 1 + |eng.Unswept(queue)|
    {
      ghost var before := eng.Unswept(queue);
      ghost var reported, scanned;
      r, reported, scanned := eng.HandleAging(queue, budget, expired, out, len);
      calls := calls + 1;
      if r != -1 {
        assert scanned != {} by {
          if r > 0 {
            assert reported[0] in scanned;
          }
        }
        ShrinkingSize(eng.Unswept(queue), before, scanned);
      }
    }
  }

  lemma ShrinkingSize<T>(after: set<T>, before: set<T>, taken: set<T>)
    requires taken != {} && taken <= before && after == before - taken
    ensures |after| < |before|
  {
    var t :| t in taken;
    assert before == after + taken;
    assert t !in after;
    assert |after + taken| >= |after + {t}| == |after| + 1 by {
      assert after + {t} <= after + taken;
      SubsetSize(after + {t}, after + taken);
    }
  }

  /** A handle freed by removing its entry is never handed out again, even to a pipe. */
  method RemoveThenCreate(eng: FlowEngine, queue: QueueId, entry: Handle, cfg: PipeCfg)
    returns (rc: int, r: Result<Handle, ErrorType>)
    requires eng.Valid()
    requires entry in eng.entries
    modifies eng
    ensures eng.Valid()
    ensures rc == 0
    ensures r.Ok? ==> r.value != entry
  {
    assert entry < eng.nextHandle;
    rc := eng.PipeRmEntry(queue, entry);
    r := eng.CreatePipe(cfg, None, None, None);
  }

  /** Removing an entry succeeds once; the second removal of the same handle fails. */
  method RemoveTwice(eng: FlowEngine, queue: QueueId, entry: Handle) returns (rc1: int, rc2: int)
    requires eng.Valid()
    requires entry in eng.entries
    modifies eng
    ensures eng.Valid()
    ensures rc1 == 0 && rc2 < 0
    ensures entry !in eng.entries
  {
    rc1 := eng.PipeRmEntry(queue, entry);
    rc2 := eng.PipeRmEntry(queue, entry);
  }

  /**
   * Adding `n` entries to a fresh control pipe without driver failures: exactly the first 63
   * succeed, the rest are refused with the creation error, and the pipe never holds 64.
   */
  method FillControlPipe(eng: FlowEngine, port: PortId, queue: QueueId, rule: Match, n: nat)
    returns (pipe: Handle, accepted: nat)
    requires eng.Valid()
    requires port in eng.ports
    modifies eng
    ensures eng.Valid()
    ensures pipe in eng.pipes && eng.pipes[pipe].kind.Control?
    ensures accepted == if n < ControlPipeMaxEntries - 1 then n else ControlPipeMaxEntries - 1
    ensures |eng.EntriesOf(pipe)| == accepted
  {
    var created := eng.CreateControlPipe(port, None);
    pipe := created.value;
    accepted := 0;
    var i := 0;
    while i < n
      invariant 0 <= i <= n
      invariant eng.Valid()
      invariant pipe in eng.pipes && eng.pipes[pipe].kind.Control?
      invariant accepted == if i < ControlPipeMaxEntries - 1 then i else ControlPipeMaxEntries - 1
      invariant |eng.EntriesOf(pipe)| == accepted
    {
      var r := eng.ControlPipeAddEntry(queue, 0, pipe, rule, rule, None, None);
      if r.Ok? {
        accepted := accepted + 1;
      } else {
        assert r.error == ErrorFlowCreate;
      }
      i := i + 1;
    }
  }

  /** Once a port is destroyed, querying any entry it owned fails. */
  method QueryAfterDestroyPort(eng: FlowEngine, port: PortId, entry: Handle) returns (rc: int)
    requires eng.Valid()
    requires entry in eng.entries && eng.pipes[eng.entries[entry].pipe].port == port
    modifies eng
    ensures eng.Valid()
    ensures rc < 0
    ensures port !in eng.ports && eng.PipesOf(port) == {}
  {
    eng.DestroyPort(port);
    var stats;
    rc, stats := eng.Query(entry);
  }
}
