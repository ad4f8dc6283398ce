/** Result classification and device selection (Diag::GetFailureResult,
    Diag::PopulateGpuList, Diag::InitializeDiagResponse in dcgmi/Diag.cpp).
    The priority lookup dcgmErrorGetPriorityByCode is outside the model: it is the
    parameter `isIsolate`, true of the error codes whose priority is "isolate". */
module Classifier {
  import opened DiagTypes

  /** A failed test result with at least one error slot of isolate priority. */
  predicate IsolatingFailure(t: TestResult, isIsolate: nat -> bool)
  {
    t.status == Fail && exists k :: 0 <= k < |t.errors| && isIsolate(t.errors[k].code)
  }

  /** Some level-one result among the first `n` has status `Fail`. */
  predicate LevelOneFailedBelow(v: Response, n: nat)
  {
    exists i :: 0 <= i < n && i < |v.levelOne| && v.levelOne[i].status == Fail
  }

  predicate LevelOneIsolatedBelow(v: Response, n: nat, isIsolate: nat -> bool)
  {
    exists i :: 0 <= i < n && i < |v.levelOne| && IsolatingFailure(v.levelOne[i], isIsolate)
  }

  /** Some device entry before position (a, b) of the device-by-test table, in
      scan order, has status `Fail`. */
  predicate GpuFailedBefore(v: Response, a: nat, b: nat)
  {
    exists i, j :: 0 <= i < |v.perGpu| && 0 <= j < |v.perGpu[i].results|
                   && (i < a || (i == a && j < b)) && v.perGpu[i].results[j].status == Fail
  }

  predicate GpuIsolatedBefore(v: Response, a: nat, b: nat, isIsolate: nat -> bool)
  {
    exists i, j :: 0 <= i < |v.perGpu| && 0 <= j < |v.perGpu[i].results|
                   && (i < a || (i == a && j < b)) && IsolatingFailure(v.perGpu[i].results[j], isIsolate)
  }

  /** Some scanned entry failed: a level-one result below the level-one count, or
      any entry of the device table. */
  predicate HasFailure(v: Response)
  {
    LevelOneFailedBelow(v, v.levelOneTestCount) || GpuFailedBefore(v, |v.perGpu|, 0)
  }

  /** Some scanned failed entry carries an error of isolate priority. */
  predicate HasIsolateFailure(v: Response, isIsolate: nat -> bool)
  {
    LevelOneIsolatedBelow(v, v.levelOneTestCount, isIsolate) || GpuIsolatedBefore(v, |v.perGpu|, 0, isIsolate)
  }

  /** The verdict: an isolate error anywhere wins, then any failure, else OK. */
  function Verdict(v: Response, isIsolate: nat -> bool): (r: ReturnCode)
    ensures r == NvvsIsolateError <==> HasIsolateFailure(v, isIsolate)
    ensures r == Ok <==> !HasFailure(v)
    ensures r in {Ok, NvvsError, NvvsIsolateError}
  {
    IsolatingFailureIsFailure(v, isIsolate);
    if HasIsolateFailure(v, isIsolate) then NvvsIsolateError
    else if HasFailure(v) then NvvsError
    else Ok
  }

  lemma IsolatingFailureIsFailure(v: Response, isIsolate: nat -> bool)
    ensures HasIsolateFailure(v, isIsolate) ==> HasFailure(v)
  {
  }

  /** Diag::GetFailureResult: scans the level-one results below the count, then
      every test of every device slot; within a failed result every error slot is
      visited, empty ones included, so any failure without an isolate error gives
      NvvsError, and the first isolate error returns at once. */
  method GetFailureResult(resp: DiagResponse, isIsolate: nat -> bool) returns (r: ReturnCode)
    requires resp.Valid()
    ensures r == NvvsIsolateError <==> HasIsolateFailure(resp.Value(), isIsolate)
    ensures r == NvvsError <==> HasFailure(resp.Value()) && !HasIsolateFailure(resp.Value(), isIsolate)
    ensures r == Ok <==> !HasFailure(resp.Value())
    ensures r == Verdict(resp.Value(), isIsolate)
  {
    ghost var v := resp.Value();
    r := Ok;
    var i: nat := 0;
    while i < resp.levelOneTestCount
      invariant i <= resp.levelOneTestCount
      invariant !LevelOneIsolatedBelow(v, i, isIsolate)
      invariant r == (if LevelOneFailedBelow(v, i) then NvvsError else Ok)
    {
      if resp.levelOneResults[i].status == Fail {
        var j: nat := 0;
        while j < MaxErrors
          invariant j <= MaxErrors
          invariant forall k :: 0 <= k < j ==> !isIsolate(v.levelOne[i].errors[k].code)
          invariant r == (if j > 0 || LevelOneFailedBelow(v, i) then NvvsError else Ok)
        {
          if isIsolate(resp.levelOneResults[i].errors[j].code) {
            assert IsolatingFailure(v.levelOne[i], isIsolate);
            return NvvsIsolateError;
          } else {
            r := NvvsError;
          }
          j := j + 1;
        }
        assert !IsolatingFailure(v.levelOne[i], isIsolate);
      }
      assert LevelOneFailedBelow(v, i + 1) <==> LevelOneFailedBelow(v, i) || v.levelOne[i].status == Fail;
      i := i + 1;
    }

    // The device table is scanned over its whole capacity, not only gpuCount.
    var a: nat := 0;
    while a < MaxNumDevices
      invariant a <= MaxNumDevices
      invariant !HasLevelOneIsolate(v, isIsolate)
      invariant !GpuIsolatedBefore(v, a, 0, isIsolate)
      invariant r == (if LevelOneFailedBelow(v, v.levelOneTestCount) || GpuFailedBefore(v, a, 0) then NvvsError else Ok)
    {
      var b: nat := 0;
      while b < PerGpuTestCount
        invariant b <= PerGpuTestCount
        invariant !GpuIsolatedBefore(v, a, b, isIsolate)
        invariant r == (if LevelOneFailedBelow(v, v.levelOneTestCount) || GpuFailedBefore(v, a, b) then NvvsError else Ok)
      {
        if resp.perGpuResponses[a].results[b].status == Fail {
          var k: nat := 0;
          while k < MaxErrors
            invariant k <= MaxErrors
            invariant forall e :: 0 <= e < k ==> !isIsolate(v.perGpu[a].results[b].errors[e].code)
            invariant r == (if k > 0 || LevelOneFailedBelow(v, v.levelOneTestCount) || GpuFailedBefore(v, a, b) then NvvsError else Ok)
          {
            if isIsolate(resp.perGpuResponses[a].results[b].errors[k].code) {
              assert IsolatingFailure(v.perGpu[a].results[b], isIsolate);
              assert GpuIsolatedBefore(v, |v.perGpu|, 0, isIsolate);
              return NvvsIsolateError;
            } else {
              r := NvvsError;
            }
            k := k + 1;
          }
          assert !IsolatingFailure(v.perGpu[a].results[b], isIsolate);
        }
        GpuBeforeStep(v, a, b, isIsolate);
        b := b + 1;
      }
      GpuBeforeNextDevice(v, a, isIsolate);
      a := a + 1;
    }
  }

  predicate HasLevelOneIsolate(v: Response, isIsolate: nat -> bool)
  {
    LevelOneIsolatedBelow(v, v.levelOneTestCount, isIsolate)
  }

  /** Advancing the scan position by one test within a device. */
  lemma GpuBeforeStep(v: Response, a: nat, b: nat, isIsolate: nat -> bool)
    requires a < |v.perGpu| && b < |v.perGpu[a].results|
    ensures GpuFailedBefore(v, a, b + 1) <==> GpuFailedBefore(v, a, b) || v.perGpu[a].results[b].status == Fail
    ensures GpuIsolatedBefore(v, a, b + 1, isIsolate)
            <==> GpuIsolatedBefore(v, a, b, isIsolate) || IsolatingFailure(v.perGpu[a].results[b], isIsolate)
  {
  }

  /** Having scanned every test of device `a` is the same as standing at the start
      of device `a + 1`. */
  lemma GpuBeforeNextDevice(v: Response, a: nat, isIsolate: nat -> bool)
    requires a < |v.perGpu| && |v.perGpu[a].results| == PerGpuTestCount
    ensures GpuFailedBefore(v, a + 1, 0) <==> GpuFailedBefore(v, a, PerGpuTestCount)
    ensures GpuIsolatedBefore(v, a + 1, 0, isIsolate) <==> GpuIsolatedBefore(v, a, PerGpuTestCount, isIsolate)
  {
  }

  /** The verdict does not depend on the order of the device table: any
      reordering `w` of the entries of `v` (position i of `w` holds entry perm[i]
      of `v`, every entry of `v` used) has the same verdict. */
  lemma VerdictIgnoresDeviceOrder(v: Response, w: Response, perm: seq<nat>, isIsolate: nat -> bool)
    requires w.levelOneTestCount == v.levelOneTestCount && w.levelOne == v.levelOne
    requires |perm| == |w.perGpu|
    requires forall i :: 0 <= i < |perm| ==> perm[i] < |v.perGpu| && w.perGpu[i] == v.perGpu[perm[i]]
    requires forall a :: 0 <= a < |v.perGpu| ==> a in perm
    ensures Verdict(v, isIsolate) == Verdict(w, isIsolate)
  {
    if GpuFailedBefore(v, |v.perGpu|, 0) {
      var a, b :| 0 <= a < |v.perGpu| && 0 <= b < |v.perGpu[a].results| && v.perGpu[a].results[b].status == Fail;
      assert a in perm;
      var i :| 0 <= i < |perm| && perm[i] == a;
      assert w.perGpu[i].results[b].status == Fail;
    }
    if GpuFailedBefore(w, |w.perGpu|, 0) {
      var i, b :| 0 <= i < |w.perGpu| && 0 <= b < |w.perGpu[i].results| && w.perGpu[i].results[b].status == Fail;
      assert v.perGpu[perm[i]].results[b].status == Fail;
    }
    if GpuIsolatedBefore(v, |v.perGpu|, 0, isIsolate) {
      var a, b :| 0 <= a < |v.perGpu| && 0 <= b < |v.perGpu[a].results| && IsolatingFailure(v.perGpu[a].results[b], isIsolate);
      assert a in perm;
      var i :| 0 <= i < |perm| && perm[i] == a;
      assert IsolatingFailure(w.perGpu[i].results[b], isIsolate);
    }
    if GpuIsolatedBefore(w, |w.perGpu|, 0, isIsolate) {
      var i, b :| 0 <= i < |w.perGpu| && 0 <= b < |w.perGpu[i].results| && IsolatingFailure(w.perGpu[i].results[b], isIsolate);
      assert IsolatingFailure(v.perGpu[perm[i]].results[b], isIsolate);
    }
  }

  /* ---------------- device selection ---------------- */

  /** Some test of the device slot has a status other than NotRun. */
  predicate SomeTestRan(g: GpuResponse)
  {
    exists j :: 0 <= j < |g.results| && g.results[j].status != NotRun
  }

  /** A slot counts as a device that ran: its id is not the sentinel and some
      test of it ran. */
  predicate SlotRan(g: GpuResponse)
  {
    g.gpuId != MaxNumDevices && SomeTestRan(g)
  }

  /** The positions below `n` of slots that ran, in increasing order. */
  function RanSlotsBelow(gpus: seq<GpuResponse>, n: nat): seq<nat>
    requires n <= |gpus|
  {
    if n == 0 then []
    else RanSlotsBelow(gpus, n - 1) + (if SlotRan(gpus[n - 1]) then [n - 1] else [])
  }

  /** The positions of all slots that ran. */
  function RanSlots(gpus: seq<GpuResponse>): seq<nat>
  {
    RanSlotsBelow(gpus, |gpus|)
  }

  /** The positions below `n` that ran are exactly the members of the list, which
      is strictly increasing. */
  lemma {:induction false} RanSlotsBelowSpec(gpus: seq<GpuResponse>, n: nat)
    requires n <= |gpus|
    ensures forall k :: 0 <= k < |RanSlotsBelow(gpus, n)| ==>
              RanSlotsBelow(gpus, n)[k] < n && SlotRan(gpus[RanSlotsBelow(gpus, n)[k]])
    ensures forall k, l :: 0 <= k < l < |RanSlotsBelow(gpus, n)| ==> RanSlotsBelow(gpus, n)[k] < RanSlotsBelow(gpus, n)[l]
    ensures forall i :: 0 <= i < n && SlotRan(gpus[i]) ==> i in RanSlotsBelow(gpus, n)
    ensures |RanSlotsBelow(gpus, n)| <= n
  {
    if n > 0 {
      var prev := RanSlotsBelow(gpus, n - 1);
      RanSlotsBelowSpec(gpus, n - 1);
      if SlotRan(gpus[n - 1]) {
        var cur := prev + [n - 1];
        assert RanSlotsBelow(gpus, n) == cur;
        assert forall k :: 0 <= k < |prev| ==> cur[k] == prev[k];
        assert cur[|prev|] == n - 1;
      } else {
        assert RanSlotsBelow(gpus, n) == prev;
      }
    }
  }

  /** A shorter scan yields a prefix of a longer one. */
  lemma {:induction false} RanSlotsBelowPrefix(gpus: seq<GpuResponse>, m: nat, n: nat)
    requires m <= n <= |gpus|
    ensures |RanSlotsBelow(gpus, m)| <= |RanSlotsBelow(gpus, n)|
    ensures RanSlotsBelow(gpus, m) == RanSlotsBelow(gpus, n)[..|RanSlotsBelow(gpus, m)|]
  {
    if m < n {
      RanSlotsBelowPrefix(gpus, m, n - 1);
    }
  }

  /** Diag::PopulateGpuList: appends to the caller's list the positions (not the
      ids) of the slots that ran, in increasing order, until the list reaches the
      response's device count. */
  method PopulateGpuList(resp: DiagResponse, gpuVec: seq<nat>) returns (out: seq<nat>)
    requires resp.Valid()
    ensures |out| >= |gpuVec| && out[..|gpuVec|] == gpuVec
    ensures forall k :: |gpuVec| <= k < |out| ==> out[k] < MaxNumDevices && SlotRan(resp.perGpuResponses[out[k]])
    ensures forall k, l :: |gpuVec| <= k < l < |out| ==> out[k] < out[l]
    ensures |out| - |gpuVec| <= |RanSlots(resp.Value().perGpu)|
    ensures out[|gpuVec|..] == RanSlots(resp.Value().perGpu)[..|out| - |gpuVec|]
    ensures |out| <= |gpuVec| || |out| <= resp.gpuCount
    ensures |out| < resp.gpuCount ==>
              forall i :: 0 <= i < MaxNumDevices && SlotRan(resp.perGpuResponses[i]) ==> i in out[|gpuVec|..]
  {
    ghost var gpus := resp.Value().perGpu;
    out := gpuVec;
    var i: nat := 0;
    while i < MaxNumDevices && |out| < resp.gpuCount
      invariant i <= MaxNumDevices
      invariant out == gpuVec + RanSlotsBelow(gpus, i)
      invariant i > 0 ==> |out| <= |gpuVec| || |out| <= resp.gpuCount
    {
      if resp.perGpuResponses[i].gpuId != MaxNumDevices {
        var someTestRan := AnyTestRan(resp.perGpuResponses[i]);
        if someTestRan {
          out := out + [i];
        }
      }
      i := i + 1;
    }
    RanSlotsBelowSpec(gpus, i);
    RanSlotsBelowSpec(gpus, MaxNumDevices);
    RanSlotsBelowPrefix(gpus, i, MaxNumDevices);
    assert out[|gpuVec|..] == RanSlotsBelow(gpus, i);
  }

  /** The inner scan of Diag::PopulateGpuList over the tests of one slot. */
  method AnyTestRan(g: GpuResponse) returns (someTestRan: bool)
    requires |g.results| == PerGpuTestCount
    ensures someTestRan <==> SomeTestRan(g)
  {
    someTestRan := false;
    var j: nat := 0;
    while j < PerGpuTestCount
      invariant j <= PerGpuTestCount
      invariant !someTestRan
      invariant forall l :: 0 <= l < j ==> g.results[l].status == NotRun
    {
      if g.results[j].status != NotRun {
        someTestRan := true;
        break;
      }
      j := j + 1;
    }
  }

  /** The response Diag::InitializeDiagResponse leaves: all zero, except that every
      device id is the sentinel that no real device has. */
  function InitialResponse(): Response
  {
    Response(0, seq(SwTestCount, _ => ZeroResult()),
             seq(MaxNumDevices, _ => GpuResponse(MaxNumDevices, seq(PerGpuTestCount, _ => ZeroResult()))),
             0, "")
  }

  /** Diag::InitializeDiagResponse: clears the struct, then stamps every device
      slot with the sentinel id. */
  method InitializeDiagResponse(resp: DiagResponse)
    requires resp.Valid()
    modifies resp, resp.levelOneResults, resp.perGpuResponses
    ensures resp.Valid() && resp.Value() == InitialResponse()
  {
    assert resp.levelOneResults.Length == SwTestCount && resp.perGpuResponses.Length == MaxNumDevices;
    var cleared := GpuResponse(0, seq(PerGpuTestCount, _ => ZeroResult()));
    resp.levelOneTestCount := 0;
    resp.gpuCount := 0;
    resp.systemError := "";
    forall i | 0 <= i < resp.levelOneResults.Length {
      resp.levelOneResults[i] := ZeroResult();
    }
    forall i | 0 <= i < resp.perGpuResponses.Length {
      resp.perGpuResponses[i] := cleared;
    }
    var i: nat := 0;
    while i < MaxNumDevices
      modifies resp.perGpuResponses
      invariant i <= MaxNumDevices
      invariant forall l :: 0 <= l < i ==> resp.perGpuResponses[l] == InitialResponse().perGpu[l]
      invariant forall l :: i <= l < MaxNumDevices ==> resp.perGpuResponses[l] == cleared
    {
      resp.perGpuResponses[i] := resp.perGpuResponses[i].(gpuId := MaxNumDevices);
      i := i + 1;
    }
    assert resp.perGpuResponses[..] == InitialResponse().perGpu;
    assert resp.levelOneResults[..] == InitialResponse().levelOne;
  }

  /** On a freshly initialised response no slot counts as ran, because every id
      is the sentinel; so the device selection appends nothing. */
  lemma {:induction false} InitialResponseRanNothing(n: nat)
    requires n <= MaxNumDevices
    ensures RanSlotsBelow(InitialResponse().perGpu, n) == []
  {
    if n > 0 {
      InitialResponseRanNothing(n - 1);
      assert !SlotRan(InitialResponse().perGpu[n - 1]);
    }
  }

  /** A freshly initialised response classifies as OK. */
  lemma InitialResponseIsOk(isIsolate: nat -> bool)
    ensures Verdict(InitialResponse(), isIsolate) == Ok
  {
  }
}
