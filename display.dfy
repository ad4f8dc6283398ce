/** The value helpers behind the result table: the display word of a test status
    (Diag::HelperDisplayDiagResult), the display name of a plugin test
    (Diag::HelperGetPluginName) and the per-status grouping of devices that
    Diag::HelperDisplayGpuResults prints. */
module DiagDisplay {
  import opened DiagTypes

  /** Diag::HelperDisplayDiagResult: Pass and Skip have their own word; every
      other status, Warn and NotRun included, is shown as "Fail". */
  function HelperDisplayDiagResult(s: Status): (r: string)
    ensures r == "Pass" <==> s == Pass
    ensures r == "Skip" <==> s == Skip
    ensures r == "Fail" <==> s != Pass && s != Skip
  {
    if s == Pass then "Pass"
    else if s == Skip then "Skip"
    else "Fail"
  }

  /** The table shows "Fail" for a warning and for a test that did not run,
      although neither is a failure for the verdict. */
  lemma DisplayedFailIsNotAlwaysFailure(s: Status)
    requires HelperDisplayDiagResult(s) == "Fail"
    ensures s in {Warn, Fail, NotRun}
  {
  }

  /** The per-device test slots the client names. An index none of them covers is
      `Unlisted`. */
  datatype TestIndex =
    | MemoryIndex
    | DiagnosticIndex
    | PciIndex
    | SmStressIndex
    | TargetedStressIndex
    | TargetedPowerIndex
    | MemoryBandwidthIndex
    | MemtestIndex
    | PulseTestIndex
    | EudTestIndex
    | ContextCreateIndex
    | Unlisted(index: nat)

  const NameMemory: string := "GPU Memory"
  const NameContextCreate: string := "Context Create"
  const NameDiagnostic: string := "Diagnostic"
  const NamePcie: string := "PCIe"
  const NameSmStress: string := "SM Stress"
  const NameTargetedStress: string := "Targeted Stress"
  const NameTargetedPower: string := "Targeted Power"
  const NameMemoryBandwidth: string := "Memory Bandwidth"
  const NameMemtest: string := "Memtest"
  const NamePulseTest: string := "Pulse Test"
  const NameEudTest: string := "EUD Test"

  /** Diag::HelperGetPluginName. The memory slot is shared with the context-create
      test, which runs alone and stores its result there; `firstTestIsContextCreate`
      is the case-insensitive comparison of the first requested test name. */
  function HelperGetPluginName(index: TestIndex, firstTestIsContextCreate: bool): (r: string)
    ensures r == "" <==> index.Unlisted?
    ensures r == NameContextCreate <==> index == ContextCreateIndex || (index == MemoryIndex && firstTestIsContextCreate)
    ensures r == NameMemory <==> index == MemoryIndex && !firstTestIsContextCreate
  {
    match index
    case MemoryIndex => if firstTestIsContextCreate then NameContextCreate else NameMemory
    case DiagnosticIndex => NameDiagnostic
    case PciIndex => NamePcie
    case SmStressIndex => NameSmStress
    case TargetedStressIndex => NameTargetedStress
    case TargetedPowerIndex => NameTargetedPower
    case MemoryBandwidthIndex => NameMemoryBandwidth
    case MemtestIndex => NameMemtest
    case PulseTestIndex => NamePulseTest
    case EudTestIndex => NameEudTest
    case ContextCreateIndex => NameContextCreate
    case Unlisted(_) => ""
  }

  /** Two listed slots share a display name only when one of them is the memory
      slot standing for the context-create test. */
  lemma PluginNamesDistinct(i: TestIndex, j: TestIndex, flag: bool)
    requires !i.Unlisted? && !j.Unlisted? && i != j
    requires HelperGetPluginName(i, flag) == HelperGetPluginName(j, flag)
    ensures flag && {i, j} == {MemoryIndex, ContextCreateIndex}
  {
  }

  /** The device ids HelperDisplayGpuResults groups under each status, in the
      order of the device list. A device whose test did not run is in none. */
  datatype Buckets = Buckets(passed: seq<nat>, skipped: seq<nat>, warned: seq<nat>, failed: seq<nat>)

  /** The ids of the listed devices whose result in `slot` has status `s`. */
  function IdsWith(diag: seq<GpuResponse>, gpuIndices: seq<nat>, slot: nat, s: Status): seq<nat>
    requires forall i :: 0 <= i < |gpuIndices| ==> gpuIndices[i] < |diag| && slot < |diag[gpuIndices[i]].results|
  {
    if gpuIndices == [] then []
    else
      var last := diag[gpuIndices[|gpuIndices| - 1]];
      IdsWith(diag, gpuIndices[..|gpuIndices| - 1], slot, s) + (if last.results[slot].status == s then [last.gpuId] else [])
  }

  function CountWith(diag: seq<GpuResponse>, gpuIndices: seq<nat>, slot: nat, s: Status): nat
    requires forall i :: 0 <= i < |gpuIndices| ==> gpuIndices[i] < |diag| && slot < |diag[gpuIndices[i]].results|
  {
    |IdsWith(diag, gpuIndices, slot, s)|
  }

  /** Every listed device has a status, so the five groups (the four buckets and
      the devices that did not run the test) add up to the list. */
  lemma {:induction false} BucketsPartition(diag: seq<GpuResponse>, gpuIndices: seq<nat>, slot: nat)
    requires forall i :: 0 <= i < |gpuIndices| ==> gpuIndices[i] < |diag| && slot < |diag[gpuIndices[i]].results|
    ensures CountWith(diag, gpuIndices, slot, Pass) + CountWith(diag, gpuIndices, slot, Skip)
            + CountWith(diag, gpuIndices, slot, Warn) + CountWith(diag, gpuIndices, slot, Fail)
            + CountWith(diag, gpuIndices, slot, NotRun) == |gpuIndices|
  {
    if gpuIndices != [] {
      BucketsPartition(diag, gpuIndices[..|gpuIndices| - 1], slot);
    }
  }

  /** A status holds for all listed devices exactly when its bucket has as many
      entries as the list. */
  lemma {:induction false} FullBucketMeansAll(diag: seq<GpuResponse>, gpuIndices: seq<nat>, slot: nat, s: Status)
    requires forall i :: 0 <= i < |gpuIndices| ==> gpuIndices[i] < |diag| && slot < |diag[gpuIndices[i]].results|
    ensures CountWith(diag, gpuIndices, slot, s) == |gpuIndices|
            <==> forall i :: 0 <= i < |gpuIndices| ==> diag[gpuIndices[i]].results[slot].status == s
    ensures CountWith(diag, gpuIndices, slot, s) <= |gpuIndices|
  {
    if gpuIndices != [] {
      var init := gpuIndices[..|gpuIndices| - 1];
      FullBucketMeansAll(diag, init, slot, s);
      assert forall i :: 0 <= i < |init| ==> init[i] == gpuIndices[i];
    }
  }

  /** The headline of a test row: one word for the whole list, or the mixed form
      that lists the buckets. */
  datatype Summary = PassAll | SkipAll | FailAll | WarnAll | Mixed

  /** The order of the headline checks: Pass, Skip, Fail, then Warn. */
  function SummaryOf(numGpus: nat, b: Buckets): Summary
  {
    if |b.passed| == numGpus then PassAll
    else if |b.skipped| == numGpus then SkipAll
    else if |b.failed| == numGpus then FailAll
    else if |b.warned| == numGpus then WarnAll
    else Mixed
  }

  /** The grouping loop of Diag::HelperDisplayGpuResults over the device list, for
      the result slot `slot` (the context-create test already moved to slot 0). */
  method BucketGpuResults(diagResults: array<GpuResponse>, slot: nat, gpuIndices: seq<nat>) returns (b: Buckets)
    requires forall i :: 0 <= i < |gpuIndices| ==> gpuIndices[i] < diagResults.Length && slot < |diagResults[gpuIndices[i]].results|
    ensures b.passed == IdsWith(diagResults[..], gpuIndices, slot, Pass)
    ensures b.skipped == IdsWith(diagResults[..], gpuIndices, slot, Skip)
    ensures b.warned == IdsWith(diagResults[..], gpuIndices, slot, Warn)
    ensures b.failed == IdsWith(diagResults[..], gpuIndices, slot, Fail)
  {
    var passed, skipped, warned, failed := [], [], [], [];
    var i := 0;
    while i < |gpuIndices|
      invariant i <= |gpuIndices|
      invariant passed == IdsWith(diagResults[..], gpuIndices[..i], slot, Pass)
      invariant skipped == IdsWith(diagResults[..], gpuIndices[..i], slot, Skip)
      invariant warned == IdsWith(diagResults[..], gpuIndices[..i], slot, Warn)
      invariant failed == IdsWith(diagResults[..], gpuIndices[..i], slot, Fail)
    {
      assert gpuIndices[..i + 1][..i] == gpuIndices[..i];
      var gpuIndex := gpuIndices[i];
      var status := diagResults[gpuIndex].results[slot].status;
      if status == Pass {
        passed := passed + [diagResults[gpuIndex].gpuId];
      } else if status == Skip {
        skipped := skipped + [diagResults[gpuIndex].gpuId];
      } else if status == Warn {
        warned := warned + [diagResults[gpuIndex].gpuId];
      } else if status == Fail {
        failed := failed + [diagResults[gpuIndex].gpuId];
      }
      i := i + 1;
    }
    assert gpuIndices[..i] == gpuIndices;
    b := Buckets(passed, skipped, warned, failed);
  }

  /** Every listed device has status `s` in `slot`. */
  predicate AllWith(diag: seq<GpuResponse>, gpuIndices: seq<nat>, slot: nat, s: Status)
    requires forall i :: 0 <= i < |gpuIndices| ==> gpuIndices[i] < |diag| && slot < |diag[gpuIndices[i]].results|
  {
    forall i :: 0 <= i < |gpuIndices| ==> diag[gpuIndices[i]].results[slot].status == s
  }

  /** The headline says a status for all devices exactly when every listed device
      has it and no earlier headline check (Pass, Skip, Fail, then Warn) matched;
      a list where no status is shared by all is shown in the mixed form. */
  lemma SummaryMeaning(diag: seq<GpuResponse>, gpuIndices: seq<nat>, slot: nat)
    requires forall i :: 0 <= i < |gpuIndices| ==> gpuIndices[i] < |diag| && slot < |diag[gpuIndices[i]].results|
    ensures var b := Buckets(IdsWith(diag, gpuIndices, slot, Pass), IdsWith(diag, gpuIndices, slot, Skip),
                             IdsWith(diag, gpuIndices, slot, Warn), IdsWith(diag, gpuIndices, slot, Fail));
            && (SummaryOf(|gpuIndices|, b) == PassAll <==> AllWith(diag, gpuIndices, slot, Pass))
            && (SummaryOf(|gpuIndices|, b) == SkipAll
                <==> AllWith(diag, gpuIndices, slot, Skip) && !AllWith(diag, gpuIndices, slot, Pass))
            && (SummaryOf(|gpuIndices|, b) == FailAll
                <==> && AllWith(diag, gpuIndices, slot, Fail)
                     && !AllWith(diag, gpuIndices, slot, Pass) && !AllWith(diag, gpuIndices, slot, Skip))
            && (SummaryOf(|gpuIndices|, b) == WarnAll
                <==> && AllWith(diag, gpuIndices, slot, Warn) && !AllWith(diag, gpuIndices, slot, Pass)
                     && !AllWith(diag, gpuIndices, slot, Skip) && !AllWith(diag, gpuIndices, slot, Fail))
            && (SummaryOf(|gpuIndices|, b) == Mixed
                <==> && !AllWith(diag, gpuIndices, slot, Pass) && !AllWith(diag, gpuIndices, slot, Skip)
                     && !AllWith(diag, gpuIndices, slot, Fail) && !AllWith(diag, gpuIndices, slot, Warn))
  {
    FullBucketMeansAll(diag, gpuIndices, slot, Pass);
    FullBucketMeansAll(diag, gpuIndices, slot, Skip);
    FullBucketMeansAll(diag, gpuIndices, slot, Warn);
    FullBucketMeansAll(diag, gpuIndices, slot, Fail);
  }

  /** An empty device list is shown as passing throughout. */
  lemma EmptyListSummary(diag: seq<GpuResponse>, slot: nat)
    ensures SummaryOf(0, Buckets(IdsWith(diag, [], slot, Pass), IdsWith(diag, [], slot, Skip),
                                 IdsWith(diag, [], slot, Warn), IdsWith(diag, [], slot, Fail))) == PassAll
  {
  }
}
