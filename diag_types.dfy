/** The diagnostic response struct (dcgmDiagResponse_t) and the return codes the
    client distinguishes. The struct has fixed capacities; the response lives in
    two arrays, level-one results and the per-device table, that the client
    initialises and overwrites in place. */
module DiagTypes {

  /** Capacities of the response struct. */
  const MaxNumDevices: nat := 32     // DCGM_MAX_NUM_DEVICES; also the "no device" sentinel id
  const MaxErrors: nat := 5          // DCGM_MAX_ERRORS error slots per test result
  const PerGpuTestCount: nat := 13   // DCGM_PER_GPU_TEST_COUNT_V8 tests per device
  const SwTestCount: nat := 10       // level-one (software) tests, one per entry of levelOneTests

  /** Test status (dcgmDiagResult_t). The all-zero encoding is Pass. */
  datatype Status = Pass | Skip | Warn | Fail | NotRun

  datatype ErrorDetail = ErrorDetail(code: nat, msg: string)

  datatype TestResult = TestResult(status: Status, errors: seq<ErrorDetail>, info: string)

  datatype GpuResponse = GpuResponse(gpuId: nat, results: seq<TestResult>)

  /** The value of a whole response struct. */
  datatype Response = Response(
    levelOneTestCount: nat,
    levelOne: seq<TestResult>,
    perGpu: seq<GpuResponse>,
    gpuCount: nat,
    systemError: string)

  /** Return codes (dcgmReturn_t) the client treats specially; any other code is
      `OtherError`. */
  datatype ReturnCode =
    | Ok
    | NvvsError
    | NvvsIsolateError
    | NvvsKilled
    | GroupIncompatible
    | NotSupported
    | Paused
    | Timeout
    | OtherError(code: int)

  const ZeroError: ErrorDetail := ErrorDetail(0, "")

  /** A test result cleared to all zero bytes. */
  function ZeroResult(): TestResult
  {
    TestResult(Pass, seq(MaxErrors, _ => ZeroError), "")
  }

  predicate WellShapedResult(t: TestResult)
  {
    |t.errors| == MaxErrors
  }

  predicate WellShapedGpu(g: GpuResponse)
  {
    |g.results| == PerGpuTestCount && forall j :: 0 <= j < |g.results| ==> WellShapedResult(g.results[j])
  }

  /** The response fits the fixed capacities of the struct; the level-one count
      never exceeds the level-one table, since the code indexes the table by it. */
  predicate WellShaped(v: Response)
  {
    && |v.levelOne| == SwTestCount
    && |v.perGpu| == MaxNumDevices
    && v.levelOneTestCount <= SwTestCount
    && (forall i :: 0 <= i < |v.levelOne| ==> WellShapedResult(v.levelOne[i]))
    && (forall i :: 0 <= i < |v.perGpu| ==> WellShapedGpu(v.perGpu[i]))
  }

  /** The response struct: scalar fields plus the two fixed-size tables. */
  class DiagResponse {
    var levelOneTestCount: nat
    const levelOneResults: array<TestResult>
    const perGpuResponses: array<GpuResponse>
    var gpuCount: nat
    var systemError: string

    ghost predicate Valid()
      reads this, levelOneResults, perGpuResponses
    {
      WellShaped(Value())
    }

    function Value(): Response
      reads this, levelOneResults, perGpuResponses
    {
      Response(levelOneTestCount, levelOneResults[..], perGpuResponses[..], gpuCount, systemError)
    }

    /** A value-initialised struct (std::make_unique): every byte zero. */
    constructor ()
      ensures Valid() && fresh(levelOneResults) && fresh(perGpuResponses)
      ensures Value() == Response(0, seq(SwTestCount, _ => ZeroResult()),
                                  seq(MaxNumDevices, _ => GpuResponse(0, seq(PerGpuTestCount, _ => ZeroResult()))),
                                  0, "")
    {
      levelOneTestCount := 0;
      levelOneResults := new TestResult[SwTestCount](_ => ZeroResult());
      perGpuResponses := new GpuResponse[MaxNumDevices](_ => GpuResponse(0, seq(PerGpuTestCount, _ => ZeroResult())));
      gpuCount := 0;
      systemError := "";
    }

    /** Struct assignment: the whole response is overwritten by `v`. */
    method Assign(v: Response)
      requires Valid() && WellShaped(v)
      modifies this, levelOneResults, perGpuResponses
      ensures Valid() && Value() == v
    {
      levelOneTestCount := v.levelOneTestCount;
      gpuCount := v.gpuCount;
      systemError := v.systemError;
      forall i | 0 <= i < levelOneResults.Length {
        levelOneResults[i] := v.levelOne[i];
      }
      forall i | 0 <= i < perGpuResponses.Length {
        perGpuResponses[i] := v.perGpu[i];
      }
    }
  }
}
