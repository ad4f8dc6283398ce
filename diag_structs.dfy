/** The diagnostic module's sub-request messages (modules/diag/dcgm_diag_structs.h).
    Each frozen generation of the run sub-request is one constructor of a closed
    datatype; its shape is a list of typed fields, and its version tag is the
    number the generation's version macro stamps. Byte layout is not modelled. */
module DiagStructs {
  import opened Wrappers

  /** Sub-request identifiers. */
  datatype SubRequest = Run | Stop

  const SubRequestCount: nat := 2

  function SubRequestId(r: SubRequest): (id: nat)
    ensures 1 <= id <= SubRequestCount
    ensures id == SubRequestCount <==> r == Stop
  {
    match r
    case Run => 1
    case Stop => 2
  }

  function SubRequestFromId(id: nat): (r: Option<SubRequest>)
    ensures r.Some? ==> SubRequestId(r.value) == id
    ensures r.None? ==> forall s: SubRequest :: SubRequestId(s) != id
  {
    if id == 1 then Some(Run) else if id == 2 then Some(Stop) else None
  }

  /** The types a sub-request field can have. `DiagResponse(g)` is the response
      struct of generation `g` (dcgmDiagResponse_v<g>). */
  datatype FieldType = CommandHeader | PolicyAction | RunDiagV7 | DiagResponse(generation: nat)

  datatype Field = Field(name: string, ty: FieldType)

  /** The four frozen generations of the run sub-request. */
  datatype RunVersion = RunV5 | RunV6 | RunV7 | RunV8

  /** The generation the unversioned alias dcgm_diag_msg_run_t stands for. */
  const DefaultRunVersion: RunVersion := RunV8

  /** The number the generation's version macro stamps. */
  function RunVersionNumber(v: RunVersion): nat
  {
    match v
    case RunV5 => 5
    case RunV6 => 6
    case RunV7 => 7
    case RunV8 => 8
  }

  /** The response generation carried in the generation's diagResponse field. */
  function ResponseGeneration(v: RunVersion): nat
  {
    match v
    case RunV5 => 7
    case RunV6 => 8
    case RunV7 => 9
    case RunV8 => 10
  }

  /** The fields of a run message, in declaration order. */
  function RunShape(v: RunVersion): (fields: seq<Field>)
    ensures |fields| == 4
  {
    [ Field("header", CommandHeader),
      Field("action", PolicyAction),
      Field("runDiag", RunDiagV7),
      Field("diagResponse", DiagResponse(ResponseGeneration(v))) ]
  }

  /** Reads a version tag back as a run generation: a tag no generation stamps
      is a schema mismatch. */
  function RunVersionFromNumber(n: nat): (r: Option<RunVersion>)
    ensures r.Some? ==> RunVersionNumber(r.value) == n
    ensures r.None? ==> forall v: RunVersion :: RunVersionNumber(v) != n
  {
    if n == 5 then Some(RunV5)
    else if n == 6 then Some(RunV6)
    else if n == 7 then Some(RunV7)
    else if n == 8 then Some(RunV8)
    else None
  }

  lemma RunVersionTagRoundTrip(v: RunVersion)
    ensures RunVersionFromNumber(RunVersionNumber(v)) == Some(v)
  {
  }

  /** Every generation pairs the request with the response generation two above
      its own number. */
  lemma ResponseGenerationIsVersionPlusTwo(v: RunVersion)
    ensures ResponseGeneration(v) == RunVersionNumber(v) + 2
  {
  }

  /** Distinct generations stamp distinct tags and carry distinct response
      generations. */
  lemma RunVersionsDistinct(v: RunVersion, w: RunVersion)
    requires v != w
    ensures RunVersionNumber(v) != RunVersionNumber(w)
    ensures ResponseGeneration(v) != ResponseGeneration(w)
  {
  }

  /** All generations share the header, action and run-parameters fields and the
      name of the response field; only the response field's type differs, so two
      shapes are equal exactly when the generations are. */
  lemma {:induction false} RunShapesDifferOnlyInResponse(v: RunVersion, w: RunVersion)
    ensures RunShape(v)[..3] == RunShape(w)[..3]
    ensures RunShape(v)[3].name == RunShape(w)[3].name == "diagResponse"
    ensures RunShape(v) == RunShape(w) <==> v == w
  {
    if RunShape(v) == RunShape(w) {
      assert RunShape(v)[3].ty.generation == ResponseGeneration(v);
      assert RunShape(w)[3].ty.generation == ResponseGeneration(w);
      if v != w {
        RunVersionsDistinct(v, w);
      }
    }
  }

  /** The default generation is the highest one defined. */
  lemma DefaultRunVersionIsHighest(v: RunVersion)
    ensures RunVersionNumber(v) <= RunVersionNumber(DefaultRunVersion)
    ensures ResponseGeneration(v) <= ResponseGeneration(DefaultRunVersion)
  {
  }

  /** The stop sub-request has its own lineage with a single generation. */
  datatype StopVersion = StopV1

  const DefaultStopVersion: StopVersion := StopV1

  function StopVersionNumber(v: StopVersion): nat
  {
    match v
    case StopV1 => 1
  }

  function StopShape(v: StopVersion): seq<Field>
  {
    match v
    case StopV1 => [Field("header", CommandHeader)]
  }

  function StopVersionFromNumber(n: nat): (r: Option<StopVersion>)
    ensures r.Some? <==> n == 1
    ensures r.Some? ==> StopVersionNumber(r.value) == n
  {
    if n == 1 then Some(StopV1) else None
  }

  /** A stop message carries only its header: no run parameters and no
      response. */
  lemma StopShapeHasNoPayload(v: StopVersion)
    ensures |StopShape(v)| == 1 && StopShape(v)[0].name == "header"
    ensures forall f :: f in StopShape(v) ==> f.ty == CommandHeader
    ensures StopShape(DefaultStopVersion) == StopShape(v)
  {
  }
}
