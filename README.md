# DCGM diagnostic client — a Dafny model

This project models the client side of the DCGM diagnostic command (`dcgmi diag`,
file `dcgmi/Diag.cpp`) together with the versioned diagnostic sub-request
messages (`modules/diag/dcgm_diag_structs.h`), and proves properties of the model.

What is modelled, one module per concern:

- `DiagStructs`: the run sub-request in its four frozen generations (v5 to v8),
  each with the response generation it carries, and the stop sub-request v1. A
  generation is a constructor of a closed datatype. A version-to-shape function
  gives its fields, and the number its version macro stamps is the tag.
- `DiagTypes`: the response struct `dcgmDiagResponse_t`, with its fixed
  capacities and the return codes the client tells apart. The struct is a class
  over two arrays, the level-one results and the device-by-test table.
- `Classifier`: `GetFailureResult`, `PopulateGpuList` and
  `InitializeDiagResponse`, as nested bounded loops over the arrays. The error
  priority lookup `dcgmErrorGetPriorityByCode` is a parameter `isIsolate`.
- `DiagText`: `isWhitespace`, `Sanitize` and the 45-character row splitting of
  `DisplayVerboseInfo`.
- `DiagArgs`: `validGpuListFormat` and the `=` check that `StartDiag::StartDiag`
  makes on the `;`-separated parameters.
- `DiagDisplay`: `HelperDisplayDiagResult`, `HelperGetPluginName`, and the
  per-status grouping and headline of `HelperDisplayGpuResults`.
- `Cancellation`: the process-wide flags `g_signalExit`,
  `diag_stopDiagOnSignal` and `diag_installed_sig_handlers`, the saved previous
  handlers, and the handler table of the process. The table is a map from the
  four signals to a handler: default, ignore, the client's own handler, or
  another function. The state is the class `SignalBridge`, and
  `handle_signal_during_diag` and `InstallSigHandlers` are its methods. The
  `RUN_OLD_HANDLER` chaining rule is a pure function from the previous handler to
  the steps it takes.
- `RunControl`: the class `Diag`, with `ExecuteDiagOnServer`, `RunDiagOnce` and
  `RunStartDiag`.
  - The executor thread is an abstract sequence of polls. Each poll says whether
    a signal arrived since the previous poll and whether the thread has exited.
    A signal may also arrive after the last poll, while the handler still sees a
    diagnostic running (`lateSignal`).
  - Each run is given the status and response the executor leaves.
  - The calls the client makes into the host engine (launching a run, aborting,
    stopping the executor, `dcgmStopDiagnostic`) are kept in a log of actions.

Two behaviours of the code worth noting:

- The code never lowers `g_signalExit` again once a signal has set it.
  `handle_signal_during_diag` only raises it, and nothing in `dcgmi/Diag.cpp`
  writes `false` to it. A signal can also arrive after the last test of the
  flag in the poll loop but before `diag_stopDiagOnSignal` is cleared; it still
  raises the flag, although the run returns the executor's status. Either way a
  request left over from one run kills the next run at its first poll
  (`FlagNeverLowered`, `LeftoverRequestKillsNext`).
- `HelperDisplayDiagResult` shows "Fail" for Warn and for NotRun too
  (`DisplayedFailIsNotAlwaysFailure`).

## Model

| member | source | states |
|---|---|---|
| DiagStructs.SubRequestId | modules/diag/dcgm_diag_structs.h:23-25 | the run and stop ids lie between 1 and the count, and the id equal to the count is the stop id, the highest one |
| DiagStructs.SubRequestFromId | modules/diag/dcgm_diag_structs.h:23-25 | reading an id back gives the sub-request with that id, or none when no sub-request has it |
| DiagStructs.RunShape | modules/diag/dcgm_diag_structs.h:35-91 | every run generation has four fields |
| DiagStructs.RunVersionFromNumber | modules/diag/dcgm_diag_structs.h:44-93 | a tag reads back as the generation that stamps it; a tag no generation stamps is rejected |
| DiagStructs.RunVersionTagRoundTrip | modules/diag/dcgm_diag_structs.h:44-93 | stamping a generation's tag and reading it back gives the same generation |
| DiagStructs.ResponseGenerationIsVersionPlusTwo | modules/diag/dcgm_diag_structs.h:35-91 | run v5, v6, v7, v8 carry response v7, v8, v9, v10: the message version plus two |
| DiagStructs.RunVersionsDistinct | modules/diag/dcgm_diag_structs.h:44-93 | distinct generations stamp distinct tags and carry distinct response generations |
| DiagStructs.RunShapesDifferOnlyInResponse | modules/diag/dcgm_diag_structs.h:35-91 | all generations share header, action and runDiag in that order and the response field's name; two shapes are equal exactly when the generations are |
| DiagStructs.DefaultRunVersionIsHighest | modules/diag/dcgm_diag_structs.h:44-48 | the default run version (generation 8) has the highest tag and response generation |
| DiagStructs.StopVersionFromNumber | modules/diag/dcgm_diag_structs.h:100-108 | the stop lineage accepts exactly tag 1 |
| DiagStructs.StopShapeHasNoPayload | modules/diag/dcgm_diag_structs.h:100-108 | the stop message holds only its header, and its one generation is the default |
| DiagTypes.DiagResponse.constructor | dcgmi/Diag.cpp:352 | a value-initialised response is all zero |
| DiagTypes.DiagResponse.Assign | dcgmi/Diag.cpp:485 | struct assignment replaces the whole response value |
| Classifier.Verdict | dcgmi/Diag.cpp:245-290 | the verdict is the isolate error exactly when a scanned failed entry has an isolate-priority error, OK exactly when no scanned entry failed, and otherwise the generic error |
| Classifier.IsolatingFailureIsFailure | dcgmi/Diag.cpp:250-257 | an isolating failure is a failure |
| Classifier.GetFailureResult | dcgmi/Diag.cpp:245-290 | the scan over the level-one results below the count and over every test of every device slot returns the isolate error, the generic error or OK with both directions of each condition |
| Classifier.VerdictIgnoresDeviceOrder | dcgmi/Diag.cpp:266-287 | reordering the device slots does not change the verdict |
| Classifier.RanSlotsBelowSpec | dcgmi/Diag.cpp:295-311 | the slots that ran below n are listed strictly increasing, each below n and each having run, and none is missing |
| Classifier.RanSlotsBelowPrefix | dcgmi/Diag.cpp:295-311 | a shorter scan yields a prefix of a longer one |
| Classifier.AnyTestRan | dcgmi/Diag.cpp:299-306 | the inner scan finds a test whose status is not NotRun exactly when one exists |
| Classifier.PopulateGpuList | dcgmi/Diag.cpp:292-313 | the caller's list is kept; slot positions are appended, not ids, strictly increasing and below the capacity, and only of slots with a real id and a test that ran; they are the first slots that ran, in order; appending stops at the device count, and below the count every slot that ran is appended |
| Classifier.InitializeDiagResponse | dcgmi/Diag.cpp:315-324 | the response is all zero except that every device id is the sentinel |
| Classifier.InitialResponseRanNothing | dcgmi/Diag.cpp:315-324 | on a fresh response no slot counts as ran, so device selection appends nothing |
| Classifier.InitialResponseIsOk | dcgmi/Diag.cpp:315-324 | a fresh response classifies as OK |
| DiagText.WhitespaceCharacters | dcgmi/Diag.cpp:702-719 | whitespace is exactly space, newline, tab, carriage return and form feed; vertical tab is not |
| DiagText.FindMarker | dcgmi/Diag.cpp:728 | the position found is the first marker at or after the start, and no position holds one when none is found |
| DiagText.AfterMarker | dcgmi/Diag.cpp:728-735 | the text after the first marker, or the whole text when there is none |
| DiagText.Trim | dcgmi/Diag.cpp:737-749 | the result is a contiguous piece of the text with only whitespace cut around it, and neither its first nor its last character is whitespace |
| DiagText.Sanitize | dcgmi/Diag.cpp:722-750 | the result is a whitespace-trimmed contiguous piece of the text after the first marker, with no leading or trailing whitespace |
| DiagText.TrimmedWitness | dcgmi/Diag.cpp:737-749 | a cut with whitespace outside it is a trimmed piece |
| DiagText.DisplayVerboseInfo | dcgmi/Diag.cpp:753-770 | the rows are ceil(length/45) pieces that concatenate to the information; all but the last are 45 characters long, the last is non-empty, and only the first row carries the label |
| DiagArgs.PiecesRoundTrip | dcgmi/Diag.cpp:1360-1361 | cutting at the delimiter and joining again gives back the text, and no piece holds the delimiter |
| DiagArgs.TokenizeRoundTrip | dcgmi/Diag.cpp:1360-1361 | the same for the tokens of a non-empty text |
| DiagArgs.ValidGpuListFormat | dcgmi/Diag.cpp:1356-1373 | the list is valid exactly when every comma-separated token starts with a decimal digit |
| DiagArgs.CheckStartArguments | dcgmi/Diag.cpp:1296-1346 | a parameter without '=' is rejected first; otherwise a device list with a token not starting with a digit is rejected; when no configuration file is read, no other error is raised |
| DiagDisplay.HelperDisplayDiagResult | dcgmi/Diag.cpp:687-699 | "Pass" exactly for Pass, "Skip" exactly for Skip, "Fail" for every other status |
| DiagDisplay.DisplayedFailIsNotAlwaysFailure | dcgmi/Diag.cpp:687-699 | a status shown as "Fail" is Warn, Fail or NotRun |
| DiagDisplay.HelperGetPluginName | dcgmi/Diag.cpp:1027-1071 | an unlisted index has the empty name; the memory slot is named after the context-create test exactly when that is the first test requested |
| DiagDisplay.PluginNamesDistinct | dcgmi/Diag.cpp:1027-1071 | two listed slots share a name only when they are the memory slot standing for context create and the context-create slot |
| DiagDisplay.BucketsPartition | dcgmi/Diag.cpp:842-862 | the four buckets and the devices that did not run add up to the device list |
| DiagDisplay.FullBucketMeansAll | dcgmi/Diag.cpp:842-862 | a bucket as long as the list means every listed device has that status, and conversely |
| DiagDisplay.BucketGpuResults | dcgmi/Diag.cpp:842-862 | the grouping loop puts the ids of the devices with each status in that status's bucket, in list order |
| DiagDisplay.SummaryOf | dcgmi/Diag.cpp:864-905 | the headline checks in the code's order; its meaning is given by SummaryMeaning and EmptyListSummary |
| DiagDisplay.SummaryMeaning | dcgmi/Diag.cpp:864-905 | the headline is "Pass - All", "Skip - All", "Fail - All" or "Warn - All" exactly when every device has that status and none of the earlier checks (Pass, Skip, Fail, Warn in that order) matched, and is mixed exactly when no status is shared by all |
| DiagDisplay.EmptyListSummary | dcgmi/Diag.cpp:864-870 | an empty device list reads as "Pass - All" |
| Cancellation.OnSignal | dcgmi/Diag.cpp:162-168 | the exit request is raised exactly when it was already up or a diagnostic is running; nothing else changes |
| Cancellation.Install | dcgmi/Diag.cpp:170-182 | after installation the handlers are installed, and the flags are unchanged |
| Cancellation.InstallCoherent | dcgmi/Diag.cpp:170-182 | installing keeps the table and the saved handlers coherent, and the first installation saves the table the process had |
| Cancellation.InstallIdempotent | dcgmi/Diag.cpp:172-176 | a second installation changes nothing, so no saved handler is ever the client's own |
| Cancellation.SignalOutsideRunIgnored | dcgmi/Diag.cpp:164-167 | a signal while no diagnostic runs changes nothing; one during a run requests the exit |
| Cancellation.RunOldHandler | dcgmi/Diag.cpp:141-149 | an ignored signal does nothing; the previous handler is called exactly when it is neither the default nor ignore, and no other handler is called; the signal is raised again exactly when the previous handler is the default |
| Cancellation.RunOldHandlerRestoresTable | dcgmi/Diag.cpp:141-149 | chaining to the default action raises the signal at a point where the table holds the default action for it and is otherwise unchanged; every chaining leaves the table as it was |
| Cancellation.ChainingNeverRecurses | dcgmi/Diag.cpp:141-182 | after installation, chaining to a saved handler never calls the client's handler |
| Cancellation.SignalBridge.constructor | dcgmi/Diag.cpp:123-131 | program start: all flags false and the saved handlers are the default |
| Cancellation.SignalBridge.HandleSignalDuringDiag | dcgmi/Diag.cpp:162-168 | the state becomes OnSignal of the old state |
| Cancellation.SignalBridge.SetNewHandlerAndSaveOld | dcgmi/Diag.cpp:150-159 | the signal's entry becomes the client's handler and its previous entry is saved |
| Cancellation.SignalBridge.InstallSigHandlers | dcgmi/Diag.cpp:170-182 | the state becomes Install of the old state, and stays coherent |
| RunControl.Poll | dcgmi/Diag.cpp:472-491 | the poll loop ends killed at the first poll where the exit request is up, even when the executor has also exited; it ends with the executor's result only at an exit poll with no request; the polls before either are quiet |
| RunControl.KilledIffSignalFirst | dcgmi/Diag.cpp:472-491 | the run is killed exactly when the exit request is seen no later than the first exit |
| RunControl.EndsTerminates | dcgmi/Diag.cpp:472-491 | a run whose executor exits or is signalled does not poll for ever |
| RunControl.StatusToCode | dcgmi/Diag.cpp:366-457 | the code is the status, NVVS_ERROR or the verdict, and it is OK exactly when the status and the verdict are OK and no system error shows in table mode; the branch by branch meaning is given by SuccessfulStatusCode and FailingStatusReturnedVerbatim |
| RunControl.OnceCode | dcgmi/Diag.cpp:350-497 | the code of one run; its meaning is given by OnceCodeOfServerCall, OnceOkIff, OnceIsolateIff and OkMeansNotKilled |
| RunControl.SuccessfulStatusCode | dcgmi/Diag.cpp:409-457 | on an OK status a system error in table mode gives NVVS_ERROR; otherwise the verdict is returned |
| RunControl.FailingStatusReturnedVerbatim | dcgmi/Diag.cpp:366-407 | GROUP_INCOMPATIBLE, NOT_SUPPORTED, PAUSED and every other failing status are returned unchanged |
| RunControl.OnceOkIff | dcgmi/Diag.cpp:350-460 | a run returns OK exactly when it was not killed, the executor reported OK, no system error shows in table mode and no scanned test failed |
| RunControl.OnceIsolateIff | dcgmi/Diag.cpp:350-460 | a run returns the isolate error exactly when the executor did, or reported OK on a response with an isolating failure |
| RunControl.OkMeansNotKilled | dcgmi/Diag.cpp:474-480 | a successful run had no exit request pending |
| RunControl.StopSentIffTimeout | dcgmi/Diag.cpp:395-407 | the compensating stop is sent exactly when the status is TIMEOUT, and TIMEOUT is still returned |
| RunControl.OnceCodeOfServerCall | dcgmi/Diag.cpp:350-460 | the code of a run is the status decision on what the server call leaves: its status and the response held, which is the fresh one unless the executor exited |
| RunControl.FlagAfter | dcgmi/Diag.cpp:162-168 | the exit request after a run; a request that was up stays up; the rest of its meaning is given by FlagNeverLowered, LeftoverRequestKillsNext and the ExecuteDiagOnServer contract |
| RunControl.FlagNeverLowered | dcgmi/Diag.cpp:162-168 | once the exit request is up before some run, it is up before every later run |
| RunControl.LeftoverRequestKillsNext | dcgmi/Diag.cpp:474-494 | a request left by one run, a late signal included, kills the next run at its first poll, so it returns NVVS_KILLED |
| RunControl.CodesAt | dcgmi/Diag.cpp:519-521 | the code of the k-th run of the loop is that of its executor entered with the exit request the loop holds then: the caller's for the first run, otherwise the one the late signal of the run before left |
| RunControl.EntryFlagAgrees | dcgmi/Diag.cpp:514-535 | when the runs before the k-th all succeeded, the exit request the k-th run is entered with is the one the runs leave one after the other |
| RunControl.RunsFrom | dcgmi/Diag.cpp:514-535 | the loop started at run i makes at least i and at most n runs |
| RunControl.RunsFromStops | dcgmi/Diag.cpp:514-535 | the loop makes the runs up to and including the first failing one, every run before that one succeeding, or all of them when none fails |
| RunControl.RunsUpToFirstFailure | dcgmi/Diag.cpp:514-535 | the number of runs is the first failing index plus one |
| RunControl.IterationsCode | dcgmi/Diag.cpp:510-535 | the code of the fail-fast loop; its meaning is given by IterationsCodeSpec, FailingRunIsLast and AllRunsSucceed |
| RunControl.IterationsCodeSpec | dcgmi/Diag.cpp:514-535 | the iterated runs succeed exactly when every run does; otherwise the code is the first failing run's, and that run is the last one made |
| RunControl.FailingRunIsLast | dcgmi/Diag.cpp:525-534 | a run that fails after runs that all succeeded is the last run made, and its code is the overall code |
| RunControl.AllRunsSucceed | dcgmi/Diag.cpp:514-535 | when every run succeeds, all n runs are made and the result is OK |
| RunControl.RunLogs | dcgmi/Diag.cpp:514-535 | one log of calls per run |
| RunControl.RunLogsAt | dcgmi/Diag.cpp:519-521 | the k-th log is that of the run made with current iteration k and the total count set, entered with the exit request the loop holds then |
| RunControl.ConcatExtend | dcgmi/Diag.cpp:514-535 | one more run appends its log |
| RunControl.LaunchesAppend | dcgmi/Diag.cpp:463-497 | the launches of two logs in a row are the launches of each in a row |
| RunControl.OnceLaunchesOne | dcgmi/Diag.cpp:465-470 | each run launches once, with the parameters it was given |
| RunControl.ConcatLaunches | dcgmi/Diag.cpp:510-521 | logs that each launch their own iteration's parameters once launch, one after the other, iterations 0, 1, ... in order |
| RunControl.IterationLaunches | dcgmi/Diag.cpp:510-521 | the iterated runs launch iterations 0, 1, ... in order, each with the total count set, one launch per run made |
| RunControl.AfterRunsFlag | dcgmi/Diag.cpp:508-535 | after the runs of the loop, all but the last of which succeeded, the exit request is the one the runs leave one after the other, and a request that was up at the start is still up |
| RunControl.Diag.constructor | dcgmi/Diag.cpp:221-242 | the client holds the iteration count, host, output mode and run parameters |
| RunControl.Diag.ExecuteDiagOnServer | dcgmi/Diag.cpp:463-497 | the result is NVVS_KILLED or the executor's status as the poll loop decides; the response is replaced only when the executor exited; on return the exit request is up exactly when it was up, the run was killed or a signal came after the last poll, the running flag is false and nothing else in the signal state changed; the launch, and the abort with the executor stop when killed, are logged |
| RunControl.Diag.RunDiagOnce | dcgmi/Diag.cpp:350-460 | the code is the status-to-code decision on the server result and response; the handlers are installed, the table the process had being saved on the first installation; the exit request is as the run left it and no diagnostic runs; the calls logged are those of one run |
| RunControl.Diag.ConcludeRun | dcgmi/Diag.cpp:366-457 | statuses are mapped in the code's order, the stop is logged only for TIMEOUT, and an OK status gives the classifier's verdict |
| RunControl.Diag.RunStartDiag | dcgmi/Diag.cpp:500-557 | with at most one iteration exactly one run is made, with the code, signal state and calls of one run and the parameters unchanged; otherwise the runs stop at the first failure and its code is returned, the signal state is the one the runs made leave (handlers installed, the old table saved on the first installation, the exit request as the last run left it, no diagnostic running), the parameters hold the total count and the last run's iteration, and the calls are the logs of exactly the runs made |
| RunControl.Diag.RunIterations | dcgmi/Diag.cpp:508-535 | the code is the first failing run's or OK; the signal state is the one the runs made leave (handlers installed, the old table saved on the first installation, the exit request as the last run left it, no diagnostic running); the parameters hold the total count and the last run's iteration; the calls made are the logs of the runs performed, in order |
| RunControl.Diag.RunIteration | dcgmi/Diag.cpp:519-521 | the current iteration is set to i before the run; the code, the calls and the signal state after the run are those of the i-th run entered in the state the earlier runs left; after a success the exit request is the one the next run is entered with, which only a late signal can have raised |

## Left out

- Display and JSON output: the table stencils, `HelperDisplay*` other than the grouping and headline logic, `HelperJson*` and the failure messages. `HelperDisplayAsJson` always returns OK, so the model classifies the response directly.
- The device list given on the command line, turned into numbers by `strtol`, only feeds the display. It is not modelled. Device selection from the response is.
- Threads and timing: `RemoteDiagExecutor` and the 100 ms sleep. They are replaced by the sequence of polls.
- Host-engine calls: `dcgmActionValidate_v2`, `dcgmStopDiagnostic`, `AbortDiag::Execute` and the executor's `Stop`. The status and response of a run are inputs, and the calls are recorded in the action log. Whether `dcgmStopDiagnostic` itself fails only changes a message, so it is not modelled.
- `dcgmErrorGetPriorityByCode` is the parameter `isIsolate`.
- `dcgmTokenizeString` is not part of this model. `Tokenize` assumes it cuts at every delimiter and keeps empty pieces, and that it gives no token for the empty text.
- The operating-system signal interface (`sigaction`, `signal`, `raise`): only the handler table is modelled, not the delivery of signals or async-signal safety. The masks set up by `SET_NEW_HANDLER_AND_SAVE_OLD_HANDLER` are left out.
- Reading the configuration file and `filesize`, the listener and embedded host-engine start-up (`StartListenerServer`, `DoExecuteConnected`, `DoExecuteConnectionFailure`), and `AbortDiag`.
- Byte layout: `memset`/`memcpy` sizes, the struct version fields and the `MAKE_DCGM_VERSION` macro. The version number itself is the tag.
- The numeric values of the test indexes and of the status enumeration come from `dcgm_structs.h`, which is not part of this model. Test slots are a datatype, and the zero status is taken to be Pass.
- The capacities (32 devices, 5 error slots, 13 tests per device, 10 level-one tests) are taken from the same header. The proofs use only their values as constants.
- Moving the context-create result to slot 0 in `HelperDisplayGpuResults` depends on those index values. `BucketGpuResults` is given the slot after the move.
- DiagArgs.CheckStartArguments: when no parameters are given and a configuration file is, the errors reading it (too large, cannot be opened) are not modelled, and neither is a device list the file may set (Diag.cpp:1313-1333).
- RunControl.Diag.ExecuteDiagOnServer: requires the client's handlers to be installed, as its caller does first; without them a signal would not reach the client's handler.
- RunControl.Diag.ExecuteDiagOnServer: requires the executor to exit or be signalled at some poll (`Ends`). A run that never ends would poll for ever, and that run is not modelled.
- RunControl.Diag.RunDiagOnce: requires `Ends` of its executor, for the same reason.
- RunControl.Diag.RunStartDiag: requires `Ends` of the executor of every iteration, for the same reason.
- RunControl.Diag.RunIterations: requires `Ends` of the executor of every iteration, for the same reason.
- RunControl.Diag.RunIteration: requires `Ends` of the executor of every iteration, for the same reason.
- RunControl.Diag.RunStartDiag: requires a given executor behaviour for every iteration. `m_jsonTmpValue` and the collected JSON output are not modelled.
- Characters: a Dafny `char` stands for one byte of the C string, a value below 256, and a `string` for the C string up to its first NUL, so the test `msg[0] != '\0'` on the system error (Diag.cpp:385, 409) is the test for a non-empty string. `std::string::size` and `substr` count bytes, so `DisplayVerboseInfo` cuts rows at 45 bytes and can split a multi-byte character (Diag.cpp:756, 767); `isWhitespace` and `isdigit` test single bytes (Diag.cpp:702-719, 1365). Encodings are not modelled.
- DiagTypes.WellShaped: a response is taken to have at most 10 level-one results (`levelOneTestCount`). The client trusts the host engine here and would read past the table otherwise (Diag.cpp:248); that read is not modelled.
