/** Run control of the diagnostic client: one diagnostic run against the host
    engine (Diag::RunDiagOnce, Diag::ExecuteDiagOnServer) and the iterated runs of
    Diag::RunStartDiag. The executor thread is an abstract sequence of polls;
    the calls the client makes into the host engine are recorded in a log of
    actions; the display of results is not modelled. */
module RunControl {
  import opened Wrappers
  import opened DiagTypes
  import opened Classifier
  import opened Cancellation

  /** What the client sees at one poll of the loop: a signal delivered since the
      previous poll (if any) and whether the executor thread has exited. */
  datatype Tick = Tick(signal: Option<Signal>, exited: bool)

  /** The behaviour of one remote executor: its polls; a signal that arrives
      after the last test of the exit request but before the loop switches the
      handler off (if any); then the status and the response
      dcgmActionValidate_v2 left when the thread exited. */
  datatype Executor = Executor(ticks: seq<Tick>, lateSignal: Option<Signal>, result: ReturnCode, response: Response)

  /** The executor eventually exits or a signal eventually arrives; without this
      the poll loop runs for ever. */
  predicate Ends(ticks: seq<Tick>)
  {
    exists j :: 0 <= j < |ticks| && (ticks[j].signal.Some? || ticks[j].exited)
  }

  /** No signal and no exit at the polls in [lo, hi). */
  predicate Quiet(ticks: seq<Tick>, lo: nat, hi: nat)
  {
    forall i :: lo <= i < hi && i < |ticks| ==> ticks[i].signal.None? && !ticks[i].exited
  }

  datatype PollOutcome = Killed(at: nat) | Exited(at: nat) | NeverEnds

  /** The poll loop from poll `k` on, with the exit request `flag` already
      raised or not. The exit request is tested before the executor, so a signal
      at the poll where the executor exits still kills the run, and a request left
      over from before kills the run at once. */
  function Poll(ticks: seq<Tick>, k: nat, flag: bool): (r: PollOutcome)
    decreases |ticks| - k
    ensures r.Killed? ==> k <= r.at < |ticks| && (flag || ticks[r.at].signal.Some?) && Quiet(ticks, k, r.at)
    ensures r.Killed? && flag ==> r.at == k
    ensures r.Exited? ==> k <= r.at < |ticks| && !flag && ticks[r.at].exited && ticks[r.at].signal.None? && Quiet(ticks, k, r.at)
    ensures r.NeverEnds? ==> !flag || k >= |ticks|
    ensures r.NeverEnds? ==> Quiet(ticks, k, |ticks|)
  {
    if k >= |ticks| then NeverEnds
    else if flag || ticks[k].signal.Some? then Killed(k)
    else if ticks[k].exited then Exited(k)
    else Poll(ticks, k + 1, flag)
  }

  /** Some poll in [k, |ticks|) sees the exit request, and none before it saw an
      event. */
  predicate SignalFirst(ticks: seq<Tick>, k: nat, flag: bool)
  {
    exists j :: k <= j < |ticks| && (flag || ticks[j].signal.Some?) && Quiet(ticks, k, j)
  }

  /** A run is killed exactly when a signal comes, or was already pending, no
      later than the first poll at which the executor has exited. */
  lemma {:induction false} KilledIffSignalFirst(ticks: seq<Tick>, k: nat, flag: bool)
    ensures Poll(ticks, k, flag).Killed? <==> SignalFirst(ticks, k, flag)
    decreases |ticks| - k
  {
    if k >= |ticks| {
    } else if flag || ticks[k].signal.Some? {
      assert Quiet(ticks, k, k);
    } else if ticks[k].exited {
      forall j | k <= j < |ticks| && (flag || ticks[j].signal.Some?)
        ensures !Quiet(ticks, k, j)
      {
        assert k < j;
      }
    } else {
      KilledIffSignalFirst(ticks, k + 1, flag);
      if SignalFirst(ticks, k, flag) {
        var j :| k <= j < |ticks| && (flag || ticks[j].signal.Some?) && Quiet(ticks, k, j);
        assert j != k;
        assert Quiet(ticks, k + 1, j);
      }
      if SignalFirst(ticks, k + 1, flag) {
        var j :| k + 1 <= j < |ticks| && (flag || ticks[j].signal.Some?) && Quiet(ticks, k + 1, j);
        assert Quiet(ticks, k, j);
      }
    }
  }

  /** A run whose executor ends is never left running. */
  lemma EndsTerminates(ticks: seq<Tick>, flag: bool)
    requires Ends(ticks)
    ensures !Poll(ticks, 0, flag).NeverEnds?
  {
    var j :| 0 <= j < |ticks| && (ticks[j].signal.Some? || ticks[j].exited);
    assert !Quiet(ticks, 0, |ticks|);
  }

  /** A return code of ExecuteDiagOnServer: NVVS_KILLED when the run was killed,
      otherwise the executor's own status. */
  function ServerResult(e: Executor, flag: bool): ReturnCode
  {
    if Poll(e.ticks, 0, flag).Killed? then NvvsKilled else e.result
  }

  /** The response the client holds after ExecuteDiagOnServer: the executor's
      when it exited, the freshly initialised one when the run was killed. */
  function ServerResponse(e: Executor, flag: bool): Response
  {
    if Poll(e.ticks, 0, flag).Exited? then e.response else InitialResponse()
  }

  /** The status-to-code decision of Diag::RunDiagOnce, given the status of the
      server call, the system error text of the response, the output mode and
      the verdict of GetFailureResult on the response. */
  function StatusToCode(result: ReturnCode, systemError: string, jsonOutput: bool, verdict: ReturnCode): (r: ReturnCode)
    ensures r == result || r == NvvsError || r == verdict
    ensures r == Ok <==> result == Ok && verdict == Ok && (jsonOutput || systemError == "")
  {
    if result == GroupIncompatible || result == NotSupported || result == Paused then result
    else if result != Ok then result
    else if !jsonOutput && systemError != "" then NvvsError
    else verdict
  }

  /** The code one run returns: NVVS_KILLED when it was killed, otherwise the
      status decision on the executor's status and response. */
  function OnceCode(e: Executor, flag: bool, jsonOutput: bool, isIsolate: nat -> bool): ReturnCode
  {
    if Poll(e.ticks, 0, flag).Killed? then NvvsKilled
    else if Poll(e.ticks, 0, flag).Exited? then StatusToCode(e.result, e.response.systemError, jsonOutput, Verdict(e.response, isIsolate))
    else e.result
  }

  /** OnceCode is the status decision applied to what ExecuteDiagOnServer
      leaves: its status and the response the client holds, which is the
      freshly initialised one unless the executor exited. */
  lemma OnceCodeOfServerCall(e: Executor, flag: bool, jsonOutput: bool, isIsolate: nat -> bool)
    ensures OnceCode(e, flag, jsonOutput, isIsolate)
            == StatusToCode(ServerResult(e, flag), ServerResponse(e, flag).systemError, jsonOutput,
                            Verdict(ServerResponse(e, flag), isIsolate))
  {
    InitialResponseIsOk(isIsolate);
  }

  /** Any failing status of the server call is returned as it is. */
  lemma FailingStatusReturnedVerbatim(result: ReturnCode, systemError: string, jsonOutput: bool, verdict: ReturnCode)
    requires result != Ok
    ensures StatusToCode(result, systemError, jsonOutput, verdict) == result
  {
  }

  /** On a successful server call, a system error in table mode gives
      NvvsError; otherwise the code is the classifier's verdict. */
  lemma SuccessfulStatusCode(systemError: string, jsonOutput: bool, verdict: ReturnCode)
    ensures !jsonOutput && systemError != "" ==> StatusToCode(Ok, systemError, jsonOutput, verdict) == NvvsError
    ensures jsonOutput || systemError == "" ==> StatusToCode(Ok, systemError, jsonOutput, verdict) == verdict
  {
  }

  /** A run succeeds exactly when it was not killed, the executor reported
      success, no system error is shown in table mode, and no test in the
      response failed. */
  lemma OnceOkIff(e: Executor, flag: bool, jsonOutput: bool, isIsolate: nat -> bool)
    requires Ends(e.ticks)
    ensures OnceCode(e, flag, jsonOutput, isIsolate) == Ok
            <==> && Poll(e.ticks, 0, flag).Exited?
                 && e.result == Ok
                 && (jsonOutput || e.response.systemError == "")
                 && !HasFailure(e.response)
  {
    EndsTerminates(e.ticks, flag);
  }

  /** A run reports an isolation error exactly when the executor reported one, or
      reported success on a response holding a failure with an isolating error. */
  lemma OnceIsolateIff(e: Executor, flag: bool, jsonOutput: bool, isIsolate: nat -> bool)
    requires Ends(e.ticks)
    ensures OnceCode(e, flag, jsonOutput, isIsolate) == NvvsIsolateError
            <==> && Poll(e.ticks, 0, flag).Exited?
                 && (|| e.result == NvvsIsolateError
                     || (e.result == Ok && (jsonOutput || e.response.systemError == "")
                         && HasIsolateFailure(e.response, isIsolate)))
  {
    EndsTerminates(e.ticks, flag);
  }

  /** A run that succeeds was not killed, so no exit request was pending. */
  lemma OkMeansNotKilled(e: Executor, flag: bool, jsonOutput: bool, isIsolate: nat -> bool)
    requires Ends(e.ticks)
    requires OnceCode(e, flag, jsonOutput, isIsolate) == Ok
    ensures !flag && !Poll(e.ticks, 0, flag).Killed?
  {
    OnceOkIff(e, flag, jsonOutput, isIsolate);
  }

  /** The run parameters the client sends (the fields of dcgmRunDiag_t the
      model follows). */
  datatype RunDiag = RunDiag(groupId: nat, gpuList: string, totalIterations: nat, currentIteration: nat)

  /** The calls the client makes into the host engine. */
  datatype Action =
    | LaunchRun(drd: RunDiag)      // a RemoteDiagExecutor started with a copy of the parameters
    | AbortDiagnostic(hostname: string)
    | StopExecutor
    | StopDiagnostic               // dcgmStopDiagnostic

  /** The calls one run makes: the launch, an abort and executor stop when the
      run is killed, and a compensating stop when the status is a timeout. */
  function OnceActions(drd: RunDiag, hostname: string, e: Executor, flag: bool): seq<Action>
  {
    [LaunchRun(drd)]
    + (if Poll(e.ticks, 0, flag).Killed? then [AbortDiagnostic(hostname), StopExecutor] else [])
    + (if ServerResult(e, flag) == Timeout then [StopDiagnostic] else [])
  }

  /** The compensating stop is sent exactly when the status is a timeout, and
      the status is still what the run returns. */
  lemma StopSentIffTimeout(drd: RunDiag, hostname: string, e: Executor, flag: bool, jsonOutput: bool, isIsolate: nat -> bool)
    ensures StopDiagnostic in OnceActions(drd, hostname, e, flag) <==> ServerResult(e, flag) == Timeout
    ensures ServerResult(e, flag) == Timeout ==> OnceCode(e, flag, jsonOutput, isIsolate) == Timeout
  {
    var acts := OnceActions(drd, hostname, e, flag);
    if ServerResult(e, flag) != Timeout {
      assert forall k :: 0 <= k < |acts| ==> acts[k] != StopDiagnostic;
    }
  }

  /** The exit request after one run that started with `flag`: it stays up, is
      raised when the run is killed, and is raised by a signal arriving in the
      window after the last poll, while the run still counts as running. */
  function FlagAfter(e: Executor, flag: bool): (r: bool)
    ensures flag ==> r
  {
    flag || Poll(e.ticks, 0, flag).Killed? || e.lateSignal.Some?
  }

  /** The exit request as the `k`th of the runs starts, the first starting with
      `flag`. */
  function FlagBefore(runs: seq<Executor>, k: nat, flag: bool): bool
    requires k <= |runs|
  {
    if k == 0 then flag else FlagAfter(runs[k - 1], FlagBefore(runs, k - 1, flag))
  }

  /** The exit request is never lowered: once up before some run, it is up before
      every later one. */
  lemma {:induction false} FlagNeverLowered(runs: seq<Executor>, j: nat, k: nat, flag: bool)
    requires j <= k <= |runs|
    requires FlagBefore(runs, j, flag)
    ensures FlagBefore(runs, k, flag)
    decreases k - j
  {
    if j < k {
      FlagNeverLowered(runs, j, k - 1, flag);
    }
  }

  /** A request left over from one run, a late signal included, kills the next
      run at its first poll, so it returns NVVS_KILLED. */
  lemma LeftoverRequestKillsNext(e: Executor, next: Executor, flag: bool, jsonOutput: bool, isIsolate: nat -> bool)
    requires Ends(next.ticks)
    requires FlagAfter(e, flag)
    ensures Poll(next.ticks, 0, FlagAfter(e, flag)) == Killed(0)
    ensures OnceCode(next, FlagAfter(e, flag), jsonOutput, isIsolate) == NvvsKilled
  {
    var j :| 0 <= j < |next.ticks| && (next.ticks[j].signal.Some? || next.ticks[j].exited);
  }

  /** The exit request as the `k`th run of the loop starts, given that every run
      before it succeeded: the caller's for the first run; a run that succeeded
      was not killed and found no request pending, so after it only a signal in
      its late window can have raised one. */
  function EntryFlag(runs: seq<Executor>, k: nat, flag: bool): bool
    requires k <= |runs|
  {
    if k == 0 then flag else runs[k - 1].lateSignal.Some?
  }

  /** The codes of the first `c` runs, each starting with the exit request the
      successful runs before it left. */
  function Codes(runs: seq<Executor>, c: nat, flag: bool, jsonOutput: bool, isIsolate: nat -> bool): (codes: seq<ReturnCode>)
    requires c <= |runs|
    ensures |codes| == c
  {
    if c == 0 then []
    else Codes(runs, c - 1, flag, jsonOutput, isIsolate) + [OnceCode(runs[c - 1], EntryFlag(runs, c - 1, flag), jsonOutput, isIsolate)]
  }

  /** The `k`th code is that of the `k`th run, entered with EntryFlag. */
  lemma {:induction false} CodesAt(runs: seq<Executor>, c: nat, flag: bool, jsonOutput: bool, isIsolate: nat -> bool, k: nat)
    requires k < c <= |runs|
    ensures Codes(runs, c, flag, jsonOutput, isIsolate)[k] == OnceCode(runs[k], EntryFlag(runs, k, flag), jsonOutput, isIsolate)
    decreases c
  {
    if k < c - 1 {
      CodesAt(runs, c - 1, flag, jsonOutput, isIsolate, k);
    }
  }

  /** Along runs that all succeed, EntryFlag is the exit request that the runs
      one after the other leave. */
  lemma {:induction false} EntryFlagAgrees(runs: seq<Executor>, k: nat, flag: bool, jsonOutput: bool, isIsolate: nat -> bool)
    requires k <= |runs|
    requires forall j :: 0 <= j < k ==> Ends(runs[j].ticks)
    requires forall j :: 0 <= j < k ==> Codes(runs, k, flag, jsonOutput, isIsolate)[j] == Ok
    ensures EntryFlag(runs, k, flag) == FlagBefore(runs, k, flag)
  {
    if k > 0 {
      var codes := Codes(runs, k, flag, jsonOutput, isIsolate);
      var before := Codes(runs, k - 1, flag, jsonOutput, isIsolate);
      assert codes == before + [codes[k - 1]];
      forall j | 0 <= j < k - 1
        ensures before[j] == Ok
      {
        assert before[j] == codes[j];
      }
      EntryFlagAgrees(runs, k - 1, flag, jsonOutput, isIsolate);
      OkMeansNotKilled(runs[k - 1], EntryFlag(runs, k - 1, flag), jsonOutput, isIsolate);
    }
  }

  /** The number of runs RunStartDiag's loop performs from iteration `i` on, out
      of `n`, given the code of each run: it stops after the first run that does
      not succeed. */
  function RunsFrom(codes: seq<ReturnCode>, i: nat, n: nat): (c: nat)
    requires i <= n <= |codes|
    decreases n - i
    ensures i <= c <= n
  {
    if i == n then n
    else if codes[i] != Ok then i + 1
    else RunsFrom(codes, i + 1, n)
  }

  /** The runs performed from `i` on all succeed except perhaps the last; the
      last one fails, or all `n` were performed and every one succeeded. */
  lemma {:induction false} RunsFromStops(codes: seq<ReturnCode>, i: nat, n: nat)
    requires i <= n <= |codes|
    ensures forall j :: i <= j < RunsFrom(codes, i, n) - 1 ==> codes[j] == Ok
    ensures || (RunsFrom(codes, i, n) > i && codes[RunsFrom(codes, i, n) - 1] != Ok)
            || (RunsFrom(codes, i, n) == n && forall j :: i <= j < n ==> codes[j] == Ok)
    decreases n - i
  {
    if i < n && codes[i] == Ok {
      RunsFromStops(codes, i + 1, n);
    }
  }

  /** The runs performed from `i` on are those up to and including the first
      failing one. */
  lemma {:induction false} RunsUpToFirstFailure(codes: seq<ReturnCode>, i: nat, n: nat, j: nat)
    requires i <= j < n <= |codes|
    requires codes[j] != Ok && forall l :: i <= l < j ==> codes[l] == Ok
    ensures RunsFrom(codes, i, n) == j + 1
    decreases j - i
  {
    if i < j {
      RunsUpToFirstFailure(codes, i + 1, n, j);
    }
  }

  /** The code of the iterated runs: the first failing run's code, or OK. */
  function IterationsCode(codes: seq<ReturnCode>, n: nat): ReturnCode
    requires n <= |codes|
  {
    var c := RunsFrom(codes, 0, n);
    if c > 0 && codes[c - 1] != Ok then codes[c - 1] else Ok
  }

  /** The iterated runs succeed exactly when every one of the `n` runs does;
      otherwise the code is that of the first run that fails, and that run is the
      last one performed. */
  lemma IterationsCodeSpec(codes: seq<ReturnCode>, n: nat)
    requires n <= |codes|
    ensures IterationsCode(codes, n) == Ok <==> forall j :: 0 <= j < n ==> codes[j] == Ok
    ensures IterationsCode(codes, n) != Ok
            ==> && 0 < RunsFrom(codes, 0, n)
                && IterationsCode(codes, n) == codes[RunsFrom(codes, 0, n) - 1]
                && forall j :: 0 <= j < RunsFrom(codes, 0, n) - 1 ==> codes[j] == Ok
  {
    RunsFromStops(codes, 0, n);
  }

  /** A failing run ends the iterations: it is the last one performed and its
      code is the code of the whole. */
  lemma FailingRunIsLast(codes: seq<ReturnCode>, i: nat, n: nat)
    requires i < n <= |codes|
    requires forall j :: 0 <= j < i ==> codes[j] == Ok
    requires codes[i] != Ok
    ensures RunsFrom(codes, 0, n) == i + 1
    ensures IterationsCode(codes, n) == codes[i]
  {
    RunsUpToFirstFailure(codes, 0, n, i);
  }

  /** When every run succeeds, all `n` are performed and the whole succeeds. */
  lemma AllRunsSucceed(codes: seq<ReturnCode>, n: nat)
    requires 0 < n <= |codes|
    requires forall j :: 0 <= j < n ==> codes[j] == Ok
    ensures RunsFrom(codes, 0, n) == n
    ensures IterationsCode(codes, n) == Ok
  {
    RunsFromStops(codes, 0, n);
    assert codes[n - 1] == Ok;
  }

  /** The parameters of the `k`th iteration (counted from 0). */
  function IterationParams(drd: RunDiag, n: nat, k: nat): RunDiag
  {
    drd.(totalIterations := n, currentIteration := k)
  }

  /** The calls each of the first `m` runs, as iterations of `n`, makes, in
      order. */
  function RunLogs(runs: seq<Executor>, m: nat, n: nat, drd: RunDiag, hostname: string, flag: bool): (logs: seq<seq<Action>>)
    requires m <= |runs|
    ensures |logs| == m
  {
    if m == 0 then []
    else RunLogs(runs, m - 1, n, drd, hostname, flag)
         + [OnceActions(IterationParams(drd, n, m - 1), hostname, runs[m - 1], EntryFlag(runs, m - 1, flag))]
  }

  lemma {:induction false} RunLogsAt(runs: seq<Executor>, m: nat, n: nat, drd: RunDiag, hostname: string, flag: bool, k: nat)
    requires k < m <= |runs|
    ensures RunLogs(runs, m, n, drd, hostname, flag)[k]
            == OnceActions(IterationParams(drd, n, k), hostname, runs[k], EntryFlag(runs, k, flag))
  {
    if k < m - 1 {
      RunLogsAt(runs, m - 1, n, drd, hostname, flag, k);
    }
  }

  /** The calls of the first `c` logs, one after the other. */
  function Concat(logs: seq<seq<Action>>, c: nat): seq<Action>
    requires c <= |logs|
  {
    if c == 0 then [] else Concat(logs, c - 1) + logs[c - 1]
  }

  /** One more log at the end of the concatenation. */
  lemma ConcatExtend(a0: seq<Action>, logs: seq<seq<Action>>, i: nat, before: seq<Action>, after: seq<Action>)
    requires i < |logs| && before == a0 + Concat(logs, i) && after == before + logs[i]
    ensures after == a0 + Concat(logs, i + 1)
  {
    assert Concat(logs, i + 1) == Concat(logs, i) + logs[i];
  }

  /** The parameters of every run launched, in order. */
  function Launches(acts: seq<Action>): seq<RunDiag>
  {
    if acts == [] then []
    else Launches(acts[..|acts| - 1]) + (if acts[|acts| - 1].LaunchRun? then [acts[|acts| - 1].drd] else [])
  }

  lemma {:induction false} LaunchesAppend(a: seq<Action>, b: seq<Action>)
    ensures Launches(a + b) == Launches(a) + Launches(b)
    decreases |b|
  {
    if b != [] {
      var last := b[|b| - 1];
      var tail := if last.LaunchRun? then [last.drd] else [];
      assert (a + b)[..|a + b| - 1] == a + b[..|b| - 1];
      assert (a + b)[|a + b| - 1] == last;
      LaunchesAppend(a, b[..|b| - 1]);
      calc {
        Launches(a + b);
        Launches(a + b[..|b| - 1]) + tail;
        Launches(a) + Launches(b[..|b| - 1]) + tail;
        Launches(a) + (Launches(b[..|b| - 1]) + tail);
        Launches(a) + Launches(b);
      }
    } else {
      assert a + b == a;
    }
  }

  lemma OnceLaunchesOne(drd: RunDiag, hostname: string, e: Executor, flag: bool)
    ensures Launches(OnceActions(drd, hostname, e, flag)) == [drd]
  {
    var killed: seq<Action> := if Poll(e.ticks, 0, flag).Killed? then [AbortDiagnostic(hostname), StopExecutor] else [];
    var stop: seq<Action> := if ServerResult(e, flag) == Timeout then [StopDiagnostic] else [];
    assert Launches(killed) == [] by {
      if killed != [] {
        assert killed[..1] == [AbortDiagnostic(hostname)];
      }
    }
    LaunchesAppend([LaunchRun(drd)], killed);
    LaunchesAppend([LaunchRun(drd)] + killed, stop);
    assert Launches([LaunchRun(drd)]) == [drd];
  }

  /** Logs that each launch one iteration, in order, launch the iterations 0,
      1, ... in order once concatenated. */
  lemma {:induction false} ConcatLaunches(logs: seq<seq<Action>>, c: nat, drd: RunDiag, n: nat)
    requires c <= |logs|
    requires forall k :: 0 <= k < c ==> Launches(logs[k]) == [IterationParams(drd, n, k)]
    ensures |Launches(Concat(logs, c))| == c
    ensures forall k :: 0 <= k < c ==> Launches(Concat(logs, c))[k] == IterationParams(drd, n, k)
  {
    if c > 0 {
      ConcatLaunches(logs, c - 1, drd, n);
      LaunchesAppend(Concat(logs, c - 1), logs[c - 1]);
    }
  }

  /** The iterated runs launch the iterations 0, 1, ... in order, each with the
      total count set, one launch per run performed. */
  lemma IterationLaunches(runs: seq<Executor>, c: nat, n: nat, drd: RunDiag, hostname: string, flag: bool)
    requires c <= n <= |runs|
    ensures |Launches(Concat(RunLogs(runs, n, n, drd, hostname, flag), c))| == c
    ensures forall k :: 0 <= k < c ==> Launches(Concat(RunLogs(runs, n, n, drd, hostname, flag), c))[k] == IterationParams(drd, n, k)
  {
    var logs := RunLogs(runs, n, n, drd, hostname, flag);
    forall k | 0 <= k < c
      ensures Launches(logs[k]) == [IterationParams(drd, n, k)]
    {
      RunLogsAt(runs, n, n, drd, hostname, flag, k);
      OnceLaunchesOne(IterationParams(drd, n, k), hostname, runs[k], EntryFlag(runs, k, flag));
    }
    ConcatLaunches(logs, c, drd, n);
  }

  /** The state after one more run: handlers installed, the exit request as the
      run left it, and no diagnostic running. */
  function AfterRun(st: BridgeState, e: Executor): BridgeState
  {
    Install(st).(signalExit := FlagAfter(e, st.signalExit), stopDiagOnSignal := false)
  }

  /** The state after the runs `0` to `c - 1` of the loop, starting from `st`. */
  function AfterRuns(st: BridgeState, runs: seq<Executor>, c: nat): BridgeState
    requires 0 < c <= |runs|
  {
    Install(st).(signalExit := FlagAfter(runs[c - 1], EntryFlag(runs, c - 1, st.signalExit)), stopDiagOnSignal := false)
  }

  /** One more run of the loop, after runs that succeeded. */
  lemma AfterRunsStep(st: BridgeState, runs: seq<Executor>, c: nat)
    requires c < |runs|
    requires c > 0 ==> AfterRuns(st, runs, c).signalExit == EntryFlag(runs, c, st.signalExit)
    ensures AfterRun(if c == 0 then st else AfterRuns(st, runs, c), runs[c]) == AfterRuns(st, runs, c + 1)
  {
  }

  /** After the runs `0` to `k` of the loop, all but the last of which
      succeeded, the exit request is the one those runs leave one after the
      other (FlagBefore): it is up exactly when it was up before or some run was
      killed or signalled late, and it is never lowered. */
  lemma AfterRunsFlag(st: BridgeState, runs: seq<Executor>, k: nat, jsonOutput: bool, isIsolate: nat -> bool)
    requires k < |runs|
    requires forall j :: 0 <= j <= k ==> Ends(runs[j].ticks)
    requires forall j :: 0 <= j < k ==> Codes(runs, k, st.signalExit, jsonOutput, isIsolate)[j] == Ok
    ensures AfterRuns(st, runs, k + 1).signalExit == FlagBefore(runs, k + 1, st.signalExit)
    ensures st.signalExit ==> AfterRuns(st, runs, k + 1).signalExit
  {
    EntryFlagAgrees(runs, k, st.signalExit, jsonOutput, isIsolate);
    if st.signalExit {
      FlagNeverLowered(runs, 0, k + 1, st.signalExit);
    }
  }


  class Diag {
    const jsonOutput: bool
    const iterations: nat
    const hostname: string
    var drd: RunDiag
    /** The calls made into the host engine so far. */
    var actions: seq<Action>
    /** The process-wide signal state the client shares. */
    const bridge: SignalBridge

    constructor (iterations: nat, hostname: string, jsonOutput: bool, drd: RunDiag, bridge: SignalBridge)
      ensures this.iterations == iterations && this.hostname == hostname && this.jsonOutput == jsonOutput
      ensures this.drd == drd && this.bridge == bridge && actions == []
    {
      this.iterations := iterations;
      this.hostname := hostname;
      this.jsonOutput := jsonOutput;
      this.drd := drd;
      this.bridge := bridge;
      actions := [];
    }

    /** Diag::ExecuteDiagOnServer: starts the executor, then polls; the exit
        request is honoured while the loop runs and switched off on return, and
        a signal in between still raises it. The client's handlers are
        installed, so every signal reaches handle_signal_during_diag. */
    method ExecuteDiagOnServer(e: Executor, diagResult: DiagResponse) returns (result: ReturnCode)
      requires bridge.Valid() && bridge.installed && diagResult.Valid() && WellShaped(e.response) && Ends(e.ticks)
      modifies this, bridge, diagResult, diagResult.levelOneResults, diagResult.perGpuResponses
      ensures bridge.Valid() && diagResult.Valid()
      ensures result == ServerResult(e, old(bridge.signalExit))
      ensures bridge.Value() == old(bridge.Value()).(signalExit := FlagAfter(e, old(bridge.signalExit)),
                                                      stopDiagOnSignal := false)
      ensures Poll(e.ticks, 0, old(bridge.signalExit)).Exited? ==> diagResult.Value() == e.response
      ensures !Poll(e.ticks, 0, old(bridge.signalExit)).Exited? ==> diagResult.Value() == old(diagResult.Value())
      ensures actions == old(actions) + [LaunchRun(drd)]
                         + (if Poll(e.ticks, 0, old(bridge.signalExit)).Killed? then [AbortDiagnostic(hostname), StopExecutor] else [])
      ensures drd == old(drd)
    {
      ghost var flag := bridge.signalExit;
      EndsTerminates(e.ticks, flag);
      bridge.stopDiagOnSignal := true;
      actions := actions + [LaunchRun(drd)];
      var k := 0;
      while true
        invariant k < |e.ticks|
        invariant Poll(e.ticks, k, flag) == Poll(e.ticks, 0, flag)
        invariant bridge.Valid() && bridge.signalExit == flag
        invariant bridge.Value() == old(bridge.Value()).(stopDiagOnSignal := true)
        invariant actions == old(actions) + [LaunchRun(drd)] && drd == old(drd)
        invariant diagResult.Valid() && diagResult.Value() == old(diagResult.Value())
        decreases |e.ticks| - k
      {
        if e.ticks[k].signal.Some? {
          bridge.HandleSignalDuringDiag(e.ticks[k].signal.value);
        }
        if bridge.signalExit {
          actions := actions + [AbortDiagnostic(hostname), StopExecutor];
          result := NvvsKilled;
          break;
        } else if e.ticks[k].exited {
          result := e.result;
          diagResult.Assign(e.response);
          break;
        }
        k := k + 1;
      }
      if e.lateSignal.Some? {
        // The handler still sees a diagnostic running.
        bridge.HandleSignalDuringDiag(e.lateSignal.value);
      }
      bridge.stopDiagOnSignal := false;
    }

    /** Diag::RunDiagOnce: one run against the host engine with a freshly
        initialised response. */
    method RunDiagOnce(e: Executor, isIsolate: nat -> bool) returns (r: ReturnCode)
      requires bridge.Valid() && WellShaped(e.response) && Ends(e.ticks)
      modifies this, bridge
      ensures bridge.Valid()
      ensures r == OnceCode(e, old(bridge.signalExit), jsonOutput, isIsolate)
      ensures bridge.Value() == AfterRun(old(bridge.Value()), e)
      ensures actions == old(actions) + OnceActions(drd, hostname, e, old(bridge.signalExit))
      ensures drd == old(drd)
    {
      ghost var flag := bridge.signalExit;
      var diagResult := new DiagResponse();
      InitializeDiagResponse(diagResult);
      InstallCoherent(bridge.Value());
      bridge.InstallSigHandlers();
      var result := ExecuteDiagOnServer(e, diagResult);
      assert diagResult.Value() == ServerResponse(e, flag);
      OnceCodeOfServerCall(e, flag, jsonOutput, isIsolate);

      r := ConcludeRun(result, diagResult, isIsolate);
    }

    /** The second half of Diag::RunDiagOnce: the status of the server call is
        turned into the code of the run; on success the device list is filled in
        from the response when none was given, and the response is classified. */
    method ConcludeRun(result: ReturnCode, diagResult: DiagResponse, isIsolate: nat -> bool) returns (r: ReturnCode)
      requires diagResult.Valid()
      modifies this
      ensures r == StatusToCode(result, diagResult.Value().systemError, jsonOutput, Verdict(diagResult.Value(), isIsolate))
      ensures actions == old(actions) + (if result == Timeout then [StopDiagnostic] else [])
      ensures drd == old(drd)
    {
      if result == GroupIncompatible {
        return result;
      } else if result == NotSupported {
        return result;
      } else if result == Paused {
        return result;
      } else if result != Ok {
        if result == Timeout {
          // The launched diagnostic is stopped before returning; a failure to
          // stop only adds to the message.
          actions := actions + [StopDiagnostic];
        }
        return result;
      } else if !jsonOutput && diagResult.systemError != "" {
        return NvvsError;
      }

      var gpuVec: seq<nat> := [];
      if |drd.gpuList| == 0 {
        gpuVec := PopulateGpuList(diagResult, gpuVec);
      }
      r := GetFailureResult(diagResult, isIsolate);
    }

    /** Diag::RunStartDiag: a single run, or `iterations` runs that stop at the
        first failure. `runs` gives the executor behaviour of each run. */
    method RunStartDiag(runs: seq<Executor>, isIsolate: nat -> bool) returns (r: ReturnCode)
      requires bridge.Valid()
      requires |runs| >= 1 && |runs| >= iterations
      requires forall j :: 0 <= j < |runs| ==> WellShaped(runs[j].response) && Ends(runs[j].ticks)
      modifies this, bridge
      ensures bridge.Valid() && bridge.installed && !bridge.stopDiagOnSignal
      ensures iterations <= 1 ==> r == OnceCode(runs[0], old(bridge.signalExit), jsonOutput, isIsolate)
      ensures iterations <= 1 ==> bridge.Value() == AfterRun(old(bridge.Value()), runs[0])
      ensures iterations <= 1 ==> actions == old(actions) + OnceActions(old(drd), hostname, runs[0], old(bridge.signalExit))
      ensures iterations <= 1 ==> drd == old(drd)
      ensures iterations > 1 ==>
                var codes := Codes(runs, iterations, old(bridge.signalExit), jsonOutput, isIsolate);
                var count := RunsFrom(codes, 0, iterations);
                && r == IterationsCode(codes, iterations)
                && 0 < count
                && bridge.Value() == AfterRuns(old(bridge.Value()), runs, count)
                && drd == IterationParams(old(drd), iterations, count - 1)
                && actions == old(actions) + Concat(RunLogs(runs, iterations, iterations, old(drd), hostname, old(bridge.signalExit)), count)
    {
      if iterations <= 1 {
        r := RunDiagOnce(runs[0], isIsolate);
      } else {
        r := RunIterations(runs, isIsolate);
      }
    }

    /** The iteration loop of Diag::RunStartDiag: the total count is set once, the
        current iteration before each run, and the loop stops at the first run
        that does not succeed. */
    method RunIterations(runs: seq<Executor>, isIsolate: nat -> bool) returns (r: ReturnCode)
      requires bridge.Valid() && iterations > 1
      requires |runs| >= iterations
      requires forall j {:trigger WellShaped(runs[j].response)} :: 0 <= j < |runs| ==> WellShaped(runs[j].response)
      requires forall j {:trigger Ends(runs[j].ticks)} :: 0 <= j < |runs| ==> Ends(runs[j].ticks)
      modifies this, bridge
      ensures bridge.Valid() && bridge.installed && !bridge.stopDiagOnSignal
      ensures var codes := Codes(runs, iterations, old(bridge.signalExit), jsonOutput, isIsolate);
              var count := RunsFrom(codes, 0, iterations);
              && r == IterationsCode(codes, iterations)
              && 0 < count
              && bridge.Value() == AfterRuns(old(bridge.Value()), runs, count)
              && drd == IterationParams(old(drd), iterations, count - 1)
              && actions == old(actions) + Concat(RunLogs(runs, iterations, iterations, old(drd), hostname, old(bridge.signalExit)), count)
    {
      ghost var flag := bridge.signalExit;
      ghost var start := bridge.Value();
      ghost var drd0 := drd;
      ghost var codes := Codes(runs, iterations, flag, jsonOutput, isIsolate);
      ghost var count := RunsFrom(codes, 0, iterations);
      ghost var logs := RunLogs(runs, iterations, iterations, drd, hostname, flag);
      ghost var actions0 := actions;
      var overallRet := Ok;
      drd := drd.(totalIterations := iterations);

      var i := 0;
      while i < iterations
        invariant i <= iterations && count == RunsFrom(codes, i, iterations)
        invariant i > 0 ==> codes[i - 1] == Ok
        invariant i == 0 ==> drd == drd0.(totalIterations := iterations) && bridge.Value() == start
        invariant i > 0 ==> drd == IterationParams(drd0, iterations, i - 1) && bridge.Value() == AfterRuns(start, runs, i)
        invariant bridge.Valid() && bridge.signalExit == EntryFlag(runs, i, flag)
        invariant actions == actions0 + Concat(logs, i)
        invariant overallRet == Ok
      {
        ghost var before := actions;
        var ret := RunIteration(i, runs, isIsolate, start, drd0);
        ConcatExtend(actions0, logs, i, before, actions);
        if ret != Ok {
          overallRet := ret;
          break;
        }
        i := i + 1;
      }
      r := overallRet;
    }

    /** One pass of the iteration loop: the current iteration is set, then the
        run is made. The run is entered in the state the runs before it left,
        so its code, its calls and the state it leaves are those of the
        iteration functions. */
    method RunIteration(i: nat, runs: seq<Executor>, isIsolate: nat -> bool, ghost start: BridgeState, ghost drd0: RunDiag)
      returns (ret: ReturnCode)
      requires i < iterations <= |runs|
      requires forall j {:trigger WellShaped(runs[j].response)} :: 0 <= j < |runs| ==> WellShaped(runs[j].response)
      requires forall j {:trigger Ends(runs[j].ticks)} :: 0 <= j < |runs| ==> Ends(runs[j].ticks)
      requires bridge.Valid() && drd == IterationParams(drd0, iterations, drd.currentIteration)
      requires i == 0 ==> bridge.Value() == start
      requires i > 0 ==> bridge.Value() == AfterRuns(start, runs, i)
      requires bridge.signalExit == EntryFlag(runs, i, start.signalExit)
      modifies this, bridge
      ensures bridge.Valid() && bridge.Value() == AfterRuns(start, runs, i + 1)
      ensures ret == Codes(runs, iterations, start.signalExit, jsonOutput, isIsolate)[i]
      ensures ret == Ok ==> bridge.signalExit == EntryFlag(runs, i + 1, start.signalExit)
      ensures drd == IterationParams(drd0, iterations, i)
      ensures actions == old(actions) + RunLogs(runs, iterations, iterations, drd0, hostname, start.signalExit)[i]
    {
      AfterRunsStep(start, runs, i);
      drd := drd.(currentIteration := i);
      ret := RunDiagOnce(runs[i], isIsolate);
      if ret == Ok {
        OkMeansNotKilled(runs[i], EntryFlag(runs, i, start.signalExit), jsonOutput, isIsolate);
      }
      CodesAt(runs, iterations, start.signalExit, jsonOutput, isIsolate, i);
      RunLogsAt(runs, iterations, iterations, drd0, hostname, start.signalExit, i);
    }
  }
}
