/** The bridge between operating-system signals and a running diagnostic: the
    module-level flags g_signalExit, diag_stopDiagOnSignal and
    diag_installed_sig_handlers, the saved previous handlers, and the process's
    handler table for the four signals the client catches. Only the table is
    modelled, not the delivery of signals. */
module Cancellation {

  datatype Signal = SigHup | SigInt | SigQuit | SigTerm

  /** A handler table entry: the default action, ignore, the client's own
      handle_signal_during_diag, or some other function of the process. */
  datatype Handler = Default | Ignore | DiagHandler | Custom(id: nat)

  /** A table with an entry for every signal. */
  predicate Total(t: map<Signal, Handler>)
  {
    forall s: Signal :: s in t
  }

  /** The table that maps every signal to `h`. */
  function Uniform(h: Handler): map<Signal, Handler>
  {
    map[SigHup := h, SigInt := h, SigQuit := h, SigTerm := h]
  }

  lemma UniformTotal(h: Handler)
    ensures Total(Uniform(h)) && forall s: Signal :: Uniform(h)[s] == h
  {
    forall s: Signal
      ensures s in Uniform(h) && Uniform(h)[s] == h
    {
      match s
      case SigHup =>
      case SigInt =>
      case SigQuit =>
      case SigTerm =>
    }
  }

  /** The value of all module-level cancellation state. */
  datatype BridgeState = BridgeState(
    signalExit: bool,
    stopDiagOnSignal: bool,
    installed: bool,
    table: map<Signal, Handler>,
    saved: map<Signal, Handler>)

  /** The handlers are installed exactly when the table routes every signal to the
      client's handler, and the saved handlers are never the client's own. */
  predicate Coherent(st: BridgeState)
  {
    && Total(st.table) && Total(st.saved)
    && (forall s: Signal :: !st.saved[s].DiagHandler?)
    && (st.installed ==> forall s: Signal :: st.table[s] == DiagHandler)
    && (!st.installed ==> forall s: Signal :: st.table[s] != DiagHandler)
  }

  /** handle_signal_during_diag: the exit request is raised only while a
      diagnostic is running; it is never lowered again. */
  function OnSignal(st: BridgeState): (r: BridgeState)
    ensures r.signalExit <==> st.signalExit || st.stopDiagOnSignal
    ensures r.(signalExit := st.signalExit) == st
  {
    if st.stopDiagOnSignal then st.(signalExit := true) else st
  }

  /** InstallSigHandlers: on the first call, each signal's current handler is saved
      and replaced by the client's; later calls do nothing. */
  function Install(st: BridgeState): (r: BridgeState)
    ensures r.installed
    ensures r.signalExit == st.signalExit && r.stopDiagOnSignal == st.stopDiagOnSignal
  {
    if st.installed then st
    else st.(installed := true, table := Uniform(DiagHandler), saved := st.table)
  }

  /** Installing keeps the state coherent; the saved handlers are the ones the
      process had before the first installation. */
  lemma InstallCoherent(st: BridgeState)
    requires Coherent(st)
    ensures Coherent(Install(st))
    ensures !st.installed ==> Install(st).saved == st.table
  {
    UniformTotal(DiagHandler);
  }

  /** A second installation changes nothing, so the saved handlers are never
      overwritten by the client's own. */
  lemma InstallIdempotent(st: BridgeState)
    requires Coherent(st)
    ensures Install(Install(st)) == Install(st)
    ensures forall s: Signal :: !Install(Install(st)).saved[s].DiagHandler?
  {
    InstallCoherent(st);
  }

  /** A signal that arrives while no diagnostic runs leaves the state unchanged;
      one that arrives during a run requests the exit. */
  lemma SignalOutsideRunIgnored(st: BridgeState)
    ensures !st.stopDiagOnSignal ==> OnSignal(st) == st
    ensures st.stopDiagOnSignal ==> OnSignal(st).signalExit
  {
  }

  /** What running the previous handler (RUN_OLD_HANDLER) does to the process:
      a step changes a table entry, raises a signal, or calls a handler. */
  datatype Step = SetHandler(sig: Signal, h: Handler) | Raise(sig: Signal) | Call(h: Handler, sig: Signal)

  /** The chaining rule: the default action is run by restoring it, raising the
      signal and re-installing `ours`; an ignored signal stays ignored; any other
      handler is called. */
  function RunOldHandler(previous: Handler, sig: Signal, ours: Handler): (r: seq<Step>)
    ensures previous == Ignore <==> r == []
    ensures (exists h :: Call(h, sig) in r) <==> previous != Default && previous != Ignore
    ensures forall h :: Call(h, sig) in r ==> h == previous
    ensures previous == Default <==> Raise(sig) in r
  {
    if previous == Default then [SetHandler(sig, Default), Raise(sig), SetHandler(sig, ours)]
    else if previous == Ignore then []
    else [Call(previous, sig)]
  }

  /** The handler table after a sequence of steps. */
  function ApplySteps(t: map<Signal, Handler>, steps: seq<Step>): map<Signal, Handler>
    decreases |steps|
  {
    if steps == [] then t
    else
      var t' := if steps[0].SetHandler? then t[steps[0].sig := steps[0].h] else t;
      ApplySteps(t', steps[1..])
  }

  /** Chaining leaves the table as it found it when `ours` was the installed
      handler for the signal; a default action is raised while the table holds
      the default action for the signal and is otherwise unchanged. */
  lemma RunOldHandlerRestoresTable(t: map<Signal, Handler>, previous: Handler, sig: Signal, ours: Handler)
    requires sig in t && t[sig] == ours
    ensures ApplySteps(t, RunOldHandler(previous, sig, ours)) == t
    ensures previous == Default ==>
              var r := RunOldHandler(previous, sig, ours);
              exists i :: 0 <= i < |r| && r[i] == Raise(sig) && ApplySteps(t, r[..i]) == t[sig := Default]
  {
    if previous == Default {
      var steps := RunOldHandler(previous, sig, ours);
      assert steps[..1] == [SetHandler(sig, Default)];
      assert ApplySteps(t, steps[..1]) == ApplySteps(t[sig := Default], []);
      assert steps[1] == Raise(sig) && ApplySteps(t, steps[..1]) == t[sig := Default];
      var restored := t[sig := Default][sig := ours];
      assert ApplySteps(t, steps) == ApplySteps(t[sig := Default], steps[1..]);
      assert ApplySteps(t[sig := Default], steps[1..]) == ApplySteps(t[sig := Default], steps[2..]);
      assert ApplySteps(t[sig := Default], steps[2..]) == ApplySteps(restored, steps[3..]);
      assert steps[3..] == [];
      assert restored == t;
    }
  }

  /** Once installed, chaining to any saved handler never calls the client's own
      handler again, so it cannot recurse. */
  lemma ChainingNeverRecurses(st: BridgeState, sig: Signal)
    requires Coherent(st)
    ensures Call(DiagHandler, sig) !in RunOldHandler(Install(st).saved[sig], sig, DiagHandler)
  {
    InstallCoherent(st);
  }

  /** The module-level cancellation state of the client process. */
  class SignalBridge {
    var signalExit: bool
    var stopDiagOnSignal: bool
    var installed: bool
    var table: map<Signal, Handler>
    var saved: map<Signal, Handler>

    function Value(): BridgeState
      reads this
    {
      BridgeState(signalExit, stopDiagOnSignal, installed, table, saved)
    }

    ghost predicate Valid()
      reads this
    {
      Coherent(Value())
    }

    /** Program start: all flags false and the saved handlers null, which is the
        default action; `os` is the table the process starts with. */
    constructor (os: map<Signal, Handler>)
      requires Total(os) && forall s: Signal :: os[s] != DiagHandler
      ensures Valid()
      ensures Value() == BridgeState(false, false, false, os, Uniform(Default))
    {
      signalExit := false;
      stopDiagOnSignal := false;
      installed := false;
      table := os;
      saved := Uniform(Default);
      UniformTotal(Default);
    }

    /** handle_signal_during_diag. */
    method HandleSignalDuringDiag(sig: Signal)
      requires Valid()
      modifies this
      ensures Valid()
      ensures Value() == OnSignal(old(Value()))
    {
      if stopDiagOnSignal {
        signalExit := true;
      }
    }

    /** One save-and-replace step of InstallSigHandlers. */
    method SetNewHandlerAndSaveOld(sig: Signal)
      requires Total(table) && Total(saved)
      modifies this
      ensures table == old(table)[sig := DiagHandler]
      ensures saved == old(saved)[sig := old(table)[sig]]
      ensures signalExit == old(signalExit) && stopDiagOnSignal == old(stopDiagOnSignal) && installed == old(installed)
    {
      var previous := table[sig];
      table := table[sig := DiagHandler];
      saved := saved[sig := previous];
    }

    /** InstallSigHandlers: installs once, for HUP, INT, QUIT and TERM in turn. */
    method InstallSigHandlers()
      requires Valid()
      modifies this
      ensures Valid()
      ensures Value() == Install(old(Value()))
    {
      if installed {
        return;
      }
      installed := true;
      ghost var before := table;
      SetNewHandlerAndSaveOld(SigHup);
      SetNewHandlerAndSaveOld(SigInt);
      SetNewHandlerAndSaveOld(SigQuit);
      SetNewHandlerAndSaveOld(SigTerm);
      forall s: Signal
        ensures s in saved && saved[s] == before[s]
      {
        match s
        case SigHup =>
        case SigInt =>
        case SigQuit =>
        case SigTerm =>
      }
      UniformTotal(DiagHandler);
      forall s: Signal
        ensures s in table && table[s] == Uniform(DiagHandler)[s]
      {
        match s
        case SigHup =>
        case SigInt =>
        case SigQuit =>
        case SigTerm =>
      }
      assert saved == before;
      assert table == Uniform(DiagHandler);
    }
  }
}
