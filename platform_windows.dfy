/** `NewWithDefault` of graceful_windows.go: no reload signal; os.Interrupt
    shuts down. */
module PlatformWindows {
  import opened Signals
  import opened Passes
  import opened Routing
  import Graceful

  const DefaultReloadSignals: seq<Signal> := []
  const DefaultShutdownSignals: seq<Signal> := [Interrupt]

  method NewWithDefault(perHandlerTimeout: Duration) returns (gf: Graceful.Graceful)
    ensures fresh(gf)
    ensures gf.reloadSignals == DefaultReloadSignals && gf.shutdownSignals == DefaultShutdownSignals
    ensures gf.perHandlerTimeout == perHandlerTimeout
    ensures gf.reloadHandlers == [] && gf.shutdownHandlers == []
  {
    gf := new Graceful.Graceful.New(DefaultReloadSignals, DefaultShutdownSignals, perHandlerTimeout);
  }

  /** Classification under the defaults: nothing reloads, os.Interrupt
      shuts down, every other signal is ignored. */
  function ClassifyDefault(sig: Signal): (v: Verdict)
    ensures v != Run(Reload)
    ensures v == Run(Shutdown) <==> sig == Interrupt
    ensures v == Ignore <==> sig != Interrupt
  {
    Classify(DefaultReloadSignals, DefaultShutdownSignals, sig)
  }

  /** Under the defaults `Start` never runs a reload pass: it runs the one
      shutdown pass when os.Interrupt arrives, and nothing before. */
  lemma {:induction false} DefaultSchedule(signals: seq<Signal>)
    ensures Schedule(DefaultReloadSignals, DefaultShutdownSignals, signals)
         == if Interrupt in signals then [Shutdown] else []
    decreases |signals|
  {
    if signals != [] {
      var v := ClassifyDefault(signals[0]);
      DefaultSchedule(signals[1..]);
      assert signals == [signals[0]] + signals[1..];
    }
  }

  /** Whether `SignalSelf(sig)` returns no error on Windows: Go's
      `Process.Signal` there implements only `os.Kill`, and returns an error
      for any other signal, so `SignalSelf(os.Interrupt)` fails.  A
      successful `os.Kill` ends the process; it never reaches the loop. */
  predicate SignalSelfSucceeds(sig: Signal)
  {
    sig == SIGKILL
  }

  /** So on Windows `Shutdown()` adds nothing to what `Start` receives: it
      runs no pass and does not end the loop. */
  lemma ShutdownAddsNoPass(received: seq<Signal>)
    ensures !SignalSelfSucceeds(Interrupt)
    ensures Schedule(DefaultReloadSignals, DefaultShutdownSignals, RequestShutdown(received, SignalSelfSucceeds(Interrupt)))
         == Schedule(DefaultReloadSignals, DefaultShutdownSignals, received)
  {
  }

  /** An os.Interrupt delivered from outside the process (Ctrl-C in the
      console) always ends `Start`, with exactly one shutdown pass and no
      reload pass, whatever was received before it. */
  lemma ExternalInterruptEndsStart(received: seq<Signal>)
    ensures Schedule(DefaultReloadSignals, DefaultShutdownSignals, received + [Interrupt]) == [Shutdown]
    ensures HasShutdown(DefaultShutdownSignals, received + [Interrupt])
  {
    var signals := received + [Interrupt];
    assert signals[|received|] == Interrupt;
    DefaultSchedule(signals);
  }
}
