/** `NewWithDefault` of graceful_unix.go: SIGUSR2 reloads; os.Interrupt,
    SIGTERM, SIGINT and SIGHUP shut down. */
module PlatformUnix {
  import opened Signals
  import opened Passes
  import opened Routing
  import Graceful

  const DefaultReloadSignals: seq<Signal> := [SIGUSR2]

  /** As listed in the source; os.Interrupt is SIGINT, so SIGINT is there twice. */
  const DefaultShutdownSignals: seq<Signal> := [Interrupt, SIGTERM, SIGINT, SIGHUP]

  method NewWithDefault(perHandlerTimeout: Duration) returns (gf: Graceful.Graceful)
    ensures fresh(gf)
    ensures gf.reloadSignals == DefaultReloadSignals && gf.shutdownSignals == DefaultShutdownSignals
    ensures gf.perHandlerTimeout == perHandlerTimeout
    ensures gf.reloadHandlers == [] && gf.shutdownHandlers == []
  {
    gf := new Graceful.Graceful.New(DefaultReloadSignals, DefaultShutdownSignals, perHandlerTimeout);
  }

  /** Classification under the defaults: only SIGUSR2 reloads, exactly
      os.Interrupt (SIGINT), SIGTERM and SIGHUP shut down, all else is ignored. */
  function ClassifyDefault(sig: Signal): (v: Verdict)
    ensures v == Run(Reload) <==> sig == SIGUSR2
    ensures v == Run(Shutdown) <==> sig == Interrupt || sig == SIGTERM || sig == SIGINT || sig == SIGHUP
    ensures v == Ignore <==> sig !in {SIGUSR2, SIGINT, SIGTERM, SIGHUP}
  {
    Classify(DefaultReloadSignals, DefaultShutdownSignals, sig)
  }

  /** The default lists share no signal, so the shutdown-first tie-break
      never decides anything here. */
  lemma DefaultListsDisjoint()
    ensures forall sig :: !(sig in DefaultReloadSignals && sig in DefaultShutdownSignals)
  {
  }

  /** Under the defaults `Start` runs one reload pass per SIGUSR2 read before
      the first os.Interrupt, SIGTERM or SIGHUP, then one shutdown pass. */
  lemma {:induction false} DefaultSchedule(signals: seq<Signal>)
    ensures var s := Schedule(DefaultReloadSignals, DefaultShutdownSignals, signals);
      CountPhase(s, Reload) == Occurrences(SIGUSR2, signals[..Consumed(DefaultShutdownSignals, signals)])
    ensures var s := Schedule(DefaultReloadSignals, DefaultShutdownSignals, signals);
      CountPhase(s, Shutdown) == if HasShutdown(DefaultShutdownSignals, signals) then 1 else 0
  {
    ScheduleCounts(DefaultReloadSignals, DefaultShutdownSignals, signals);
    ReloadSignalsAreUsr2(signals[..Consumed(DefaultShutdownSignals, signals)]);
  }

  /** How often `sig` occurs in `signals`. */
  function Occurrences(sig: Signal, signals: seq<Signal>): nat
  {
    if signals == [] then 0 else (if signals[0] == sig then 1 else 0) + Occurrences(sig, signals[1..])
  }

  lemma {:induction false} ReloadSignalsAreUsr2(signals: seq<Signal>)
    ensures CountReloadSignals(DefaultReloadSignals, DefaultShutdownSignals, signals)
         == Occurrences(SIGUSR2, signals)
  {
    if signals != [] {
      var v := ClassifyDefault(signals[0]);
      ReloadSignalsAreUsr2(signals[1..]);
    }
  }
}
