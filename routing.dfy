/**
 * Signal classification and the receive loop of `Start` in graceful.go,
 * as pure functions over a finite sequence of received signals.  The
 * signal lists are Go slices, so they are sequences and may repeat values.
 */
module Routing {
  import opened Signals
  import opened Passes

  /** What `Start` does with one received signal. */
  datatype Verdict = Ignore | Run(phase: Phase)

  /** The shutdown list is searched first, then the reload list. */
  function Classify(reloadSignals: seq<Signal>, shutdownSignals: seq<Signal>, sig: Signal): Verdict
  {
    if sig in shutdownSignals then Run(Shutdown)
    else if sig in reloadSignals then Run(Reload)
    else Ignore
  }

  /** The three verdicts, each as an if-and-only-if; in particular a signal
      in both lists is a shutdown signal. */
  lemma ClassifyCases(reloadSignals: seq<Signal>, shutdownSignals: seq<Signal>, sig: Signal)
    ensures Classify(reloadSignals, shutdownSignals, sig) == Run(Shutdown) <==> sig in shutdownSignals
    ensures Classify(reloadSignals, shutdownSignals, sig) == Run(Reload)
        <==> sig in reloadSignals && sig !in shutdownSignals
    ensures Classify(reloadSignals, shutdownSignals, sig) == Ignore
        <==> sig !in reloadSignals && sig !in shutdownSignals
  {
  }

  /** Does the input hold a shutdown signal at all? */
  predicate HasShutdown(shutdownSignals: seq<Signal>, signals: seq<Signal>)
  {
    exists k :: 0 <= k < |signals| && signals[k] in shutdownSignals
  }

  lemma HasShutdownCons(shutdownSignals: seq<Signal>, signals: seq<Signal>)
    requires signals != []
    ensures HasShutdown(shutdownSignals, signals)
        <==> signals[0] in shutdownSignals || HasShutdown(shutdownSignals, signals[1..])
  {
  }

  /**
   * How many signals `Start` reads from its input: up to and including the
   * first shutdown signal, or all of them when there is none.
   */
  function Consumed(shutdownSignals: seq<Signal>, signals: seq<Signal>): (n: nat)
    ensures n <= |signals|
    ensures forall k :: 0 <= k < n - 1 ==> signals[k] !in shutdownSignals
    ensures HasShutdown(shutdownSignals, signals) ==> 0 < n && signals[n - 1] in shutdownSignals
    ensures !HasShutdown(shutdownSignals, signals) ==> n == |signals|
    decreases |signals|
  {
    if signals == [] then 0
    else
      HasShutdownCons(shutdownSignals, signals);
      if signals[0] in shutdownSignals then 1
      else
        var n := 1 + Consumed(shutdownSignals, signals[1..]);
        assert forall k :: 1 <= k < |signals| ==> signals[k] == signals[1..][k - 1];
        n
  }

  /**
   * The passes `Start` runs for an input, in order: a reload pass for each
   * reload-classified signal, nothing for an ignored one, and on the first
   * shutdown signal one shutdown pass, after which no signal is read.
   */
  function Schedule(reloadSignals: seq<Signal>, shutdownSignals: seq<Signal>, signals: seq<Signal>): seq<Phase>
    decreases |signals|
  {
    if signals == [] then []
    else
      match Classify(reloadSignals, shutdownSignals, signals[0])
      case Run(Shutdown) => [Shutdown]
      case Run(Reload) => [Reload] + Schedule(reloadSignals, shutdownSignals, signals[1..])
      case Ignore => Schedule(reloadSignals, shutdownSignals, signals[1..])
  }

  /** A prefix without a shutdown signal just contributes its own passes. */
  lemma {:induction false} ScheduleAppend(reloadSignals: seq<Signal>, shutdownSignals: seq<Signal>,
                                          signals: seq<Signal>, more: seq<Signal>)
    requires !HasShutdown(shutdownSignals, signals)
    ensures Schedule(reloadSignals, shutdownSignals, signals + more)
         == Schedule(reloadSignals, shutdownSignals, signals) + Schedule(reloadSignals, shutdownSignals, more)
    decreases |signals|
  {
    if signals == [] {
      assert signals + more == more;
    } else {
      HasShutdownCons(shutdownSignals, signals);
      assert (signals + more)[0] == signals[0] && (signals + more)[1..] == signals[1..] + more;
      ScheduleAppend(reloadSignals, shutdownSignals, signals[1..], more);
    }
  }

  /** Nothing after the first shutdown signal is read: it cannot change
      the passes. */
  lemma {:induction false} ScheduleStopsAtShutdown(reloadSignals: seq<Signal>, shutdownSignals: seq<Signal>,
                                                   signals: seq<Signal>, more: seq<Signal>)
    requires HasShutdown(shutdownSignals, signals)
    ensures Schedule(reloadSignals, shutdownSignals, signals + more)
         == Schedule(reloadSignals, shutdownSignals, signals)
    decreases |signals|
  {
    HasShutdownCons(shutdownSignals, signals);
    assert (signals + more)[0] == signals[0] && (signals + more)[1..] == signals[1..] + more;
    if signals[0] !in shutdownSignals {
      ScheduleStopsAtShutdown(reloadSignals, shutdownSignals, signals[1..], more);
    }
  }

  /** Every pass but the last is a reload pass, and the last is a shutdown
      pass exactly when the input holds a shutdown signal. */
  lemma {:induction false} ScheduleShape(reloadSignals: seq<Signal>, shutdownSignals: seq<Signal>, signals: seq<Signal>)
    ensures var s := Schedule(reloadSignals, shutdownSignals, signals);
      forall p :: 0 <= p < |s| - 1 ==> s[p] == Reload
    ensures var s := Schedule(reloadSignals, shutdownSignals, signals);
      HasShutdown(shutdownSignals, signals) <==> |s| > 0 && s[|s| - 1] == Shutdown
    decreases |signals|
  {
    if signals != [] {
      HasShutdownCons(shutdownSignals, signals);
      ScheduleShape(reloadSignals, shutdownSignals, signals[1..]);
      var rest := Schedule(reloadSignals, shutdownSignals, signals[1..]);
      if signals[0] !in shutdownSignals && signals[0] in reloadSignals {
        assert forall p :: 1 <= p < 1 + |rest| ==> ([Reload] + rest)[p] == rest[p - 1];
      }
    }
  }

  /** How often `phase` occurs among the passes. */
  function CountPhase(passes: seq<Phase>, phase: Phase): nat
  {
    if passes == [] then 0 else (if passes[0] == phase then 1 else 0) + CountPhase(passes[1..], phase)
  }

  /** How many received signals are classified as reload signals; a signal
      listed several times in the reload list is still one signal. */
  function CountReloadSignals(reloadSignals: seq<Signal>, shutdownSignals: seq<Signal>, signals: seq<Signal>): nat
  {
    if signals == [] then 0
    else
      (if Classify(reloadSignals, shutdownSignals, signals[0]) == Run(Reload) then 1 else 0)
      + CountReloadSignals(reloadSignals, shutdownSignals, signals[1..])
  }

  /** One reload pass per reload signal read, and exactly one shutdown pass
      when a shutdown signal arrives (none otherwise), however many
      shutdown signals follow it. */
  lemma {:induction false} ScheduleCounts(reloadSignals: seq<Signal>, shutdownSignals: seq<Signal>, signals: seq<Signal>)
    ensures CountPhase(Schedule(reloadSignals, shutdownSignals, signals), Reload)
         == CountReloadSignals(reloadSignals, shutdownSignals, signals[..Consumed(shutdownSignals, signals)])
    ensures CountPhase(Schedule(reloadSignals, shutdownSignals, signals), Shutdown)
         == if HasShutdown(shutdownSignals, signals) then 1 else 0
    decreases |signals|
  {
    if signals != [] {
      HasShutdownCons(shutdownSignals, signals);
      var n := Consumed(shutdownSignals, signals);
      var head := signals[..n];
      assert head[0] == signals[0];
      if signals[0] in shutdownSignals {
        assert head == [signals[0]];
        assert CountPhase([Shutdown], Reload) == 0;
        assert CountPhase([Shutdown], Shutdown) == 1;
      } else {
        ScheduleCounts(reloadSignals, shutdownSignals, signals[1..]);
        assert head[1..] == signals[1..][..Consumed(shutdownSignals, signals[1..])];
        var rest := Schedule(reloadSignals, shutdownSignals, signals[1..]);
        if signals[0] in reloadSignals {
          assert ([Reload] + rest)[1..] == rest;
        }
      }
    }
  }

  /**
   * Go's `Shutdown()`: the process sends itself `os.Interrupt` through
   * `SignalSelf`.  `delivered` is whether that operating-system call
   * succeeded and the signal reached the waiting loop; `received` is what
   * the loop receives otherwise.  When the call fails, `Shutdown()` only
   * logs the error and the loop receives nothing new.
   */
  function RequestShutdown(received: seq<Signal>, delivered: bool): seq<Signal>
  {
    if delivered then received + [Interrupt] else received
  }

  /** When `os.Interrupt` is a shutdown signal and the self-signal of
      `Shutdown()` is delivered, it ends the receive loop with a shutdown
      pass, after at most the signals received before it. */
  lemma SelfSignalEndsStart(reloadSignals: seq<Signal>, shutdownSignals: seq<Signal>, received: seq<Signal>)
    requires Interrupt in shutdownSignals
    ensures HasShutdown(shutdownSignals, RequestShutdown(received, true))
    ensures var s := Schedule(reloadSignals, shutdownSignals, RequestShutdown(received, true));
      |s| > 0 && s[|s| - 1] == Shutdown
    ensures Consumed(shutdownSignals, RequestShutdown(received, true)) <= |received| + 1
  {
    var signals := RequestShutdown(received, true);
    assert signals[|received|] == Interrupt;
    ScheduleShape(reloadSignals, shutdownSignals, signals);
  }

  /** A self-signal that is not delivered changes neither the passes nor
      what the loop reads. */
  lemma FailedSelfSignalChangesNothing(reloadSignals: seq<Signal>, shutdownSignals: seq<Signal>, received: seq<Signal>)
    ensures Schedule(reloadSignals, shutdownSignals, RequestShutdown(received, false))
         == Schedule(reloadSignals, shutdownSignals, received)
    ensures Consumed(shutdownSignals, RequestShutdown(received, false)) == Consumed(shutdownSignals, received)
  {
  }
}
