/**
 * The `Graceful` controller of graceful.go: two append-only handler lists,
 * the reload and shutdown passes over them, and the receive loop `Start`
 * that classifies signals and drives the passes.
 */
module Graceful {
  import opened Signals
  import opened Passes
  import opened Routing

  /** How `Start` stands once its finite input is used up: it has returned
      nil after the shutdown pass, or it is still waiting for a signal. */
  datatype Status = ReturnedNil | Listening

  class Graceful {
    const reloadSignals: seq<Signal>
    const shutdownSignals: seq<Signal>
    const perHandlerTimeout: Duration

    var reloadHandlers: seq<HandlerId>
    var shutdownHandlers: seq<HandlerId>

    /** `New`: keeps the signal lists and the timeout as given; both handler
        lists start empty. */
    constructor New(reloadSignals: seq<Signal>, shutdownSignals: seq<Signal>, perHandlerTimeout: Duration)
      ensures this.reloadSignals == reloadSignals
      ensures this.shutdownSignals == shutdownSignals
      ensures this.perHandlerTimeout == perHandlerTimeout
      ensures reloadHandlers == [] && shutdownHandlers == []
    {
      this.reloadSignals := reloadSignals;
      this.shutdownSignals := shutdownSignals;
      this.perHandlerTimeout := perHandlerTimeout;
      reloadHandlers := [];
      shutdownHandlers := [];
    }

    method AddReloadHandler(h: HandlerId)
      modifies this
      ensures reloadHandlers == old(reloadHandlers) + [h]
      ensures shutdownHandlers == old(shutdownHandlers)
    {
      reloadHandlers := reloadHandlers + [h];
    }

    method AddShutdownHandler(h: HandlerId)
      modifies this
      ensures shutdownHandlers == old(shutdownHandlers) + [h]
      ensures reloadHandlers == old(reloadHandlers)
    {
      shutdownHandlers := shutdownHandlers + [h];
    }

    function Handlers(phase: Phase): seq<HandlerId>
      reads this
    {
      match phase
      case Reload => reloadHandlers
      case Shutdown => shutdownHandlers
    }

    /** What a pass over the current list of `phase` does when the handler
        at index i ends with `outcome(i)`. */
    function PassResult(phase: Phase, outcome: nat -> Outcome): PassRecord
      reads this
    {
      PassRecord(phase, Reverse(Handlers(phase)), PassLog(phase, outcome, 0, |Handlers(phase)|))
    }

    /** `reload` (and the public `Reload`, without its goroutine): every
        reload handler is started once, last registered first, whatever the
        earlier ones did. */
    method ReloadPass(outcome: nat -> Outcome) returns (rec: PassRecord)
      ensures rec.phase == Reload
      ensures |rec.trace| == |reloadHandlers|
      ensures forall k :: 0 <= k < |rec.trace| ==> rec.trace[k] == reloadHandlers[|reloadHandlers| - 1 - k]
      ensures CountEntry(rec.log, HandlerFailed(Reload)) == CountOutcome(outcome, 0, |reloadHandlers|, Panicked)
      ensures CountEntry(rec.log, HandlerTimedOut(Reload)) == CountOutcome(outcome, 0, |reloadHandlers|, TimedOut)
      ensures rec == PassResult(Reload, outcome)
    {
      var trace, log := RunPass(reloadHandlers, Reload, outcome);
      rec := PassRecord(Reload, trace, log);
    }

    /** `shutdown`: every shutdown handler is started once, last registered
        first, whatever the earlier ones did. */
    method ShutdownPass(outcome: nat -> Outcome) returns (rec: PassRecord)
      ensures rec.phase == Shutdown
      ensures |rec.trace| == |shutdownHandlers|
      ensures forall k :: 0 <= k < |rec.trace| ==> rec.trace[k] == shutdownHandlers[|shutdownHandlers| - 1 - k]
      ensures CountEntry(rec.log, HandlerFailed(Shutdown)) == CountOutcome(outcome, 0, |shutdownHandlers|, Panicked)
      ensures CountEntry(rec.log, HandlerTimedOut(Shutdown)) == CountOutcome(outcome, 0, |shutdownHandlers|, TimedOut)
      ensures rec == PassResult(Shutdown, outcome)
    {
      var trace, log := RunPass(shutdownHandlers, Shutdown, outcome);
      rec := PassRecord(Shutdown, trace, log);
    }

    /** The argument list `Start` passes to `signal.Notify`: the reload
        signals, then the shutdown signals.  It holds exactly the signals
        that are not ignored.  (When both lists are empty, Go's
        `signal.Notify` with no signals relays every signal instead.) */
    function Subscription(): (r: seq<Signal>)
      ensures forall sig :: sig in r <==> Classify(reloadSignals, shutdownSignals, sig) != Ignore
    {
      reloadSignals + shutdownSignals
    }

    /**
     * `Start` over a finite input `signals`: the signals the receive loop
     * actually takes from its channel, in order.  Each signal read is checked
     * against the shutdown list, then the reload list; a reload signal runs
     * a reload pass on the spot and the loop goes on, the first shutdown
     * signal ends the loop and one shutdown pass runs.  `behaviour(p)(i)` is
     * how the handler at index i ends in the p-th pass.  `consumed` is how
     * many signals were read; `passes` the passes run, in order.
     */
    method Start(signals: seq<Signal>, behaviour: nat -> nat -> Outcome)
      returns (status: Status, consumed: nat, passes: seq<PassRecord>)
      ensures status == ReturnedNil <==> HasShutdown(shutdownSignals, signals)
      ensures consumed == Consumed(shutdownSignals, signals)
      ensures |passes| == |Schedule(reloadSignals, shutdownSignals, signals)|
      ensures forall p :: 0 <= p < |passes| ==>
                passes[p] == PassResult(Schedule(reloadSignals, shutdownSignals, signals)[p], behaviour(p))
    {
      var idx := 0;
      var terminated := false;
      passes := [];
      while !terminated && idx < |signals|
        invariant 0 <= idx <= |signals|
        invariant terminated ==> idx < |signals| && signals[idx] in shutdownSignals
        invariant forall k :: 0 <= k < idx ==> signals[k] !in shutdownSignals
        invariant |passes| == |Schedule(reloadSignals, shutdownSignals, signals[..idx])|
        invariant forall p :: 0 <= p < |passes| ==>
                    passes[p] == PassResult(Schedule(reloadSignals, shutdownSignals, signals[..idx])[p], behaviour(p))
      {
        var sig := signals[idx];
        // the shutdown list is searched first
        var j := 0;
        while j < |shutdownSignals|
          invariant 0 <= j <= |shutdownSignals|
          invariant !terminated
          invariant sig !in shutdownSignals[..j]
        {
          if shutdownSignals[j] == sig {
            terminated := true;
            break;
          }
          j := j + 1;
        }
        if !terminated {
          ghost var before := passes;
          // then the reload list; a match runs one pass and stops the search
          j := 0;
          while j < |reloadSignals|
            invariant 0 <= j <= |reloadSignals|
            invariant passes == before
            invariant sig !in reloadSignals[..j]
          {
            if reloadSignals[j] == sig {
              var rec := ReloadPass(behaviour(|passes|));
              passes := passes + [rec];
              break;
            }
            j := j + 1;
          }
          assert sig !in shutdownSignals by {
            assert shutdownSignals[..|shutdownSignals|] == shutdownSignals;
          }
          assert sig in reloadSignals ==> passes == before + [PassResult(Reload, behaviour(|before|))];
          assert sig !in reloadSignals ==> passes == before by {
            assert reloadSignals[..|reloadSignals|] == reloadSignals;
          }
          assert !HasShutdown(shutdownSignals, signals[..idx]);
          assert signals[..idx + 1] == signals[..idx] + [sig];
          ScheduleAppend(reloadSignals, shutdownSignals, signals[..idx], [sig]);
          assert [sig][1..] == [];
          idx := idx + 1;
        }
      }
      assert !HasShutdown(shutdownSignals, signals[..idx]);
      if terminated {
        var rec := ShutdownPass(behaviour(|passes|));
        passes := passes + [rec];
        status := ReturnedNil;
        consumed := idx + 1;
        assert signals == signals[..idx] + signals[idx..];
        ScheduleAppend(reloadSignals, shutdownSignals, signals[..idx], signals[idx..]);
        assert signals[idx..][0] == signals[idx];
        assert HasShutdown(shutdownSignals, signals);
      } else {
        status := Listening;
        consumed := idx;
        assert signals[..idx] == signals;
      }
    }
  }
}
