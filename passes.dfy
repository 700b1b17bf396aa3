/**
 * One execution pass over a handler list (the loops of `shutdown` and
 * `reload` in graceful.go).  Time and concurrency are abstracted away:
 * how each started handler ends is an input, an `Outcome`.
 */
module Passes {

  /** A registered handler, known only by its identity. */
  type HandlerId = nat

  /** How one started handler ends: it returns, it panics (and the panic is
      recovered), or its wait runs past the per-handler timeout. */
  datatype Outcome = Completed | Panicked | TimedOut

  /** Which handler list a pass runs over. */
  datatype Phase = Reload | Shutdown

  /** The error-level log entries a pass emits. */
  datatype LogEntry = HandlerFailed(phase: Phase) | HandlerTimedOut(phase: Phase)

  /** What one pass did: the handlers it started, in order, and its log. */
  datatype PassRecord = PassRecord(phase: Phase, trace: seq<HandlerId>, log: seq<LogEntry>)

  function Reverse<T>(s: seq<T>): seq<T>
  {
    if s == [] then [] else Reverse(s[1..]) + [s[0]]
  }

  lemma {:induction false} ReverseAt<T>(s: seq<T>, k: nat)
    requires k < |s|
    ensures |Reverse(s)| == |s|
    ensures Reverse(s)[k] == s[|s| - 1 - k]
  {
    if k < |s| - 1 {
      ReverseAt(s[1..], k);
    } else if |s| > 1 {
      ReverseAt(s[1..], 0);
    }
  }

  /** The entries logged for one handler with outcome `o`. */
  function EntriesFor(phase: Phase, o: Outcome): seq<LogEntry>
  {
    match o
    case Completed => []
    case Panicked => [HandlerFailed(phase)]
    case TimedOut => [HandlerTimedOut(phase)]
  }

  /** The log of handlers hi-1 down to lo, in the order they are started;
      `outcome(i)` is how the handler at registration index i ends. */
  function PassLog(phase: Phase, outcome: nat -> Outcome, lo: nat, hi: nat): seq<LogEntry>
    decreases hi - lo
  {
    if lo >= hi then [] else PassLog(phase, outcome, lo + 1, hi) + EntriesFor(phase, outcome(lo))
  }

  /** How many of the handlers at indices lo..hi-1 end with `o`. */
  function CountOutcome(outcome: nat -> Outcome, lo: nat, hi: nat, o: Outcome): nat
    decreases hi - lo
  {
    if lo >= hi then 0
    else CountOutcome(outcome, lo + 1, hi, o) + (if outcome(lo) == o then 1 else 0)
  }

  /** How often `e` occurs in `log`. */
  function CountEntry(log: seq<LogEntry>, e: LogEntry): nat
  {
    if log == [] then 0 else (if log[0] == e then 1 else 0) + CountEntry(log[1..], e)
  }

  lemma {:induction false} CountEntryAppend(a: seq<LogEntry>, b: seq<LogEntry>, e: LogEntry)
    ensures CountEntry(a + b, e) == CountEntry(a, e) + CountEntry(b, e)
  {
    if a == [] {
      assert a + b == b;
    } else {
      assert (a + b)[0] == a[0] && (a + b)[1..] == a[1..] + b;
      CountEntryAppend(a[1..], b, e);
    }
  }

  /** Fault isolation in the log: every panicked handler leaves exactly one
      "handler failed" entry, every timed-out one exactly one "timeout"
      entry, completed ones leave nothing, and all entries carry the phase. */
  lemma {:induction false} PassLogCounts(phase: Phase, outcome: nat -> Outcome, lo: nat, hi: nat)
    ensures CountEntry(PassLog(phase, outcome, lo, hi), HandlerFailed(phase))
         == CountOutcome(outcome, lo, hi, Panicked)
    ensures CountEntry(PassLog(phase, outcome, lo, hi), HandlerTimedOut(phase))
         == CountOutcome(outcome, lo, hi, TimedOut)
    ensures |PassLog(phase, outcome, lo, hi)|
         == CountOutcome(outcome, lo, hi, Panicked) + CountOutcome(outcome, lo, hi, TimedOut)
    ensures forall k :: 0 <= k < |PassLog(phase, outcome, lo, hi)| ==>
              PassLog(phase, outcome, lo, hi)[k].phase == phase
    decreases hi - lo
  {
    if lo < hi {
      var rest := PassLog(phase, outcome, lo + 1, hi);
      var mine := EntriesFor(phase, outcome(lo));
      PassLogCounts(phase, outcome, lo + 1, hi);
      CountEntryAppend(rest, mine, HandlerFailed(phase));
      CountEntryAppend(rest, mine, HandlerTimedOut(phase));
    }
  }

  /** A pass whose handlers all complete logs nothing. */
  lemma {:induction false} CompletedPassIsSilent(phase: Phase, outcome: nat -> Outcome, lo: nat, hi: nat)
    requires forall i :: lo <= i < hi ==> outcome(i) == Completed
    ensures PassLog(phase, outcome, lo, hi) == []
    decreases hi - lo
  {
    if lo < hi {
      CompletedPassIsSilent(phase, outcome, lo + 1, hi);
    }
  }

  /**
   * The countdown loop `for i := len(handlers) - 1; i >= 0; i--`: start
   * handler i, wait for its outcome, log a failure or a timeout, and go on
   * with the next lower index whatever happened.
   */
  method RunPass(handlers: seq<HandlerId>, phase: Phase, outcome: nat -> Outcome)
    returns (trace: seq<HandlerId>, log: seq<LogEntry>)
    ensures |trace| == |handlers|
    ensures forall k :: 0 <= k < |trace| ==> trace[k] == handlers[|handlers| - 1 - k]
    ensures trace == Reverse(handlers)
    ensures log == PassLog(phase, outcome, 0, |handlers|)
    ensures CountEntry(log, HandlerFailed(phase)) == CountOutcome(outcome, 0, |handlers|, Panicked)
    ensures CountEntry(log, HandlerTimedOut(phase)) == CountOutcome(outcome, 0, |handlers|, TimedOut)
  {
    trace, log := [], [];
    var i: int := |handlers| - 1;
    while i >= 0
      invariant -1 <= i < |handlers|
      invariant |trace| == |handlers| - 1 - i
      invariant forall k :: 0 <= k < |trace| ==> trace[k] == handlers[|handlers| - 1 - k]
      invariant log == PassLog(phase, outcome, i + 1, |handlers|)
    {
      trace := trace + [handlers[i]];
      match outcome(i) {
        case Completed =>
        case Panicked =>
          log := log + [HandlerFailed(phase)];
        case TimedOut =>
          log := log + [HandlerTimedOut(phase)];
      }
      i := i - 1;
    }
    forall k | 0 <= k < |handlers|
      ensures |Reverse(handlers)| == |handlers| && trace[k] == Reverse(handlers)[k]
    {
      ReverseAt(handlers, k);
    }
    if handlers == [] {
      assert Reverse(handlers) == [];
    } else {
      ReverseAt(handlers, 0);
    }
    PassLogCounts(phase, outcome, 0, |handlers|);
  }
}
