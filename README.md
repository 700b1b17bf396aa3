# graceful — a verified model of the lifecycle controller

The Go package `graceful` lets a long-running service register reload and
shutdown handlers and then blocks in `Start`, waiting for operating-system
signals. A reload signal runs every reload handler. The first shutdown
signal ends the wait and runs every shutdown handler, after which `Start`
returns nil. Each pass starts its handlers one at a time, last registered
first. A handler that panics or overruns the per-handler timeout is logged
and never stops the pass.

This project models the sequential skeleton of that controller:

- `signals.dfy` (`Signals`): signals as an enumeration; `Interrupt` is SIGINT, as Go's `os.Interrupt` is.
- `passes.dfy` (`Passes`): one pass over a handler list. How each handler ends (`Completed`, `Panicked`, `TimedOut`) is an input. The pass yields the handlers it started and its error-log entries.
- `routing.dfy` (`Routing`): classification of a signal and the sequence of passes `Start` runs for a finite input of signals (`Schedule`, `Consumed`).
- `graceful.dfy` (`Graceful`): the `Graceful` class. The handler lists are `seq` fields that `AddReloadHandler` and `AddShutdownHandler` extend in place. `Start` is a `while` loop over the input with the two nested list searches of the source, proved against `Schedule`.
- `platform_unix.dfy`, `platform_windows.dfy`: the two `NewWithDefault` constructors and their default signal lists.

Handlers are opaque numeric IDs. In `Start`, `behaviour(p)(i)` says how the
handler at registration index `i` ends in the `p`-th pass, so a handler may
fail in one pass and succeed in the next. `Start` has no `modifies` clause:
running passes never changes either handler list, so every pass sees the
handlers registered before it.

`Start` calls `reload()` synchronously (graceful.go:143): the receive loop
waits for each reload pass to finish. Only the public `Reload()` starts the
pass in a goroutine (graceful.go:50).

## Model

| member | source | states |
|---|---|---|
| `Graceful.Graceful.New` | graceful.go:24-32 | the signal lists and the timeout are stored as given; both handler lists start empty |
| `Graceful.Graceful.AddReloadHandler` | graceful.go:34-39 | the reload list becomes the old list with the handler appended at the end; the shutdown list is unchanged |
| `Graceful.Graceful.AddShutdownHandler` | graceful.go:41-46 | the shutdown list becomes the old list with the handler appended at the end; the reload list is unchanged |
| `Passes.RunPass` | graceful.go:76-94 | the countdown loop starts every handler exactly once, index len-1 down to 0, so the trace is the list reversed whatever the outcomes; the log has one failure entry per panicked handler and one timeout entry per timed-out handler |
| `Passes.PassLogCounts` | graceful.go:79-93 | in a pass log, "handler failed" entries equal the number of panicked handlers, "timeout" entries equal the number of timed-out handlers, there are no other entries, and every entry carries the pass's phase |
| `Passes.CompletedPassIsSilent` | graceful.go:89-90 | a pass whose handlers all complete logs nothing |
| `Graceful.Graceful.ShutdownPass` | graceful.go:70-95 | the shutdown pass starts all shutdown handlers in reverse registration order; failure and timeout entries are counted as above; no handler list changes |
| `Graceful.Graceful.ReloadPass` | graceful.go:97-120 | the same for the reload list; also models the pass the public `Reload` runs |
| `Graceful.Graceful.Subscription` | graceful.go:126-130 | the argument list passed to `signal.Notify` holds exactly the signals that are not ignored |
| `Routing.ClassifyCases` | graceful.go:134-146 | about `Classify`: a signal is a shutdown signal iff it is in the shutdown list, which is searched first, so a signal in both lists is a shutdown signal; it is a reload signal iff it is only in the reload list; it is ignored iff it is in neither |
| `Routing.Consumed` | graceful.go:131-138 | the loop reads signals up to and including the first shutdown signal, or all of them if none is a shutdown signal |
| `Routing.ScheduleAppend` | graceful.go:140-147 | signals before the first shutdown signal add their passes one after another: a reload pass for a reload signal, nothing for an ignored one |
| `Routing.ScheduleStopsAtShutdown` | graceful.go:134-138 | once a shutdown signal has arrived, later signals do not change the passes run |
| `Routing.ScheduleShape` | graceful.go:131-154 | about `Schedule`, the passes the loop runs for its received signals: every pass but the last is a reload pass; the last is a shutdown pass exactly when a shutdown signal arrives |
| `Routing.ScheduleCounts` | graceful.go:140-154 | one reload pass per reload-classified signal read, even when the signal is listed several times in the reload list; exactly one shutdown pass if a shutdown signal arrives, none otherwise |
| `Graceful.Graceful.Start` | graceful.go:122-155 | returns nil exactly when the input holds a shutdown signal; reads exactly `Consumed` signals; runs exactly the passes of `Schedule`, each over the current handler list with that pass's outcomes |
| `Routing.FailedSelfSignalChangesNothing` | graceful.go:56-57 | when `SignalSelf` fails, `Shutdown` adds nothing: the passes and the number of signals read are as without it |
| `Routing.SelfSignalEndsStart` | graceful.go:53-59 | about `RequestShutdown`, whose `delivered` input is the result of `SignalSelf`: when os.Interrupt is a shutdown signal and the self-signal is delivered, the loop ends with a shutdown pass, after at most the signals received before it |
| `PlatformUnix.NewWithDefault` | graceful_unix.go:11-13 | reload list [SIGUSR2] and shutdown list [os.Interrupt, SIGTERM, SIGINT, SIGHUP]; the timeout is passed through; both handler lists start empty |
| `PlatformUnix.ClassifyDefault` | graceful_unix.go:12 | with the Unix defaults, only SIGUSR2 reloads; exactly os.Interrupt (SIGINT), SIGTERM and SIGHUP shut down; every other signal is ignored |
| `PlatformUnix.DefaultListsDisjoint` | graceful_unix.go:12 | no signal is in both Unix default lists, so the tie-break never decides anything there |
| `PlatformUnix.ReloadSignalsAreUsr2` | graceful_unix.go:12 | with the Unix defaults, the reload-classified signals of an input are exactly its SIGUSR2 signals |
| `PlatformUnix.DefaultSchedule` | graceful_unix.go:12 | with the Unix defaults, `Start` runs one reload pass per SIGUSR2 read before the first shutdown signal, then exactly one shutdown pass if such a signal arrives |
| `PlatformWindows.NewWithDefault` | graceful_windows.go:10-12 | empty reload list and shutdown list [os.Interrupt]; the timeout is passed through; both handler lists start empty |
| `PlatformWindows.ClassifyDefault` | graceful_windows.go:11 | with the Windows defaults, no signal reloads, os.Interrupt shuts down, and every other signal is ignored |
| `PlatformWindows.DefaultSchedule` | graceful_windows.go:11 | with the Windows defaults, `Start` never runs a reload pass; it runs one shutdown pass exactly when os.Interrupt arrives |
| `PlatformWindows.ExternalInterruptEndsStart` | graceful_windows.go:11 | with the Windows defaults, an os.Interrupt delivered from outside the process (Ctrl-C) always ends `Start` with exactly one shutdown pass and no reload pass |
| `PlatformWindows.ShutdownAddsNoPass` | graceful.go:53-59 | on Windows `SignalSelf(os.Interrupt)` fails, so `Shutdown()` only logs: `RequestShutdown` leaves the received signals unchanged and no pass runs |

## Left out

- Goroutines, the `sync.Mutex` and the `select` against `time.After`: concurrency and wall-clock time. Each started handler's ending is an input `Outcome` instead, so `perHandlerTimeout` is stored but never read.
- `recover()` and panics themselves: a panic is just the `Panicked` outcome. graceful.go:80 logs only when `recover()` returns a non-nil value, so a handler that calls `panic(nil)` (before Go 1.21) or `runtime.Goexit` logs nothing and still signals `ok`; in the model that handler has the `Completed` outcome, not `Panicked`.
- `SignalSelf` and the operating-system side of `Shutdown` (`os.FindProcess`, `p.Signal`): their result is the `delivered` input of `Routing.RequestShutdown`. On Windows it is fixed by `PlatformWindows.SignalSelfSucceeds`, because Go's `Process.Signal` there implements only `os.Kill`. The "shutdown failed" log line (graceful.go:57) is not modelled.
- Graceful.Graceful.Start: the input is the sequence of signals the loop actually receives, not the signals sent to the process. `signalChan` is unbuffered (graceful.go:124) and `signal.Notify` never blocks when it sends. So a signal that arrives while `Start` is running a reload pass (graceful.go:143) is dropped. A signal that arrives before the subscription (graceful.go:130) gets the Go runtime's default handling: SIGHUP, SIGINT and SIGTERM end the process, and SIGUSR2 is discarded. The model does not capture these losses.
- Routing.RequestShutdown: `delivered` means that `SignalSelf` succeeded and the signal was received. A self-signal sent while `Start` is inside a reload pass, for example from a reload handler, is lost, as above; the model does not distinguish that case from a failed call.
- Routing.SelfSignalEndsStart: it assumes the self-signal was delivered and received (see the two lines above).
- Graceful.Graceful.Subscription: only the argument list is modelled. When both signal lists are empty, Go's `signal.Notify` with no signals relays every signal, so SIGINT and SIGTERM no longer end the process and the loop ignores them; the model does not capture this.
- The goroutine that the public `Reload` starts: `Reload` is modelled as a reload pass.
- `signal.Notify` itself: only the list it is given is modelled (`Subscription`).
- The logging library: logs are sequences of abstract entries. Only the error entries of a pass are modelled. The debug lines ("execute reload...", "received a reload signal", "received a shutdown signal") are not.
- The blocking receive: `Start` works on a finite input. When the input holds no shutdown signal, it reports `Listening`, the state in which the real loop would still be waiting.
- Hazards that exist only under concurrency: the shared unbuffered `ok` channel, which lets a late completion from an abandoned handler be taken for a later handler's, and the send on the closed channel after `close(ok)`. A timed-out handler that panics later still logs "handler failed" (graceful.go:80-82), possibly during the same pass and next to its own "timeout" entry; the model gives each handler one outcome, so it logs at most one entry per handler. Passes running at the same time as registration are also left out.
- example/main.go is a demonstration service and is not part of this model.
