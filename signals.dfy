/**
 * Operating-system signals as the controller sees them: values of Go's
 * `os.Signal`, compared by identity.  Only the signal names matter to the
 * model, so they form an enumeration.
 */
module Signals {

  datatype Signal =
    | SIGHUP | SIGINT | SIGQUIT | SIGILL | SIGTRAP | SIGABRT | SIGBUS | SIGFPE
    | SIGKILL | SIGUSR1 | SIGSEGV | SIGUSR2 | SIGPIPE | SIGALRM | SIGTERM

  /** Go's `os.Interrupt` is the value `syscall.SIGINT` on every platform. */
  const Interrupt: Signal := SIGINT

  /** Go's `time.Duration`: a signed 64-bit count of nanoseconds. */
  newtype Duration = d: int | -0x8000_0000_0000_0000 <= d < 0x8000_0000_0000_0000
}
