/** The POSIX signals the supervisor and the test scripts deal in, with
    their Linux numbers and the names libc and nix give them. */
module Signals {
  import opened Wrappers
  import Text

  datatype Signal =
    | SIGHUP | SIGINT | SIGQUIT | SIGKILL | SIGUSR1 | SIGSEGV
    | SIGUSR2 | SIGPIPE | SIGTERM | SIGCHLD | SIGWINCH

  /** The signal number on Linux. */
  function Number(s: Signal): (n: nat)
    ensures 1 <= n <= 31
  {
    match s
    case SIGHUP => 1
    case SIGINT => 2
    case SIGQUIT => 3
    case SIGKILL => 9
    case SIGUSR1 => 10
    case SIGSEGV => 11
    case SIGUSR2 => 12
    case SIGPIPE => 13
    case SIGTERM => 15
    case SIGCHLD => 17
    case SIGWINCH => 28
  }

  /** Distinct signals have distinct numbers. */
  lemma NumberInjective(a: Signal, b: Signal)
    ensures Number(a) == Number(b) <==> a == b
  {
  }

  /** The name a signal is displayed with. */
  function Name(s: Signal): (r: string)
    ensures |r| > 3 && r[..3] == "SIG"
  {
    match s
    case SIGHUP => "SIGHUP"
    case SIGINT => "SIGINT"
    case SIGQUIT => "SIGQUIT"
    case SIGKILL => "SIGKILL"
    case SIGUSR1 => "SIGUSR1"
    case SIGSEGV => "SIGSEGV"
    case SIGUSR2 => "SIGUSR2"
    case SIGPIPE => "SIGPIPE"
    case SIGTERM => "SIGTERM"
    case SIGCHLD => "SIGCHLD"
    case SIGWINCH => "SIGWINCH"
  }

  /** `Signal::from_str`: the signal with exactly that name. */
  function FromName(name: string): (r: Option<Signal>)
  {
    if name == "SIGHUP" then Some(SIGHUP)
    else if name == "SIGINT" then Some(SIGINT)
    else if name == "SIGQUIT" then Some(SIGQUIT)
    else if name == "SIGKILL" then Some(SIGKILL)
    else if name == "SIGUSR1" then Some(SIGUSR1)
    else if name == "SIGSEGV" then Some(SIGSEGV)
    else if name == "SIGUSR2" then Some(SIGUSR2)
    else if name == "SIGPIPE" then Some(SIGPIPE)
    else if name == "SIGTERM" then Some(SIGTERM)
    else if name == "SIGCHLD" then Some(SIGCHLD)
    else if name == "SIGWINCH" then Some(SIGWINCH)
    else None
  }

  /** Names and signals correspond one to one. */
  lemma NameRoundTrip(s: Signal, name: string)
    ensures FromName(name) == Some(s) <==> name == Name(s)
  {
  }

  /** A name is one word of capitals and digits: it holds no whitespace, and
      no `=` or `,` either. */
  lemma NameIsWord(s: Signal)
    ensures Text.NoWhitespace(Name(s))
    ensures '=' !in Name(s) && ',' !in Name(s)
  {
    var n := Name(s);
    assert forall i | 0 <= i < |n| :: 'A' <= n[i] <= 'Z' || '0' <= n[i] <= '9';
  }
}
