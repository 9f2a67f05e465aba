/** The supervisor `run`: it installs one handler for each signal it
    handles, spawns nginx, waits until the first signal is latched, and
    then acts on that signal once. The handler, the lock it tries, and the
    child's replies are given as data: a handler run is a `Delivery` that
    did or did not get the lock, the operating system's answer to each
    signal sent is `reply`, and `childCode` is what waiting for the child
    yields. */
module Supervisor {
  import opened Wrappers
  import opened Signals

  /** The signals that get the latching handler, in installation order. */
  const Handled: seq<Signal> :=
    [SIGINT, SIGTERM, SIGQUIT, SIGHUP, SIGUSR1, SIGUSR2, SIGWINCH, SIGPIPE, SIGCHLD]

  /** Every signal of the model except KILL, which cannot be caught, and
      SEGV is handled. */
  lemma HandledSignals(s: Signal)
    ensures s in Handled <==> s != SIGKILL && s != SIGSEGV
  {
  }

  // ---------------------------------------------------------------------
  // The caught-signal cell
  // ---------------------------------------------------------------------

  /** One run of the handler for `sig`: `acquired` says whether its
      `try_lock` on the cell succeeded (it fails while the supervisor holds
      the lock). */
  datatype Delivery = Delivery(sig: Signal, acquired: bool)

  /** `set_caught_signal`: the cell takes the signal only when the lock was
      got and the cell is still empty. */
  function Latch(cell: Option<Signal>, d: Delivery): (r: Option<Signal>)
    ensures cell.Some? ==> r == cell
    ensures r.Some? <==> cell.Some? || d.acquired
  {
    if d.acquired && cell.None? then Some(d.sig) else cell
  }

  /** The cell after a sequence of handler runs. */
  function LatchAll(cell: Option<Signal>, ds: seq<Delivery>): Option<Signal>
    decreases |ds|
  {
    if ds == [] then cell else LatchAll(Latch(cell, ds[0]), ds[1..])
  }

  /** A reference for the cell: the signal of the first run that got the
      lock. */
  function FirstAcquired(ds: seq<Delivery>): (r: Option<Signal>)
    ensures r.None? <==> forall k | 0 <= k < |ds| :: !ds[k].acquired
  {
    if ds == [] then None
    else if ds[0].acquired then Some(ds[0].sig)
    else
      assert forall k | 1 <= k < |ds| :: ds[k] == ds[1..][k - 1];
      FirstAcquired(ds[1..])
  }

  /** What `FirstAcquired` picks is the first run that got the lock. */
  lemma {:induction false} FirstAcquiredIsFirst(ds: seq<Delivery>)
    requires FirstAcquired(ds).Some?
    ensures exists k | 0 <= k < |ds| ::
      ds[k].acquired && FirstAcquired(ds).value == ds[k].sig && forall j | 0 <= j < k :: !ds[j].acquired
  {
    if !ds[0].acquired {
      var t := ds[1..];
      FirstAcquiredIsFirst(t);
      var k :| 0 <= k < |t| && t[k].acquired && FirstAcquired(t).value == t[k].sig &&
        forall j | 0 <= j < k :: !t[j].acquired;
      assert ds[k + 1] == t[k];
      assert forall j | 0 < j < k + 1 :: ds[j] == t[j - 1];
    }
  }

  /** A latched signal is never overwritten. */
  lemma {:induction false} LatchKeeps(s: Signal, ds: seq<Delivery>)
    ensures LatchAll(Some(s), ds) == Some(s)
  {
    if ds != [] {
      LatchKeeps(s, ds[1..]);
    }
  }

  /** Runs of the handler compose. */
  lemma {:induction false} LatchAllAppend(cell: Option<Signal>, a: seq<Delivery>, b: seq<Delivery>)
    ensures LatchAll(cell, a + b) == LatchAll(LatchAll(cell, a), b)
    decreases |a|
  {
    if a != [] {
      assert (a + b)[1..] == a[1..] + b;
      LatchAllAppend(Latch(cell, a[0]), a[1..], b);
    } else {
      assert a + b == b;
    }
  }

  /** Starting empty, the cell ends up holding the first signal whose
      handler got the lock, and stays empty when none did. */
  lemma {:induction false} LatchAllFirst(ds: seq<Delivery>)
    ensures LatchAll(None, ds) == FirstAcquired(ds)
  {
    if ds != [] {
      if ds[0].acquired {
        LatchKeeps(ds[0].sig, ds[1..]);
      } else {
        LatchAllFirst(ds[1..]);
      }
    }
  }

  /** The shared cell; `None` stands for the source's 0. */
  class CaughtSignal {
    var value: Option<Signal>

    constructor()
      ensures value == None
    {
      value := None;
    }

    /** `set_caught_signal`, run by the handler for `sig`. */
    method Set(sig: Signal, acquired: bool)
      modifies this
      ensures value == Latch(old(value), Delivery(sig, acquired))
    {
      if acquired && value.None? {
        value := Some(sig);
      }
    }
  }

  /** The supervisor's wait: the handler runs `ds` happen, in order, until
      the cell holds a signal. What it then holds is the cell after all of
      `ds`, since a latched signal stays. */
  method Wait(latch: CaughtSignal, ds: seq<Delivery>) returns (caught: Option<Signal>)
    modifies latch
    ensures caught == latch.value
    ensures latch.value == LatchAll(old(latch.value), ds)
  {
    var i := 0;
    while latch.value.None? && i < |ds|
      invariant 0 <= i <= |ds|
      invariant latch.value == LatchAll(old(latch.value), ds[..i])
    {
      LatchAllAppend(old(latch.value), ds[..i], [ds[i]]);
      assert ds[..i + 1] == ds[..i] + [ds[i]];
      latch.Set(ds[i].sig, ds[i].acquired);
      i := i + 1;
    }
    LatchAllAppend(old(latch.value), ds[..i], ds[i..]);
    assert ds[..i] + ds[i..] == ds;
    if i < |ds| {
      LatchKeeps(latch.value.value, ds[i..]);
    } else {
      assert ds[i..] == [];
    }
    caught := latch.value;
  }

  // ---------------------------------------------------------------------
  // Acting on the caught signal
  // ---------------------------------------------------------------------

  /** What the supervisor does to the child: send a signal, or sleep. */
  datatype Step = Send(sig: Signal) | Sleep(ms: nat)

  /** The pause between the polite signal and KILL in `send_then_kill`. */
  const KillDelayMs: nat := 100

  /** `send_then_kill`. */
  function SendThenKill(s: Signal): seq<Step> {
    [Send(s), Sleep(KillDelayMs), Send(SIGKILL)]
  }

  /** The steps `run` takes for the caught signal. */
  function Commands(caught: Signal): (r: seq<Step>)
    ensures r == [] <==> caught == SIGCHLD
    ensures r != [] ==> r[0].Send? && (r[0].sig == caught <==> caught !in {SIGINT, SIGPIPE, SIGHUP})
  {
    match caught
    case SIGCHLD => []
    case SIGINT => SendThenKill(SIGQUIT)
    case SIGPIPE => SendThenKill(SIGQUIT)
    case SIGHUP => [Send(SIGQUIT)]
    case SIGTERM => [Send(SIGTERM)]
    case _ => [Send(caught)]
  }

  /** The supervisor's exit code for the caught signal, given what waiting
      for the child returned (`None` when the child has no exit code, as
      when a signal ended it). */
  function ExitStatus(caught: Signal, childCode: Option<int>): (r: int)
    ensures caught in {SIGINT, SIGPIPE, SIGTERM} ==> r == 128 + Number(caught)
    ensures caught !in {SIGINT, SIGPIPE, SIGTERM} ==> r == childCode.GetOr(0)
  {
    match caught
    case SIGINT => 128 + 2
    case SIGPIPE => 128 + 13
    case SIGTERM => 128 + 15
    case _ => childCode.GetOr(0)
  }

  /** Which signals reach the child: QUIT for INT, PIPE and HUP, KILL for
      INT and PIPE only, and the caught signal itself for every signal but
      CHLD, INT, PIPE and HUP. */
  lemma CommandsSend(caught: Signal, s: Signal)
    ensures Send(s) in Commands(caught) <==>
      (s == SIGQUIT && caught in {SIGINT, SIGPIPE, SIGHUP}) ||
      (s == SIGKILL && caught in {SIGINT, SIGPIPE}) ||
      (s == caught && caught !in {SIGCHLD, SIGINT, SIGPIPE, SIGHUP})
  {
  }

  /** A caught HUP is never passed on as HUP. */
  lemma HupNotForwarded(caught: Signal)
    requires caught == SIGHUP
    ensures Send(SIGHUP) !in Commands(caught)
    ensures Commands(caught) == [Send(SIGQUIT)]
  {
  }

  /** For a handled signal, KILL is only ever sent after QUIT and the
      pause. */
  lemma KillAfterQuit(caught: Signal)
    requires caught in Handled
    requires Send(SIGKILL) in Commands(caught)
    ensures Commands(caught) == [Send(SIGQUIT), Sleep(KillDelayMs), Send(SIGKILL)]
  {
  }

  /** The child's own exit code is ignored exactly for INT, PIPE and TERM. */
  lemma ExitIgnoresChild(caught: Signal)
    ensures (forall a: Option<int>, b: Option<int> :: ExitStatus(caught, a) == ExitStatus(caught, b)) <==>
      caught in {SIGINT, SIGPIPE, SIGTERM}
  {
    if caught !in {SIGINT, SIGPIPE, SIGTERM} {
      assert ExitStatus(caught, Some(1)) != ExitStatus(caught, Some(2));
    }
  }

  // ---------------------------------------------------------------------
  // Sending signals
  // ---------------------------------------------------------------------

  /** The operating system's answer to a `kill`. */
  datatype SendReply = Delivered | NoSuchProcess | OtherError

  /** `send_signal` as the source writes it: the "no such process" error is
      mapped to `Ok(())`, but inside the `Err` of the `map_err`, so the
      `expect` panics on it as on any other error. Only a delivered signal
      lets the caller go on. */
  predicate SendFails(step: Step, reply: Signal -> SendReply) {
    step.Send? && reply(step.sig) != Delivered
  }

  /** `send_signal` as its comment intends it: a child that has gone
      already is no failure; only another error panics. */
  predicate SendFailsFixed(step: Step, reply: Signal -> SendReply) {
    step.Send? && reply(step.sig) == OtherError
  }

  /** Whether a sequence of steps ends in a panic. */
  predicate Panics(steps: seq<Step>, reply: Signal -> SendReply) {
    exists k | 0 <= k < |steps| :: SendFails(steps[k], reply)
  }

  /** The steps taken: all of them, up to and including the first send
      that fails. */
  function Issued(steps: seq<Step>, reply: Signal -> SendReply): seq<Step> {
    if steps == [] then []
    else if SendFails(steps[0], reply) then [steps[0]]
    else [steps[0]] + Issued(steps[1..], reply)
  }

  /** The steps taken are a prefix of those planned; all of them when no
      send fails, and otherwise up to the failing one and no further. */
  lemma {:induction false} IssuedPrefix(steps: seq<Step>, reply: Signal -> SendReply)
    ensures var t := Issued(steps, reply);
      t <= steps &&
      (!Panics(steps, reply) ==> t == steps) &&
      (Panics(steps, reply) ==> t != [] && SendFails(t[|t| - 1], reply) && !Panics(t[..|t| - 1], reply))
  {
    if steps != [] {
      IssuedPrefix(steps[1..], reply);
      if !SendFails(steps[0], reply) {
        var t := Issued(steps[1..], reply);
        if Panics(steps, reply) {
          var k :| 0 <= k < |steps| && SendFails(steps[k], reply);
          assert SendFails(steps[1..][k - 1], reply);
          assert ([steps[0]] + t)[..|t|] == [steps[0]] + t[..|t| - 1];
        } else {
          forall k | 0 <= k < |steps| - 1
            ensures !SendFails(steps[1..][k], reply)
          {
            assert steps[1..][k] == steps[k + 1];
          }
        }
      }
    }
  }

  /** `send_signal`: it returns only when the signal was delivered. */
  method SendSignal(sig: Signal, reply: Signal -> SendReply) returns (ok: bool)
    ensures ok <==> !SendFails(Send(sig), reply)
    ensures ok <==> reply(sig) == Delivered
  {
    var r := reply(sig);
    ok := r == Delivered;
  }

  /** `send_signal` with "no such process" tolerated, as its comment says. */
  method SendSignalFixed(sig: Signal, reply: Signal -> SendReply) returns (ok: bool)
    ensures ok <==> !SendFailsFixed(Send(sig), reply)
    ensures ok <==> reply(sig) != OtherError
  {
    var r := reply(sig);
    ok := r == Delivered || r == NoSuchProcess;
  }

  /** `send_then_kill`: the signal, the pause, then KILL; a failed send
      stops it. */
  method SendThenKillTo(sig: Signal, reply: Signal -> SendReply) returns (issued: seq<Step>, ok: bool)
    ensures issued == Issued(SendThenKill(sig), reply)
    ensures ok <==> !Panics(SendThenKill(sig), reply)
  {
    var steps := SendThenKill(sig);
    assert steps[1..] == [Sleep(KillDelayMs), Send(SIGKILL)] && steps[1..][1..] == [Send(SIGKILL)];
    assert Issued([Send(SIGKILL)], reply) == [Send(SIGKILL)] by {
      assert [Send(SIGKILL)][1..] == [];
    }
    ok := SendSignal(sig, reply);
    issued := [Send(sig)];
    if !ok {
      return;
    }
    issued := issued + [Sleep(KillDelayMs)];
    ok := SendSignal(SIGKILL, reply);
    issued := issued + [Send(SIGKILL)];
    assert !SendFails(steps[0], reply) && !SendFails(steps[1], reply);
    assert ok <==> !SendFails(steps[2], reply);
  }

  /** How `run` ends, for the model: with an exit code, still waiting for a
      signal, or in a panic. */
  datatype Outcome = Exited(code: int) | Waiting | Panicked

  /** What `run` ends with once `caught` is latched. */
  function Dispatched(caught: Signal, reply: Signal -> SendReply, childCode: Option<int>): (r: Outcome)
    ensures r != Waiting
    ensures r.Exited? ==> r.code == ExitStatus(caught, childCode)
    ensures caught == SIGCHLD ==> r == Exited(ExitStatus(caught, childCode))
    ensures (forall s :: reply(s) == Delivered) ==> r == Exited(ExitStatus(caught, childCode))
  {
    if Panics(Commands(caught), reply) then Panicked else Exited(ExitStatus(caught, childCode))
  }

  /** What `run` ends with once `caught` is latched, when an ESRCH reply
      is tolerated. */
  function DispatchedFixed(caught: Signal, reply: Signal -> SendReply, childCode: Option<int>): (r: Outcome)
    ensures r != Waiting
    ensures Dispatched(caught, reply, childCode).Exited? ==> r == Dispatched(caught, reply, childCode)
  {
    if exists k | 0 <= k < |Commands(caught)| :: SendFailsFixed(Commands(caught)[k], reply) then Panicked
    else Exited(ExitStatus(caught, childCode))
  }

  /** As written, when every `kill` answers ESRCH, `run` panics on its
      first send, for every caught signal but CHLD. */
  lemma VanishedChildPanics(caught: Signal, childCode: Option<int>)
    requires caught != SIGCHLD
    ensures Dispatched(caught, _ => NoSuchProcess, childCode) == Panicked
  {
    var reply: Signal -> SendReply := _ => NoSuchProcess;
    assert SendFails(Commands(caught)[0], reply);
  }

  /** With the fix, no reply other than a real error makes `run` panic: it
      ends with the caught signal's exit status, while a real error still
      panics. */
  lemma DispatchedFixedTolerates(caught: Signal, reply: Signal -> SendReply, childCode: Option<int>)
    ensures (forall s :: reply(s) != OtherError) ==> DispatchedFixed(caught, reply, childCode) == Exited(ExitStatus(caught, childCode))
    ensures caught != SIGCHLD && reply(Commands(caught)[0].sig) == OtherError ==> DispatchedFixed(caught, reply, childCode) == Panicked
  {
    if caught != SIGCHLD && reply(Commands(caught)[0].sig) == OtherError {
      assert SendFailsFixed(Commands(caught)[0], reply);
    }
  }

  /** `run`, from the spawn on (`spawned` says whether it succeeded). */
  method Run(spawned: bool, latch: CaughtSignal, ds: seq<Delivery>, reply: Signal -> SendReply, childCode: Option<int>)
    returns (out: Outcome, issued: seq<Step>)
    modifies latch
    ensures !spawned ==> out == Exited(2) && issued == [] && latch.value == old(latch.value)
    ensures spawned ==> latch.value == LatchAll(old(latch.value), ds)
    ensures spawned && latch.value.None? ==> out == Waiting && issued == []
    ensures spawned && latch.value.Some? ==>
      issued == Issued(Commands(latch.value.value), reply) &&
      out == Dispatched(latch.value.value, reply, childCode)
  {
    if !spawned {
      return Exited(2), [];
    }
    var caught := Wait(latch, ds);
    if caught.None? {
      return Waiting, [];
    }
    var c := caught.value;
    var ok;
    match c {
      case SIGCHLD =>
        ok := true;
        issued := [];
      case SIGINT =>
        issued, ok := SendThenKillTo(SIGQUIT, reply);
      case SIGPIPE =>
        issued, ok := SendThenKillTo(SIGQUIT, reply);
      case SIGHUP =>
        ok := SendSignal(SIGQUIT, reply);
        issued := [Send(SIGQUIT)];
      case SIGTERM =>
        ok := SendSignal(SIGTERM, reply);
        issued := [Send(SIGTERM)];
      case _ =>
        ok := SendSignal(c, reply);
        issued := [Send(c)];
    }
    assert |Commands(c)| <= 1 ==> (Panics(Commands(c), reply) <==> Commands(c) != [] && SendFails(Commands(c)[0], reply));
    if !ok {
      return Panicked, issued;
    }
    out := Exited(ExitStatus(c, childCode));
  }

  /** With every handler run for a handled signal, the signal `run` acts on
      is handled, so the catch-all branch only forwards QUIT, USR1, USR2 and
      WINCH. */
  lemma CaughtIsHandled(ds: seq<Delivery>)
    requires forall k | 0 <= k < |ds| :: ds[k].sig in Handled
    ensures LatchAll(None, ds).Some? ==> LatchAll(None, ds).value in Handled
  {
    LatchAllFirst(ds);
  }
}
