/** The action scripts the signal tests hand to their helper program: a
    list of setups (which signals to log, which code to exit with) and a
    list of operations (sleep, signal the parent, panic, crash), written
    as space-separated words such as `log=SIGINT,true exit=3 sleep=50`. */
module SigScript {
  import opened Wrappers
  import Text
  import Decimal
  import Signals

  const I32Min: int := -0x8000_0000
  const I32Max: int := 0x7FFF_FFFF
  const U64Max: nat := 0xFFFF_FFFF_FFFF_FFFF

  type I32 = x: int | I32Min <= x <= I32Max
  type U64 = x: nat | x <= U64Max

  // ---------------------------------------------------------------------
  // Words
  // ---------------------------------------------------------------------

  /** The action of a word: the text before its first `=`, or all of it. */
  function Action(elem: string): (act: string)
    ensures '=' !in act && act <= elem
  {
    elem[..Text.Find(elem, '=')]
  }

  /** The arguments of a word: the text after its first `=`, split at every
      `,`; a word without `=` has the single argument "". */
  function Args(elem: string): (args: seq<string>)
    ensures |args| >= 1
  {
    var i := Text.Find(elem, '=');
    if i < |elem| then Text.Split(elem[i + 1..], ',') else [""]
  }

  /** `split` undone: an action and its arguments joined back into a word
      come apart into that action and those arguments. */
  lemma WordOfParts(act: string, args: seq<string>)
    requires '=' !in act && args != []
    requires forall i | 0 <= i < |args| :: ',' !in args[i]
    ensures Action(act + "=" + Text.Join(args, ",")) == act
    ensures Args(act + "=" + Text.Join(args, ",")) == args
  {
    var rest := Text.Join(args, ",");
    var elem := act + "=" + rest;
    assert elem == act + ['='] + rest;
    Text.FindAfter(act, '=', rest);
    assert elem[..|act|] == act;
    assert elem[|act| + 1..] == rest;
    Text.SplitOfJoin(args, ',');
  }

  /** A word without `=` is all action. */
  lemma BareWord(elem: string)
    requires '=' !in elem
    ensures Action(elem) == elem && Args(elem) == [""]
  {
  }

  /** Rust's `bool::from_str`. */
  function ParseBool(s: string): (r: Option<bool>)
    ensures r.Some? <==> s == "true" || s == "false"
  {
    if s == "true" then Some(true) else if s == "false" then Some(false) else None
  }

  function BoolText(b: bool): string {
    if b then "true" else "false"
  }

  // ---------------------------------------------------------------------
  // Setups and operations
  // ---------------------------------------------------------------------

  datatype Setup = Log(sig: Signals.Signal, exit: bool) | ExitCode(code: I32)

  datatype Op = Sleep(ms: U64) | Signal(sig: Signals.Signal) | Panic | SegFault

  /** How a parse ends: with a value, with the parser's error, or in a
      panic of the helper (a required argument that is missing or bad). */
  datatype Parse<T> = Parsed(value: T) | Rejected | Aborted

  /** `Display for Setup`. */
  function SetupText(s: Setup): string {
    match s
    case Log(sig, exit) => "log=" + Signals.Name(sig) + "," + BoolText(exit)
    case ExitCode(code) => "exit=" + Decimal.ShowInt(code)
  }

  /** `FromStr for Setup`: `log` needs a signal name and reads the exit flag
      when there is one that parses, else takes false; `exit` needs an
      `i32`; any other action is the parser's error. */
  function ParseSetup(s: string): (r: Parse<Setup>)
    ensures r.Rejected? <==> Action(s) != "log" && Action(s) != "exit"
  {
    var act := Action(s);
    var args := Args(s);
    if act == "log" then
      var sig := Signals.FromName(args[0]);
      if sig.None? then Aborted
      else
        var exit := if |args| > 1 then ParseBool(args[1]).GetOr(false) else false;
        Parsed(Log(sig.value, exit))
    else if act == "exit" then
      var rc := Decimal.ParseInt(args[0], I32Min, I32Max);
      if rc.None? then Aborted else Parsed(ExitCode(rc.value))
    else Rejected
  }

  /** `Display for Op`. */
  function OpText(o: Op): string {
    match o
    case Sleep(ms) => "sleep=" + Decimal.Show(ms)
    case Signal(sig) => "send=" + Signals.Name(sig)
    case Panic => "panic"
    case SegFault => "segfault"
  }

  /** `FromStr for Op`: `sleep` needs a `u64`, `send` a signal name;
      `panic` and `segfault` ignore their arguments. */
  function ParseOp(s: string): (r: Option<Op>)
    ensures r.Some? ==> Action(s) in {"sleep", "send", "panic", "segfault"}
  {
    var act := Action(s);
    var args := Args(s);
    if act == "sleep" then
      var ms := Decimal.ParseNat(args[0], U64Max);
      if ms.None? then None else Some(Sleep(ms.value))
    else if act == "send" then
      var sig := Signals.FromName(args[0]);
      if sig.None? then None else Some(Signal(sig.value))
    else if act == "panic" then Some(Panic)
    else if act == "segfault" then Some(SegFault)
    else None
  }

  lemma NoComma(s: string)
    requires Decimal.AllDigits(s)
    ensures ',' !in s && '=' !in s && Text.NoWhitespace(s)
  {
    assert forall i | 0 <= i < |s| :: Decimal.IsDigit(s[i]);
  }

  lemma ShowIntIsWord(i: int)
    ensures ',' !in Decimal.ShowInt(i) && Text.NoWhitespace(Decimal.ShowInt(i))
  {
    if i < 0 {
      NoComma(Decimal.Show(-i));
      assert Decimal.ShowInt(i) == "-" + Decimal.Show(-i);
    } else {
      NoComma(Decimal.Show(i));
    }
  }

  /** A displayed setup parses back to itself. */
  lemma SetupRoundTrip(s: Setup)
    ensures ParseSetup(SetupText(s)) == Parsed(s)
  {
    match s
    case Log(sig, exit) => LogRoundTrip(sig, exit);
    case ExitCode(code) => ExitRoundTrip(code);
  }

  lemma LogRoundTrip(sig: Signals.Signal, exit: bool)
    ensures ParseSetup(SetupText(Log(sig, exit))) == Parsed(Log(sig, exit))
  {
    Signals.NameIsWord(sig);
    var args := [Signals.Name(sig), BoolText(exit)];
    assert Text.Join(args, ",") == Signals.Name(sig) + "," + BoolText(exit) by {
      assert args[1..] == [BoolText(exit)];
    }
    assert SetupText(Log(sig, exit)) == "log" + "=" + Text.Join(args, ",");
    ParseLogWord(sig, args);
  }

  /** A `log` word naming `sig` first parses to a `log` setup of `sig`,
      with the exit flag read from its second argument if any. */
  lemma ParseLogWord(sig: Signals.Signal, args: seq<string>)
    requires args != [] && args[0] == Signals.Name(sig)
    requires forall i | 0 <= i < |args| :: ',' !in args[i]
    ensures ParseSetup("log" + "=" + Text.Join(args, ",")) ==
      Parsed(Log(sig, if |args| > 1 then ParseBool(args[1]).GetOr(false) else false))
  {
    WordOfParts("log", args);
    Signals.NameRoundTrip(sig, Signals.Name(sig));
  }

  lemma ExitRoundTrip(code: I32)
    ensures ParseSetup(SetupText(ExitCode(code))) == Parsed(ExitCode(code))
  {
    ShowIntIsWord(code);
    var args := [Decimal.ShowInt(code)];
    assert SetupText(ExitCode(code)) == "exit" + "=" + Text.Join(args, ",");
    WordOfParts("exit", args);
    Decimal.ParseIntOfShowInt(code, I32Min, I32Max);
  }

  /** A `log` setup without a usable exit flag does not exit. */
  lemma LogFlagDefaults(sig: Signals.Signal, flag: string)
    requires ',' !in flag && ParseBool(flag).None?
    ensures ParseSetup("log=" + Signals.Name(sig)) == Parsed(Log(sig, false))
    ensures ParseSetup("log=" + Signals.Name(sig) + "," + flag) == Parsed(Log(sig, false))
  {
    LogWithoutFlag(sig);
    LogWithBadFlag(sig, flag);
  }

  lemma LogWithoutFlag(sig: Signals.Signal)
    ensures ParseSetup("log=" + Signals.Name(sig)) == Parsed(Log(sig, false))
  {
    var n := Signals.Name(sig);
    Signals.NameIsWord(sig);
    assert "log" + "=" + Text.Join([n], ",") == "log=" + n;
    ParseLogWord(sig, [n]);
  }

  lemma LogWithBadFlag(sig: Signals.Signal, flag: string)
    requires ',' !in flag && ParseBool(flag).None?
    ensures ParseSetup("log=" + Signals.Name(sig) + "," + flag) == Parsed(Log(sig, false))
  {
    var n := Signals.Name(sig);
    Signals.NameIsWord(sig);
    var args := [n, flag];
    assert Text.Join(args, ",") == n + "," + flag by {
      assert args[1..] == [flag];
    }
    assert "log" + "=" + Text.Join(args, ",") == "log=" + n + "," + flag;
    ParseLogWord(sig, args);
  }

  /** A displayed operation parses back to itself, and is no setup. */
  lemma OpRoundTrip(o: Op)
    ensures ParseOp(OpText(o)) == Some(o)
    ensures ParseSetup(OpText(o)) == Rejected
  {
    match o
    case Sleep(ms) => SleepRoundTrip(ms);
    case Signal(sig) => SendRoundTrip(sig);
    case Panic => BareWord("panic");
    case SegFault => BareWord("segfault");
  }

  lemma SleepRoundTrip(ms: U64)
    ensures ParseOp(OpText(Sleep(ms))) == Some(Sleep(ms))
    ensures ParseSetup(OpText(Sleep(ms))) == Rejected
  {
    NoComma(Decimal.Show(ms));
    assert "sleep" + "=" + Text.Join([Decimal.Show(ms)], ",") == OpText(Sleep(ms));
    WordOfParts("sleep", [Decimal.Show(ms)]);
    Decimal.ParseNatOfShow(ms, U64Max);
  }

  lemma SendRoundTrip(sig: Signals.Signal)
    ensures ParseOp(OpText(Signal(sig))) == Some(Signal(sig))
    ensures ParseSetup(OpText(Signal(sig))) == Rejected
  {
    Signals.NameIsWord(sig);
    assert "send" + "=" + Text.Join([Signals.Name(sig)], ",") == OpText(Signal(sig));
    WordOfParts("send", [Signals.Name(sig)]);
    Signals.NameRoundTrip(sig, Signals.Name(sig));
  }

  // ---------------------------------------------------------------------
  // Scripts as text
  // ---------------------------------------------------------------------

  /** The display of each element, in order. */
  function Texts<T>(xs: seq<T>, text: T -> string): (r: seq<string>)
    ensures |r| == |xs|
  {
    if xs == [] then [] else Texts(xs[..|xs| - 1], text) + [text(xs[|xs| - 1])]
  }

  lemma TextsPrefix<T>(xs: seq<T>, i: nat, text: T -> string)
    requires i < |xs|
    ensures Texts(xs[..i + 1], text) == Texts(xs[..i], text) + [text(xs[i])]
  {
    assert xs[..i + 1][..i] == xs[..i];
  }

  lemma {:induction false} TextAt<T>(xs: seq<T>, text: T -> string, k: nat)
    requires k < |xs|
    ensures Texts(xs, text)[k] == text(xs[k])
  {
    if k < |xs| - 1 {
      TextAt(xs[..|xs| - 1], text, k);
    }
  }

  /** `Display for Script`: every setup and then every operation, one
      space between each two. */
  function ScriptText(setups: seq<Setup>, ops: seq<Op>): string {
    Text.Join(Texts(setups, SetupText) + Texts(ops, OpText), " ")
  }

  /** What a script holds, as a value. */
  datatype Parts = Parts(setups: seq<Setup>, ops: seq<Op>)

  /** One more word of `FromStr for Script`: a setup if it is one, else an
      operation if it is one, else the parser's error. The two word parsers
      are parameters; `ParseScript` passes `ParseSetup` and `ParseOp`. */
  function AddWord(p: Parts, elem: string, setup: string -> Parse<Setup>, op: string -> Option<Op>): Parse<Parts> {
    match setup(elem)
    case Parsed(s) => Parsed(Parts(p.setups + [s], p.ops))
    case Aborted => Aborted
    case Rejected =>
      var o := op(elem);
      if o.Some? then Parsed(Parts(p.setups, p.ops + [o.value])) else Rejected
  }

  /** The words of a script read from left to right; the first that fails
      ends the parse. */
  function ParseWords(words: seq<string>, setup: string -> Parse<Setup>, op: string -> Option<Op>): Parse<Parts> {
    if words == [] then Parsed(Parts([], []))
    else
      var r := ParseWords(words[..|words| - 1], setup, op);
      if r.Parsed? then AddWord(r.value, words[|words| - 1], setup, op) else r
  }

  /** `FromStr for Script`. */
  function ParseScript(s: string): Parse<Parts> {
    ParseWords(Text.SplitWhitespace(s), ParseSetup, ParseOp)
  }

  /** A word the parser takes. */
  predicate WordOk(elem: string, setup: string -> Parse<Setup>, op: string -> Option<Op>) {
    setup(elem).Parsed? || (setup(elem).Rejected? && op(elem).Some?)
  }

  /** A script parses exactly when each of its words does; otherwise its
      first bad word decides between the parser's error and a panic. */
  lemma {:induction false} ParseWordsFirstBad(words: seq<string>, setup: string -> Parse<Setup>, op: string -> Option<Op>)
    ensures ParseWords(words, setup, op).Parsed? <==> forall k | 0 <= k < |words| :: WordOk(words[k], setup, op)
    ensures !ParseWords(words, setup, op).Parsed? ==> exists k | 0 <= k < |words| ::
      !WordOk(words[k], setup, op) && (forall j | 0 <= j < k :: WordOk(words[j], setup, op)) &&
      (ParseWords(words, setup, op).Aborted? <==> setup(words[k]).Aborted?)
  {
    if words != [] {
      var init := words[..|words| - 1];
      var last := words[|words| - 1];
      ParseWordsFirstBad(init, setup, op);
      assert forall k | 0 <= k < |init| :: init[k] == words[k];
      var r := ParseWords(init, setup, op);
      if r.Parsed? {
        assert ParseWords(words, setup, op) == AddWord(r.value, last, setup, op);
        if !WordOk(last, setup, op) {
          assert !AddWord(r.value, last, setup, op).Parsed?;
          assert forall j | 0 <= j < |words| - 1 :: WordOk(words[j], setup, op);
        }
      } else {
        var k :| 0 <= k < |init| && !WordOk(init[k], setup, op) &&
          (forall j | 0 <= j < k :: WordOk(init[j], setup, op)) &&
          (r.Aborted? <==> setup(init[k]).Aborted?);
        assert words[k] == init[k];
      }
    }
  }

  /** Words that are displayed setups read back as those setups. */
  lemma {:induction false} ParseSetupTexts(setups: seq<Setup>, text: Setup -> string,
                                           setup: string -> Parse<Setup>, op: string -> Option<Op>)
    requires forall k | 0 <= k < |setups| :: setup(text(setups[k])) == Parsed(setups[k])
    ensures ParseWords(Texts(setups, text), setup, op) == Parsed(Parts(setups, []))
  {
    if setups != [] {
      var init := setups[..|setups| - 1];
      var last := setups[|setups| - 1];
      var words := Texts(setups, text);
      assert words[..|words| - 1] == Texts(init, text);
      assert forall k | 0 <= k < |init| :: init[k] == setups[k];
      ParseSetupTexts(init, text, setup, op);
      assert init + [last] == setups;
    }
  }

  /** Words that are displayed operations, after words that parse, add
      those operations. */
  lemma {:induction false} ParseOpTexts(before: seq<string>, p: Parts, ops: seq<Op>, text: Op -> string,
                                        setup: string -> Parse<Setup>, op: string -> Option<Op>)
    requires ParseWords(before, setup, op) == Parsed(p)
    requires forall k | 0 <= k < |ops| :: setup(text(ops[k])) == Rejected && op(text(ops[k])) == Some(ops[k])
    ensures ParseWords(before + Texts(ops, text), setup, op) == Parsed(Parts(p.setups, p.ops + ops))
  {
    if ops == [] {
      assert before + Texts(ops, text) == before;
      assert p.ops + ops == p.ops;
    } else {
      var init := ops[..|ops| - 1];
      var last := ops[|ops| - 1];
      var words := before + Texts(ops, text);
      assert words[..|words| - 1] == before + Texts(init, text);
      assert words[|words| - 1] == text(last);
      assert forall k | 0 <= k < |init| :: init[k] == ops[k];
      ParseOpTexts(before, p, init, text, setup, op);
      assert p.ops + init + [last] == p.ops + ops;
    }
  }

  lemma {:induction false} TextsAreTokens(setups: seq<Setup>, ops: seq<Op>)
    ensures Text.AreTokens(Texts(setups, SetupText) + Texts(ops, OpText))
  {
    var words := Texts(setups, SetupText) + Texts(ops, OpText);
    forall k | 0 <= k < |words|
      ensures words[k] != [] && Text.NoWhitespace(words[k])
    {
      if k < |setups| {
        TextAt(setups, SetupText, k);
        SetupIsWord(setups[k]);
      } else {
        TextAt(ops, OpText, k - |setups|);
        OpIsWord(ops[k - |setups|]);
      }
    }
  }

  lemma WordConcat(a: string, b: string)
    requires Text.NoWhitespace(a) && Text.NoWhitespace(b)
    ensures Text.NoWhitespace(a + b)
  {
    assert forall i | |a| <= i < |a + b| :: (a + b)[i] == b[i - |a|];
  }

  lemma SetupIsWord(s: Setup)
    ensures SetupText(s) != [] && Text.NoWhitespace(SetupText(s))
  {
    match s
    case Log(sig, exit) =>
      Signals.NameIsWord(sig);
      WordConcat("log=", Signals.Name(sig));
      WordConcat("log=" + Signals.Name(sig), ",");
      WordConcat("log=" + Signals.Name(sig) + ",", BoolText(exit));
    case ExitCode(code) =>
      ShowIntIsWord(code);
      WordConcat("exit=", Decimal.ShowInt(code));
  }

  lemma OpIsWord(o: Op)
    ensures OpText(o) != [] && Text.NoWhitespace(OpText(o))
  {
    match o
    case Sleep(ms) =>
      NoComma(Decimal.Show(ms));
      WordConcat("sleep=", Decimal.Show(ms));
    case Signal(sig) =>
      Signals.NameIsWord(sig);
      WordConcat("send=", Signals.Name(sig));
    case Panic =>
    case SegFault =>
  }

  /** Reading a displayed script gives back the same setups and operations
      in the same order. */
  lemma ScriptRoundTrip(setups: seq<Setup>, ops: seq<Op>)
    ensures ParseScript(ScriptText(setups, ops)) == Parsed(Parts(setups, ops))
  {
    var words := Texts(setups, SetupText) + Texts(ops, OpText);
    TextsAreTokens(setups, ops);
    Text.SplitWhitespaceOfJoin(words);
    SetupsRoundTrip(setups);
    OpsRoundTrip(ops);
    ParseTextsBack(setups, ops, SetupText, OpText, ParseSetup, ParseOp);
  }

  /** Words that each parse back to the setup or operation they display
      parse, all together, back to those setups and operations. */
  lemma ParseTextsBack(setups: seq<Setup>, ops: seq<Op>, setupText: Setup -> string, opText: Op -> string,
                       setup: string -> Parse<Setup>, op: string -> Option<Op>)
    requires forall k | 0 <= k < |setups| :: setup(setupText(setups[k])) == Parsed(setups[k])
    requires forall k | 0 <= k < |ops| :: setup(opText(ops[k])) == Rejected && op(opText(ops[k])) == Some(ops[k])
    ensures ParseWords(Texts(setups, setupText) + Texts(ops, opText), setup, op) == Parsed(Parts(setups, ops))
  {
    ParseSetupTexts(setups, setupText, setup, op);
    ParseOpTexts(Texts(setups, setupText), Parts(setups, []), ops, opText, setup, op);
    assert [] + ops == ops;
  }

  lemma SetupsRoundTrip(setups: seq<Setup>)
    ensures forall k | 0 <= k < |setups| :: ParseSetup(SetupText(setups[k])) == Parsed(setups[k])
  {
    forall k | 0 <= k < |setups|
      ensures ParseSetup(SetupText(setups[k])) == Parsed(setups[k])
    {
      SetupRoundTrip(setups[k]);
    }
  }

  lemma OpsRoundTrip(ops: seq<Op>)
    ensures forall k | 0 <= k < |ops| ::
      ParseSetup(OpText(ops[k])) == Rejected && ParseOp(OpText(ops[k])) == Some(ops[k])
  {
    forall k | 0 <= k < |ops|
      ensures ParseSetup(OpText(ops[k])) == Rejected && ParseOp(OpText(ops[k])) == Some(ops[k])
    {
      OpRoundTrip(ops[k]);
    }
  }

  // ---------------------------------------------------------------------
  // Running a script
  // ---------------------------------------------------------------------

  /** The code of the last `exit` setup, or 0 when there is none. */
  function ExitCodeOf(setups: seq<Setup>): int {
    if setups == [] then 0
    else if setups[|setups| - 1].ExitCode? then setups[|setups| - 1].code
    else ExitCodeOf(setups[..|setups| - 1])
  }

  /** The handler each logged signal ends up with: whether it exits after
      logging. A later `log` of the same signal replaces an earlier one. */
  function HandlersOf(setups: seq<Setup>): map<Signals.Signal, bool> {
    if setups == [] then map[]
    else
      var init := HandlersOf(setups[..|setups| - 1]);
      match setups[|setups| - 1]
      case Log(sig, exit) => init[sig := exit]
      case ExitCode(_) => init
  }

  /** How the operations end: all done, or the helper panicked or crashed. */
  datatype End = Finished | Panicked | Crashed

  function EndOf(ops: seq<Op>): End {
    if ops == [] then Finished
    else
      var e := EndOf(ops[..|ops| - 1]);
      if e != Finished then e
      else match ops[|ops| - 1]
        case Panic => Panicked
        case SegFault => Crashed
        case _ => Finished
  }

  /** The signals sent to the parent before the operations end. */
  function SentOf(ops: seq<Op>): seq<Signals.Signal> {
    if ops == [] then []
    else
      var init := ops[..|ops| - 1];
      if EndOf(init) != Finished then SentOf(init)
      else if ops[|ops| - 1].Signal? then SentOf(init) + [ops[|ops| - 1].sig]
      else SentOf(init)
  }

  /** What running a script leaves: the code `exec` returns, the signal
      handlers installed, the signals sent, and how the operations ended. */
  datatype Execution = Execution(rc: int, handlers: map<Signals.Signal, bool>,
                                 sent: seq<Signals.Signal>, end: End)

  function Executed(setups: seq<Setup>, ops: seq<Op>): Execution {
    Execution(ExitCodeOf(setups), HandlersOf(setups), SentOf(ops), EndOf(ops))
  }

  /** The code `exec` returns is that of the last `exit` setup, whatever
      the operations are, and 0 without one. */
  lemma {:induction false} ExitCodeIsLast(setups: seq<Setup>)
    ensures (forall k | 0 <= k < |setups| :: !setups[k].ExitCode?) ==> ExitCodeOf(setups) == 0
    ensures forall k | 0 <= k < |setups| && setups[k].ExitCode? &&
      (forall j | k < j < |setups| :: !setups[j].ExitCode?) :: ExitCodeOf(setups) == setups[k].code
  {
    if setups != [] {
      var init := setups[..|setups| - 1];
      ExitCodeIsLast(init);
      assert forall k | 0 <= k < |init| :: init[k] == setups[k];
    }
  }

  /** A signal gets a handler exactly when some setup logs it, and the last
      such setup decides whether the handler exits. */
  lemma {:induction false} HandlersAreLastLog(setups: seq<Setup>, sig: Signals.Signal)
    ensures sig in HandlersOf(setups) <==> exists k | 0 <= k < |setups| :: setups[k].Log? && setups[k].sig == sig
    ensures forall k | 0 <= k < |setups| && setups[k].Log? && setups[k].sig == sig &&
      (forall j | k < j < |setups| :: !(setups[j].Log? && setups[j].sig == sig)) ::
        HandlersOf(setups)[sig] == setups[k].exit
  {
    if setups != [] {
      var init := setups[..|setups| - 1];
      HandlersAreLastLog(init, sig);
      assert forall k | 0 <= k < |init| :: init[k] == setups[k];
    }
  }

  /** The operations all run exactly when none of them panics or crashes;
      then every `send` reaches the parent, in order. */
  lemma {:induction false} OpsFinish(ops: seq<Op>)
    ensures EndOf(ops) == Finished <==> forall k | 0 <= k < |ops| :: !ops[k].Panic? && !ops[k].SegFault?
    ensures EndOf(ops) == Finished ==> |SentOf(ops)| == |set k | 0 <= k < |ops| && ops[k].Signal?|
  {
    if ops != [] {
      var init := ops[..|ops| - 1];
      OpsFinish(init);
      assert forall k | 0 <= k < |init| :: init[k] == ops[k];
      var last := |ops| - 1;
      var before := set k | 0 <= k < |init| && init[k].Signal?;
      var all := set k | 0 <= k < |ops| && ops[k].Signal?;
      if ops[last].Signal? {
        assert all == before + {last};
      } else {
        assert all == before;
      }
    }
  }

  /** Once an operation ends the helper, the ones after it change nothing. */
  lemma {:induction false} OpsStop(ops: seq<Op>, i: nat)
    requires i <= |ops| && EndOf(ops[..i]) != Finished
    ensures EndOf(ops) == EndOf(ops[..i]) && SentOf(ops) == SentOf(ops[..i])
    decreases |ops| - i
  {
    if i < |ops| {
      var init := ops[..|ops| - 1];
      assert init[..i] == ops[..i];
      OpsStop(init, i);
    } else {
      assert ops[..i] == ops;
    }
  }

  /** The signals the log-all and log-except builders cover. */
  const LoggedSignals: seq<Signals.Signal> := [
    Signals.SIGHUP, Signals.SIGINT, Signals.SIGPIPE, Signals.SIGQUIT,
    Signals.SIGTERM, Signals.SIGUSR1, Signals.SIGUSR2, Signals.SIGWINCH]

  function LogSetups(sigs: seq<Signals.Signal>, exit: bool): (r: seq<Setup>)
    ensures |r| == |sigs|
  {
    if sigs == [] then [] else LogSetups(sigs[..|sigs| - 1], exit) + [Log(sigs[|sigs| - 1], exit)]
  }

  function Without(sigs: seq<Signals.Signal>, s: Signals.Signal): seq<Signals.Signal> {
    if sigs == [] then []
    else if sigs[|sigs| - 1] == s then Without(sigs[..|sigs| - 1], s)
    else Without(sigs[..|sigs| - 1], s) + [sigs[|sigs| - 1]]
  }

  lemma {:induction false} LogSetupsMember(sigs: seq<Signals.Signal>, exit: bool, t: Setup)
    ensures t in LogSetups(sigs, exit) <==> t.Log? && t.sig in sigs && t.exit == exit
  {
    if sigs != [] {
      LogSetupsMember(sigs[..|sigs| - 1], exit, t);
      assert sigs == sigs[..|sigs| - 1] + [sigs[|sigs| - 1]];
    }
  }

  lemma {:induction false} WithoutMember(sigs: seq<Signals.Signal>, s: Signals.Signal, t: Signals.Signal)
    ensures t in Without(sigs, s) <==> t in sigs && t != s
  {
    if sigs != [] {
      WithoutMember(sigs[..|sigs| - 1], s, t);
      assert sigs == sigs[..|sigs| - 1] + [sigs[|sigs| - 1]];
    }
  }

  lemma WithoutSnoc(sigs: seq<Signals.Signal>, x: Signals.Signal, s: Signals.Signal)
    ensures Without(sigs + [x], s) == Without(sigs, s) + (if x == s then [] else [x])
  {
    assert (sigs + [x])[..|sigs|] == sigs;
  }

  /** Leaving out a signal that occurs once shortens the list by one. */
  lemma {:induction false} WithoutOnce(sigs: seq<Signals.Signal>, s: Signals.Signal)
    requires forall i, j | 0 <= i < j < |sigs| :: sigs[i] != sigs[j]
    ensures |Without(sigs, s)| == if s in sigs then |sigs| - 1 else |sigs|
  {
    if sigs != [] {
      var init := sigs[..|sigs| - 1];
      WithoutOnce(init, s);
      assert sigs == init + [sigs[|sigs| - 1]];
      if sigs[|sigs| - 1] == s {
        assert s !in init by {
          assert forall i | 0 <= i < |init| :: init[i] == sigs[i];
        }
      }
    }
  }

  /** `log_except(s)` logs, with exit, every covered signal but `s`: seven
      setups when `s` is covered. */
  lemma LogExceptSetups(s: Signals.Signal, t: Setup)
    ensures t in LogSetups(Without(LoggedSignals, s), true) <==>
      t.Log? && t.sig in LoggedSignals && t.sig != s && t.exit
    ensures s in LoggedSignals ==> |LogSetups(Without(LoggedSignals, s), true)| == 7
  {
    LogSetupsMember(Without(LoggedSignals, s), true, t);
    if t.Log? {
      WithoutMember(LoggedSignals, s, t.sig);
    }
    assert forall i, j | 0 <= i < j < |LoggedSignals| :: LoggedSignals[i] != LoggedSignals[j];
    WithoutOnce(LoggedSignals, s);
  }

  /** One word of `Display for Script`: a space first unless it is the
      first word written. */
  method WriteWord(ghost done: seq<string>, text: string, first: bool, word: string)
    returns (text': string, first': bool)
    requires text == Text.Join(done, " ") && (first <==> done == [])
    ensures text' == Text.Join(done + [word], " ") && (first' <==> done + [word] == [])
  {
    if first {
      text' := word;
    } else {
      Text.JoinSnoc(done, word, " ");
      text' := text + " " + word;
    }
    first' := false;
  }

  /** The loop of `Display for Script` over one list: each element's
      display written as a word after the words `done` already written. */
  method WriteTexts<T>(ghost done: seq<string>, text0: string, first0: bool, xs: seq<T>, show: T -> string)
    returns (text: string, first: bool)
    requires text0 == Text.Join(done, " ") && (first0 <==> done == [])
    ensures text == Text.Join(done + Texts(xs, show), " ") && (first <==> done + Texts(xs, show) == [])
  {
    text, first := text0, first0;
    assert Texts(xs[..0], show) == [] && done + [] == done;
    for i := 0 to |xs|
      invariant text == Text.Join(done + Texts(xs[..i], show), " ")
      invariant first <==> done + Texts(xs[..i], show) == []
    {
      TextsPrefix(xs, i, show);
      var t := show(xs[i]);
      assert done + Texts(xs[..i + 1], show) == done + Texts(xs[..i], show) + [t];
      text, first := WriteWord(done + Texts(xs[..i], show), text, first, t);
    }
    assert xs[..|xs|] == xs;
  }

  /** A script under construction: `Script::default()` and its builders,
      each appending to the end of one list. */
  class Script {
    var setups: seq<Setup>
    var ops: seq<Op>

    constructor()
      ensures setups == [] && ops == []
    {
      setups := [];
      ops := [];
    }

    /** The script read from `parts`, as `FromStr` builds it. */
    constructor FromParts(parts: Parts)
      ensures setups == parts.setups && ops == parts.ops
    {
      setups := parts.setups;
      ops := parts.ops;
    }

    method Log(s: Signals.Signal, exit: bool)
      modifies this
      ensures setups == old(setups) + [Setup.Log(s, exit)] && ops == old(ops)
    {
      setups := setups + [Setup.Log(s, exit)];
    }

    method Exit(rc: I32)
      modifies this
      ensures setups == old(setups) + [ExitCode(rc)] && ops == old(ops)
    {
      setups := setups + [ExitCode(rc)];
    }

    method Sleep(ms: U64)
      modifies this
      ensures ops == old(ops) + [Op.Sleep(ms)] && setups == old(setups)
    {
      ops := ops + [Op.Sleep(ms)];
    }

    method Send(s: Signals.Signal)
      modifies this
      ensures ops == old(ops) + [Op.Signal(s)] && setups == old(setups)
    {
      ops := ops + [Op.Signal(s)];
    }

    method Panic()
      modifies this
      ensures ops == old(ops) + [Op.Panic] && setups == old(setups)
    {
      ops := ops + [Op.Panic];
    }

    method Segfault()
      modifies this
      ensures ops == old(ops) + [Op.SegFault] && setups == old(setups)
    {
      ops := ops + [Op.SegFault];
    }

    /** `log_all`: one `log` setup per covered signal, in order. */
    method LogAll(exit: bool)
      modifies this
      ensures setups == old(setups) + LogSetups(LoggedSignals, exit) && ops == old(ops)
    {
      for i := 0 to |LoggedSignals|
        invariant setups == old(setups) + LogSetups(LoggedSignals[..i], exit) && ops == old(ops)
      {
        assert LoggedSignals[..i + 1][..i] == LoggedSignals[..i];
        Log(LoggedSignals[i], exit);
      }
      assert LoggedSignals[..|LoggedSignals|] == LoggedSignals;
    }

    /** `log_except(s)`: like `log_all(true)`, skipping `s`. */
    method LogExcept(s: Signals.Signal)
      modifies this
      ensures setups == old(setups) + LogSetups(Without(LoggedSignals, s), true) && ops == old(ops)
    {
      LogSkipping(LoggedSignals, s);
    }

    /** The loop of `log_except`: an exiting `log` setup for each of `sigs`
        but `skip`, in order. */
    method LogSkipping(sigs: seq<Signals.Signal>, skip: Signals.Signal)
      modifies this
      ensures setups == old(setups) + LogSetups(Without(sigs, skip), true) && ops == old(ops)
    {
      for i := 0 to |sigs|
        invariant setups == old(setups) + LogSetups(Without(sigs[..i], skip), true) && ops == old(ops)
      {
        assert sigs[..i + 1] == sigs[..i] + [sigs[i]];
        WithoutSnoc(sigs[..i], sigs[i], skip);
        if sigs[i] == skip {
          continue;
        }
        Log(sigs[i], true);
      }
      assert sigs[..|sigs|] == sigs;
    }

    /** `Display for Script`, with its `first` flag. */
    method Display() returns (text: string)
      ensures text == ScriptText(setups, ops)
    {
      var first;
      text, first := WriteTexts([], "", true, setups, SetupText);
      assert [] + Texts(setups, SetupText) == Texts(setups, SetupText);
      text, first := WriteTexts(Texts(setups, SetupText), text, first, ops, OpText);
    }

    /** `Script::exec`: every setup first, then the operations until one of
      them ends the helper. Installing a handler is recorded in the map; a
      `send` goes to the parent. */
    method Exec() returns (e: Execution)
      ensures e == Executed(setups, ops)
    {
      var rc := 0;
      var handlers: map<Signals.Signal, bool> := map[];
      for i := 0 to |setups|
        invariant rc == ExitCodeOf(setups[..i]) && handlers == HandlersOf(setups[..i])
      {
        assert setups[..i + 1][..i] == setups[..i];
        match setups[i] {
          case Log(sig, exit) =>
            handlers := handlers[sig := exit];
          case ExitCode(code) =>
            rc := code;
        }
      }
      assert setups[..|setups|] == setups;
      var sent: seq<Signals.Signal> := [];
      var end := Finished;
      var i := 0;
      while i < |ops| && end == Finished
        invariant 0 <= i <= |ops|
        invariant sent == SentOf(ops[..i]) && end == EndOf(ops[..i])
      {
        assert ops[..i + 1][..i] == ops[..i];
        match ops[i] {
          case Sleep(_) =>
          case Signal(sig) =>
            sent := sent + [sig];
          case Panic =>
            end := Panicked;
          case SegFault =>
            end := Crashed;
        }
        i := i + 1;
      }
      if i < |ops| {
        OpsStop(ops, i);
      } else {
        assert ops[..i] == ops;
      }
      e := Execution(rc, handlers, sent, end);
    }
  }

  /** `FromStr for Script`: the whitespace-separated words, parsed one by one. */
  method FromStr(s: string) returns (r: Parse<Parts>)
    ensures r == ParseScript(s)
  {
    var words := Text.SplitWhitespace(s);
    r := ParseEach(words, ParseSetup, ParseOp);
  }

  /** The loop of `FromStr for Script`: each word is tried as a setup, then
      as an operation; the first that fails ends the parse. */
  method ParseEach(words: seq<string>, setup: string -> Parse<Setup>, op: string -> Option<Op>)
    returns (r: Parse<Parts>)
    ensures r == ParseWords(words, setup, op)
  {
    var setups: seq<Setup> := [];
    var ops: seq<Op> := [];
    for i := 0 to |words|
      invariant ParseWords(words[..i], setup, op) == Parsed(Parts(setups, ops))
    {
      assert words[..i + 1][..i] == words[..i];
      var elem := words[i];
      var parsed := setup(elem);
      if parsed.Parsed? {
        setups := setups + [parsed.value];
      } else if parsed.Aborted? {
        assert ParseWords(words[..i + 1], setup, op) == Aborted;
        ParseAfterFailure(words, i + 1, setup, op);
        return Aborted;
      } else {
        var o := op(elem);
        if o.Some? {
          ops := ops + [o.value];
        } else {
          assert ParseWords(words[..i + 1], setup, op) == Rejected;
          ParseAfterFailure(words, i + 1, setup, op);
          return Rejected;
        }
      }
    }
    assert words[..|words|] == words;
    return Parsed(Parts(setups, ops));
  }

  /** Once a word fails, the words after it change nothing. */
  lemma {:induction false} ParseAfterFailure(words: seq<string>, i: nat, setup: string -> Parse<Setup>, op: string -> Option<Op>)
    requires i <= |words| && !ParseWords(words[..i], setup, op).Parsed?
    ensures ParseWords(words, setup, op) == ParseWords(words[..i], setup, op)
    decreases |words| - i
  {
    if i < |words| {
      var init := words[..|words| - 1];
      assert init[..i] == words[..i];
      ParseAfterFailure(init, i, setup, op);
    } else {
      assert words[..i] == words;
    }
  }
}
