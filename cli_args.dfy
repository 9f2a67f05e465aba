/** The command-line shaping that happens around the argument parser: the
    split of argv into parser words and Lua arguments, the ordering of the
    inline Lua expressions, the choice of runner and the child's argv. */
module CliArgs {
  import opened Wrappers
  import Text
  import Types
  import Lua

  // ---------------------------------------------------------------------
  // Pre-splitting argv

  /** Whether an option word consumes the next word. `opts` maps every short
      and long name and alias of the parser's options to whether it takes a
      value; all leading dashes are ignored, and unknown names are flags. */
  predicate TakesValue(opts: map<string, bool>, arg: string) {
    var name := Text.TrimStartMatches(arg, '-');
    name in opts && opts[name]
  }

  predicate IsOptionWord(w: string) {
    w != [] && w[0] == '-'
  }

  /** How the scan treats a word. */
  datatype WordKind = EndOfOptions | ValueOption | Flag | Operand

  function Kind(opts: map<string, bool>, w: string): (k: WordKind)
    ensures k == EndOfOptions <==> w == "--"
    ensures k == ValueOption <==> w != "--" && IsOptionWord(w) && TakesValue(opts, w)
    ensures k == Flag <==> w != "--" && IsOptionWord(w) && !TakesValue(opts, w)
    ensures k == Operand <==> !IsOptionWord(w)
  {
    if w == "--" then EndOfOptions
    else if IsOptionWord(w) then (if TakesValue(opts, w) then ValueOption else Flag)
    else Operand
  }

  /** The classifier the scan uses for a given option table. */
  function KindOf(opts: map<string, bool>): (kind: string -> WordKind)
    ensures forall w :: kind(w) == Kind(opts, w)
  {
    w => Kind(opts, w)
  }

  /** The scan over the words after the program name, given how each word
      is treated: the words kept for the parser, and the Lua arguments. A
      `--` stops the scan and is dropped; the first word not starting with
      `-` is kept and stops it. */
  function Scan(rest: seq<string>, kind: string -> WordKind): (r: (seq<string>, seq<string>))
    decreases |rest|
  {
    if rest == [] then ([], [])
    else match kind(rest[0])
      case EndOfOptions => ([], rest[1..])
      case ValueOption =>
        if |rest| == 1 then ([rest[0]], [])
        else var s := Scan(rest[2..], kind); ([rest[0], rest[1]] + s.0, s.1)
      case Flag => var s := Scan(rest[1..], kind); ([rest[0]] + s.0, s.1)
      case Operand => ([rest[0]], rest[1..])
  }

  /** The pre-split of a whole argv: the program name always goes to the
      parser. */
  function PreSplitSpec(args: seq<string>, opts: map<string, bool>): (r: (seq<string>, seq<string>)) {
    if args == [] then ([], [])
    else var s := Scan(args[1..], KindOf(opts)); ([args[0]] + s.0, s.1)
  }

  /** The `while let` loop of `App::try_from`. */
  method PreSplit(args: seq<string>, opts: map<string, bool>) returns (clapArgs: seq<string>, luaArgs: seq<string>)
    ensures (clapArgs, luaArgs) == PreSplitSpec(args, opts)
  {
    if args == [] {
      return [], [];
    }
    var kind := KindOf(opts);
    ghost var spec := PreSplitSpec(args, opts);
    clapArgs := [args[0]];
    var i := 1;
    while i < |args|
      invariant 1 <= i <= |args|
      invariant clapArgs + Scan(args[i..], kind).0 == spec.0
      invariant Scan(args[i..], kind).1 == spec.1
      decreases |args| - i
    {
      var elem := args[i];
      if elem == "--" {
        assert kind(elem) == EndOfOptions;
        ScanStops(args, i, kind);
        assert clapArgs + [] == clapArgs;
        luaArgs := args[i + 1..];
        return;
      } else if elem != [] && elem[0] == '-' {
        if TakesValue(opts, elem) && i + 1 < |args| {
          assert kind(elem) == ValueOption;
          ScanPast(args, i, 2, kind);
          Text.Assoc(clapArgs, [elem, args[i + 1]], Scan(args[i + 2..], kind).0);
          clapArgs := clapArgs + [elem, args[i + 1]];
          i := i + 2;
        } else if TakesValue(opts, elem) {
          assert kind(elem) == ValueOption;
          ScanStops(args, i, kind);
          clapArgs := clapArgs + [elem];
          i := i + 1;
        } else {
          assert kind(elem) == Flag;
          ScanPast(args, i, 1, kind);
          Text.Assoc(clapArgs, [elem], Scan(args[i + 1..], kind).0);
          clapArgs := clapArgs + [elem];
          i := i + 1;
        }
      } else {
        ScanStops(args, i, kind);
        clapArgs := clapArgs + [elem];
        luaArgs := args[i + 1..];
        return;
      }
    }
    assert args[i..] == [];
    assert clapArgs + [] == clapArgs;
    luaArgs := [];
  }

  /** The scan from position `i` when the word there ends it: a `--`, an
      operand, or a value option with nothing after it. */
  lemma ScanStops(args: seq<string>, i: nat, kind: string -> WordKind)
    requires i < |args|
    requires kind(args[i]) == EndOfOptions || kind(args[i]) == Operand ||
      (kind(args[i]) == ValueOption && i + 1 == |args|)
    ensures Scan(args[i..], kind) ==
      if kind(args[i]) == EndOfOptions then ([], args[i + 1..]) else ([args[i]], args[i + 1..])
  {
    var rest := args[i..];
    assert rest[0] == args[i] && rest[1..] == args[i + 1..];
  }

  /** The scan from position `i` past a flag (`n == 1`) or past an option
      and its value (`n == 2`). */
  lemma ScanPast(args: seq<string>, i: nat, n: nat, kind: string -> WordKind)
    requires 1 <= n <= 2 && i + n <= |args|
    requires n == 1 ==> kind(args[i]) == Flag
    requires n == 2 ==> kind(args[i]) == ValueOption
    ensures Scan(args[i..], kind).0 == args[i..i + n] + Scan(args[i + n..], kind).0
    ensures Scan(args[i..], kind).1 == Scan(args[i + n..], kind).1
  {
    var rest := args[i..];
    assert rest[0] == args[i] && rest[n..] == args[i + n..];
    if n == 2 {
      assert args[i..i + n] == [rest[0], rest[1]];
    } else {
      assert args[i..i + n] == [rest[0]];
    }
  }

  /** Where the scan stops at a `--`, if it does. */
  function DashDashAt(rest: seq<string>, kind: string -> WordKind): (d: Option<nat>)
    ensures d.Some? ==> d.value < |rest| && kind(rest[d.value]) == EndOfOptions
    decreases |rest|
  {
    if rest == [] then None
    else match kind(rest[0])
      case EndOfOptions => Some(0)
      case ValueOption =>
        if |rest| == 1 then None
        else var d := DashDashAt(rest[2..], kind); if d.Some? then Some(d.value + 2) else None
      case Flag => var d := DashDashAt(rest[1..], kind); if d.Some? then Some(d.value + 1) else None
      case Operand => None
  }

  /** `whole` without the word at `d`, if there is one. */
  function Without<T>(whole: seq<T>, d: Option<nat>): seq<T>
    requires d.Some? ==> d.value < |whole|
  {
    if d.None? then whole else whole[..d.value] + whole[d.value + 1..]
  }

  lemma WithoutShift<T>(head: seq<T>, tail: seq<T>, d: Option<nat>)
    requires d.Some? ==> d.value < |tail|
    ensures var d' := if d.Some? then Some(d.value + |head|) else None;
      head + Without(tail, d) == Without(head + tail, d')
  {
    if d.Some? {
      var k := d.value;
      assert (head + tail)[..k + |head|] == head + tail[..k];
      assert (head + tail)[k + |head| + 1..] == tail[k + 1..];
    }
  }

  /** Nothing is lost or reordered: the parser words followed by the Lua
      arguments give the input back, less the `--` the scan stopped at. */
  lemma {:induction false} ScanKeepsWords(rest: seq<string>, kind: string -> WordKind)
    ensures Scan(rest, kind).0 + Scan(rest, kind).1 == Without(rest, DashDashAt(rest, kind))
    decreases |rest|
  {
    if rest != [] {
      match kind(rest[0])
      case EndOfOptions =>
        assert rest[..0] + rest[1..] == rest[1..];
      case ValueOption =>
        if |rest| == 1 {
          assert rest == [rest[0]];
        } else {
          ScanStep(rest, 2, kind);
        }
      case Flag =>
        ScanStep(rest, 1, kind);
      case Operand =>
        assert [rest[0]] + rest[1..] == rest;
    }
  }

  /** The scan past an option unit `h`: a flag, or an option and its value. */
  lemma ScanCons(h: seq<string>, w: seq<string>, kind: string -> WordKind)
    requires (|h| == 1 && kind(h[0]) == Flag) || (|h| == 2 && kind(h[0]) == ValueOption)
    ensures Scan(h + w, kind).0 == h + Scan(w, kind).0
    ensures Scan(h + w, kind).1 == Scan(w, kind).1
    ensures DashDashAt(h + w, kind) ==
      if DashDashAt(w, kind).Some? then Some(DashDashAt(w, kind).value + |h|) else None
  {
    var hw := h + w;
    assert hw[0] == h[0];
    assert hw[|h|..] == w;
    if |h| == 2 {
      assert hw[1] == h[1];
      assert h == [h[0], h[1]];
    } else {
      assert h == [h[0]];
    }
  }

  /** The step of `ScanKeepsWords` past an option and its value, if any. */
  lemma {:induction false} ScanStep(rest: seq<string>, n: nat, kind: string -> WordKind)
    requires 1 <= n <= 2 && n <= |rest|
    requires n == 2 ==> kind(rest[0]) == ValueOption
    requires n == 1 ==> kind(rest[0]) == Flag
    ensures Scan(rest, kind).0 + Scan(rest, kind).1 == Without(rest, DashDashAt(rest, kind))
    decreases |rest|, 0
  {
    var head := rest[..n];
    var tail := rest[n..];
    assert rest == head + tail;
    ScanKeepsWords(tail, kind);
    ScanCons(head, tail, kind);
    Text.Assoc(head, Scan(tail, kind).0, Scan(tail, kind).1);
    WithoutShift(head, tail, DashDashAt(tail, kind));
  }

  /** The same for the whole argv, program name included: the two outputs
      together are the input, less at most one `--`. */
  lemma PreSplitKeepsWords(args: seq<string>, opts: map<string, bool>)
    requires args != []
    ensures var s := PreSplitSpec(args, opts);
      var d := DashDashAt(args[1..], KindOf(opts));
      s.0 + s.1 == Without(args, if d.Some? then Some(d.value + 1) else None) &&
      (d.Some? ==> args[d.value + 1] == "--")
  {
    var kind := KindOf(opts);
    ArgvKeepsWords(args, kind);
    var d := DashDashAt(args[1..], kind);
    if d.Some? {
      assert args[d.value + 1] == args[1..][d.value];
    }
  }

  lemma ArgvKeepsWords(args: seq<string>, kind: string -> WordKind)
    requires args != []
    ensures var s := Scan(args[1..], kind);
      var d := DashDashAt(args[1..], kind);
      [args[0]] + s.0 + s.1 == Without(args, if d.Some? then Some(d.value + 1) else None)
  {
    var rest := args[1..];
    ScanKeepsWords(rest, kind);
    Text.Assoc([args[0]], Scan(rest, kind).0, Scan(rest, kind).1);
    WithoutShift([args[0]], rest, DashDashAt(rest, kind));
    assert [args[0]] + rest == args;
  }

  /** A run of options, each with its value where it takes one, that the
      scan goes all the way through. */
  predicate OptionRun(a: seq<string>, kind: string -> WordKind)
    decreases |a|
  {
    a == [] ||
    match kind(a[0])
    case ValueOption => |a| >= 2 && OptionRun(a[2..], kind)
    case Flag => OptionRun(a[1..], kind)
    case _ => false
  }

  /** After a run of options the scan carries on with what follows; the
      options all go to the parser. */
  lemma {:induction false} ScanAfterOptions(a: seq<string>, b: seq<string>, kind: string -> WordKind)
    requires OptionRun(a, kind)
    ensures Scan(a + b, kind).0 == a + Scan(b, kind).0
    ensures Scan(a + b, kind).1 == Scan(b, kind).1
    decreases |a|
  {
    if a == [] {
      assert a + b == b;
      assert [] + Scan(b, kind).0 == Scan(b, kind).0;
    } else {
      var n := if kind(a[0]) == ValueOption then 2 else 1;
      var h := a[..n];
      var t := a[n..];
      ScanAfterOptions(t, b, kind);
      ScanCons(h, t + b, kind);
      assert a == h + t;
      Text.Assoc(h, t, b);
      Text.Assoc(h, t, Scan(b, kind).0);
    }
  }

  /** After a run of options, a word that stops the scan: a `--` is
      dropped and ends it, an operand is kept and ends it. */
  lemma StopAfterOptions(a: seq<string>, w: string, b: seq<string>, kind: string -> WordKind)
    requires OptionRun(a, kind)
    requires kind(w) == EndOfOptions || kind(w) == Operand
    ensures Scan(a + [w] + b, kind) == if kind(w) == EndOfOptions then (a, b) else (a + [w], b)
  {
    ScanAfterOptions(a, [w] + b, kind);
    assert a + [w] + b == a + ([w] + b);
    assert ([w] + b)[1..] == b;
    assert a + [] == a;
  }

  /** `--` after the options ends option scanning: everything after it is
      a Lua argument, whatever it looks like. */
  lemma DashDashEndsOptions(a: seq<string>, b: seq<string>, opts: map<string, bool>)
    requires OptionRun(a, KindOf(opts))
    ensures Scan(a + ["--"] + b, KindOf(opts)) == (a, b)
  {
    assert KindOf(opts)("--") == EndOfOptions;
    StopAfterOptions(a, "--", b, KindOf(opts));
  }

  /** The first word not starting with `-` (the Lua file) goes to the
      parser, and everything after it is a Lua argument. */
  lemma FirstWordEndsOptions(a: seq<string>, f: string, b: seq<string>, opts: map<string, bool>)
    requires OptionRun(a, KindOf(opts))
    requires !IsOptionWord(f)
    ensures Scan(a + [f] + b, KindOf(opts)) == (a + [f], b)
  {
    assert KindOf(opts)(f) == Operand;
    StopAfterOptions(a, f, b, KindOf(opts));
  }

  /** An option that takes a value consumes the following word even when it
      looks like an option or is `--`. */
  lemma ValueOptionConsumes(o: string, v: string, rest: seq<string>, opts: map<string, bool>)
    requires IsOptionWord(o) && o != "--" && TakesValue(opts, o)
    ensures Scan([o, v] + rest, KindOf(opts)).0 == [o, v] + Scan(rest, KindOf(opts)).0
    ensures Scan([o, v] + rest, KindOf(opts)).1 == Scan(rest, KindOf(opts)).1
  {
    var kind := KindOf(opts);
    assert kind(o) == ValueOption;
    ScanCons([o, v], rest, kind);
  }

  /** An option word whose name is unknown is taken for a flag. */
  lemma UnknownOptionIsFlag(o: string, rest: seq<string>, opts: map<string, bool>)
    requires IsOptionWord(o) && o != "--"
    requires Text.TrimStartMatches(o, '-') !in opts
    ensures Scan([o] + rest, KindOf(opts)).0 == [o] + Scan(rest, KindOf(opts)).0
    ensures Scan([o] + rest, KindOf(opts)).1 == Scan(rest, KindOf(opts)).1
  {
    var kind := KindOf(opts);
    assert kind(o) == Flag;
    ScanCons([o], rest, kind);
  }

  // ---------------------------------------------------------------------
  // Ordering the inline Lua expressions

  type Indexed = Types.ValueWithIndex

  predicate SortedByIndex(s: seq<Indexed>) {
    forall i, j | 0 <= i < j < |s| :: s[i].index <= s[j].index
  }

  /** Puts `x` after every element whose index is not above its own. */
  function InsertByIndex(x: Indexed, s: seq<Indexed>): (r: seq<Indexed>)
    ensures |r| == |s| + 1
  {
    if s == [] then [x]
    else if x.index < s[0].index then [x] + s
    else [s[0]] + InsertByIndex(x, s[1..])
  }

  lemma {:induction false} InsertByIndexMultiset(x: Indexed, s: seq<Indexed>)
    ensures multiset(InsertByIndex(x, s)) == multiset(s) + multiset{x}
  {
    if s != [] && x.index >= s[0].index {
      InsertByIndexMultiset(x, s[1..]);
      assert s == [s[0]] + s[1..];
    }
  }

  lemma {:induction false} InsertByIndexSorted(x: Indexed, s: seq<Indexed>)
    requires SortedByIndex(s)
    ensures SortedByIndex(InsertByIndex(x, s))
    ensures forall i | 0 <= i < |InsertByIndex(x, s)| ::
      InsertByIndex(x, s)[i] == x || InsertByIndex(x, s)[i] in s
  {
    if s != [] && x.index >= s[0].index {
      var t := InsertByIndex(x, s[1..]);
      InsertByIndexSorted(x, s[1..]);
      var r := [s[0]] + t;
      forall i, j | 0 <= i < j < |r|
        ensures r[i].index <= r[j].index
      {
        if i == 0 {
          assert r[j] == t[j - 1];
          assert t[j - 1] == x || t[j - 1] in s[1..];
          if t[j - 1] != x {
            var k :| 0 <= k < |s[1..]| && s[1..][k] == t[j - 1];
            assert s[k + 1] == t[j - 1];
          }
        }
      }
    }
  }

  /** `Vec::sort` with the order that looks at the index only: a stable sort
      by index. */
  function SortByIndex(xs: seq<Indexed>): (r: seq<Indexed>)
    ensures |r| == |xs|
  {
    if xs == [] then [] else InsertByIndex(xs[|xs| - 1], SortByIndex(xs[..|xs| - 1]))
  }

  /** The sort orders by index and keeps every entry as often as it occurs. */
  lemma {:induction false} SortByIndexCorrect(xs: seq<Indexed>)
    ensures SortedByIndex(SortByIndex(xs))
    ensures multiset(SortByIndex(xs)) == multiset(xs)
  {
    if xs != [] {
      var init := xs[..|xs| - 1];
      SortByIndexCorrect(init);
      InsertByIndexSorted(xs[|xs| - 1], SortByIndex(init));
      InsertByIndexMultiset(xs[|xs| - 1], SortByIndex(init));
      assert xs == init + [xs[|xs| - 1]];
    }
  }

  function Values(xs: seq<Indexed>): (r: seq<string>)
    ensures |r| == |xs|
    ensures forall i | 0 <= i < |xs| :: r[i] == xs[i].value
  {
    if xs == [] then [] else [xs[0].value] + Values(xs[1..])
  }

  /** A `-l LIB` becomes `require(<LIB quoted>)` at the same position. */
  function RequireLib(lib: Indexed): (r: Indexed)
    ensures r.index == lib.index
  {
    Types.ValueWithIndex("require(" + Lua.QuoteLuaString(lib.value) + ")", lib.index)
  }

  function RequireLibs(libs: seq<Indexed>): (r: seq<Indexed>)
    ensures |r| == |libs|
    ensures forall i | 0 <= i < |libs| :: r[i] == RequireLib(libs[i])
  {
    if libs == [] then [] else [RequireLib(libs[0])] + RequireLibs(libs[1..])
  }

  /** The inline Lua chunks handed to the loader: the `-j` statement first,
      then the `-e` expressions and the `-l` requires by command-line
      position. */
  function InlineLua(jit: Option<Types.JitCmd>, exprs: seq<Indexed>, libs: seq<Indexed>): (r: seq<string>)
    ensures jit.Some? ==> |r| >= 1 && r[0] == Types.JitToLua(jit.value)
    ensures var k := if jit.Some? then 1 else 0;
      |r| == k + |exprs| + |libs| &&
      r[k..] == Values(SortByIndex(exprs + RequireLibs(libs)))
  {
    (if jit.Some? then [Types.JitToLua(jit.value)] else []) + Values(SortByIndex(exprs + RequireLibs(libs)))
  }

  /** The expressions after the `-j` statement come in order of position,
      and every `-e` value and every `-l` require is among them exactly as
      often as it was given. */
  lemma InlineLuaOrdered(jit: Option<Types.JitCmd>, exprs: seq<Indexed>, libs: seq<Indexed>)
    ensures var sorted := SortByIndex(exprs + RequireLibs(libs));
      SortedByIndex(sorted) &&
      multiset(sorted) == multiset(exprs) + multiset(RequireLibs(libs)) &&
      InlineLua(jit, exprs, libs)[if jit.Some? then 1 else 0..] == Values(sorted)
  {
    SortByIndexCorrect(exprs + RequireLibs(libs));
  }

  /** With positions all different, the sorted order is the only order by
      position: any two arrangements sorted by distinct positions that hold
      the same entries are equal. */
  lemma {:induction false} SortedUnique(a: seq<Indexed>, b: seq<Indexed>)
    requires SortedByIndex(a) && SortedByIndex(b)
    requires multiset(a) == multiset(b)
    requires forall i, j | 0 <= i < j < |a| :: a[i].index != a[j].index
    ensures a == b
  {
    assert |a| == |multiset(a)| == |b|;
    if a != [] {
      SameHead(a, b);
      SameTail(a, b);
      SortedTail(a);
      SortedTail(b);
      DistinctTail(a);
      SortedUnique(a[1..], b[1..]);
      assert a == [a[0]] + a[1..] && b == [b[0]] + b[1..];
    }
  }

  /** Two arrangements sorted by distinct positions that hold the same
      entries open with the same entry: the one with the least position. */
  lemma SameHead(a: seq<Indexed>, b: seq<Indexed>)
    requires a != [] && b != []
    requires SortedByIndex(a) && SortedByIndex(b)
    requires multiset(a) == multiset(b)
    requires forall i, j | 0 <= i < j < |a| :: a[i].index != a[j].index
    ensures a[0] == b[0]
  {
    assert a[0] in multiset(b);
    var q :| 0 <= q < |b| && b[q] == a[0];
    assert b[0] in multiset(a);
    var p :| 0 <= p < |a| && a[p] == b[0];
    assert a[0].index <= a[p].index == b[0].index <= b[q].index == a[0].index;
  }

  lemma SameTail(a: seq<Indexed>, b: seq<Indexed>)
    requires a != [] && b != [] && a[0] == b[0]
    requires multiset(a) == multiset(b)
    ensures multiset(a[1..]) == multiset(b[1..])
  {
    assert a == [a[0]] + a[1..];
    assert b == [b[0]] + b[1..];
    assert multiset(a) == multiset{a[0]} + multiset(a[1..]);
    assert multiset(b) == multiset{b[0]} + multiset(b[1..]);
    assert multiset(a[1..]) == multiset(a) - multiset{a[0]};
  }

  lemma DistinctTail(a: seq<Indexed>)
    requires a != []
    requires forall i, j | 0 <= i < j < |a| :: a[i].index != a[j].index
    ensures forall i, j | 0 <= i < j < |a[1..]| :: a[1..][i].index != a[1..][j].index
  {
    forall i, j | 0 <= i < j < |a[1..]|
      ensures a[1..][i].index != a[1..][j].index
    {
      assert a[1..][i] == a[i + 1] && a[1..][j] == a[j + 1];
    }
  }

  lemma SortedTail(a: seq<Indexed>)
    requires a != [] && SortedByIndex(a)
    ensures SortedByIndex(a[1..])
  {
    forall i, j | 0 <= i < j < |a[1..]|
      ensures a[1..][i].index <= a[1..][j].index
    {
      assert a[1..][i] == a[i + 1] && a[1..][j] == a[j + 1];
    }
  }

  // ---------------------------------------------------------------------
  // Runners and the child's argv

  /** How nginx is run: directly, or under a recorder, tracer or debugger
      (the options of those are kept as one string each). */
  datatype Runner =
    | Default
    | RR
    | Stap(stapOpts: Option<string>)
    | Valgrind(valgrindOpts: Option<string>)
    | Gdb(gdbOpts: Option<string>)
    | User(command: string)

  /** The parsed runner arguments. */
  datatype RunnerArgs = RunnerArgs(
    rr: bool,
    stap: bool, stapOpts: Option<string>,
    valgrind: bool, valgrindOpts: Option<string>,
    gdb: bool, gdbOpts: Option<string>,
    userRunner: Option<string>)

  /** `Runner::from`: the first runner asked for, in the order rr, stap,
      valgrind, gdb, user runner; nginx alone otherwise. */
  function RunnerFrom(m: RunnerArgs): (r: Runner)
    ensures r == RR <==> m.rr
    ensures r.Stap? <==> !m.rr && m.stap
    ensures r.Valgrind? <==> !m.rr && !m.stap && m.valgrind
    ensures r.Gdb? <==> !m.rr && !m.stap && !m.valgrind && m.gdb
    ensures r.User? <==> !m.rr && !m.stap && !m.valgrind && !m.gdb && m.userRunner.Some?
    ensures r == Default <==> !m.rr && !m.stap && !m.valgrind && !m.gdb && m.userRunner.None?
    ensures r.Stap? ==> r.stapOpts == m.stapOpts
    ensures r.Valgrind? ==> r.valgrindOpts == m.valgrindOpts
    ensures r.Gdb? ==> r.gdbOpts == m.gdbOpts
    ensures r.User? ==> r.command == m.userRunner.value
  {
    if m.rr then RR
    else if m.stap then Stap(m.stapOpts)
    else if m.valgrind then Valgrind(m.valgrindOpts)
    else if m.gdb then Gdb(m.gdbOpts)
    else if m.userRunner.Some? then User(m.userRunner.value)
    else Default
  }

  /** A program and its arguments. */
  datatype Command = Command(program: string, args: seq<string>)

  /** The prefix handed to nginx: the directory with exactly one `/` at
      the end. */
  function PrefixArg(root: string): (p: string)
    ensures p != [] && p[|p| - 1] == '/'
    ensures |p| < 2 || p[|p| - 2] != '/'
    ensures p[..|p| - 1] == Text.TrimEndMatches(root, '/')
  {
    Text.TrimEndMatches(root, '/') + "/"
  }

  /** The arguments nginx itself is given. */
  function NginxArgs(root: string): seq<string> {
    ["-p", PrefixArg(root), "-c", "conf/nginx.conf"]
  }

  /** `From<App> for Command`. `split` and `join` stand for the shell-word
      splitter and joiner; a user runner that splits into no words at all
      makes the source panic, which is `None` here. */
  function CommandFor(root: string, nginx: string, runner: Runner,
                      split: string -> seq<string>, join: seq<string> -> string): (c: Option<Command>)
    ensures c.None? <==> runner.User? && split(runner.command) == []
  {
    var nargs := NginxArgs(root);
    match runner
    case Default => Some(Command(nginx, nargs))
    case RR => Some(Command("rr", ["record", nginx] + nargs))
    case Stap(opts) =>
      Some(Command("stap", (if opts.Some? then split(opts.value) else []) + ["-c", join([nginx] + nargs)]))
    case Valgrind(opts) =>
      Some(Command("valgrind", (if opts.Some? then split(opts.value) else []) + [nginx] + nargs))
    case Gdb(opts) =>
      Some(Command("gdb", (if opts.Some? then split(opts.value) else []) + ["--args", nginx] + nargs))
    case User(cmd) =>
      var words := split(cmd);
      if words == [] then None else Some(Command(words[0], words[1..] + [nginx] + nargs))
  }

  /** Every runner but stap ends the child's argv with nginx and its own
      arguments; stap receives them joined into the one word after `-c`. */
  lemma CommandEndsWithNginx(root: string, nginx: string, runner: Runner,
                             split: string -> seq<string>, join: seq<string> -> string)
    requires CommandFor(root, nginx, runner, split, join).Some?
    ensures var c := CommandFor(root, nginx, runner, split, join).value;
      var nargs := NginxArgs(root);
      if runner == Default then c.program == nginx && c.args == nargs
      else if runner.Stap? then c.program == "stap" && |c.args| >= 2 &&
        c.args[|c.args| - 2..] == ["-c", join([nginx] + nargs)]
      else |c.args| >= 5 && c.args[|c.args| - 5..] == [nginx] + nargs
  {
    var c := CommandFor(root, nginx, runner, split, join).value;
    var nargs := NginxArgs(root);
    if runner.Stap? {
      var o := if runner.stapOpts.Some? then split(runner.stapOpts.value) else [];
      assert c.args == o + ["-c", join([nginx] + nargs)];
      assert c.args[|c.args| - 2..] == ["-c", join([nginx] + nargs)];
    } else if runner != Default {
      var head :=
        match runner
        case RR => ["record"]
        case Valgrind(opts) => if opts.Some? then split(opts.value) else []
        case Gdb(opts) => (if opts.Some? then split(opts.value) else []) + ["--args"]
        case User(cmd) => split(cmd)[1..];
      assert c.args == head + ([nginx] + nargs);
      assert c.args[|head|..] == [nginx] + nargs;
    }
  }

  /** The runners' own words: `rr record`, and `--args` right before
      nginx under gdb. */
  lemma RunnerWords(root: string, nginx: string, opts: Option<string>,
                    split: string -> seq<string>, join: seq<string> -> string)
    ensures CommandFor(root, nginx, RR, split, join) == Some(Command("rr", ["record", nginx] + NginxArgs(root)))
    ensures var c := CommandFor(root, nginx, Gdb(opts), split, join).value;
      c.program == "gdb" && |c.args| >= 6 && c.args[|c.args| - 6] == "--args"
  {
    var c := CommandFor(root, nginx, Gdb(opts), split, join).value;
    var o := if opts.Some? then split(opts.value) else [];
    assert c.args == o + ["--args", nginx] + NginxArgs(root);
    assert c.args[|o|] == "--args";
  }

  // ---------------------------------------------------------------------
  // Checks on the Lua input

  /** The checks on the Lua input after parsing: unless only the version is
      asked for, there must be a Lua file or an `-e`, and a Lua file must
      exist. */
  datatype InputError = NoLuaInput | LuaFileNotFound(file: string)

  function CheckLuaInput(version: bool, luaFile: Option<string>, hasInline: bool, fileExists: string -> bool)
    : (r: Option<InputError>)
    ensures version ==> r.None?
    ensures r == Some(NoLuaInput) <==> !version && luaFile.None? && !hasInline
    ensures r.Some? && r.value.LuaFileNotFound? <==> !version && luaFile.Some? && !fileExists(luaFile.value)
    ensures r.Some? && r.value.LuaFileNotFound? ==> r.value.file == luaFile.value
  {
    if version then None
    else if luaFile.None? && !hasInline then Some(NoLuaInput)
    else if luaFile.Some? && !fileExists(luaFile.value) then Some(LuaFileNotFound(luaFile.value))
    else None
  }
}
