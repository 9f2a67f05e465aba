/** Lua code generation (`src/lua.rs`): long-bracket quoting of strings, the
    indenting line buffer, the loader prelude written into the nginx
    configuration, and the `lua_package_path` / `lua_package_cpath`
    directives. */
module Lua {
  import opened Wrappers
  import opened Decimal
  import Text
  import Paths

  // ---------------------------------------------------------------------
  // Long-bracket level

  /** Number of `=` at the end of `p`. */
  function EqRun(p: string): (k: nat)
    ensures k <= |p|
    ensures forall i | |p| - k <= i < |p| :: p[i] == '='
    ensures k < |p| ==> p[|p| - k - 1] != '='
  {
    if p != [] && p[|p| - 1] == '=' then 1 + EqRun(p[..|p| - 1]) else 0
  }

  /** The scanner's `level` once it has read `p`, which ends in `=`: the
      length of the trailing run of `=` when a `]` opens the run, and one less
      otherwise (the scanner's counter only starts at a `=` that follows `]`;
      a run that starts elsewhere begins at 0). */
  function RunLevel(p: string): nat
    requires p != [] && p[|p| - 1] == '='
  {
    var k := EqRun(p);
    if k < |p| && p[|p| - k - 1] == ']' then k else k - 1
  }

  function Max(a: nat, b: nat): nat {
    if a >= b then a else b
  }

  /** The largest `level` the scanner holds at a `=` that a `]` follows,
      over the text `p`; 0 when there is none. */
  function MaxLevel(p: string): nat {
    if p == [] then 0
    else
      var init := p[..|p| - 1];
      if p[|p| - 1] == ']' && init != [] && init[|init| - 1] == '=' then
        Max(MaxLevel(init), RunLevel(init))
      else MaxLevel(init)
  }

  /** What `get_bracket_level` returns. */
  function BracketLevel(s: string): (n: nat)
    ensures n >= 1
  {
    MaxLevel(s) + 1
  }

  /** `get_bracket_level`: one pass over the characters, tracking the last
      character, the current run level and the largest level seen. */
  method GetBracketLevel(s: string) returns (r: nat)
    ensures r == BracketLevel(s)
  {
    var maxLevel: nat := 0;
    var level: nat := 0;
    var last := '_';
    for i := 0 to |s|
      invariant maxLevel == MaxLevel(s[..i])
      invariant last == if i == 0 then '_' else s[i - 1]
      invariant i > 0 && s[i - 1] == '=' ==> level == RunLevel(s[..i])
    {
      var c := s[i];
      assert s[..i + 1] == s[..i] + [c];
      MaxLevelStep(s[..i], c);
      if c == '=' {
        RunLevelStep(s[..i]);
      }
      if last == ']' && c == '=' {
        level := 1;
      } else if last == '=' && c == '=' {
        level := level + 1;
      } else if last == '=' && c == ']' {
        maxLevel := Max(maxLevel, level);
      } else {
        level := 0;
      }
      last := c;
    }
    assert s[..|s|] == s;
    return maxLevel + 1;
  }

  /** How the scanner's run level changes as one more `=` is read after
      the text `p`. */
  lemma RunLevelStep(p: string)
    ensures var q := p + ['='];
      var last := if p == [] then '_' else p[|p| - 1];
      (last == ']' ==> RunLevel(q) == 1) &&
      (last == '=' ==> RunLevel(q) == RunLevel(p) + 1) &&
      (last != ']' && last != '=' ==> RunLevel(q) == 0)
  {
    var q := p + ['='];
    assert q[..|q| - 1] == p;
  }

  /** How the largest level changes as one more character `c` is read
      after the text `p`: only a `]` after a `=` can raise it. */
  lemma MaxLevelStep(p: string, c: char)
    ensures MaxLevel(p + [c]) ==
      if p != [] && p[|p| - 1] == '=' && c == ']' then Max(MaxLevel(p), RunLevel(p)) else MaxLevel(p)
  {
    var q := p + [c];
    assert q[..|q| - 1] == p;
  }

  lemma BracketLevelEmpty()
    ensures BracketLevel("") == 1
  {
  }

  /** A trailing run of exactly `n` `=` characters. */
  lemma {:induction false} EqRunIs(p: string, n: nat)
    requires n <= |p|
    requires forall i | |p| - n <= i < |p| :: p[i] == '='
    requires n == |p| || p[|p| - n - 1] != '='
    ensures EqRun(p) == n
  {
    if n > 0 {
      var init := p[..|p| - 1];
      assert forall i | |init| - (n - 1) <= i < |init| :: init[i] == p[i];
      EqRunIs(init, n - 1);
    }
  }

  /** The level never shrinks as more text is read. */
  lemma {:induction false} MaxLevelPrefix(s: string, j: nat)
    requires j <= |s|
    ensures MaxLevel(s[..j]) <= MaxLevel(s)
  {
    if j < |s| {
      var init := s[..|s| - 1];
      assert init[..j] == s[..j];
      MaxLevelPrefix(init, j);
      assert MaxLevel(s) >= MaxLevel(init);
    } else {
      assert s[..j] == s;
    }
  }

  /** A closing long bracket of level `n` starts at position `q` of `s`. */
  predicate ClosesAt(s: string, q: nat, n: nat) {
    q + n + 2 <= |s| && s[q..q + n + 2] == Closer(n)
  }

  lemma CloserChars(n: nat)
    ensures |Closer(n)| == n + 2 && Closer(n)[0] == ']' && Closer(n)[n + 1] == ']'
    ensures forall i | 1 <= i <= n :: Closer(n)[i] == '='
  {
  }

  /** Every `]` followed by `n` `=` and a `]` inside `s` forces the level
      above `n`, so that closing sequence cannot end a string quoted at that
      level. */
  lemma BracketLevelExceedsRun(s: string, q: nat, n: nat)
    requires ClosesAt(s, q, n)
    ensures BracketLevel(s) > n
  {
    if n > 0 {
      CloserChars(n);
      assert forall i | q <= i < q + n + 2 :: s[i] == s[q..q + n + 2][i - q];
      var p := s[..q + n + 1];
      EqRunIs(p, n);
      assert RunLevel(p) == n;
      assert s[..q + n + 2][..q + n + 1] == p;
      MaxLevelPrefix(s, q + n + 2);
    }
  }

  /** A run of `=` at level `level` ends just before position `j`, where a
      `]` follows it. */
  predicate ClosedRunAt(s: string, j: nat, level: nat) {
    1 <= j < |s| && s[j] == ']' && s[j - 1] == '=' && RunLevel(s[..j]) == level
  }

  lemma ClosedRunExtends(s: string, j: nat, level: nat)
    requires s != [] && ClosedRunAt(s[..|s| - 1], j, level)
    ensures ClosedRunAt(s, j, level)
  {
    assert s[..|s| - 1][..j] == s[..j];
  }

  /** When the level is above 1 it is reached: some `=` run closed by `]`
      has exactly the scanner level `MaxLevel(s)`, which is
      `BracketLevel(s) - 1`. */
  lemma {:induction false} BracketLevelAttained(s: string)
    requires BracketLevel(s) > 1
    ensures exists j :: ClosedRunAt(s, j, MaxLevel(s))
  {
    var init := s[..|s| - 1];
    if s[|s| - 1] == ']' && init != [] && init[|init| - 1] == '=' && RunLevel(init) >= MaxLevel(init) {
      assert s[..|s| - 1] == init;
      assert ClosedRunAt(s, |s| - 1, MaxLevel(s));
    } else {
      assert MaxLevel(s) == MaxLevel(init);
      BracketLevelAttained(init);
      var j :| ClosedRunAt(init, j, MaxLevel(init));
      ClosedRunExtends(s, j, MaxLevel(init));
    }
  }

  // ---------------------------------------------------------------------
  // Quoting

  function Eqs(n: nat): string {
    Text.Repeat('=', n)
  }

  /** The opening long bracket of level `n`: `[`, `n` times `=`, `[`. */
  function Opener(n: nat): string {
    "[" + Eqs(n) + "["
  }

  /** The closing long bracket of level `n`: `]`, `n` times `=`, `]`. */
  function Closer(n: nat): string {
    "]" + Eqs(n) + "]"
  }

  /** `q` is a Lua long string of level `n` around `s` that Lua ends at its
      final closer: the opener, `s` and the closer, with no closer of the
      same level before the final one (Lua ends the string at the first such
      closer). Lua's dropping of a newline right after the opener and its
      rewriting of line ends are not part of this. */
  predicate LongStringOf(q: string, n: nat, s: string) {
    q == Opener(n) + s + Closer(n) &&
    forall p | n + 2 <= p < |q| - (n + 2) :: !ClosesAt(q, p, n)
  }

  /** `quote_lua_string` as the source writes it: the level is taken from
      `s` alone. */
  function QuoteLuaString(s: string): (r: string)
    ensures |r| == |s| + 2 * BracketLevel(s) + 4
    ensures r[BracketLevel(s) + 2..|r| - BracketLevel(s) - 2] == s
  {
    var n := BracketLevel(s);
    CloserChars(n);
    var q := Opener(n) + s + Closer(n);
    assert q[n + 2..|q| - n - 2] == s;
    q
  }

  /** The brackets around the quoted text: `[`, `=` times the level, `[`
      before it and `]`, `=` times the level, `]` after it. */
  lemma QuoteLuaStringBrackets(s: string)
    ensures var r, n := QuoteLuaString(s), BracketLevel(s);
      r[0] == '[' && r[n + 1] == '[' && r[|r| - 1] == ']' && r[|r| - n - 2] == ']' &&
      (forall i | 1 <= i <= n :: r[i] == '=') &&
      (forall i | |r| - 1 - n <= i < |r| - 1 :: r[i] == '=')
  {
    var n := BracketLevel(s);
    CloserChars(n);
    assert |Eqs(n)| == n;
  }

  /** `quote_lua_string` with the level taken from `s` followed by the `]`
      of the closer, so that a trailing `]` + `=`… of `s` is counted too. */
  function QuoteLuaStringFixed(s: string): string {
    var n := BracketLevel(s + "]");
    Opener(n) + s + Closer(n)
  }

  /** For `"]="` the source picks level 1, and the quoted text `[=[]=]=]`
      already holds the closer `]=]` at position 3: Lua reads the empty
      string and then fails on the trailing `=]`. */
  lemma QuoteAsWrittenClosesEarly()
    ensures QuoteLuaString("]=") == "[=[]=]=]"
    ensures !LongStringOf(QuoteLuaString("]="), 1, "]=")
  {
    var s := "]=";
    assert s[..1] == "]" && s[..1][..0] == [];
    assert MaxLevel(s[..1]) == 0;
    assert MaxLevel(s) == 0;
    var q := QuoteLuaString(s);
    assert Eqs(1) == "=";
    assert q == "[=[]=]=]";
    assert ClosesAt(q, 3, 1);
  }

  /** Where the characters of a quoted string come from: the content and the
      closer's `]` are `t = s + "]"`, followed by the closer's `=`s. */
  lemma QuotedChars(s: string, n: nat, q: string)
    requires q == Opener(n) + s + Closer(n)
    ensures |q| == 2 * n + 4 + |s|
    ensures forall i | n + 2 <= i < n + 3 + |s| :: q[i] == (s + "]")[i - (n + 2)]
    ensures forall i | n + 3 + |s| <= i < 2 * n + 3 + |s| :: q[i] == '='
  {
    CloserChars(n);
  }

  /** A closer found in the content part of a quoted string, ending no later
      than the closer's first `]`, is a closer inside `s + "]"`. */
  lemma CloserInContent(s: string, n: nat, q: string, p: nat)
    requires q == Opener(n) + s + Closer(n)
    requires n + 2 <= p && p + n + 1 <= n + 2 + |s| && ClosesAt(q, p, n)
    ensures ClosesAt(s + "]", p - (n + 2), n)
  {
    var o := n + 2;
    var t := s + "]";
    QuotedChars(s, n, q);
    assert q[p..p + n + 2] == t[p - o..p - o + n + 2];
  }

  /** The corrected quoting always yields a long string around `s` with no
      early closer: Lua ends it at the final closer. */
  lemma QuoteLuaStringReadsBack(s: string)
    ensures LongStringOf(QuoteLuaStringFixed(s), BracketLevel(s + "]"), s)
  {
    var n := BracketLevel(s + "]");
    var q := QuoteLuaStringFixed(s);
    var o := n + 2;
    QuotedChars(s, n, q);
    CloserChars(n);
    forall p | o <= p < |q| - o
      ensures !ClosesAt(q, p, n)
    {
      if ClosesAt(q, p, n) {
        if p + n + 1 <= o + |s| {
          CloserInContent(s, n, q, p);
          BracketLevelExceedsRun(s + "]", p - o, n);
        }
      }
    }
  }

  /** When `s` is empty or does not end in `=`, the correction changes
      nothing, which covers the source's own quoting tests. */
  lemma QuoteLuaStringAgrees(s: string)
    requires s == [] || s[|s| - 1] != '='
    ensures QuoteLuaStringFixed(s) == QuoteLuaString(s)
  {
    assert (s + "]")[..|s|] == s;
  }

  /** A string ending in `=` that the source already quotes safely: `YQ==`
      (a base64 argument) gets level 1 and has no early closer, while the corrected
      quoting picks level 2 for it. */
  lemma QuoteEndingInEquals()
    ensures QuoteLuaString("YQ==") == "[=[YQ==]=]"
    ensures LongStringOf(QuoteLuaString("YQ=="), 1, "YQ==")
    ensures QuoteLuaStringFixed("YQ==") == "[==[YQ==]==]"
  {
    var s := "YQ==";
    LevelsOfYQ();
    QuotedAtLevels(s, 1, 2);
    assert Eqs(1) == "=" && Eqs(2) == "==";
    assert Opener(1) + s + Closer(1) == "[=[YQ==]=]";
    assert Opener(2) + s + Closer(2) == "[==[YQ==]==]";
    QuotedYQHasNoEarlyCloser();
  }

  /** Both quotings, once the two levels are known. */
  lemma QuotedAtLevels(s: string, n: nat, m: nat)
    requires BracketLevel(s) == n && BracketLevel(s + "]") == m
    ensures QuoteLuaString(s) == Opener(n) + s + Closer(n)
    ensures QuoteLuaStringFixed(s) == Opener(m) + s + Closer(m)
  {
  }

  /** `[=[YQ==]=]` holds no `]` before its closer. */
  lemma QuotedYQHasNoEarlyCloser()
    ensures LongStringOf("[=[YQ==]=]", 1, "YQ==")
  {
    var q := "[=[YQ==]=]";
    assert Eqs(1) == "=";
    assert q == Opener(1) + "YQ==" + Closer(1);
    forall p | 3 <= p < |q| - 3
      ensures !ClosesAt(q, p, 1)
    {
      assert q[p] != ']';
    }
  }

  /** The levels the scanner finds in `YQ==` and in `YQ==]`. */
  lemma LevelsOfYQ()
    ensures BracketLevel("YQ==") == 1 && BracketLevel("YQ==]") == 2
  {
    var s := "YQ==";
    assert s[..3] == "YQ=" && s[..3][..2] == "YQ" && s[..2][..1] == "Y" && s[..1][..0] == [];
    assert MaxLevel("Y") == 0;
    assert MaxLevel("YQ") == 0;
    assert MaxLevel("YQ=") == 0;
    assert MaxLevel(s) == 0;
    var t := s + "]";
    assert t[..4] == s;
    assert EqRun(s[..3][..2]) == 0;
    assert RunLevel(s) == 1;
    assert MaxLevel(t) == 1;
    assert t == "YQ==]";
  }

  // ---------------------------------------------------------------------
  // The line buffer

  /** A line at an indentation level: four spaces per level, then the text. */
  function Line(indent: nat, text: string): (r: string)
  {
    Text.Repeat(' ', 4 * indent) + text
  }

  /** `Buf`: the generated lines and the current indentation level. */
  class Buf {
    var lines: seq<string>
    var indent: nat

    constructor ()
      ensures lines == [] && indent == 0
    {
      lines := [];
      indent := 0;
    }

    /** `Buf::newline`: one empty line. */
    method Newline()
      modifies this
      ensures lines == old(lines) + [""]
      ensures indent == old(indent)
    {
      lines := lines + [""];
    }

    /** `Buf::append`: one line, indented. */
    method Append(s: string)
      modifies this
      ensures lines == old(lines) + [Line(indent, s)]
      ensures indent == old(indent)
    {
      var line := "";
      if indent > 0 {
        line := line + Text.Repeat(' ', 4 * indent);
      } else {
        assert Text.Repeat(' ', 0) == "";
      }
      line := line + s;
      assert line == Line(indent, s);
      lines := lines + [line];
    }
  }

  // ---------------------------------------------------------------------
  // The loader prelude

  /** The texts of the lines `insert_lua_file_loader` appends: the quoted
      file name, opening and reading it, and loading the chunk under the
      name `=(command line -e)` for inline code or `@<file>` for a file. */
  function FileLoaderTexts(fname: string, inline: bool): (t: seq<string>)
    ensures |t| == 4
  {
    var chunkName := if inline then "=(command line -e)" else "@" + fname;
    var chunkType := if inline then "inline" else "file";
    [ "local fname = " + QuoteLuaString(fname),
      "local f = assert(io.open(fname, \"r\"))",
      "local chunk = f:read(\"*a\")",
      "local " + chunkType + "_gen = assert(loadstring(chunk, " + QuoteLuaString(chunkName) + "))" ]
  }

  /** The lines `insert_lua_file_loader` appends. */
  function FileLoaderLines(indent: nat, fname: string, inline: bool): seq<string> {
    var t := FileLoaderTexts(fname, inline);
    [Line(indent, t[0]), Line(indent, t[1]), Line(indent, t[2]), Line(indent, t[3])]
  }

  method InsertLuaFileLoader(buf: Buf, fname: string, inline: bool)
    modifies buf
    ensures buf.lines == old(buf.lines) + FileLoaderLines(old(buf.indent), fname, inline)
    ensures buf.indent == old(buf.indent)
  {
    var t := FileLoaderTexts(fname, inline);
    buf.Append(t[0]);
    buf.Append(t[1]);
    buf.Append(t[2]);
    buf.Append(t[3]);
  }

  /** The lines `insert_inline_lua` appends; the inline code goes to
      `a.lua` in the configuration directory `confDir`. */
  function InlineLuaLines(indent: nat, confDir: string, lua: seq<string>): seq<string> {
    [Line(indent, "-- inline lua code")] +
    if lua == [] then [Line(indent, "local inline_gen")]
    else FileLoaderLines(indent, Paths.Join(confDir, "a.lua"), true)
  }

  /** `insert_inline_lua`: returns what it writes into `a.lua` (None when it
      writes nothing), the `-e` and `-l` chunks joined by `; `. */
  method InsertInlineLua(buf: Buf, confDir: string, lua: seq<string>) returns (written: Option<string>)
    modifies buf
    ensures buf.lines == old(buf.lines) + InlineLuaLines(old(buf.indent), confDir, lua)
    ensures buf.indent == old(buf.indent)
    ensures written == if lua == [] then None else Some(Text.Join(lua, "; "))
  {
    ghost var o := buf.lines;
    buf.Append("-- inline lua code");
    ghost var head := Line(buf.indent, "-- inline lua code");
    if lua == [] {
      buf.Append("local inline_gen");
      AppendAfterOne(o, head, [Line(buf.indent, "local inline_gen")]);
      return None;
    }
    var fname := Paths.Join(confDir, "a.lua");
    written := Some(Text.Join(lua, "; "));
    InsertLuaFileLoader(buf, fname, true);
    AppendAfterOne(o, head, FileLoaderLines(buf.indent, fname, true));
  }

  lemma AppendAfterOne<T>(o: seq<T>, x: T, t: seq<T>)
    ensures o + [x] + t == o + ([x] + t)
  {
  }

  /** The lines `insert_code_for_lua_file` appends. */
  function LuaFileLines(indent: nat, file: Option<string>): seq<string> {
    [Line(indent, "-- lua file")] +
    match file
    case None => [Line(indent, "local file_gen")]
    case Some(fname) => FileLoaderLines(indent, fname, false)
  }

  method InsertCodeForLuaFile(buf: Buf, file: Option<string>)
    modifies buf
    ensures buf.lines == old(buf.lines) + LuaFileLines(old(buf.indent), file)
    ensures buf.indent == old(buf.indent)
  {
    buf.Append("-- lua file");
    if file.None? {
      buf.Append("local file_gen");
      return;
    }
    InsertLuaFileLoader(buf, file.value, false);
  }

  const I32Max: nat := 0x7FFF_FFFF

  /** How many of the process arguments belong to the Lua script: its file
      name and its arguments, or none when there is no file. */
  function LuaArgCount(file: Option<string>, args: seq<string>): nat {
    if file.Some? then |args| + 1 else 0
  }

  /** `arg[i] = <quoted arg>`, for the Lua argument at zero-based position `i`. */
  function ArgLine(indent: nat, i: nat, a: string): string {
    Line(indent, "arg[" + Show(i + 1) + "] = " + QuoteLuaString(a))
  }

  /** One `arg[i]` line per Lua argument, numbered from 1, in order. */
  function ArgLines(indent: nat, args: seq<string>): (r: seq<string>)
    ensures |r| == |args|
    ensures forall i | 0 <= i < |args| :: r[i] == ArgLine(indent, i, args[i])
  {
    if args == [] then []
    else ArgLines(indent, args[..|args| - 1]) + [ArgLine(indent, |args| - 1, args[|args| - 1])]
  }

  /** The lines `insert_lua_args` appends, for the program name `prog` and
      `allArgs` process arguments. The program lands at the negative index
      that counts back over the arguments not given to Lua. */
  function LuaArgsLines(indent: nat, file: Option<string>, args: seq<string>, prog: string, allArgs: nat): seq<string>
    requires LuaArgCount(file, args) <= allArgs
  {
    [ Line(indent, "-- cli args"),
      Line(indent, "arg = {}"),
      Line(indent, "arg[0] = " + QuoteLuaString(file.GetOr("./conf/a.lua"))) ]
    + ArgLines(indent, args)
    + [Line(indent, "arg[" + ShowInt(0 - (allArgs - LuaArgCount(file, args))) + "] = " + QuoteLuaString(prog))]
  }

  /** `arg[0]` is the quoted script name, or `./conf/a.lua` without one;
      `arg[i]` is the quoted i-th Lua argument; the program name comes last. */
  lemma LuaArgsLinesShape(indent: nat, file: Option<string>, args: seq<string>, prog: string, allArgs: nat)
    requires LuaArgCount(file, args) <= allArgs
    ensures var r := LuaArgsLines(indent, file, args, prog, allArgs);
      |r| == |args| + 4
      && r[2] == Line(indent, "arg[0] = " + QuoteLuaString(if file.Some? then file.value else "./conf/a.lua"))
      && (forall i | 0 <= i < |args| :: r[3 + i] == Line(indent, "arg[" + Show(i + 1) + "] = " + QuoteLuaString(args[i])))
      && r[|r| - 1] == Line(indent, "arg[" + ShowInt(0 - (allArgs - LuaArgCount(file, args))) + "] = " + QuoteLuaString(prog))
  {
    ArgsLinesLayout(indent, file, args, prog, allArgs);
    LayoutShape(LuaArgsHead(indent, file), ArgLines(indent, args), ProgLine(indent, file, args, prog, allArgs));
  }

  function LuaArgsHead(indent: nat, file: Option<string>): seq<string> {
    [ Line(indent, "-- cli args"),
      Line(indent, "arg = {}"),
      Line(indent, "arg[0] = " + QuoteLuaString(file.GetOr("./conf/a.lua"))) ]
  }

  function ProgLine(indent: nat, file: Option<string>, args: seq<string>, prog: string, allArgs: nat): string
    requires LuaArgCount(file, args) <= allArgs
  {
    Line(indent, "arg[" + ShowInt(0 - (allArgs - LuaArgCount(file, args))) + "] = " + QuoteLuaString(prog))
  }

  lemma ArgsLinesLayout(indent: nat, file: Option<string>, args: seq<string>, prog: string, allArgs: nat)
    requires LuaArgCount(file, args) <= allArgs
    ensures LuaArgsLines(indent, file, args, prog, allArgs) ==
      LuaArgsHead(indent, file) + ArgLines(indent, args) + [ProgLine(indent, file, args, prog, allArgs)]
  {
  }

  lemma LayoutShape<T>(head: seq<T>, body: seq<T>, last: T)
    requires |head| == 3
    ensures var r := head + body + [last];
      |r| == |body| + 4 && r[2] == head[2] && r[|r| - 1] == last &&
      forall i | 0 <= i < |body| :: r[3 + i] == body[i]
  {
  }

  /** The loop of `insert_lua_args`: one `arg[i]` line per argument. */
  method AppendArgLines(buf: Buf, args: seq<string>)
    modifies buf
    ensures buf.lines == old(buf.lines) + ArgLines(old(buf.indent), args)
    ensures buf.indent == old(buf.indent)
  {
    for i := 0 to |args|
      invariant buf.lines == old(buf.lines) + ArgLines(buf.indent, args[..i])
      invariant buf.indent == old(buf.indent)
    {
      buf.Append("arg[" + Show(i + 1) + "] = " + QuoteLuaString(args[i]));
      assert args[..i + 1][..i] == args[..i];
    }
    assert args[..|args|] == args;
  }

  /** `insert_lua_args`, given the process's program name and argument
      count. The source panics when the count of arguments not given to Lua
      is negative or does not fit an `i32`. */
  method InsertLuaArgs(buf: Buf, file: Option<string>, args: seq<string>, prog: string, allArgs: nat)
    requires LuaArgCount(file, args) <= allArgs && allArgs - LuaArgCount(file, args) <= I32Max
    modifies buf
    ensures buf.lines == old(buf.lines) + LuaArgsLines(old(buf.indent), file, args, prog, allArgs)
    ensures buf.indent == old(buf.indent)
  {
    ghost var o := buf.lines;
    ghost var ind := buf.indent;
    AppendArgsHead(buf, file);
    AppendArgLines(buf, args);
    AppendProgLine(buf, file, args, prog, allArgs);
    ArgsLinesLayout(ind, file, args, prog, allArgs);
    Text.Assoc3(o, LuaArgsHead(ind, file), ArgLines(ind, args), [ProgLine(ind, file, args, prog, allArgs)]);
  }

  /** The last line of `insert_lua_args`: the program name at the negative
      index that counts back over the arguments not given to Lua. */
  method AppendProgLine(buf: Buf, file: Option<string>, args: seq<string>, prog: string, allArgs: nat)
    requires LuaArgCount(file, args) <= allArgs && allArgs - LuaArgCount(file, args) <= I32Max
    modifies buf
    ensures buf.lines == old(buf.lines) + [ProgLine(old(buf.indent), file, args, prog, allArgs)]
    ensures buf.indent == old(buf.indent)
  {
    var luaArgs := if file.Some? then |args| + 1 else 0;
    assert luaArgs == LuaArgCount(file, args);
    var pos: int := allArgs - luaArgs;
    buf.Append("arg[" + ShowInt(0 - pos) + "] = " + QuoteLuaString(prog));
  }

  /** The first three lines of `insert_lua_args`: the comment, the empty
      table and `arg[0]`. */
  method AppendArgsHead(buf: Buf, file: Option<string>)
    modifies buf
    ensures buf.lines == old(buf.lines) + LuaArgsHead(old(buf.indent), file)
    ensures buf.indent == old(buf.indent)
  {
    ghost var o := buf.lines;
    buf.Append("-- cli args");
    buf.Append("arg = {}");
    var name := QuoteLuaString(file.GetOr("./conf/a.lua"));
    buf.Append("arg[0] = " + name);
    assert buf.lines == o + LuaArgsHead(buf.indent, file);
  }

  /** The closing lines of the prelude: the `gen` function at level 1 with its
      body at level 2, and the final `end` back at level 0. */
  function TailLines(): seq<string> {
    [ Line(1, "gen = function()"),
      Line(2, "if inline_gen then inline_gen() end"),
      Line(2, "if file_gen then file_gen() end"),
      Line(1, "end"),
      Line(0, "end") ]
  }

  /** The whole prelude `generate_lua_loader` returns. */
  function LoaderLines(confDir: string, file: Option<string>, inline: seq<string>, luaArgs: seq<string>, prog: string, allArgs: nat): seq<string>
    requires LuaArgCount(file, luaArgs) <= allArgs
  {
    [Line(0, "local gen"), Line(0, "do")]
    + SectionLines(confDir, file, inline, luaArgs, prog, allArgs)
    + TailLines()
  }

  lemma AppendFive<T>(o: seq<T>, a: T, b: T, c: T, d: T, e: T)
    ensures o + [a] + [b] + [c] + [d] + [e] == o + [a, b, c, d, e]
  {
  }

  /** The three sections of the prelude, each followed by an empty line. */
  function SectionLines(confDir: string, file: Option<string>, inline: seq<string>, luaArgs: seq<string>, prog: string, allArgs: nat): seq<string>
    requires LuaArgCount(file, luaArgs) <= allArgs
  {
    LuaArgsLines(1, file, luaArgs, prog, allArgs) + [""]
    + InlineLuaLines(1, confDir, inline) + [""]
    + LuaFileLines(1, file) + [""]
  }

  lemma Assemble<T>(l0: seq<T>, l1: seq<T>, l2: seq<T>, l3: seq<T>, a: seq<T>, i: seq<T>, f: seq<T>, e: T)
    requires l1 == l0 + a + [e] && l2 == l1 + i + [e] && l3 == l2 + f + [e]
    ensures l3 == l0 + (a + [e] + i + [e] + f + [e])
  {
  }

  /** The middle of `generate_lua_loader`, at indentation level 1. */
  method InsertSections(buf: Buf, confDir: string, file: Option<string>, inline: seq<string>, luaArgs: seq<string>, prog: string, allArgs: nat)
    returns (written: Option<string>)
    requires LuaArgCount(file, luaArgs) <= allArgs && allArgs - LuaArgCount(file, luaArgs) <= I32Max
    requires buf.indent == 1
    modifies buf
    ensures buf.lines == old(buf.lines) + SectionLines(confDir, file, inline, luaArgs, prog, allArgs)
    ensures buf.indent == 1
    ensures written == if inline == [] then None else Some(Text.Join(inline, "; "))
  {
    ghost var l0 := buf.lines;
    ghost var a := LuaArgsLines(1, file, luaArgs, prog, allArgs);
    InsertLuaArgs(buf, file, luaArgs, prog, allArgs);
    buf.Newline();
    ghost var l1 := buf.lines;
    assert l1 == l0 + a + [""];
    ghost var i := InlineLuaLines(1, confDir, inline);
    written := InsertInlineLua(buf, confDir, inline);
    buf.Newline();
    ghost var l2 := buf.lines;
    assert l2 == l1 + i + [""];
    ghost var f := LuaFileLines(1, file);
    InsertCodeForLuaFile(buf, file);
    buf.Newline();
    assert buf.lines == l2 + f + [""];
    Assemble(l0, l1, l2, buf.lines, a, i, f, "");
  }

  /** `generate_lua_loader`: the lines, and what it writes into `a.lua`. */
  method GenerateLuaLoader(confDir: string, file: Option<string>, inline: seq<string>, luaArgs: seq<string>, prog: string, allArgs: nat)
    returns (lines: seq<string>, written: Option<string>)
    requires LuaArgCount(file, luaArgs) <= allArgs && allArgs - LuaArgCount(file, luaArgs) <= I32Max
    ensures lines == LoaderLines(confDir, file, inline, luaArgs, prog, allArgs)
    ensures written == if inline == [] then None else Some(Text.Join(inline, "; "))
  {
    var buf := new Buf();
    buf.Append("local gen");
    buf.Append("do");
    ghost var l0 := buf.lines;
    assert l0 == [Line(0, "local gen"), Line(0, "do")];
    buf.indent := buf.indent + 1;
    written := InsertSections(buf, confDir, file, inline, luaArgs, prog, allArgs);
    AppendTail(buf);
    lines := buf.lines;
  }

  /** The end of `generate_lua_loader`: the `gen` function, then the
      indentation back to 0 for the final `end`. */
  method AppendTail(buf: Buf)
    requires buf.indent == 1
    modifies buf
    ensures buf.lines == old(buf.lines) + TailLines()
    ensures buf.indent == 0
  {
    ghost var l0 := buf.lines;
    buf.Append("gen = function()");
    buf.indent := buf.indent + 1;
    buf.Append("if inline_gen then inline_gen() end");
    buf.Append("if file_gen then file_gen() end");
    buf.indent := buf.indent - 1;
    buf.Append("end");
    buf.indent := buf.indent - 1;
    buf.Append("end");
    AppendFive(l0, Line(1, "gen = function()"), Line(2, "if inline_gen then inline_gen() end"),
      Line(2, "if file_gen then file_gen() end"), Line(1, "end"), Line(0, "end"));
  }

  lemma LineZero(text: string)
    ensures Line(0, text) == text
  {
    assert Text.Repeat(' ', 0) == "";
  }

  lemma EndsOf<T>(p: seq<T>, m: seq<T>, t: seq<T>)
    requires |p| == 2 && |t| == 5
    ensures var l := p + m + t;
      |l| >= 7 && l[0] == p[0] && l[1] == p[1] && l[|l| - 2] == t[3] && l[|l| - 1] == t[4]
  {
  }

  /** The prelude opens with `local gen` and `do` and closes with the `gen`
      function's `end` at level 1 and a final `end` back at level 0. */
  lemma LoaderShape(confDir: string, file: Option<string>, inline: seq<string>, luaArgs: seq<string>, prog: string, allArgs: nat)
    requires LuaArgCount(file, luaArgs) <= allArgs
    ensures var lines := LoaderLines(confDir, file, inline, luaArgs, prog, allArgs);
      |lines| >= 7 && lines[0] == "local gen" && lines[1] == "do"
      && lines[|lines| - 2] == Line(1, "end") && lines[|lines| - 1] == "end"
  {
    LineZero("local gen");
    LineZero("do");
    LineZero("end");
    EndsOf([Line(0, "local gen"), Line(0, "do")], SectionLines(confDir, file, inline, luaArgs, prog, allArgs), TailLines());
  }

  // ---------------------------------------------------------------------
  // Package search paths

  /** The four `package_path` entries for one directory. */
  function PathEntry(dir: string): string {
    dir + "/?.ljbc;" + dir + "/?.lua;" + dir + "/?/init.ljbc;" + dir + "/?/init.lua;"
  }

  /** The `package_cpath` entry for one directory. */
  function CpathEntry(dir: string): string {
    dir + "/?.so;"
  }

  /** The entries of all directories, in order. */
  function Entries(dirs: seq<string>, entry: string -> string): string {
    if dirs == [] then "" else Entries(dirs[..|dirs| - 1], entry) + entry(dirs[|dirs| - 1])
  }

  /** Entries distribute over concatenation of the directory lists: each
      directory contributes its own entries, in order. */
  lemma {:induction false} EntriesAppend(a: seq<string>, b: seq<string>, entry: string -> string)
    ensures Entries(a + b, entry) == Entries(a, entry) + Entries(b, entry)
  {
    if b != [] {
      assert (a + b)[..|a + b| - 1] == a + b[..|b| - 1];
      assert (a + b)[|a + b| - 1] == b[|b| - 1];
      EntriesAppend(a, b[..|b| - 1], entry);
    } else {
      assert a + b == a;
    }
  }

  lemma EntriesSnoc(dirs: seq<string>, i: nat, entry: string -> string)
    requires i < |dirs|
    ensures Entries(dirs[..i + 1], entry) == Entries(dirs[..i], entry) + entry(dirs[i])
  {
    assert dirs[..i + 1][..i] == dirs[..i];
  }

  /** The eight pieces `package_path` writes for a directory make up its entry. */
  lemma PathEntryWritten(p: string, dir: string)
    ensures p + dir + "/?.ljbc;" + dir + "/?.lua;" + dir + "/?/init.ljbc;" + dir + "/?/init.lua;" == p + PathEntry(dir)
  {
  }

  /** The directive `package_path` produces, as a value. */
  function PathDirective(dirs: seq<string>): Option<string> {
    if dirs == [] then None else Some("lua_package_path \"" + Entries(dirs, PathEntry) + ";\";")
  }

  /** The directive `package_cpath` produces, as a value. */
  function CpathDirective(dirs: seq<string>): Option<string> {
    if dirs == [] then None else Some("lua_package_cpath \"" + Entries(dirs, CpathEntry) + ";\";")
  }

  /** `package_path`: None without directories; otherwise the directive, with
      a final extra `;` so that the default path stays included. */
  method PackagePath(dirs: seq<string>) returns (r: Option<string>)
    ensures dirs == [] <==> r.None?
    ensures r.Some? ==> r.value == "lua_package_path \"" + Entries(dirs, PathEntry) + ";\";"
    ensures r == PathDirective(dirs)
  {
    if dirs == [] {
      return None;
    }
    var path := "lua_package_path \"";
    for i := 0 to |dirs|
      invariant path == "lua_package_path \"" + Entries(dirs[..i], PathEntry)
    {
      var dir := dirs[i];
      ghost var before := path;
      path := path + dir;
      path := path + "/?.ljbc;";
      path := path + dir;
      path := path + "/?.lua;";
      path := path + dir;
      path := path + "/?/init.ljbc;";
      path := path + dir;
      path := path + "/?/init.lua;";
      PathEntryWritten(before, dir);
      EntriesSnoc(dirs, i, PathEntry);
      assert before + PathEntry(dir) == "lua_package_path \"" + (Entries(dirs[..i], PathEntry) + PathEntry(dir));
    }
    assert dirs[..|dirs|] == dirs;
    path := path + ";\";";
    return Some(path);
  }

  /** `package_cpath`. */
  method PackageCpath(dirs: seq<string>) returns (r: Option<string>)
    ensures dirs == [] <==> r.None?
    ensures r.Some? ==> r.value == "lua_package_cpath \"" + Entries(dirs, CpathEntry) + ";\";"
    ensures r == CpathDirective(dirs)
  {
    if dirs == [] {
      return None;
    }
    var path := "lua_package_cpath \"";
    for i := 0 to |dirs|
      invariant path == "lua_package_cpath \"" + Entries(dirs[..i], CpathEntry)
    {
      var dir := dirs[i];
      path := path + dir;
      path := path + "/?.so;";
      assert dirs[..i + 1][..i] == dirs[..i];
    }
    assert dirs[..|dirs|] == dirs;
    path := path + ";\";";
    return Some(path);
  }
}
