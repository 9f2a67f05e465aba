/** The configuration side of the command line: the nginx.conf lines the
    parsed options turn into, the `App` that holds them, and the assembly of
    `App` from argv. The argument parser, the file system and the
    environment are parameters. */
module Cli {
  import opened Wrappers
  import Text
  import Types
  import Lua
  import Util
  import Nginx
  import ClapErrors
  import CliArgs

  // ---------------------------------------------------------------------
  // Single configuration lines

  /** `normalize_conf_line`: the line trimmed, ending in exactly one `;`.
      Taking the `;` off and putting back the semicolons that were dropped
      gives the trimmed line. */
  function NormalizeConfLine(line: string): (r: string)
    ensures r != [] && r[|r| - 1] == ';'
    ensures |r| >= 2 ==> r[|r| - 2] != ';'
    ensures !Text.IsWhitespace(r[0])
  {
    var t := Text.Trim(line);
    var body := Text.TrimEndMatches(t, ';');
    NormalizedShape(t, body);
    body + ";"
  }

  /** Nothing but semicolons is lost: the line without its final `;`,
      followed by the semicolons that were dropped, is the trimmed line. */
  lemma NormalizeKeepsText(line: string)
    ensures var r := NormalizeConfLine(line); var t := Text.Trim(line);
      |r| - 1 <= |t| && t == r[..|r| - 1] + Text.Repeat(';', |t| - (|r| - 1))
  {
    var t := Text.Trim(line);
    var body := Text.TrimEndMatches(t, ';');
    TrimEndMatchesParts(t, ';');
    NormalizedShape(t, body);
  }

  /** What `trim_end_matches` removed is that many copies of the character. */
  lemma TrimEndMatchesParts(t: string, c: char)
    ensures var b := Text.TrimEndMatches(t, c); t == b + Text.Repeat(c, |t| - |b|)
  {
    var b := Text.TrimEndMatches(t, c);
    var k := |t| - |b|;
    forall i | 0 <= i < |t|
      ensures t[i] == (b + Text.Repeat(c, k))[i]
    {
    }
  }

  lemma NormalizedShape(t: string, body: string)
    requires t == [] || (!Text.IsWhitespace(t[0]) && !Text.IsWhitespace(t[|t| - 1]))
    requires Text.StartsWith(t, body)
    ensures var r := body + ";";
      r[..|r| - 1] == body && !Text.IsWhitespace(r[0])
  {
    var r := body + ";";
    assert r[..|r| - 1] == body;
    if body != [] {
      assert r[0] == t[0];
    } else {
      assert r[0] == ';';
    }
  }

  lemma TrimEndMatchesSnoc(s: string, c: char)
    ensures Text.TrimEndMatches(s + [c], c) == Text.TrimEndMatches(s, c)
  {
    assert (s + [c])[..|s|] == s;
  }

  /** Normalizing twice is normalizing once. */
  lemma NormalizeIdempotent(line: string)
    ensures NormalizeConfLine(NormalizeConfLine(line)) == NormalizeConfLine(line)
  {
    var r := NormalizeConfLine(line);
    var body := r[..|r| - 1];
    assert r == body + [';'];
    Util.TrimOfTrimmed(r);
    TrimEndMatchesSnoc(body, ';');
  }

  /** The words after `resolver`: the nameservers, and `ipv6=off` unless
      IPv6 lookups are wanted. */
  function ResolverWords(ns: seq<string>, resolveIpv6: bool): seq<string> {
    ns + (if resolveIpv6 then [] else ["ipv6=off"])
  }

  /** `resolver`: the directive naming the nameservers in order. */
  function Resolver(ns: seq<string>, resolveIpv6: bool): (r: string)
    ensures Text.StartsWith(r, "resolver ") && Text.EndsWith(r, ";")
  {
    "resolver " + Text.Join(ResolverWords(ns, resolveIpv6), " ") + ";"
  }

  /** Without IPv6 lookups the directive is the one with them, with
      ` ipv6=off` before the `;`. */
  lemma ResolverIpv6Off(ns: seq<string>)
    requires ns != []
    ensures var on := Resolver(ns, true);
      Resolver(ns, false) == on[..|on| - 1] + " ipv6=off;"
  {
    assert ResolverWords(ns, true) == ns;
    Text.JoinSnoc(ns, "ipv6=off", " ");
  }

  /** The nameservers can be read back from the directive: splitting what
      lies between `resolver ` and `;` at whitespace gives them in order,
      followed by `ipv6=off` when IPv6 lookups are off. */
  lemma ResolverReadsBack(ns: seq<string>, resolveIpv6: bool)
    requires Text.AreTokens(ns)
    ensures var r := Resolver(ns, resolveIpv6);
      Text.SplitWhitespace(r[9..|r| - 1]) == ResolverWords(ns, resolveIpv6)
  {
    var words := ResolverWords(ns, resolveIpv6);
    assert Text.AreTokens(words) by {
      assert Text.NoWhitespace("ipv6=off");
    }
    var r := Resolver(ns, resolveIpv6);
    assert r[9..|r| - 1] == Text.Join(words, " ");
    Text.SplitWhitespaceOfJoin(words);
  }

  // ---------------------------------------------------------------------
  // Include files

  /** The section an include option belongs to: the option's id up to its
      first `-`, or all of it. */
  function IncludeSection(id: string): (r: string)
    ensures Text.StartsWith(id, r)
    ensures '-' !in r
    ensures |r| < |id| ==> id[|r|] == '-'
    ensures '-' !in id ==> r == id
  {
    id[..Text.Find(id, '-')]
  }

  /** An id made of a word, a `-` and more belongs to the section named by
      the word. */
  lemma IncludeSectionOf(word: string, more: string)
    requires '-' !in word
    ensures IncludeSection(word + "-" + more) == word
  {
    Text.FindAfter(word, '-', more);
    assert word + "-" + more == word + ['-'] + more;
  }

  /** An include file that cannot be found or is not a file. */
  datatype MissingIncludeFileError = MissingIncludeFileError(section: string, filename: string)

  function MissingIncludeMessage(e: MissingIncludeFileError): (m: string)
    ensures Text.StartsWith(m, "could not find ")
  {
    "could not find " + e.section + " include file '" + e.filename + "'"
  }

  /** A path resolves when canonicalizing it succeeds and yields a file. */
  predicate Resolves(p: string, canonicalize: string -> Option<string>, isFile: string -> bool) {
    canonicalize(p).Some? && isFile(canonicalize(p).value)
  }

  /** The include lines for `paths` and the error that stops them, if any. */
  function IncludeLines(section: string, paths: seq<string>,
                        canonicalize: string -> Option<string>, isFile: string -> bool)
    : (seq<string>, Option<MissingIncludeFileError>)
    decreases |paths|
  {
    if paths == [] then ([], None)
    else if !Resolves(paths[0], canonicalize, isFile) then ([], Some(MissingIncludeFileError(section, paths[0])))
    else
      var rest := IncludeLines(section, paths[1..], canonicalize, isFile);
      (["include " + canonicalize(paths[0]).value + ";"] + rest.0, rest.1)
  }

  /** Every path up to the first that does not resolve gives
      `include <canonical path>;`, in order; the error, if any, names that
      first path as given; there is an error exactly when a path is left. */
  lemma {:induction false} IncludeLinesMeaning(section: string, paths: seq<string>,
                                               canonicalize: string -> Option<string>, isFile: string -> bool)
    ensures var r := IncludeLines(section, paths, canonicalize, isFile);
      |r.0| <= |paths| &&
      (forall i | 0 <= i < |r.0| ::
        Resolves(paths[i], canonicalize, isFile) && r.0[i] == "include " + canonicalize(paths[i]).value + ";") &&
      (r.1.None? <==> |r.0| == |paths|) &&
      (r.1.Some? ==>
        !Resolves(paths[|r.0|], canonicalize, isFile) && r.1.value == MissingIncludeFileError(section, paths[|r.0|]))
    decreases |paths|
  {
    if paths != [] && Resolves(paths[0], canonicalize, isFile) {
      IncludeLinesMeaning(section, paths[1..], canonicalize, isFile);
      var r := IncludeLines(section, paths, canonicalize, isFile);
      var rest := IncludeLines(section, paths[1..], canonicalize, isFile);
      assert r.0 == ["include " + canonicalize(paths[0]).value + ";"] + rest.0;
      forall i | 1 <= i < |r.0|
        ensures r.0[i] == rest.0[i - 1] && paths[i] == paths[1..][i - 1]
      {
      }
    }
  }

  /** `includes`: the lines for the paths of option `id`, stopping at the
      first path that does not resolve, and the error naming its section and
      the path as given. */
  method Includes(id: string, paths: seq<string>,
                  canonicalize: string -> Option<string>, isFile: string -> bool)
    returns (lines: seq<string>, err: Option<MissingIncludeFileError>)
    ensures lines == IncludeLines(IncludeSection(id), paths, canonicalize, isFile).0
    ensures err == IncludeLines(IncludeSection(id), paths, canonicalize, isFile).1
  {
    var section := IncludeSection(id);
    ghost var all := IncludeLines(section, paths, canonicalize, isFile);
    lines := [];
    var i := 0;
    while i < |paths|
      invariant 0 <= i <= |paths|
      invariant lines + IncludeLines(section, paths[i..], canonicalize, isFile).0 == all.0
      invariant IncludeLines(section, paths[i..], canonicalize, isFile).1 == all.1
    {
      var p := paths[i];
      assert paths[i..] == [p] + paths[i + 1..];
      IncludeLinesCons(section, p, paths[i + 1..], canonicalize, isFile);
      var path := canonicalize(p);
      if path.None? || !isFile(path.value) {
        assert lines + [] == lines;
        return lines, Some(MissingIncludeFileError(section, p));
      }
      var line := "include " + path.value + ";";
      Text.Assoc(lines, [line], IncludeLines(section, paths[i + 1..], canonicalize, isFile).0);
      lines := lines + [line];
      i := i + 1;
    }
    assert paths[i..] == [];
    assert lines + [] == lines;
    return lines, None;
  }

  lemma IncludeLinesCons(section: string, p: string, more: seq<string>,
                         canonicalize: string -> Option<string>, isFile: string -> bool)
    ensures var r := IncludeLines(section, [p] + more, canonicalize, isFile);
      var s := IncludeLines(section, more, canonicalize, isFile);
      if Resolves(p, canonicalize, isFile)
      then r.0 == ["include " + canonicalize(p).value + ";"] + s.0 && r.1 == s.1
      else r == ([], Some(MissingIncludeFileError(section, p)))
  {
    assert ([p] + more)[0] == p && ([p] + more)[1..] == more;
  }

  // ---------------------------------------------------------------------
  // Lists of lines

  /** `f` applied to every line, in order. */
  function MapLines(lines: seq<string>, f: string -> string): (r: seq<string>)
    ensures |r| == |lines|
    ensures forall i | 0 <= i < |lines| :: r[i] == f(lines[i])
  {
    if lines == [] then [] else MapLines(lines[..|lines| - 1], f) + [f(lines[|lines| - 1])]
  }

  /** Appends `f` of every line to `field`, one line at a time. */
  method AppendMapped(field: seq<string>, lines: seq<string>, f: string -> string) returns (r: seq<string>)
    ensures r == field + MapLines(lines, f)
  {
    r := field;
    for i := 0 to |lines|
      invariant r == field + MapLines(lines[..i], f)
    {
      assert lines[..i + 1][..i] == lines[..i];
      r := r + [f(lines[i])];
    }
    assert lines[..|lines|] == lines;
  }

  /** `confs`: one normalized line per value, appended in order. */
  method Confs(field: seq<string>, lines: seq<string>) returns (r: seq<string>)
    ensures |r| == |field| + |lines| && r[..|field|] == field
    ensures forall i | 0 <= i < |lines| :: r[|field| + i] == NormalizeConfLine(lines[i])
  {
    r := AppendMapped(field, lines, NormalizeConfLine);
  }

  /** The directive a `--shdict NAME SIZE` value becomes. */
  function SharedDict(shm: string): string {
    "lua_shared_dict " + shm + ";"
  }

  function OptionLines(o: Option<string>): seq<string> {
    if o.Some? then [o.value] else []
  }

  /** The search-path directives for the `-I` directories: none without
      directories, else `lua_package_path` and `lua_package_cpath`. */
  function PackageLines(dirs: seq<string>): (r: seq<string>)
    ensures dirs == [] <==> r == []
    ensures dirs != [] ==>
      |r| == 2 && Text.StartsWith(r[0], "lua_package_path \"") && Text.StartsWith(r[1], "lua_package_cpath \"")
  {
    OptionLines(Lua.PathDirective(dirs)) + OptionLines(Lua.CpathDirective(dirs))
  }

  /** The `error_log` directive for a level. */
  function ErrorLogLine(level: Types.LogLevel): string {
    "error_log stderr " + Types.LogLevelName(level) + ";"
  }

  /** The nameservers used when neither `--ns` nor resolv.conf gives any. */
  const FallbackNameservers: seq<string> := ["8.8.8.8", "8.8.4.4"]

  /** `nameservers`' priority: the ones given on the command line, else
      those read from resolv.conf, else the fallback pair; never none. */
  function ChooseNameservers(given: seq<string>, resolv: Option<seq<string>>): (r: seq<string>)
    ensures r != []
    ensures given != [] ==> r == given
    ensures given == [] && resolv.Some? && resolv.value != [] ==> r == resolv.value
    ensures given == [] && (resolv.None? || resolv.value == []) ==> r == FallbackNameservers
  {
    if given != [] then given
    else if resolv.Some? && resolv.value != [] then resolv.value
    else FallbackNameservers
  }

  function IpTexts(ips: seq<Types.IpAddr>): (r: seq<string>)
    ensures |r| == |ips|
    ensures forall i | 0 <= i < |ips| :: r[i] == Types.IpAddrDisplay(ips[i])
  {
    if ips == [] then [] else [Types.IpAddrDisplay(ips[0])] + IpTexts(ips[1..])
  }

  /** The template ids of the two blocks that take include files. */
  const MainIncludeId: string := "main-include"
  const HttpIncludeId: string := "http-include"

  /** The lines `main_conf` adds. */
  function MainConfLines(level: Types.LogLevel, confs: seq<string>, includes: seq<string>, host: Host): seq<string> {
    host.envLines + [ErrorLogLine(level)] + MapLines(confs, NormalizeConfLine)
      + IncludeLines(IncludeSection(MainIncludeId), includes, host.canonicalize, host.isFile).0
  }

  /** The lines `http_conf` adds. */
  function HttpConfLines(ns: seq<string>, resolveIpv6: bool, dirs: seq<string>, shdicts: seq<string>,
                         confs: seq<string>, includes: seq<string>, host: Host): seq<string> {
    ([Resolver(ns, resolveIpv6)] + PackageLines(dirs)) + MapLines(shdicts, SharedDict)
      + MapLines(confs, NormalizeConfLine)
      + IncludeLines(IncludeSection(HttpIncludeId), includes, host.canonicalize, host.isFile).0
  }

  /** The lines `stream_conf` adds unless the stream block is off. */
  function StreamConfLines(ns: seq<string>, resolveIpv6: bool, dirs: seq<string>, confs: seq<string>): seq<string> {
    ([Resolver(ns, resolveIpv6)] + PackageLines(dirs)) + confs
  }

  /** A directive line: it ends with `;`. */
  predicate Terminated(line: string) {
    line != [] && line[|line| - 1] == ';'
  }

  predicate AllTerminated(lines: seq<string>) {
    forall i | 0 <= i < |lines| :: Terminated(lines[i])
  }

  lemma AllTerminatedAppend(a: seq<string>, b: seq<string>)
    requires AllTerminated(a) && AllTerminated(b)
    ensures AllTerminated(a + b)
  {
    forall i | 0 <= i < |a + b|
      ensures Terminated((a + b)[i])
    {
      if i >= |a| {
        assert (a + b)[i] == b[i - |a|];
      }
    }
  }

  lemma MappedTerminated(lines: seq<string>, f: string -> string)
    requires forall x :: Terminated(f(x))
    ensures AllTerminated(MapLines(lines, f))
  {
  }

  lemma DictsTerminated(shdicts: seq<string>)
    ensures AllTerminated(MapLines(shdicts, SharedDict))
  {
    MappedTerminated(shdicts, SharedDict);
  }

  lemma SnippetsTerminated(confs: seq<string>)
    ensures AllTerminated(MapLines(confs, NormalizeConfLine))
  {
    MappedTerminated(confs, NormalizeConfLine);
  }

  lemma IncludesTerminated(section: string, paths: seq<string>,
                           canonicalize: string -> Option<string>, isFile: string -> bool)
    ensures AllTerminated(IncludeLines(section, paths, canonicalize, isFile).0)
  {
    IncludeLinesMeaning(section, paths, canonicalize, isFile);
  }

  lemma PackageLinesTerminated(dirs: seq<string>)
    ensures AllTerminated(PackageLines(dirs))
  {
  }

  lemma HeadTerminated(ns: seq<string>, resolveIpv6: bool, dirs: seq<string>)
    ensures AllTerminated([Resolver(ns, resolveIpv6)] + PackageLines(dirs))
  {
    var r := Resolver(ns, resolveIpv6);
    assert r[|r| - 1..] == ";";
    PackageLinesTerminated(dirs);
    AllTerminatedAppend([r], PackageLines(dirs));
  }

  /** Every line the http block gets from the options is a whole directive
      ending in `;`: the resolver, the search paths, the shared dicts, the
      normalized snippets and the includes. */
  lemma HttpConfTerminated(ns: seq<string>, resolveIpv6: bool, dirs: seq<string>, shdicts: seq<string>,
                           confs: seq<string>, includes: seq<string>, host: Host)
    ensures AllTerminated(HttpConfLines(ns, resolveIpv6, dirs, shdicts, confs, includes, host))
  {
    var head := [Resolver(ns, resolveIpv6)] + PackageLines(dirs);
    var dicts := MapLines(shdicts, SharedDict);
    var snippets := MapLines(confs, NormalizeConfLine);
    var inc := IncludeLines(IncludeSection(HttpIncludeId), includes, host.canonicalize, host.isFile).0;
    assert HttpConfLines(ns, resolveIpv6, dirs, shdicts, confs, includes, host) == head + dicts + snippets + inc;
    HeadTerminated(ns, resolveIpv6, dirs);
    DictsTerminated(shdicts);
    SnippetsTerminated(confs);
    IncludesTerminated(IncludeSection(HttpIncludeId), includes, host.canonicalize, host.isFile);
    AllTerminatedAppend4(head, dicts, snippets, inc);
  }

  lemma AllTerminatedAppend4(a: seq<string>, b: seq<string>, c: seq<string>, d: seq<string>)
    requires AllTerminated(a) && AllTerminated(b) && AllTerminated(c) && AllTerminated(d)
    ensures AllTerminated(a + b + c + d)
  {
    AllTerminatedAppend(a, b);
    AllTerminatedAppend(a + b, c);
    AllTerminatedAppend(a + b + c, d);
  }

  /** The same for the main block, given `env` lines that end in `;`. */
  lemma MainConfTerminated(level: Types.LogLevel, confs: seq<string>, includes: seq<string>, host: Host)
    requires AllTerminated(host.envLines)
    ensures AllTerminated(MainConfLines(level, confs, includes, host))
  {
    var inc := IncludeLines(IncludeSection(MainIncludeId), includes, host.canonicalize, host.isFile).0;
    AllTerminatedAppend(host.envLines, [ErrorLogLine(level)]);
    SnippetsTerminated(confs);
    IncludesTerminated(IncludeSection(MainIncludeId), includes, host.canonicalize, host.isFile);
    var a := host.envLines + [ErrorLogLine(level)];
    AllTerminatedAppend(a, MapLines(confs, NormalizeConfLine));
    AllTerminatedAppend(a + MapLines(confs, NormalizeConfLine), inc);
  }

  // ---------------------------------------------------------------------
  // The application state

  /** What the parser produced for the options and positionals, already
      checked against their value parsers; values of `-e` and `-l` carry
      their position. */
  datatype Matches = Matches(
    nginxPath: Option<string>,
    version: bool,
    luaFile: Option<string>,
    luaArgs: seq<string>,
    inlineLua: seq<Types.ValueWithIndex>,
    luaLibraries: seq<Types.ValueWithIndex>,
    jit: Option<Types.JitCmd>,
    nameservers: seq<Types.IpAddr>,
    resolveIpv6: bool,
    workerConnections: Option<nat>,
    noStream: bool,
    errlogLevel: Option<Types.LogLevel>,
    luaPackagePath: seq<string>,
    shdict: seq<string>,
    httpConf: seq<string>,
    httpInclude: seq<string>,
    mainConf: seq<string>,
    mainInclude: seq<string>,
    streamConf: seq<string>,
    runner: CliArgs.RunnerArgs)

  /** The directory of the running executable, the file tests, the
      canonicalizer, the `env NAME;` lines (sorted) for the environment, the
      lines of /etc/resolv.conf (None when it cannot be opened) and the IP
      parser with its canonical rendering. */
  datatype Host = Host(
    exeParent: Option<string>,
    isFile: string -> bool,
    fileExists: string -> bool,
    canonicalize: string -> Option<string>,
    envLines: seq<string>,
    resolvConf: Option<seq<Option<string>>>,
    isIp: string -> bool,
    showIp: string -> string)

  class App {
    var inlineLua: seq<string>
    var luaFile: Option<string>
    var luaArgs: seq<string>
    var nginx: string
    var workerConnections: nat
    var errlogLevel: Types.LogLevel
    var luaPackagePath: seq<string>
    var nameservers: seq<string>
    var resolveIpv6: bool
    var httpConf: seq<string>
    var mainConf: seq<string>
    var streamConf: seq<string>
    var noStream: bool
    var runner: CliArgs.Runner
    var version: bool
    var prefix: Option<string>

    /** `App::default()`. */
    constructor ()
      ensures inlineLua == [] && luaFile == None && luaArgs == [] && nginx == ""
      ensures workerConnections == 0 && errlogLevel == Types.DefaultLogLevel()
      ensures luaPackagePath == [] && nameservers == [] && !resolveIpv6
      ensures httpConf == [] && mainConf == [] && streamConf == [] && !noStream
      ensures runner == CliArgs.Default && !version && prefix == None
    {
      inlineLua := [];
      luaFile := None;
      luaArgs := [];
      nginx := "";
      workerConnections := 0;
      errlogLevel := Types.DefaultLogLevel();
      luaPackagePath := [];
      nameservers := [];
      resolveIpv6 := false;
      httpConf := [];
      mainConf := [];
      streamConf := [];
      noStream := false;
      runner := CliArgs.Default;
      version := false;
      prefix := None;
    }

    /** `From<App> for Command`, for the prefix directory the App has been
        given; without one the source's `unwrap` panics, `None` here. */
    function IntoCommand(split: string -> seq<string>, join: seq<string> -> string): (c: Option<CliArgs.Command>)
      reads this
      ensures prefix.None? ==> c.None?
      ensures prefix.Some? ==> c == CliArgs.CommandFor(prefix.value, nginx, runner, split, join)
    {
      if prefix.None? then None else CliArgs.CommandFor(prefix.value, nginx, runner, split, join)
    }

    /** An App with every field given, as `try_from` leaves it once the
        parsed values have been taken over. */
    constructor Make(luaArgs: seq<string>, luaFile: Option<string>, inlineLua: seq<string>, nginx: string,
                     nameservers: seq<string>, resolveIpv6: bool, workerConnections: nat, noStream: bool,
                     errlogLevel: Types.LogLevel, luaPackagePath: seq<string>,
                     mainConf: seq<string>, httpConf: seq<string>, streamConf: seq<string>, runner: CliArgs.Runner)
      ensures this.luaArgs == luaArgs && this.luaFile == luaFile && this.inlineLua == inlineLua
      ensures this.nginx == nginx && this.nameservers == nameservers && this.resolveIpv6 == resolveIpv6
      ensures this.workerConnections == workerConnections && this.noStream == noStream
      ensures this.errlogLevel == errlogLevel && this.luaPackagePath == luaPackagePath
      ensures this.mainConf == mainConf && this.httpConf == httpConf && this.streamConf == streamConf
      ensures this.runner == runner && !version && prefix == None
    {
      this.luaArgs := luaArgs;
      this.luaFile := luaFile;
      this.inlineLua := inlineLua;
      this.nginx := nginx;
      this.nameservers := nameservers;
      this.resolveIpv6 := resolveIpv6;
      this.workerConnections := workerConnections;
      this.noStream := noStream;
      this.errlogLevel := errlogLevel;
      this.luaPackagePath := luaPackagePath;
      this.mainConf := mainConf;
      this.httpConf := httpConf;
      this.streamConf := streamConf;
      this.runner := runner;
      version := false;
      prefix := None;
    }
  }

  /** The inline Lua of `try_from`: the `-j` statement, then the `-e`
      and `-l` values sorted by command-line position. */
  method InlineLuaOf(jit: Option<Types.JitCmd>, exprs: seq<CliArgs.Indexed>, libs: seq<CliArgs.Indexed>)
    returns (inline: seq<string>)
    ensures inline == CliArgs.InlineLua(jit, exprs, libs)
  {
    var values := exprs + CliArgs.RequireLibs(libs);
    inline := [];
    if jit.Some? {
      inline := inline + [Types.JitToLua(jit.value)];
    }
    inline := inline + CliArgs.Values(CliArgs.SortByIndex(values));
  }

  /** `nameservers`: the `--ns` addresses as written; when there are none,
      the ones resolv.conf names; when there are none of those either, the
      fallback pair. resolv.conf is read only when needed. */
  method NameserversOf(user: seq<Types.IpAddr>, host: Host) returns (nameservers: seq<string>)
    ensures nameservers == ChooseNameservers(IpTexts(user), ResolvConfNameservers(host))
  {
    nameservers := IpTexts(user);
    if nameservers != [] {
      return;
    }
    var fromFile := Util.TryParseResolvConf(host.resolvConf, host.isIp, host.showIp);
    if fromFile.Some? {
      nameservers := nameservers + fromFile.value;
    }
    if nameservers != [] {
      return;
    }
    nameservers := nameservers + FallbackNameservers;
  }

  /** `main_conf`: the `env` lines, the `error_log` directive, the
      normalized `--main-conf` lines and the `--main-include` lines up to
      the first include that does not resolve. The lines are returned and
      stored by the caller. */
  method MainConf(level: Types.LogLevel, confs: seq<string>, includes: seq<string>, host: Host)
    returns (added: seq<string>, err: Option<MissingIncludeFileError>)
    ensures added == MainConfLines(level, confs, includes, host)
    ensures err == IncludeLines(IncludeSection(MainIncludeId), includes, host.canonicalize, host.isFile).1
  {
    added := host.envLines + [ErrorLogLine(level)];
    added := AppendMapped(added, confs, NormalizeConfLine);
    var lines;
    lines, err := Includes(MainIncludeId, includes, host.canonicalize, host.isFile);
    added := added + lines;
  }

  /** `http_conf`: the resolver, the package search paths, one
      `lua_shared_dict` per `--shdict`, the normalized `--http-conf` lines
      and the `--http-include` lines up to the first that does not
      resolve. */
  method HttpConf(ns: seq<string>, resolveIpv6: bool, dirs: seq<string>, shdicts: seq<string>,
                  confs: seq<string>, includes: seq<string>, host: Host)
    returns (added: seq<string>, err: Option<MissingIncludeFileError>)
    ensures added == HttpConfLines(ns, resolveIpv6, dirs, shdicts, confs, includes, host)
    ensures err == IncludeLines(IncludeSection(HttpIncludeId), includes, host.canonicalize, host.isFile).1
  {
    var path := Lua.PackagePath(dirs);
    var cpath := Lua.PackageCpath(dirs);
    added := [Resolver(ns, resolveIpv6)] + (OptionLines(path) + OptionLines(cpath));
    added := AppendMapped(added, shdicts, SharedDict);
    added := AppendMapped(added, confs, NormalizeConfLine);
    var lines;
    lines, err := Includes(HttpIncludeId, includes, host.canonicalize, host.isFile);
    added := added + lines;
  }

  /** `stream_conf` when streams are on: the resolver, the package search
      paths and the `--stream-conf` lines as given. */
  method StreamConf(ns: seq<string>, resolveIpv6: bool, dirs: seq<string>, confs: seq<string>)
    returns (added: seq<string>)
    ensures added == StreamConfLines(ns, resolveIpv6, dirs, confs)
  {
    var path := Lua.PackagePath(dirs);
    var cpath := Lua.PackageCpath(dirs);
    added := ([Resolver(ns, resolveIpv6)] + (OptionLines(path) + OptionLines(cpath))) + confs;
  }

  // ---------------------------------------------------------------------
  // Assembling the App from argv

  /** The option names the parser knows, short and long (the generated
      `-h`/`--help` included), with whether each takes a value: options set
      to true by their presence and help do not, all others do. */
  const CliOptions: map<string, bool> := map[
    "h" := false, "help" := false,
    "V" := false,
    "I" := true, "e" := true, "l" := true, "j" := true, "c" := true,
    "ns" := true, "shdict" := true, "nginx" := true,
    "http-conf" := true, "stream-conf" := true, "main-conf" := true,
    "http-include" := true, "main-include" := true,
    "valgrind" := false, "valgrind-opts" := true,
    "errlog-level" := true, "resolve-ipv6" := false, "user-runner" := true,
    "stap" := false, "stap-opts" := true,
    "gdb" := false, "gdb-opts" := true,
    "no-stream" := false, "rr" := false]

  /** The parser error a failed check on the Lua input is reported as. */
  function InputErrorKind(e: CliArgs.InputError): (k: ClapErrors.ErrorKind)
    ensures e.NoLuaInput? <==> k == ClapErrors.MissingRequiredArgument
    ensures e.LuaFileNotFound? <==> k == ClapErrors.ValueValidation
  {
    match e
    case NoLuaInput => ClapErrors.MissingRequiredArgument
    case LuaFileNotFound(_) => ClapErrors.ValueValidation
  }

  /** The nameservers resolv.conf yields, None when it cannot be opened. */
  function ResolvConfNameservers(host: Host): Option<seq<string>> {
    if host.resolvConf.None? then None
    else Some(Util.Nameservers(Util.OkPrefix(host.resolvConf.value), host.isIp, host.showIp))
  }

  /** The error `try_from` fails with once the parser has accepted its
      words: none in version mode; otherwise a failed check on the Lua
      input, or an I/O error for an include file that does not resolve, the
      main block's includes being looked at first. */
  function BuildError(m: Matches, host: Host): (e: Option<ClapErrors.ErrorKind>)
    ensures m.version ==> e.None?
    ensures e.Some? ==> e.value in {ClapErrors.Io, ClapErrors.MissingRequiredArgument, ClapErrors.ValueValidation}
    ensures e.Some? ==> (e.value == ClapErrors.Io <==>
      CliArgs.CheckLuaInput(false, m.luaFile, m.inlineLua != [], host.fileExists).None?)
    ensures e.Some? && e.value != ClapErrors.Io ==>
      var bad := CliArgs.CheckLuaInput(false, m.luaFile, m.inlineLua != [], host.fileExists);
      bad.Some? && e.value == InputErrorKind(bad.value)
  {
    if m.version then None
    else
      var bad := CliArgs.CheckLuaInput(false, m.luaFile, m.inlineLua != [], host.fileExists);
      if bad.Some? then Some(InputErrorKind(bad.value))
      else if IncludeLines(IncludeSection(MainIncludeId), m.mainInclude, host.canonicalize, host.isFile).1.Some?
      then Some(ClapErrors.Io)
      else if IncludeLines(IncludeSection(HttpIncludeId), m.httpInclude, host.canonicalize, host.isFile).1.Some?
      then Some(ClapErrors.Io)
      else None
  }

  /** The Lua input `try_from` records: the Lua arguments after `rest`,
      the file, and the inline code in command-line order. */
  predicate LuaInputSet(app: App, rest: seq<string>, m: Matches)
    reads app`luaArgs, app`luaFile, app`inlineLua
  {
    app.luaArgs == rest + m.luaArgs &&
    app.luaFile == m.luaFile &&
    app.inlineLua == CliArgs.InlineLua(m.jit, m.inlineLua, m.luaLibraries)
  }

  /** The nameservers `try_from` settles on: the given ones, else those of
      resolv.conf, else the fallback pair. */
  function ChosenNameservers(m: Matches, host: Host): seq<string> {
    ChooseNameservers(IpTexts(m.nameservers), ResolvConfNameservers(host))
  }

  /** The plain options `try_from` copies from the parsed values. */
  predicate OptionsSet(app: App, m: Matches, host: Host)
    reads app`nameservers, app`resolveIpv6, app`workerConnections, app`noStream,
      app`errlogLevel, app`luaPackagePath
  {
    app.nameservers == ChosenNameservers(m, host) &&
    app.resolveIpv6 == m.resolveIpv6 &&
    app.workerConnections == m.workerConnections.GetOr(0) &&
    app.noStream == m.noStream &&
    app.errlogLevel == m.errlogLevel.GetOr(Types.DefaultLogLevel()) &&
    app.luaPackagePath == m.luaPackagePath
  }

  /** The three configuration blocks `try_from` generates. */
  predicate ConfsSet(app: App, m: Matches, host: Host)
    reads app`mainConf, app`httpConf, app`streamConf
  {
    var ns := ChosenNameservers(m, host);
    app.mainConf == MainConfLines(m.errlogLevel.GetOr(Types.DefaultLogLevel()), m.mainConf, m.mainInclude, host) &&
    app.httpConf == HttpConfLines(ns, m.resolveIpv6, m.luaPackagePath, m.shdict, m.httpConf, m.httpInclude, host) &&
    app.streamConf == (if m.noStream then [] else StreamConfLines(ns, m.resolveIpv6, m.luaPackagePath, m.streamConf))
  }

  /** The state `try_from` leaves in a new App after parsing `m`, with
      `rest` the Lua arguments split off before parsing. */
  predicate Configured(app: App, rest: seq<string>, m: Matches, host: Host)
    reads app
  {
    app.nginx == Nginx.FindNginxBin(m.nginxPath, host.exeParent, host.isFile) &&
    app.version == m.version &&
    app.prefix == None &&
    (m.version ==>
      app.luaArgs == rest && app.luaFile == None && app.inlineLua == [] &&
      app.nameservers == [] && app.mainConf == [] && app.httpConf == [] && app.streamConf == [] &&
      app.runner == CliArgs.Default) &&
    (!m.version ==> Filled(app, rest, m, host))
  }

  /** The fields `try_from` sets after the version check. */
  predicate Filled(app: App, rest: seq<string>, m: Matches, host: Host)
    reads app
  {
    LuaInputSet(app, rest, m) && OptionsSet(app, m, host) && ConfsSet(app, m, host) &&
    app.runner == CliArgs.RunnerFrom(m.runner)
  }

  /** The App made from values already computed as the source computes
      them. */
  method Build(rest: seq<string>, nginx: string, m: Matches, host: Host,
               inline: seq<string>, ns: seq<string>, main: seq<string>, http: seq<string>, stream: seq<string>)
    returns (app: App)
    requires inline == CliArgs.InlineLua(m.jit, m.inlineLua, m.luaLibraries)
    requires ns == ChosenNameservers(m, host)
    requires main == MainConfLines(m.errlogLevel.GetOr(Types.DefaultLogLevel()), m.mainConf, m.mainInclude, host)
    requires http == HttpConfLines(ns, m.resolveIpv6, m.luaPackagePath, m.shdict, m.httpConf, m.httpInclude, host)
    requires stream == if m.noStream then [] else StreamConfLines(ns, m.resolveIpv6, m.luaPackagePath, m.streamConf)
    ensures fresh(app) && app.nginx == nginx && !app.version && app.prefix == None
    ensures Filled(app, rest, m, host)
  {
    app := new App.Make(rest + m.luaArgs, m.luaFile, inline, nginx, ns, m.resolveIpv6,
      m.workerConnections.GetOr(0), m.noStream, m.errlogLevel.GetOr(Types.DefaultLogLevel()),
      m.luaPackagePath, main, http, stream, CliArgs.RunnerFrom(m.runner));
  }

  /** The part of `try_from` after the version check, given the Lua
      arguments split off before parsing and the nginx binary: the checks
      on the Lua input, then every field from the parsed values, in the
      source's order; it stops at the first error. The fields start out
      empty, so the App is made once all of them are known. */
  method Fill(rest: seq<string>, nginx: string, m: Matches, host: Host)
    returns (r: Result<App, ClapErrors.ErrorKind>)
    requires !m.version
    ensures r.Err? <==> BuildError(m, host).Some?
    ensures r.Err? ==> r.error == BuildError(m, host).value
    ensures r.Ok? ==> fresh(r.value) && r.value.nginx == nginx && !r.value.version && r.value.prefix == None
    ensures r.Ok? ==> Filled(r.value, rest, m, host)
  {
    var bad := CliArgs.CheckLuaInput(m.version, m.luaFile, m.inlineLua != [], host.fileExists);
    if bad.Some? {
      return Err(InputErrorKind(bad.value));
    }
    var inline := InlineLuaOf(m.jit, m.inlineLua, m.luaLibraries);
    var ns := NameserversOf(m.nameservers, host);
    var level := m.errlogLevel.GetOr(Types.DefaultLogLevel());
    var main, missing := MainConf(level, m.mainConf, m.mainInclude, host);
    if missing.Some? {
      return Err(ClapErrors.Io);
    }
    var http;
    http, missing := HttpConf(ns, m.resolveIpv6, m.luaPackagePath, m.shdict, m.httpConf, m.httpInclude, host);
    if missing.Some? {
      return Err(ClapErrors.Io);
    }
    var stream := [];
    if !m.noStream {
      stream := StreamConf(ns, m.resolveIpv6, m.luaPackagePath, m.streamConf);
    }
    var app := Build(rest, nginx, m, host, inline, ns, main, http, stream);
    return Ok(app);
  }

  /** `try_from` once the parser has returned `m`: the nginx binary is
      looked up first, and in version mode nothing else is filled in. */
  method FromMatches(rest: seq<string>, m: Matches, host: Host) returns (r: Result<App, ClapErrors.ErrorKind>)
    ensures r.Err? <==> BuildError(m, host).Some?
    ensures r.Err? ==> r.error == BuildError(m, host).value
    ensures r.Ok? ==> fresh(r.value) && Configured(r.value, rest, m, host)
  {
    var nginx := Nginx.FindNginxBin(m.nginxPath, host.exeParent, host.isFile);
    if m.version {
      var app := new App();
      app.luaArgs, app.nginx, app.version := rest, nginx, true;
      return Ok(app);
    }
    r := Fill(rest, nginx, m, host);
  }

  /** `App::try_from`: argv is pre-split, the parser (`parse`) is run on the
      parser words, and the App is filled in from what it returns; a parse
      error is passed on as it is. */
  method TryFrom(args: seq<string>, parse: seq<string> -> Result<Matches, ClapErrors.ErrorKind>, host: Host)
    returns (r: Result<App, ClapErrors.ErrorKind>)
    ensures var words := CliArgs.PreSplitSpec(args, CliOptions).0;
      parse(words).Err? ==> r == Err(parse(words).error)
    ensures var split := CliArgs.PreSplitSpec(args, CliOptions);
      parse(split.0).Ok? ==>
        (r.Err? <==> BuildError(parse(split.0).value, host).Some?) &&
        (r.Err? ==> r.error == BuildError(parse(split.0).value, host).value) &&
        (r.Ok? ==> fresh(r.value) && Configured(r.value, split.1, parse(split.0).value, host))
  {
    var clapArgs, rest := CliArgs.PreSplit(args, CliOptions);
    var parsed := parse(clapArgs);
    if parsed.Err? {
      return Err(parsed.error);
    }
    r := FromMatches(rest, parsed.value, host);
  }
}
