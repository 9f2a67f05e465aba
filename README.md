# rusty-cli, modelled in Dafny

rusty-cli is a Rust re-implementation of OpenResty's `resty` command. The
command runs Lua code inside a throw-away nginx: it parses the `resty`
command line, writes an nginx configuration and a Lua loader into a
temporary prefix directory, and then starts nginx (optionally under `rr`,
`stap`, `valgrind`, `gdb` or a user-given runner). While nginx runs, it
supervises it and turns caught signals into nginx's shutdown signals and
into `resty`'s exit codes. The repository also has a test helper library.
It holds a small scripting language for signal tests, a `str_to_bool`, a
`lines` splitter and a fake nginx's argument reader.

This project models that core and proves properties of the model:

- `cli_args.dfy` (module `CliArgs`) holds the pre-split of argv. It puts
  the words the option parser sees on one side and the Lua arguments on
  the other. The module also orders inline Lua by command-line position
  and chooses the runner. It builds the nginx command line and checks the
  Lua input.
- `cli.dfy` (`Cli`) holds the `App` class and `try_from`. It also holds
  the generated `main`, `http` and `stream` configuration lines: resolver,
  package paths, shared dicts, snippets and includes.
- `lua.dfy` (`Lua`) holds Lua long-string quoting and the `Buf` line
  buffer class. It also holds the generated loader and the
  `lua_package_path` / `lua_package_cpath` directives.
- `compat_version.dfy` (`CompatVersion`) holds the resty-cli compatibility
  version parser (`from_bytes`, its loops `extract` and `find_digits`) and
  the version ordering.
- `nginx.dfy` (`Nginx`) holds the nginx binary lookup and the
  `RESTY_CLI_COMPAT_VERSION` reading.
- `util.dfy` (`Util`) holds the nameserver extraction from
  `/etc/resolv.conf`.
- `types.dfy` (`Types`) holds IP address text, log levels, JIT commands
  and indexed values.
- `run.dfy` (`Supervisor`) holds the signal latch and `run`'s dispatch and
  exit codes.
- `entry.dfy` (`Entry`) holds `main`'s exit-code table and the command it
  runs.
- `sigscript.dfy` (`SigScript`) holds the signal-test script: its words,
  its `Display` and `FromStr` round trip, the builder methods of the
  `Script` class, and what executing a script does.
- `test_utils.dfy` (`TestUtils`) holds `str_to_bool` and `lines`.
- `test_nginx.dfy` (`TestNginx`) holds the fake nginx's `-p` / `-c`
  reader and `conf_filename`.
- `text.dfy`, `decimal.dfy`, `paths.dfy`, `signals.dfy`, `wrappers.dfy` and
  `clap_errors.dfy` model the pieces of Rust's standard library, `nix` and
  `clap` that the core relies on. These are trimming, splitting and
  joining text; decimal `from_str` and `Display`; `Path::join`; signal
  names and numbers; `Option`/`Result`/`Ordering`; and the parser's error
  kinds.

The file system, the environment, the clock and the operating system are
parameters of the model. These cover file tests, canonicalisation, the
resolv.conf lines, `env::args`, and the replies to `kill`. A shell-word
splitter and joiner and an IP parser are parameters as well. Signal
delivery is a sequence of handler runs, each of which did or did not get
the lock.

Where prose descriptions of the program differ from the code, the model
follows the code:

- Every one of the nine handled signals latches, SIGCHLD and SIGWINCH
  included. The latch is written only while it is 0, and a handler that
  fails to get the lock drops its signal.
- `run` acts once, on the first signal latched.
- The resolver line is exactly the nameservers, then `ipv6=off` unless
  IPv6 is resolved.
- Every piece of generated Lua (the `require` of each `-l` library, the
  loader's file and chunk names, the `arg` table) is quoted by
  `quote_lua_string` as the source writes it (`Lua.QuoteLuaString`). The
  corrected quoting of "## Findings" (`Lua.QuoteLuaStringFixed`) is
  stated and proved beside it, not substituted for it.
- `send_signal` returns only when the signal was delivered. Its
  "no such process" case is mapped to `Ok(())` inside an `Err`, which
  `expect` still panics on (`Supervisor.SendSignal`, and "## Findings").

When nginx is ended by a signal, `run` answers SIGCHLD with the child's
exit code or 0 (`block_wait(proc).unwrap_or(0)`, src/run.rs:100): a child
that a signal ended has no exit code, so `Supervisor.ExitStatus` gives 0
for it. The signal tests (tests/signals.rs:268-274) expect 139 for a
segfaulting script; how they observe that status is not part of this
model, and the model does not add a `128 + signal` rule.

## Model

| member | source | states |
|---|---|---|
| CliArgs.TakesValue | src/cli.rs:601-604 | an option word takes a value exactly when its name, all leading dashes trimmed, is in the option table and maps to true (see `CliArgs.Kind`, `CliArgs.UnknownOptionIsFlag`) |
| CliArgs.Kind | src/cli.rs:601-604 | a word is the end of options exactly when it is `--`; otherwise a word starting with `-` takes a value exactly when its name, with the dashes trimmed, maps to true, and any other word is an operand |
| CliArgs.KindOf | src/cli.rs:601-604 | the classifier handed to the pre-split agrees with `Kind` on every word |
| CliArgs.PreSplit | src/cli.rs:624-646 | the loop over argv yields exactly the split `PreSplitSpec` defines: parser words first, Lua arguments second |
| CliArgs.PreSplitKeepsWords | src/cli.rs:624-646 | the pre-split loses no word except the first `--` before the first operand; program name, parser words and Lua arguments put together give argv back |
| CliArgs.ScanKeepsWords | src/cli.rs:624-646 | the scan's two halves put together are its input minus the `--` where the scan stopped |
| CliArgs.DashDashEndsOptions | src/cli.rs:626-627 | after a run of options, `--` ends the parser's words and is dropped; everything after it is Lua arguments |
| CliArgs.FirstWordEndsOptions | src/cli.rs:638-643 | after a run of options, the first operand (the Lua file) goes to the parser and everything after it is Lua arguments, even words that look like options |
| CliArgs.ValueOptionConsumes | src/cli.rs:631-633 | an option that takes a value keeps the word after it on the parser's side, whatever that word looks like |
| CliArgs.UnknownOptionIsFlag | src/cli.rs:601-604 | an option name the parser does not know is treated as a flag without a value |
| CliArgs.InsertByIndexSorted | src/cli.rs:729 | inserting into a list sorted by index keeps it sorted and holds only the new value and the old ones |
| CliArgs.SortByIndexCorrect | src/cli.rs:729 | sorting by index gives a sorted permutation of the values |
| CliArgs.SortedUnique | src/cli.rs:729 | two sorted lists with the same elements and distinct indices are equal, so any sort by index gives the same order |
| CliArgs.RequireLibs | src/cli.rs:716-721 | each `-l` library becomes `require(<quoted name>)` at the library's own position |
| CliArgs.Values | src/cli.rs:730-731 | the strings of indexed values are their values, in order |
| CliArgs.InlineLua | src/cli.rs:723-731 | the JIT command, if any, comes first; then the `-e` expressions and library requires by position |
| CliArgs.InlineLuaOrdered | src/cli.rs:712-731 | the inline Lua after the JIT command is sorted by command-line position and is a permutation of the expressions and requires |
| CliArgs.RunnerFrom | src/cli.rs:534-549 | `--rr` wins over `--stap`, which wins over `--valgrind`, then `--gdb`, then `--user-runner`; the default runs nginx itself; each runner carries its own options |
| CliArgs.PrefixArg | src/cli.rs:452-453 | the `-p` argument is the prefix with its trailing slashes trimmed and exactly one `/` added |
| CliArgs.CommandFor | src/cli.rs:448-520 | there is no command only when a user runner splits into no words |
| CliArgs.CommandEndsWithNginx | src/cli.rs:456-512 | every runner's command ends with nginx's `-p <prefix> -c conf/nginx.conf`, or passes nginx and those arguments as one joined `-c` word to stap |
| CliArgs.RunnerWords | src/cli.rs:466-513 | `--rr` runs `rr record <nginx> -p … -c …`, and under gdb `--args` comes right before nginx and its arguments |
| CliArgs.CheckLuaInput | src/cli.rs:656-674 | in version mode nothing is checked; otherwise the error is a missing input exactly when there is neither a file nor `-e`, and a missing file exactly when the named file does not exist |
| Cli.NormalizeConfLine | src/cli.rs:88-92 | a normalised snippet starts without whitespace and ends in exactly one `;` |
| Cli.NormalizeKeepsText | src/cli.rs:88-92 | normalising keeps the trimmed text up to its trailing semicolons and adds one `;` |
| Cli.NormalizeIdempotent | src/cli.rs:88-92 | normalising a normalised snippet changes nothing |
| Cli.Resolver | src/cli.rs:70-77 | the resolver line starts with `resolver ` and ends with `;` |
| Cli.ResolverIpv6Off | src/cli.rs:72-74 | without IPv6 resolution the line is the IPv6 line with ` ipv6=off` added before the `;` |
| Cli.ResolverReadsBack | src/cli.rs:70-77 | the words between `resolver` and `;` are exactly the nameservers, then `ipv6=off` unless IPv6 is resolved |
| Cli.IncludeSection | src/cli.rs:48 | the section is the id's text before its first `-`, or the whole id |
| Cli.IncludeSectionOf | src/cli.rs:47-48 | `main-include` names section `main`, `http-include` section `http` |
| Cli.MissingIncludeMessage | src/cli.rs:21-29 | the message starts with `could not find ` |
| Cli.IncludeLinesMeaning | src/cli.rs:46-68 | the include lines are `include <canonical path>;` for the paths before the first that does not resolve to a file, and the error names that path and the section |
| Cli.Includes | src/cli.rs:46-68 | the loop appends exactly those include lines and returns exactly that error |
| Cli.IncludeLinesCons | src/cli.rs:50-66 | a resolving path adds its line and the rest follows; a failing path stops with its error |
| Cli.MapLines | src/cli.rs:99-102 | each input line is transformed in place, order and count kept |
| Cli.AppendMapped | src/cli.rs:40-44 | the loop appends the transformed lines after what the field held |
| Cli.Confs | src/cli.rs:40-44 | the field keeps its lines and gets each snippet normalised, in order |
| Cli.PackageLines | src/cli.rs:96-97 | no package-path lines without directories; otherwise the path then the cpath directive |
| Cli.ChooseNameservers | src/cli.rs:153-176 | the user's nameservers if any, else those resolv.conf yields if any, else 8.8.8.8 and 8.8.4.4; never empty |
| Cli.IpTexts | src/cli.rs:155-159 | each user IP is rendered as its own text, in order |
| Cli.NameserversOf | src/cli.rs:153-176 | the method picks exactly the nameservers `ChooseNameservers` defines |
| Cli.MainConf | src/cli.rs:118-124 | the main block is the env lines, the `error_log stderr <level>;` line, the snippets and the include lines, and the include error of the main section |
| Cli.HttpConf | src/cli.rs:94-106 | the http block is the resolver, package paths, `lua_shared_dict` lines, snippets and includes, and the include error of the http section |
| Cli.StreamConf | src/cli.rs:108-116 | the stream block is the resolver, package paths and the stream snippets taken as they are |
| Cli.MainConfTerminated | src/cli.rs:118-124 | every main-block line ends with `;` |
| Cli.HttpConfTerminated | src/cli.rs:94-106 | every http-block line ends with `;` |
| Cli.IncludesTerminated | src/cli.rs:65 | every include line ends with `;` |
| Cli.PackageLinesTerminated | src/cli.rs:96-97 | every package-path line ends with `;` |
| Cli.InputErrorKind | src/cli.rs:660-673 | a missing Lua input is a missing required argument; a missing Lua file is a value validation error |
| Cli.BuildError | src/cli.rs:656-744 | no error in version mode; an error is I/O exactly when the Lua input is fine (so an include failed), and otherwise it is the Lua input error |
| Cli.App.constructor | src/cli.rs:423-446 | the default App: empty lists, no file, warn level, default runner, no version, no prefix |
| Cli.App.Make | src/cli.rs:735-749 | an App holding the given field values, not in version mode and without a prefix |
| Cli.App.IntoCommand | src/cli.rs:449-455 | without a prefix there is no command; with one it is the runner's command for that prefix |
| Cli.InlineLuaOf | src/cli.rs:712-731 | the method builds exactly the inline Lua `CliArgs.InlineLua` defines |
| Cli.Build | src/cli.rs:735-749 | the new App holds every field `try_from` sets |
| Cli.Fill | src/cli.rs:656-749 | after the version check, the result is an error exactly when `BuildError` gives one, and otherwise an App filled from the parsed values |
| Cli.FromMatches | src/cli.rs:648-749 | in version mode an App with only nginx, the version flag and the Lua arguments set; otherwise as `Fill` |
| Cli.TryFrom | src/cli.rs:563-750 | a parser error is passed on as it is; otherwise the App is configured from the parsed pre-split words and the Lua arguments after them, or the build error is returned |
| Entry.ExitCodeTable | src/main.rs:38-67 | which parser errors end with 255, 25, 2, 1 and 0, and which cannot happen |
| Entry.BuildErrorExitCode | src/main.rs:43-54 | the errors the App build raises exit with 2 for includes and with 255 for Lua input |
| Entry.VersionCommand | src/main.rs:86-91 | version mode runs nginx with the single argument `-V` |
| Entry.Launch | src/main.rs:86-111 | in version mode `nginx -V` and the prefix untouched; otherwise the App gets the prefix and runs its runner's command |
| Lua.BracketLevel | src/lua.rs:48-66 | the bracket level is at least 1 |
| Lua.GetBracketLevel | src/lua.rs:48-66 | the character loop with its `last` and `level` computes exactly `BracketLevel` |
| Lua.BracketLevelExceedsRun | src/lua.rs:48-66 | the level is above the length of every `]=…=]` run in the string |
| Lua.BracketLevelAttained | src/lua.rs:48-66 | whenever the level is above 1, the string holds a run of `=` closed by `]` whose scanner level is the maximum the scanner counts |
| Lua.BracketLevelEmpty | src/lua.rs:240-249 | the empty string has level 1 |
| Lua.QuoteLuaString | src/lua.rs:68-72 | as written: the result is the input framed by brackets of level `BracketLevel` of the input alone, so it is that much longer (two brackets of level + 2 characters) and the text between the brackets is exactly the input |
| Lua.QuoteLuaStringBrackets | src/lua.rs:68-72 | the frame of the as-written quoting: `[`, level × `=`, `[` in front and `]`, level × `=`, `]` behind |
| Lua.QuoteAsWrittenClosesEarly | src/lua.rs:68-72 | as written, `"]="` quotes to `[=[]=]=]`, which Lua ends at position 3 rather than reading back `"]="` |
| Lua.QuoteLuaStringReadsBack | src/lua.rs:68-72 | the corrected quoting `QuoteLuaStringFixed` always gives a long string around the input whose first matching closer is its last, so the string Lua reads ends at the final closer (no early close) |
| Lua.QuoteLuaStringAgrees | src/lua.rs:251-258 | for strings not ending in `=`, the corrected quoting is the source's own |
| Lua.QuoteEndingInEquals | src/lua.rs:68-72 | a string ending in `=` that the source already quotes safely, such as `YQ==`, gets level 1 as written and level 2 once corrected |
| Lua.Buf.constructor | src/lua.rs:14-16 | a new buffer has no lines and indentation 0 |
| Lua.Buf.Newline | src/lua.rs:18-20 | one empty line is added and the indentation kept |
| Lua.Buf.Append | src/lua.rs:22-31 | one line of four spaces per level and the text is added, indentation kept |
| Lua.InsertLuaFileLoader | src/lua.rs:74-94 | the buffer gets the four loader lines for the file, with chunk name and kind depending on `inline` |
| Lua.InsertInlineLua | src/lua.rs:96-111 | the buffer gets the inline section, a local `inline_gen` when there is no code; the code written to `a.lua` is the expressions joined by `; ` |
| Lua.InsertCodeForLuaFile | src/lua.rs:113-122 | the buffer gets the file section, a local `file_gen` when there is no file |
| Lua.ArgLines | src/lua.rs:136-142 | line `i` sets `arg[i+1]` to the quoted `i`-th argument |
| Lua.AppendArgLines | src/lua.rs:136-142 | the loop appends exactly those lines |
| Lua.LuaArgsLinesShape | src/lua.rs:124-160 | the argument section is three header lines, one line per argument, and the program-name line at index minus the count of non-Lua words |
| Lua.InsertLuaArgs | src/lua.rs:124-160 | the buffer gets exactly that argument section |
| Lua.AppendArgsHead | src/lua.rs:125-134 | the buffer gets the comment, `arg = {}` and `arg[0]` set to the quoted script name, or `./conf/a.lua` without one, and nothing else |
| Lua.AppendProgLine | src/lua.rs:144-159 | the buffer gets one line setting the quoted program name at minus the count of process arguments not given to Lua |
| Lua.InsertSections | src/lua.rs:173-180 | the args, inline and file sections, each followed by an empty line |
| Lua.AppendTail | src/lua.rs:182-189 | the `gen` function and the two `end`s are added, and the indentation returns to 0 |
| Lua.GenerateLuaLoader | src/lua.rs:162-192 | the loader is exactly `LoaderLines`, and the inline code written is the expressions joined |
| Lua.LoaderShape | src/lua.rs:162-192 | the loader starts with `local gen` and `do` and ends with the `gen` function and a final `end` at indentation 0 |
| Lua.EntriesAppend | src/lua.rs:200-212 | the entries of two directory lists are the first's then the second's |
| Lua.PackagePath | src/lua.rs:194-217 | no directive without directories; otherwise `lua_package_path "` followed by every directory's four patterns and `;";` |
| Lua.PackageCpath | src/lua.rs:219-233 | no directive without directories; otherwise `lua_package_cpath "` followed by every directory's `/?.so;` and `;";` |
| CompatVersion.FromTuple | src/compat_version.rs:17-21 | a tuple becomes the version with that major and minor |
| CompatVersion.ToTuple | src/compat_version.rs:23-27 | the tuple of a version converts back to it |
| CompatVersion.ToTupleOfFromTuple | src/compat_version.rs:17-27 | converting a tuple to a version and back gives the tuple |
| CompatVersion.FindDigitsSpec | src/compat_version.rs:74-97 | the length found is digits only and at most one over the five-digit limit |
| CompatVersion.FindDigits | src/compat_version.rs:74-97 | the loop returns exactly what `FindDigitsSpec` defines |
| CompatVersion.Extract | src/compat_version.rs:41-72 | the checked-arithmetic loop returns exactly `ExtractSpec`: a value when the digits fit a `u16`, nothing when there are none or too many |
| CompatVersion.ExtractStep | src/compat_version.rs:49-70 | one loop step: the suffix value is the digit times its weight plus the rest, and the next weight still fits a `u16` |
| CompatVersion.ExtractFits | src/compat_version.rs:41-72 | a component parses to its value exactly when it has at most five digits and is at most 65535 |
| CompatVersion.StripV | src/compat_version.rs:99-105 | one leading `v` is dropped, nothing else |
| CompatVersion.Parse | src/compat_version.rs:100-142 | one `v` stripped, then the major and an optional `.minor`; its properties are the `CompatVersion.Parse…` and `CompatVersion.Major…` lemmas and `CompatVersion.ParseDisplay` |
| CompatVersion.FromBytes | src/compat_version.rs:37-138 | the byte parser returns exactly `Parse` |
| CompatVersion.ParseMajorOnly | src/compat_version.rs:111-125 | digits, optionally followed by a dot, give that major with minor 0 when they fit |
| CompatVersion.ParseMajorMinor | src/compat_version.rs:111-134 | `major.minor`, optionally followed by more, gives both when both fit, minor lengths over five included |
| CompatVersion.MajorTooLong | src/compat_version.rs:113-120 | a major part longer than five digits gives no version |
| CompatVersion.MajorThenMinor | src/compat_version.rs:111-134 | after a major part that fits and its dot, the version is decided by the minor part alone |
| CompatVersion.ParseBadChar | src/compat_version.rs:85-91 | a character that is neither a digit nor a dot in the major part gives no version |
| CompatVersion.ParseBadMinorChar | src/compat_version.rs:127-133 | such a character in the minor part gives no version |
| CompatVersion.ParseStripsV | src/compat_version.rs:99-109 | one leading `v` is ignored; `""`, `"v"` and a second `v` give no version |
| CompatVersion.Display | src/compat_version.rs:29-33 | `v{maj}.{min}`; `CompatVersion.ParseDisplay` proves it parses back |
| CompatVersion.ParseDisplay | src/compat_version.rs:29-33 | parsing the displayed `maj.min` gives the version back |
| CompatVersion.FromEnv | src/compat_version.rs:144-155 | nothing for an unset or blank variable; otherwise the parse of the trimmed value, or the raw value as the error |
| CompatVersion.PartialCmp | src/compat_version.rs:158-162 | the partial comparison always has an answer |
| CompatVersion.CmpLexicographic | src/compat_version.rs:164-171 | versions compare by major, then minor |
| CompatVersion.CmpAntisymmetric | src/compat_version.rs:164-171 | swapping the operands reverses the ordering |
| CompatVersion.CmpTransitive | src/compat_version.rs:164-171 | less than is transitive |
| Nginx.CompatComponent | src/nginx.rs:78-82 | the component read holds no dot |
| Nginx.GetRestyCompatVersion | src/nginx.rs:72-88 | 28 when the variable is unset; the result fits a `u64`; otherwise the component parsed, or 28 when it does not parse |
| Nginx.CompatFromSecondPiece | src/nginx.rs:78-84 | for `[v]a.<n>[.rest]` the compatibility version is `n` |
| Nginx.CompatWhole | src/nginx.rs:78-84 | for `[v]<n>` without a dot it is `n` |
| Nginx.CompatFallback | src/nginx.rs:84 | a component that is no `u64` gives 28 |
| Nginx.FindNginxBin | src/nginx.rs:48-70 | a given path is taken as it is; else the first file among the two candidates of `NginxCandidates`, `<exe dir>/nginx/sbin/nginx` then `<exe dir>/nginx` (with `/` when the executable has no parent directory); else plain `nginx` |
| Nginx.FindNginxBinName | src/nginx.rs:59-69 | the binary found without a given path is always named `nginx` |
| Util.OkPrefix | src/util.rs:39-42 | the lines read before the first read error, in order |
| Util.TryParseResolvConf | src/util.rs:28-70 | no list when the file cannot be opened; otherwise the addresses of the readable lines, in order |
| Util.NameserverLine | src/util.rs:44-62 | a `nameserver <addr>` line offers exactly that address |
| Util.NameserversFromLines | src/util.rs:43-67 | an address is listed exactly when some line is `nameserver` followed by a single IP address and the address is that one's rendering |
| Util.NameserversAppend | src/util.rs:43-67 | the lines are taken one at a time, so the result for two blocks is the first's then the second's |
| Util.NameserversIsFlatMap | src/util.rs:43-67 | the result is the lines' contributions put together in order |
| Types.TrimBrackets | src/types.rs:42-46 | one leading `[` and trailing `]` are dropped together, or nothing is |
| Types.IpAddrFromStr | src/types.rs:57-65 | accepted exactly when the text without brackets is an IP address, and the original text is kept |
| Types.IpAddrKeepsBrackets | src/types.rs:67-80 | a bracketed IPv6 address keeps its brackets |
| Types.DefaultLogLevel | src/types.rs:91-92 | the default log level is `warn` |
| Types.LogLevelFromName | src/types.rs:82-86 | a parsed level's lowercase name is the input |
| Types.LogLevelRoundTrip | src/types.rs:82-97 | each level's lowercase name parses back to it |
| Types.JitToLua | src/types.rs:115-124 | `v`, `dump` and `off` each give their own `require` line |
| Types.CmpIndexed | src/types.rs:184-188 | indexed values compare by index alone |
| Types.PartialCmpIndexed | src/types.rs:178-182 | the partial comparison agrees with the total one |
| Types.CmpIndexedIgnoresValue | src/types.rs:178-188 | equal indices compare equal whatever the values; swapping reverses |
| Types.FromIndexed | src/types.rs:190-197 | the pair becomes that index and value |
| Types.IndexedRoundTrip | src/types.rs:190-203 | converting back to a string gives the value |
| Supervisor.HandledSignals | src/run.rs:16-18 | every signal here except KILL and SEGV gets the handler |
| Supervisor.Latch | src/run.rs:53-61 | a latched signal stays; an empty cell takes the signal only when the lock was got |
| Supervisor.CaughtSignal.constructor | src/run.rs:22-24 | the cell starts empty |
| Supervisor.CaughtSignal.Set | src/run.rs:53-61 | the cell becomes `Latch` of its old value and the delivery |
| Supervisor.FirstAcquired | src/run.rs:53-61 | nothing is caught exactly when no handler got the lock |
| Supervisor.FirstAcquiredIsFirst | src/run.rs:53-61 | what is caught is the signal of the first handler run that got the lock |
| Supervisor.LatchKeeps | src/run.rs:55-58 | once a signal is latched, later handler runs do not change it |
| Supervisor.LatchAllAppend | src/run.rs:53-61 | handler runs act one after another on the same cell |
| Supervisor.LatchAllFirst | src/run.rs:53-61 | from an empty cell, the latched signal is the first acquired one |
| Supervisor.Wait | src/run.rs:94-97 | after the handler runs, the wait returns the cell's value, and that value is `LatchAll` of the runs |
| Supervisor.SendThenKill | src/run.rs:41-45 | the plan of `send_then_kill`: the signal, the 100 ms pause, then KILL |
| Supervisor.Commands | src/run.rs:99-124 | nothing is sent exactly for CHLD; otherwise the first step is a send, of the caught signal itself exactly when it is not INT, PIPE or HUP |
| Supervisor.ExitStatus | src/run.rs:99-124 | INT, PIPE and TERM exit with 128 plus their number; every other signal with the child's code or 0 |
| Supervisor.CommandsSend | src/run.rs:99-124 | which signal is sent to nginx for each caught one: QUIT for INT, PIPE and HUP; TERM for TERM; nothing for CHLD; the signal itself otherwise |
| Supervisor.HupNotForwarded | src/run.rs:111-114 | a hangup is answered with QUIT alone |
| Supervisor.KillAfterQuit | src/run.rs:41-45 | KILL is only ever sent after QUIT and a 100 ms pause |
| Supervisor.ExitIgnoresChild | src/run.rs:99-124 | the exit code ignores the child exactly for INT, PIPE and TERM |
| Supervisor.IssuedPrefix | src/run.rs:26-45 | the steps taken are a prefix of the plan: all of it when no send fails, else up to and including the first failing send (any reply but delivery fails, ESRCH included) |
| Supervisor.SendSignal | src/run.rs:26-39 | sending returns exactly when the signal was delivered; an ESRCH reply panics like any other error |
| Supervisor.SendSignalFixed | src/run.rs:31-35 | with ESRCH tolerated, sending fails exactly on an error other than "no such process" |
| Supervisor.VanishedChildPanics | src/run.rs:26-39 | as written, with every `kill` answering ESRCH, `run` panics on its first send for every caught signal except CHLD |
| Supervisor.Dispatched | src/run.rs:99-124 | as written: `run` never keeps waiting once a signal is latched, exits only with the caught signal's exit status, always exits for CHLD, and exits whenever every `kill` is delivered |
| Supervisor.DispatchedFixed | src/run.rs:31-35 | with ESRCH tolerated: never waiting, and wherever the as-written dispatch exits the fixed one exits the same way |
| Supervisor.DispatchedFixedTolerates | src/run.rs:31-35 | with the fix, replies that are never a real error let `run` end with the caught signal's exit status, and a real error on the first send still panics |
| Supervisor.SendThenKillTo | src/run.rs:41-45 | QUIT, 100 ms, KILL are issued up to the first failure, which panics |
| Supervisor.Run | src/run.rs:72-125 | exit 2 when nginx cannot be spawned; otherwise waits for a latched signal, issues its commands and ends with its exit status or a panic |
| Supervisor.CaughtIsHandled | src/run.rs:63-70 | when only handled signals run the handler, the caught signal is a handled one |
| SigScript.Action | test-utils/src/sigscript.rs:26-31 | the action is the text before the first `=` and holds no `=` |
| SigScript.Args | test-utils/src/sigscript.rs:26-31 | there is always at least one argument |
| SigScript.WordOfParts | test-utils/src/sigscript.rs:26-31 | `act=a,b,…` splits back into the action and exactly those arguments |
| SigScript.BareWord | test-utils/src/sigscript.rs:29 | a word without `=` is its own action with the single argument `""` |
| SigScript.ParseBool | test-utils/src/sigscript.rs:88 | only `true` and `false` parse |
| SigScript.ParseSetup | test-utils/src/sigscript.rs:77-105 | the parser's error exactly for actions other than `log` and `exit` |
| SigScript.ParseOp | test-utils/src/sigscript.rs:155-175 | an operation parses only from `sleep`, `send`, `panic` or `segfault` |
| SigScript.SetupText | test-utils/src/sigscript.rs:38-49 | `log=SIG,bool` or `exit=N`; its properties are `SigScript.SetupRoundTrip` and `SigScript.TextsAreTokens` |
| SigScript.SetupRoundTrip | test-utils/src/sigscript.rs:38-49 | every displayed setup parses back to itself |
| SigScript.LogRoundTrip | test-utils/src/sigscript.rs:41-43 | `log=<SIG>,<bool>` parses back to that log setup |
| SigScript.ParseLogWord | test-utils/src/sigscript.rs:80-91 | `log=<SIG>[,flag…]` logs that signal, exiting only when the flag parses as true |
| SigScript.ExitRoundTrip | test-utils/src/sigscript.rs:44-46 | `exit=<code>` parses back to that exit code across the full `i32` range |
| SigScript.LogFlagDefaults | test-utils/src/sigscript.rs:86-89 | a missing or unparsable exit flag means false |
| SigScript.LogWithoutFlag | test-utils/src/sigscript.rs:86-89 | `log=<SIG>` logs without exiting |
| SigScript.LogWithBadFlag | test-utils/src/sigscript.rs:86-89 | `log=<SIG>,<not a bool>` logs without exiting |
| SigScript.OpText | test-utils/src/sigscript.rs:133-150 | `sleep=ms`, `send=SIG`, `panic` or `segfault`; its properties are `SigScript.OpRoundTrip` and `SigScript.TextsAreTokens` |
| SigScript.OpRoundTrip | test-utils/src/sigscript.rs:133-175 | every displayed operation parses back to itself and is not taken for a setup |
| SigScript.SleepRoundTrip | test-utils/src/sigscript.rs:136-138 | `sleep=<ms>` parses back across the full `u64` range |
| SigScript.SendRoundTrip | test-utils/src/sigscript.rs:139-141 | `send=<SIG>` parses back to that signal |
| SigScript.ScriptRoundTrip | test-utils/src/sigscript.rs:264-308 | parsing a displayed script gives back its setups and operations |
| SigScript.TextsAreTokens | test-utils/src/sigscript.rs:264-287 | every displayed word is non-empty and holds no whitespace |
| SigScript.ParseWordsFirstBad | test-utils/src/sigscript.rs:295-304 | a script parses exactly when every word is a setup or an operation; otherwise the first bad word decides whether it is rejected or aborts |
| SigScript.ParseAfterFailure | test-utils/src/sigscript.rs:300-303 | once a word fails, the words after it do not matter |
| SigScript.FromStr | test-utils/src/sigscript.rs:289-308 | the method returns exactly `ParseScript` |
| SigScript.ParseEach | test-utils/src/sigscript.rs:295-304 | the loop over the words returns exactly `ParseWords` |
| SigScript.WriteWord | test-utils/src/sigscript.rs:268-273 | writing a word keeps the text the space-join of the words so far |
| SigScript.WriteTexts | test-utils/src/sigscript.rs:267-283 | writing a list keeps the text the space-join of all words so far |
| SigScript.ExitCodeIsLast | test-utils/src/sigscript.rs:252-254 | the exit code is that of the last `exit` setup, or 0 |
| SigScript.HandlersAreLastLog | test-utils/src/sigscript.rs:54-66 | a signal gets a handler exactly when some setup logs it, and the last such setup decides whether it exits |
| SigScript.OpsFinish | test-utils/src/sigscript.rs:256-258 | the operations run to the end exactly when none panics or crashes, and then as many signals are sent as there are `send` operations |
| SigScript.OpsStop | test-utils/src/sigscript.rs:122-128 | after a panic or crash, later operations do nothing |
| SigScript.LogSetupsMember | test-utils/src/sigscript.rs:195-200 | logging a list of signals adds a log setup for each of them with the given flag, and no other setup |
| SigScript.WithoutMember | test-utils/src/sigscript.rs:203-206 | skipping a signal keeps exactly the others |
| SigScript.WithoutOnce | test-utils/src/sigscript.rs:203-206 | in a list without repeats, skipping removes at most one entry |
| SigScript.LogExceptSetups | test-utils/src/sigscript.rs:202-210 | `log_except(s)` logs, with exit, every one of the eight signals but `s` (seven setups when `s` is among them) |
| SigScript.Script.constructor | test-utils/src/sigscript.rs:177-181 | a new script has no setups and no operations |
| SigScript.Script.FromParts | test-utils/src/sigscript.rs:306 | the script holds the parsed setups and operations |
| SigScript.Script.Log | test-utils/src/sigscript.rs:212-215 | one log setup is added; the operations are unchanged |
| SigScript.Script.Exit | test-utils/src/sigscript.rs:217-220 | one exit setup is added |
| SigScript.Script.Sleep | test-utils/src/sigscript.rs:222-225 | one sleep operation is added |
| SigScript.Script.Send | test-utils/src/sigscript.rs:227-230 | one send operation is added |
| SigScript.Script.Panic | test-utils/src/sigscript.rs:232-235 | one panic operation is added |
| SigScript.Script.Segfault | test-utils/src/sigscript.rs:237-240 | one segfault operation is added |
| SigScript.Script.LogAll | test-utils/src/sigscript.rs:195-200 | a log setup for each of the eight signals is added, in order |
| SigScript.Script.LogExcept | test-utils/src/sigscript.rs:202-210 | log setups, with exit, for the eight signals except the given one are added |
| SigScript.Script.LogSkipping | test-utils/src/sigscript.rs:203-208 | the loop adds a log setup for each listed signal other than the skipped one |
| SigScript.Script.Display | test-utils/src/sigscript.rs:264-287 | the text is the setups' words then the operations' words, joined by single spaces |
| SigScript.Script.Exec | test-utils/src/sigscript.rs:243-261 | executing gives exactly `Executed` of the setups and operations |
| TestUtils.AsciiLower | test-utils/src/lib.rs:185-205 | capitals are lowered by 32 and everything else kept |
| TestUtils.StrToBool | test-utils/src/lib.rs:185-205 | true exactly for the six true words, false exactly for the six false words, in any ASCII case, and nothing otherwise |
| TestUtils.TrueFalseDisjoint | test-utils/src/lib.rs:185-205 | no string matches both a true and a false word |
| TestUtils.StrToBoolIgnoresCase | test-utils/src/lib.rs:185-205 | strings equal up to ASCII case get the same answer |
| TestUtils.Lines | test-utils/src/lib.rs:177-183 | every line is non-empty and holds no newline |
| TestUtils.LinesOfJoin | test-utils/src/lib.rs:177-183 | non-empty lines joined with newlines are read back as exactly those lines |
| TestNginx.New | test-utils/src/nginx.rs:10-13 | the prefix as given, and the configuration `conf/nginx.conf` when none is given |
| TestNginx.Scan | test-utils/src/nginx.rs:21-33 | a prefix is found only when one was given or `-p` occurs |
| TestNginx.FromArgs | test-utils/src/nginx.rs:15-37 | succeeding needs a `-p` among the arguments |
| TestNginx.TryFromArgs | test-utils/src/nginx.rs:15-37 | the loop returns exactly `FromArgs` |
| TestNginx.ScanAppend | test-utils/src/nginx.rs:21-33 | the arguments are read one after another, so two blocks read as the first then the second |
| TestNginx.LastPrefixWins | test-utils/src/nginx.rs:23-25 | a later `-p` replaces an earlier one |
| TestNginx.LastConfWins | test-utils/src/nginx.rs:27-29 | a later `-c` replaces an earlier one |
| TestNginx.TrailingOptionFails | test-utils/src/nginx.rs:23-29 | `-p` or `-c` with no argument after it fails |
| TestNginx.OtherWordIgnored | test-utils/src/nginx.rs:31 | any other word changes nothing |
| TestNginx.ConfFilename | test-utils/src/nginx.rs:39-45 | an absolute configuration is taken as it is; a relative one is joined to the prefix; either way the result ends with it |
| TestNginx.DefaultConfFilename | test-utils/src/nginx.rs:39-45 | without `-c` the file is `<prefix>/conf/nginx.conf` |
| TestNginx.ConfFilenameIsJoin | test-utils/src/nginx.rs:39-45 | the file is always the path join of prefix and configuration |
| Paths.Join | test-utils/src/nginx.rs:43 | an absolute right side replaces the left; otherwise a `/` is added between them unless the left side is empty or ends with `/` |
| Signals.NameRoundTrip | test-utils/src/sigscript.rs:81-84 | a name parses to a signal exactly when it is that signal's name |
| Decimal.ParseIntOfShowInt | test-utils/src/sigscript.rs:95-98 | a signed number in range, rendered in decimal, parses back to itself |
| Decimal.ParseNatOfShow | test-utils/src/sigscript.rs:158-162 | an unsigned number in range, rendered in decimal, parses back to itself |
| Text.SplitWhitespaceOfJoin | test-utils/src/sigscript.rs:295 | space-joined words without whitespace split back into exactly those words |
| Text.SplitOfJoin | test-utils/src/lib.rs:179 | parts without the separator, joined by it, split back into exactly those parts |

## Left out

- The option parser (clap) itself is not modelled. What it returns after value parsing is the `Cli.Matches` datatype, and its failure is an error kind. The parser's own argument table, help text and conflicts are not modelled.
- File system, environment and process parameters: `env::args`, `env::vars`, `current_exe`, `is_file`, `exists`, `canonicalize` and `/etc/resolv.conf`. They are all inputs of the model.
- The configuration template (minijinja) and `render_config`, writing `nginx.conf` and `a.lua`, and `Prefix::new`/`tempdir` with removal on drop. They are I/O; the model records the text written, and the prefix directory is a parameter.
- Signal handler installation, the mutex and condition variable, and threads. Delivery is a sequence of handler runs, each marked as having got the lock or not.
- Supervisor.Run: `block_wait` panicking when waiting fails is not modelled; the child's code is a parameter. The `expect` on an invalid signal number cannot happen with the `Signal` datatype.
- `split_shell_args` and `join_shell_args` are parameters of the command builder; shell quoting is not modelled.
- IP address syntax (`net::IpAddr::from_str`) and the rendering of a parsed address are parameters.
- Signals: only the eleven signals the core and its tests name are modelled, with their Linux numbers.
- Cli.FromMatches: the App is built in one step from values computed as the source computes them. The many intermediate in-place updates of `try_from` are not followed one by one; the order of the error checks is kept.
- Cli.Fill: `worker_connections` is an unbounded `nat` taken from the parser, not a `u32`.
- Nginx.GetRestyCompatVersion: a value that is not valid Unicode panics in `to_str().unwrap()`; the model's strings are always text.
- TestUtils.Lines: bytes that are not valid UTF-8 make the source panic in `expect`; the model's input is already text.
- Lua.QuoteLuaStringReadsBack: only the absence of an early closer is proved. Lua drops a newline right after the opening bracket and turns `\r`, `\r\n` and `\n\r` into `\n`, so a string starting with a newline or holding a carriage return does not read back verbatim; this holds for the as-written `Lua.QuoteLuaString` used for `arg[...]` values too, and is not modelled.
- CompatVersion.FromBytes: bytes are modelled as characters. Every non-ASCII character behaves like a byte that is neither a digit, a dot nor `v`, so the result is the same.
- SigScript.ParseSetup: a missing or bad signal name or exit code makes the helper panic (`expect`); this is the `Aborted` outcome, and the panic itself is not modelled.
- SigScript.Script.Exec: `sigaction`, `kill` and the sleeps themselves are not executed; the result records the exit code, the handlers installed, the signals sent and how the run ended. In particular `log=SIGKILL` makes the source's `sigaction(...).expect(...)` panic, because the kernel refuses a handler for KILL, while the model records a handler for it and goes on.
- Lua.InsertLuaArgs: its requires bounds the count of process arguments not given to Lua by the `i32` range, so the `try_into().unwrap()` panic at src/lua.rs:153 for a larger count is not modelled (`Lua.AppendProgLine` has the same requires).
- The `eprint!`/`eprintln!` messages (the parser's error text, "WTF", "unknown action") are not modelled, except the missing-include message.
- The helper binaries (`signal_logger`, `signal_script`, `print_args`, `print_nginx_conf`), the test macros, the integration tests and `build.rs` are not modelled.

## Findings

| source | as written | input that shows it | evidently intended | confidence | as-written member | corrected member |
|---|---|---|---|---|---|---|
| src/lua.rs:68-72 | the long-bracket level is taken from `s` alone, so an `s` ending in `]` followed by `=`s forms a closer with the closing bracket's `]` | `"]="` quotes to `[=[]=]=]`, which Lua ends after the empty string | take the level from `s` followed by `]`, so the long string Lua reads always ends at the final closer (no early close) | not executed | Lua.QuoteAsWrittenClosesEarly | Lua.QuoteLuaStringReadsBack |
| src/run.rs:29-38 | "no such process" is mapped to `Ok(())` inside `map_err`, so it stays an `Err` and `expect` panics on it | any `kill` of the plan answers ESRCH: `resty` panics on it. On Linux this cannot happen for the child `run` sends to, which stays an unreaped zombie until `block_wait`, so the defect is latent | a vanished child is no failure, as the comment at run.rs:31-32 says | not executed | Supervisor.VanishedChildPanics | Supervisor.DispatchedFixedTolerates |
