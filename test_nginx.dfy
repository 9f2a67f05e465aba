/** The nginx stand-in of the test suite: it reads `-p` and `-c` from its
    own command line and works out which configuration file it would load. */
module TestNginx {
  import opened Wrappers
  import Paths

  const DefaultConf: string := "conf/nginx.conf"

  datatype NginxArgs = NginxArgs(prefix: string, conf: string)

  /** `Nginx::new`: the configuration path defaults to `conf/nginx.conf`. */
  function New(prefix: string, conf: Option<string>): (n: NginxArgs)
    ensures n.prefix == prefix
    ensures conf.Some? ==> n.conf == conf.value
    ensures conf.None? ==> n.conf == DefaultConf
  {
    NginxArgs(prefix, conf.GetOr(DefaultConf))
  }

  /** The ways `try_from_args` gives up. */
  datatype ArgsError = PrefixWithoutValue | ConfWithoutValue | NoPrefix

  /** The scan over the remaining words, given what was seen so far: `-p` and
      `-c` take the next word, a later one replacing an earlier one; every
      other word is skipped. */
  function Scan(args: seq<string>, prefix: Option<string>, conf: Option<string>)
    : (r: Result<(Option<string>, Option<string>), ArgsError>)
    ensures r.Ok? && r.value.0.Some? ==> prefix.Some? || "-p" in args
    decreases |args|
  {
    if args == [] then Ok((prefix, conf))
    else if args[0] == "-p" then
      if |args| < 2 then Err(PrefixWithoutValue) else Scan(args[2..], Some(args[1]), conf)
    else if args[0] == "-c" then
      if |args| < 2 then Err(ConfWithoutValue) else Scan(args[2..], prefix, Some(args[1]))
    else Scan(args[1..], prefix, conf)
  }

  /** What `try_from_args` makes of a whole command line. */
  function FromArgs(args: seq<string>): (r: Result<NginxArgs, ArgsError>)
    ensures r.Ok? ==> "-p" in args
  {
    match Scan(args, None, None)
    case Err(e) => Err(e)
    case Ok((None, _)) => Err(NoPrefix)
    case Ok((Some(p), c)) => Ok(New(p, c))
  }

  /** `try_from_args`, over the command line given as a sequence. */
  method TryFromArgs(args: seq<string>) returns (r: Result<NginxArgs, ArgsError>)
    ensures r == FromArgs(args)
  {
    var prefix: Option<string> := None;
    var conf: Option<string> := None;
    var i := 0;
    while i < |args|
      invariant 0 <= i <= |args|
      invariant Scan(args, None, None) == Scan(args[i..], prefix, conf)
    {
      var opt := args[i];
      assert args[i..][0] == opt;
      if opt == "-p" {
        if i + 1 >= |args| {
          return Err(PrefixWithoutValue);
        }
        assert args[i..][2..] == args[i + 2..];
        prefix := Some(args[i + 1]);
        i := i + 2;
      } else if opt == "-c" {
        if i + 1 >= |args| {
          return Err(ConfWithoutValue);
        }
        assert args[i..][2..] == args[i + 2..];
        conf := Some(args[i + 1]);
        i := i + 2;
      } else {
        assert args[i..][1..] == args[i + 1..];
        i := i + 1;
      }
    }
    if prefix.None? {
      return Err(NoPrefix);
    }
    return Ok(New(prefix.value, conf));
  }

  /** Scanning a command line in two stretches. */
  lemma {:induction false} ScanAppend(a: seq<string>, b: seq<string>, prefix: Option<string>, conf: Option<string>)
    requires Scan(a, prefix, conf).Ok?
    ensures Scan(a + b, prefix, conf) ==
      Scan(b, Scan(a, prefix, conf).value.0, Scan(a, prefix, conf).value.1)
    decreases |a|
  {
    if a == [] {
      assert a + b == b;
    } else if a[0] == "-p" || a[0] == "-c" {
      assert (a + b)[2..] == a[2..] + b;
      ScanAppend(a[2..], b, if a[0] == "-p" then Some(a[1]) else prefix, if a[0] == "-c" then Some(a[1]) else conf);
    } else {
      assert (a + b)[1..] == a[1..] + b;
      ScanAppend(a[1..], b, prefix, conf);
    }
  }

  /** The last `-p` wins: appending `-p X` to a line that scans makes X
      the prefix and keeps the configuration path. */
  lemma LastPrefixWins(a: seq<string>, x: string)
    requires Scan(a, None, None).Ok?
    ensures FromArgs(a + ["-p", x]) == Ok(New(x, Scan(a, None, None).value.1))
  {
    ScanAppend(a, ["-p", x], None, None);
    assert ["-p", x][2..] == [];
  }

  /** The last `-c` wins. */
  lemma LastConfWins(a: seq<string>, x: string)
    requires Scan(a, None, None).Ok?
    requires Scan(a, None, None).value.0.Some?
    ensures FromArgs(a + ["-c", x]) == Ok(New(Scan(a, None, None).value.0.value, Some(x)))
  {
    ScanAppend(a, ["-c", x], None, None);
    assert ["-c", x][2..] == [];
  }

  /** A trailing `-p` or `-c` with nothing after it is an error. */
  lemma TrailingOptionFails(a: seq<string>, opt: string)
    requires Scan(a, None, None).Ok?
    requires opt == "-p" || opt == "-c"
    ensures FromArgs(a + [opt]).Err?
  {
    ScanAppend(a, [opt], None, None);
  }

  /** Other words are ignored. */
  lemma OtherWordIgnored(a: seq<string>, w: string)
    requires Scan(a, None, None).Ok?
    requires w != "-p" && w != "-c"
    ensures FromArgs(a + [w]) == FromArgs(a)
  {
    ScanAppend(a, [w], None, None);
    assert [w][1..] == [];
    assert a + [] == a;
  }

  /** `conf_filename`: an absolute path as it is, else below the prefix. */
  function ConfFilename(n: NginxArgs): (r: string)
    ensures Paths.IsAbsolute(n.conf) ==> r == n.conf
    ensures !Paths.IsAbsolute(n.conf) ==> r == Paths.Join(n.prefix, n.conf)
    ensures |r| >= |n.conf| && r[|r| - |n.conf|..] == n.conf
  {
    if Paths.IsAbsolute(n.conf) then n.conf else Paths.Join(n.prefix, n.conf)
  }

  /** With no `-c`, the file is `conf/nginx.conf` under the prefix. */
  lemma DefaultConfFilename(prefix: string)
    requires prefix != [] && prefix[|prefix| - 1] != '/'
    ensures ConfFilename(New(prefix, None)) == prefix + "/" + DefaultConf
  {
  }

  /** The absolute-path branch agrees with joining onto the prefix, since a
      join onto an absolute path gives that path. */
  lemma ConfFilenameIsJoin(n: NginxArgs)
    ensures ConfFilename(n) == Paths.Join(n.prefix, n.conf)
  {
  }
}
