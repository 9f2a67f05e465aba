/** The program's entry point: the exit code a failed parse ends with, and
    the command the supervisor is given. */
module Entry {
  import opened Wrappers
  import ClapErrors
  import CliArgs
  import Cli

  /** The exit code for a parse error. Help is printed and exits with 0
      before the table is consulted (and the table agrees); the kinds the
      source declares unreachable panic, which is `None` here. Most codes
      follow the original resty script, whose one `die` left an unrelated
      `errno` behind: 25 for conflicting options. */
  function ErrorExitCode(kind: ClapErrors.ErrorKind): (r: Option<int>)
  {
    match kind
    case InvalidValue => Some(255)
    case WrongNumberOfValues => Some(255)
    case TooManyValues => Some(255)
    case TooFewValues => Some(255)
    case MissingRequiredArgument => Some(255)
    case ValueValidation => Some(255)
    case ArgumentConflict => Some(25)
    case InvalidUtf8 => Some(255)
    case Io => Some(2)
    case UnknownArgument => Some(1)
    case DisplayHelp => Some(0)
    case _ => None
  }

  /** The table by exit code: which kinds end with which code, and which
      cannot happen. */
  lemma ExitCodeTable(kind: ClapErrors.ErrorKind)
    ensures ErrorExitCode(kind) == Some(255) <==>
      kind in {ClapErrors.InvalidValue, ClapErrors.WrongNumberOfValues, ClapErrors.TooManyValues,
               ClapErrors.TooFewValues, ClapErrors.MissingRequiredArgument, ClapErrors.ValueValidation,
               ClapErrors.InvalidUtf8}
    ensures ErrorExitCode(kind) == Some(25) <==> kind == ClapErrors.ArgumentConflict
    ensures ErrorExitCode(kind) == Some(2) <==> kind == ClapErrors.Io
    ensures ErrorExitCode(kind) == Some(1) <==> kind == ClapErrors.UnknownArgument
    ensures ErrorExitCode(kind) == Some(0) <==> kind == ClapErrors.DisplayHelp
    ensures ErrorExitCode(kind).None? <==>
      kind in {ClapErrors.InvalidSubcommand, ClapErrors.NoEquals, ClapErrors.MissingSubcommand,
               ClapErrors.DisplayHelpOnMissingArgumentOrSubcommand, ClapErrors.DisplayVersion,
               ClapErrors.Format}
  {
  }

  /** The errors the App construction itself raises (see `Cli.BuildError`)
      all have an exit code: 2 for an include file that does not resolve,
      255 for missing or unreadable Lua input. */
  lemma BuildErrorExitCode(kind: ClapErrors.ErrorKind)
    requires kind in {ClapErrors.Io, ClapErrors.MissingRequiredArgument, ClapErrors.ValueValidation}
    ensures ErrorExitCode(kind) == Some(if kind == ClapErrors.Io then 2 else 255)
  {
  }

  /** Version mode runs the nginx binary with the single argument `-V`. */
  function VersionCommand(nginx: string): (c: CliArgs.Command)
    ensures c.program == nginx && c.args == ["-V"]
  {
    CliArgs.Command(nginx, ["-V"])
  }

  /** The command `main` hands to `run`: in version mode `nginx -V`;
      otherwise the App is given the prefix directory `root` (made, and
      the configuration written into it, outside this model) and turned
      into its command. */
  method Launch(app: Cli.App, root: string, split: string -> seq<string>, join: seq<string> -> string)
    returns (cmd: Option<CliArgs.Command>)
    modifies app
    ensures app.version ==> cmd == Some(VersionCommand(app.nginx)) && app.prefix == old(app.prefix)
    ensures !app.version ==>
      app.prefix == Some(root) && cmd == CliArgs.CommandFor(root, app.nginx, app.runner, split, join)
    ensures app.version == old(app.version) && app.nginx == old(app.nginx) && app.runner == old(app.runner)
  {
    if app.version {
      return Some(VersionCommand(app.nginx));
    }
    app.prefix := Some(root);
    cmd := app.IntoCommand(split, join);
  }
}
