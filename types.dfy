/** Small value types shared by the command line and the loader: bracketed
    IP addresses, nginx log levels, LuaJIT commands and values tagged with
    their command-line position. */
module Types {
  import opened Wrappers

  /** Drops one `[` at the front and one `]` at the back, only when both
      are there. */
  function TrimBrackets(s: string): (r: string)
    ensures |s| >= 2 && s[0] == '[' && s[|s| - 1] == ']' ==> "[" + r + "]" == s
    ensures !(|s| >= 2 && s[0] == '[' && s[|s| - 1] == ']') ==> r == s
  {
    if |s| >= 2 && s[0] == '[' && s[|s| - 1] == ']' then s[1..|s| - 1] else s
  }

  /** An IP address kept as the text it was written in. */
  datatype IpAddr = IpAddr(text: string)

  function IpAddrDisplay(a: IpAddr): string {
    a.text
  }

  /** Parsing accepts the text when the standard IP parser (`isIp`) accepts
      it with its brackets removed, and keeps the text as written. */
  function IpAddrFromStr(s: string, isIp: string -> bool): (r: Option<IpAddr>)
    ensures r.Some? <==> isIp(TrimBrackets(s))
    ensures r.Some? ==> IpAddrDisplay(r.value) == s
  {
    if isIp(TrimBrackets(s)) then Some(IpAddr(s)) else None
  }

  /** A bracketed address is checked without its brackets but shown with them. */
  lemma IpAddrKeepsBrackets(inner: string, isIp: string -> bool)
    requires isIp(inner)
    ensures IpAddrFromStr("[" + inner + "]", isIp) == Some(IpAddr("[" + inner + "]"))
  {
    var s := "[" + inner + "]";
    assert s[1..|s| - 1] == inner;
  }

  /** nginx's `error_log` levels, in increasing severity. */
  datatype LogLevel = Debug | Info | Notice | Warn | Error | Crit | Alert | Emerg

  function DefaultLogLevel(): (l: LogLevel)
    ensures l == Warn
  {
    Warn
  }

  /** The lower-case name a level is shown and parsed as. */
  function LogLevelName(l: LogLevel): string {
    match l
    case Debug => "debug"
    case Info => "info"
    case Notice => "notice"
    case Warn => "warn"
    case Error => "error"
    case Crit => "crit"
    case Alert => "alert"
    case Emerg => "emerg"
  }

  function LogLevelFromName(s: string): (r: Option<LogLevel>)
    ensures r.Some? ==> LogLevelName(r.value) == s
  {
    if s == "debug" then Some(Debug)
    else if s == "info" then Some(Info)
    else if s == "notice" then Some(Notice)
    else if s == "warn" then Some(Warn)
    else if s == "error" then Some(Error)
    else if s == "crit" then Some(Crit)
    else if s == "alert" then Some(Alert)
    else if s == "emerg" then Some(Emerg)
    else None
  }

  /** Every level's name parses back to that level. */
  lemma LogLevelRoundTrip(l: LogLevel)
    ensures LogLevelFromName(LogLevelName(l)) == Some(l)
  {
  }

  /** The `-j` commands. */
  datatype JitCmd = V | Dump | Off

  /** The Lua statement each `-j` command stands for. */
  function JitToLua(j: JitCmd): (r: string)
    ensures j == V <==> r == "require \"jit.v\".on()"
    ensures j == Dump <==> r == "require \"jit.dump\".on()"
    ensures j == Off <==> r == "require \"jit\".off()"
  {
    match j
    case V => "require \"jit.v\".on()"
    case Dump => "require \"jit.dump\".on()"
    case Off => "require \"jit\".off()"
  }

  /** A `-e` or `-l` value together with its position on the command line. */
  datatype ValueWithIndex = ValueWithIndex(value: string, index: nat)

  /** The total order: by position only. */
  function CmpIndexed(a: ValueWithIndex, b: ValueWithIndex): (o: Ordering)
    ensures o == Less <==> a.index < b.index
    ensures o == Equal <==> a.index == b.index
    ensures o == Greater <==> a.index > b.index
  {
    CompareInt(a.index, b.index)
  }

  function PartialCmpIndexed(a: ValueWithIndex, b: ValueWithIndex): (r: Option<Ordering>)
    ensures r == Some(CmpIndexed(a, b))
  {
    Some(CompareInt(a.index, b.index))
  }

  /** Two entries at the same position compare equal whatever their values,
      and the comparison is antisymmetric. */
  lemma CmpIndexedIgnoresValue(a: ValueWithIndex, b: ValueWithIndex)
    ensures a.index == b.index ==> CmpIndexed(a, b) == Equal
    ensures CmpIndexed(b, a) == CmpIndexed(a, b).Reverse()
  {
  }

  function FromIndexed(index: nat, value: string): (v: ValueWithIndex)
    ensures v.index == index && v.value == value
  {
    ValueWithIndex(value, index)
  }

  function IndexedToString(v: ValueWithIndex): string {
    v.value
  }

  /** Tagging a value and converting it back gives the value. */
  lemma IndexedRoundTrip(index: nat, value: string)
    ensures IndexedToString(FromIndexed(index, value)) == value
  {
  }
}
