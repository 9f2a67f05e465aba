/** Reading nameservers out of /etc/resolv.conf. The file is given as its
    lines, each either read (`Some(line)`) or a read error (`None`); the
    standard IP parser and its canonical rendering are parameters. */
module Util {
  import opened Wrappers
  import Text

  /** The lines read before the first read error. */
  function OkPrefix(items: seq<Option<string>>): (r: seq<string>)
    ensures |r| <= |items|
    ensures forall i | 0 <= i < |r| :: items[i] == Some(r[i])
    ensures |r| < |items| ==> items[|r|].None?
  {
    if items == [] || items[0].None? then [] else [items[0].value] + OkPrefix(items[1..])
  }

  /** The address a line names: exactly two words, the first `nameserver`. */
  function NameserverOf(line: string): Option<string> {
    var parts := Text.SplitWhitespace(Text.Trim(line));
    if |parts| == 2 && parts[0] == "nameserver" then Some(parts[1]) else None
  }

  /** What one line adds to the list. */
  function Contribution(line: string, isIp: string -> bool, show: string -> string): seq<string> {
    var ns := NameserverOf(line);
    if ns.Some? && isIp(ns.value) then [show(ns.value)] else []
  }

  /** The nameservers of a sequence of lines, in file order. */
  function Nameservers(lines: seq<string>, isIp: string -> bool, show: string -> string): seq<string> {
    if lines == [] then []
    else Nameservers(lines[..|lines| - 1], isIp, show) + Contribution(lines[|lines| - 1], isIp, show)
  }

  /** `try_parse_resolv_conf`: None when the file cannot be opened, and
      otherwise the nameservers of the lines read before the first error. */
  method TryParseResolvConf(file: Option<seq<Option<string>>>, isIp: string -> bool, show: string -> string)
    returns (r: Option<seq<string>>)
    ensures file.None? <==> r.None?
    ensures r.Some? ==> r.value == Nameservers(OkPrefix(file.value), isIp, show)
  {
    if file.None? {
      return None;
    }
    var items := file.value;
    ghost var ok := OkPrefix(items);
    var nameservers: seq<string> := [];
    var i := 0;
    while i < |items| && items[i].Some?
      invariant 0 <= i <= |ok|
      invariant ok[..i] == OkPrefix(items)[..i]
      invariant nameservers == Nameservers(ok[..i], isIp, show)
    {
      assert ok[..i + 1][..i] == ok[..i];
      var line := items[i].value;
      var parts := Text.SplitWhitespace(Text.Trim(line));
      if |parts| == 2 && parts[0] == "nameserver" {
        var s := parts[1];
        if isIp(s) {
          nameservers := nameservers + [show(s)];
        }
      }
      i := i + 1;
    }
    assert ok[..i] == ok;
    return Some(nameservers);
  }

  /** The pieces `f` gives for each element, concatenated in order. */
  function FlatMap<T>(xs: seq<T>, f: T -> seq<string>): seq<string> {
    if xs == [] then [] else FlatMap(xs[..|xs| - 1], f) + f(xs[|xs| - 1])
  }

  lemma {:induction false} FlatMapAppend<T>(a: seq<T>, b: seq<T>, f: T -> seq<string>)
    ensures FlatMap(a + b, f) == FlatMap(a, f) + FlatMap(b, f)
  {
    if b != [] {
      var ab := a + b;
      assert ab[..|ab| - 1] == a + b[..|b| - 1];
      assert ab[|ab| - 1] == b[|b| - 1];
      FlatMapAppend(a, b[..|b| - 1], f);
    } else {
      assert a + b == a;
    }
  }

  lemma {:induction false} FlatMapMember<T>(xs: seq<T>, f: T -> seq<string>, x: string)
    ensures x in FlatMap(xs, f) <==> exists k | 0 <= k < |xs| :: x in f(xs[k])
  {
    if xs != [] {
      var init := xs[..|xs| - 1];
      FlatMapMember(init, f, x);
      if x in FlatMap(init, f) {
        var k :| 0 <= k < |init| && x in f(init[k]);
        assert xs[k] == init[k];
      }
      if exists k | 0 <= k < |xs| :: x in f(xs[k]) {
        var k :| 0 <= k < |xs| && x in f(xs[k]);
        if k < |xs| - 1 {
          assert init[k] == xs[k];
        }
      }
    }
  }

  /** Splitting the nameservers of two stretches of the file. */
  lemma NameserversAppend(a: seq<string>, b: seq<string>, isIp: string -> bool, show: string -> string)
    ensures Nameservers(a + b, isIp, show) == Nameservers(a, isIp, show) + Nameservers(b, isIp, show)
  {
    var f := line => Contribution(line, isIp, show);
    FlatMapAppend(a, b, f);
    NameserversIsFlatMap(a, isIp, show);
    NameserversIsFlatMap(b, isIp, show);
    NameserversIsFlatMap(a + b, isIp, show);
  }

  /** Each listed nameserver comes from a line of the file that holds an
      accepted address, and every such line is listed. */
  lemma NameserversFromLines(lines: seq<string>, isIp: string -> bool, show: string -> string, x: string)
    ensures x in Nameservers(lines, isIp, show) <==>
      exists k | 0 <= k < |lines| :: Contribution(lines[k], isIp, show) == [x]
  {
    var f := line => Contribution(line, isIp, show);
    NameserversIsFlatMap(lines, isIp, show);
    FlatMapMember(lines, f, x);
    forall k | 0 <= k < |lines|
      ensures x in f(lines[k]) <==> Contribution(lines[k], isIp, show) == [x]
    {
    }
  }

  lemma {:induction false} NameserversIsFlatMap(lines: seq<string>, isIp: string -> bool, show: string -> string)
    ensures Nameservers(lines, isIp, show) == FlatMap(lines, line => Contribution(line, isIp, show))
  {
    if lines != [] {
      NameserversIsFlatMap(lines[..|lines| - 1], isIp, show);
    }
  }

  /** A string without surrounding whitespace is its own trim. */
  lemma TrimOfTrimmed(s: string)
    requires s == [] || (!Text.IsWhitespace(s[0]) && !Text.IsWhitespace(s[|s| - 1]))
    ensures Text.Trim(s) == s
  {
  }

  /** A line `nameserver ADDR` names ADDR, for any single word ADDR. */
  lemma NameserverLine(addr: string)
    requires addr != [] && Text.NoWhitespace(addr)
    ensures NameserverOf("nameserver " + addr) == Some(addr)
  {
    var tokens := ["nameserver", addr];
    assert Text.Join(tokens, " ") == "nameserver " + addr by {
      assert tokens[1..] == [addr];
    }
    assert Text.AreTokens(tokens) by {
      assert Text.NoWhitespace("nameserver");
    }
    Text.SplitWhitespaceOfJoin(tokens);
    var line := "nameserver " + addr;
    assert line[0] == 'n' && line[|line| - 1] == addr[|addr| - 1];
    TrimOfTrimmed(line);
  }
}
