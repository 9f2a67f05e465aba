/** Locating the nginx binary and reading the OpenResty compatibility level
    that the configuration template is rendered with. */
module Nginx {
  import opened Wrappers
  import Text
  import Decimal
  import Paths

  /** The level used when the variable is unset or unreadable. */
  const RestyCompatLatest: nat := 28
  const U64Max: nat := 0xFFFF_FFFF_FFFF_FFFF

  /** Which dot-separated piece of the value carries the level: the second
      of at most three pieces when there is a dot, else the whole value
      (after one leading `v` is dropped). */
  function CompatComponent(value: string): (c: string)
    ensures '.' !in c
  {
    var v := if value != [] && value[0] == 'v' then value[1..] else value;
    var items := Text.SplitN(v, 3, '.');
    if |items| > 1 then items[1] else items[0]
  }

  /** `get_resty_compat_version`, as a function of the variable's value. */
  function GetRestyCompatVersion(env: Option<string>): (r: nat)
    ensures env.None? ==> r == RestyCompatLatest
    ensures r <= U64Max
    ensures env.Some? ==>
      r == Decimal.ParseNat(CompatComponent(env.value), U64Max).GetOr(RestyCompatLatest)
  {
    match env
    case None => RestyCompatLatest
    case Some(value) => Decimal.ParseNat(CompatComponent(value), U64Max).GetOr(RestyCompatLatest)
  }

  lemma ShowNoDot(n: nat)
    ensures '.' !in Decimal.Show(n)
  {
    var b := Decimal.Show(n);
    assert forall i | 0 <= i < |b| :: Decimal.IsDigit(b[i]);
  }

  /** The first piece of `b` or `b.rest` is `b`, for `b` without a dot. */
  lemma {:induction false} FirstPiece(b: string, tail: string)
    requires '.' !in b
    requires tail == [] || tail[0] == '.'
    ensures Text.SplitN(b + tail, 2, '.')[0] == b
  {
    if tail == [] {
      assert b + tail == b;
      assert Text.Find(b, '.') == |b|;
    } else {
      Text.FindAfter(b, '.', tail[1..]);
      assert b + tail == b + ['.'] + tail[1..];
    }
  }

  /** The second of at most three pieces of `a.b` or `a.b.rest` is `b`. */
  lemma {:induction false} SecondPiece(a: string, b: string, tail: string)
    requires '.' !in a && '.' !in b
    requires tail == [] || tail[0] == '.'
    ensures var items := Text.SplitN(a + "." + b + tail, 3, '.'); |items| >= 2 && items[1] == b
  {
    var v := a + "." + b + tail;
    Text.FindAfter(a, '.', b + tail);
    assert v == a + ['.'] + (b + tail);
    assert v[|a| + 1..] == b + tail;
    FirstPiece(b, tail);
  }

  /** `A.N` (optionally `vA.N`, and optionally followed by `.` and more)
      gives level N: the second piece is read. */
  lemma CompatFromSecondPiece(pre: string, a: string, n: nat, tail: string)
    requires pre == "" || pre == "v"
    requires pre == "" ==> a == [] || a[0] != 'v'
    requires '.' !in a
    requires tail == [] || tail[0] == '.'
    requires n <= U64Max
    ensures GetRestyCompatVersion(Some(pre + a + "." + Decimal.Show(n) + tail)) == n
  {
    var b := Decimal.Show(n);
    var s := pre + a + "." + b + tail;
    var v := a + "." + b + tail;
    assert s == pre + v;
    if pre == "v" {
      assert s[0] == 'v' && s[1..] == v;
    } else {
      assert s == v;
    }
    ShowNoDot(n);
    SecondPiece(a, b, tail);
    assert CompatComponent(s) == b;
    Decimal.ParseNatOfShow(n, U64Max);
  }

  /** A value without a dot is read whole; `v28` and `28` both give 28. */
  lemma CompatWhole(pre: string, n: nat)
    requires pre == "" || pre == "v"
    requires n <= U64Max
    ensures GetRestyCompatVersion(Some(pre + Decimal.Show(n))) == n
  {
    var s := pre + Decimal.Show(n);
    var b := Decimal.Show(n);
    ShowNoDot(n);
    if pre == "v" {
      assert s[0] == 'v' && s[1..] == b;
    } else {
      assert s == b;
      assert b[0] != 'v' by { assert Decimal.IsDigit(b[0]); }
    }
    assert Text.Find(b, '.') == |b|;
    assert Text.SplitN(b, 3, '.') == [b];
    Decimal.ParseNatOfShow(n, U64Max);
  }

  /** A selected piece that is not a number in range falls back to 28. */
  lemma CompatFallback(value: string)
    requires Decimal.ParseNat(CompatComponent(value), U64Max).None?
    ensures GetRestyCompatVersion(Some(value)) == RestyCompatLatest
  {
  }

  /** The places looked at, in order, when no binary is given. */
  function NginxCandidates(exeParent: Option<string>): (c: seq<string>)
    ensures |c| == 2
  {
    var parent := exeParent.GetOr("/");
    [Paths.Join(parent, "nginx/sbin/nginx"), Paths.Join(parent, "nginx")]
  }

  /** `find_nginx_bin`: a given path as it is; otherwise the first candidate
      that is a file, else plain `nginx` for a search of `PATH`. The
      directory of the running executable and the file test are parameters. */
  function FindNginxBin(nginx: Option<string>, exeParent: Option<string>, isFile: string -> bool): (r: string)
    ensures nginx.Some? ==> r == nginx.value
    ensures nginx.None? ==>
      var c := NginxCandidates(exeParent);
      (r == "nginx" && !isFile(c[0]) && !isFile(c[1])) ||
      (exists k | 0 <= k < |c| :: r == c[k] && isFile(r) && forall j | 0 <= j < k :: !isFile(c[j]))
  {
    if nginx.Some? then nginx.value
    else
      var c := NginxCandidates(exeParent);
      if isFile(c[0]) then c[0]
      else if isFile(c[1]) then c[1]
      else "nginx"
  }

  /** A candidate path ends in `nginx`. */
  lemma CandidateEndsWithNginx(parent: string, rel: string)
    requires rel == "nginx/sbin/nginx" || rel == "nginx"
    ensures Text.EndsWith(Paths.Join(parent, rel), "nginx")
  {
    assert rel[0] == 'n' && Text.EndsWith(rel, "nginx");
    JoinKeepsSuffix(parent, rel, "nginx");
  }

  /** Joining a relative path onto a directory keeps the path's suffixes. */
  lemma JoinKeepsSuffix(parent: string, rel: string, suffix: string)
    requires !Paths.IsAbsolute(rel) && Text.EndsWith(rel, suffix)
    ensures Text.EndsWith(Paths.Join(parent, rel), suffix)
  {
    var r := Paths.Join(parent, rel);
    assert r[|r| - |rel|..] == rel;
    assert r[|r| - |suffix|..] == rel[|rel| - |suffix|..];
  }

  /** Without a given path the result always names a file called `nginx`. */
  lemma FindNginxBinName(exeParent: Option<string>, isFile: string -> bool)
    ensures Text.EndsWith(FindNginxBin(None, exeParent, isFile), "nginx")
  {
    var parent := exeParent.GetOr("/");
    CandidateEndsWithNginx(parent, "nginx/sbin/nginx");
    CandidateEndsWithNginx(parent, "nginx");
  }
}
