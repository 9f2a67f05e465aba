/** The resty-cli compatibility version (`src/compat_version.rs`): a pair of
    16-bit numbers written `v{maj}.{min}`, parsed by a small digit scanner with
    checked arithmetic and a five-digit cap, and ordered lexicographically.

    The Rust parser works on the UTF-8 bytes of a `str`. The model works on
    its characters: every byte of a non-ASCII character is at least 0x80, so
    it is neither a digit, nor `.`, nor `v`, and the digit runs the scanner
    measures are ASCII, so byte positions and character positions agree up to
    the first non-ASCII character, where both parsers give up. */
module CompatVersion {
  import opened Wrappers
  import opened Decimal
  import Text

  const U16Max: nat := 65535

  /** Rust's `u16`. */
  type U16 = n: nat | n <= U16Max

  /** The most base-10 digits a `u16` can need (65535). */
  const MaxLen: nat := 5

  datatype Version = Version(maj: U16, min: U16)

  /** `From<(u16, u16)> for Version`. */
  function FromTuple(t: (U16, U16)): (v: Version)
    ensures v.maj == t.0 && v.min == t.1
  {
    Version(t.0, t.1)
  }

  /** `From<Version> for (u16, u16)`: the inverse of `FromTuple`. */
  function ToTuple(v: Version): (t: (U16, U16))
    ensures FromTuple(t) == v
  {
    (v.maj, v.min)
  }

  lemma ToTupleOfFromTuple(t: (U16, U16))
    ensures ToTuple(FromTuple(t)) == t
  {
  }

  /** `Display for Version`. */
  function Display(v: Version): string {
    "v" + Show(v.maj) + "." + Show(v.min)
  }

  // ---------------------------------------------------------------------
  // The scanner

  /** Number of leading digits of `s`. */
  function DigitRun(s: string): (n: nat)
    ensures n <= |s|
  {
    if s != [] && IsDigit(s[0]) then 1 + DigitRun(s[1..]) else 0
  }

  /** `k` leading digits followed by the end or by a non-digit are the whole run. */
  lemma {:induction false} DigitRunIs(s: string, k: nat)
    requires k <= |s| && AllDigits(s[..k]) && (k == |s| || !IsDigit(s[k]))
    ensures DigitRun(s) == k
  {
    if k > 0 {
      assert s[1..][..k - 1] == s[..k][1..];
      DigitRunIs(s[1..], k - 1);
    }
  }

  /** `k` leading digits make the run at least `k` long. */
  lemma {:induction false} DigitRunAtLeast(s: string, k: nat)
    requires k <= |s| && AllDigits(s[..k])
    ensures DigitRun(s) >= k
  {
    if k > 0 {
      assert s[1..][..k - 1] == s[..k][1..];
      DigitRunAtLeast(s[1..], k - 1);
    }
  }

  lemma {:induction false} DigitRunDigits(s: string)
    ensures AllDigits(s[..DigitRun(s)])
  {
    if s != [] && IsDigit(s[0]) {
      DigitRunDigits(s[1..]);
      assert s[..DigitRun(s)] == [s[0]] + s[1..][..DigitRun(s[1..])];
    }
  }

  /** What `find_digits` returns: `(len, next)` where `len` counts the leading
      digits and `next` is where the scan stopped (one past a `.`), or None
      when another character comes first. A run longer than `MaxLen` stops
      the scan after `MaxLen + 1` digits. */
  function FindDigitsSpec(src: string): (r: Option<(nat, nat)>)
    ensures r.Some? ==> r.value.0 <= r.value.1 <= |src| && r.value.0 <= MaxLen + 1
    ensures r.Some? ==> AllDigits(src[..r.value.0])
  {
    var p := DigitRun(src);
    DigitRunDigits(src);
    if p > MaxLen then
      assert src[..MaxLen + 1] == src[..p][..MaxLen + 1];
      Some((MaxLen + 1, MaxLen + 1))
    else if p == |src| then Some((p, p))
    else if src[p] == '.' then Some((p, p + 1))
    else None
  }

  /** `find_digits`. */
  method FindDigits(src: string) returns (r: Option<(nat, nat)>)
    ensures r == FindDigitsSpec(src)
  {
    var index := 0;
    var len := 0;
    // The source's `index > MAX_LEN` test inside the loop can never hold,
    // because the loop condition already bounds `index`.
    while index < |src| && index <= MaxLen
      invariant index <= |src| && index <= MaxLen + 1
      invariant len == index
      invariant AllDigits(src[..index])
    {
      var b := src[index];
      if IsDigit(b) {
        len := len + 1;
      } else if b == '.' {
        DigitRunIs(src, index);
        return Some((len, index + 1));
      } else {
        DigitRunIs(src, index);
        return None;
      }
      index := index + 1;
      assert src[..index] == src[..index - 1] + [b];
    }
    if index == |src| && index <= MaxLen {
      DigitRunIs(src, index);
    } else {
      DigitRunAtLeast(src, index);
    }
    return Some((len, index));
  }

  /** What `extract` returns: the value of the first `len` digits when there
      are one to `MaxLen` of them and the value fits a `u16`. */
  function ExtractSpec(src: string, len: nat): (r: Option<U16>)
    requires len <= |src| && AllDigits(src[..len])
  {
    if len == 0 || len > MaxLen then None
    else if Value(src[..len]) <= U16Max then Some(Value(src[..len]))
    else None
  }

  /** `extract`: reads the digits from the last one back, with the source's
      checked multiplication and addition on `u16`. */
  method Extract(src: string, len: nat) returns (r: Option<U16>)
    requires len <= |src| && AllDigits(src[..len])
    ensures r == ExtractSpec(src, len)
  {
    if len == 0 || len > MaxLen {
      return None;
    }
    ghost var s := src[..len];
    var end := len - 1;
    var factor: U16 := 1;
    var dst: U16 := 0;
    while true
      invariant 0 <= end < len
      invariant factor == Pow10(len - 1 - end)
      invariant dst == Value(s[end + 1..])
      decreases end
    {
      assert src[end] == s[end];
      var digit := DigitValue(src[end]);
      ExtractStep(s, end);
      // `digit.checked_mul(factor)`
      var product := digit * factor;
      if product > U16Max {
        return None;
      }
      ProductOfNats(digit, factor);
      var value: U16 := product;
      // `dst.checked_add(value)`
      if dst + value > U16Max {
        return None;
      }
      dst := dst + value;
      if end == 0 {
        assert s[0..] == s;
        return Some(dst);
      }
      end := end - 1;
      factor := factor * 10;
    }
  }

  /** One digit of `extract`'s backward scan over the digits `s`: the value
      from `end` on is this digit at its place plus the value after it, a
      step that overflows means the whole value does not fit, and the next
      place's factor fits a `u16`. */
  lemma ExtractStep(s: string, end: nat)
    requires AllDigits(s) && end < |s| <= MaxLen
    ensures Value(s[end..]) == DigitValue(s[end]) * Pow10(|s| - 1 - end) + Value(s[end + 1..])
    ensures Value(s[end..]) <= Value(s)
    ensures end > 0 ==> Pow10(|s| - 1 - end) * 10 == Pow10(|s| - end) <= U16Max
  {
    ValueCons(s[end..]);
    assert s[end..][1..] == s[end + 1..];
    ValueSuffixLe(s, end);
    if end > 0 {
      // At most four digits lie behind `end - 1`, so the next factor is at
      // most 10^4.
      Pow10Mono(|s| - end, 4);
      assert Pow10(4) == 10000;
    }
  }

  // ---------------------------------------------------------------------
  // The parser

  /** A single leading `v` is dropped. */
  function StripV(s: string): (r: string)
    ensures (s != [] && s[0] == 'v') ==> r == s[1..]
    ensures (s == [] || s[0] != 'v') ==> r == s
  {
    if s != [] && s[0] == 'v' then s[1..] else s
  }

  /** The minor component: the scanned digits must be non-empty and fit. */
  function ParseMinor(rest: string): Option<U16> {
    match FindDigitsSpec(rest)
    case None => None
    case Some((len, _)) => ExtractSpec(rest, len)
  }

  /** What `from_bytes` (and `from_str`, which hands it the bytes) returns. */
  function Parse(s: string): Option<Version> {
    var value := StripV(s);
    if value == [] then None
    else
      match FindDigitsSpec(value)
      case None => None
      case Some((len, next)) =>
        var maj := if len == 0 then Some(0) else ExtractSpec(value, len);
        if maj.None? then None
        else
          var rest := value[next..];
          if rest == [] then Some(Version(maj.value, 0))
          else
            match ParseMinor(rest)
            case None => None
            case Some(min) => Some(Version(maj.value, min))
  }

  /** `Version::from_bytes`. */
  method FromBytes(s: string) returns (r: Option<Version>)
    ensures r == Parse(s)
  {
    var value := if s != [] && s[0] == 'v' then s[1..] else s;
    if value == [] {
      return None;
    }
    var found := FindDigits(value);
    if found.None? {
      return None;
    }
    var (len, next) := found.value;
    var maj: U16 := 0;
    if len != 0 {
      var m := Extract(value, len);
      if m.None? {
        return None;
      }
      maj := m.value;
    }
    var rest := value[next..];
    if rest == [] {
      return Some(Version(maj, 0));
    }
    var found2 := FindDigits(rest);
    if found2.None? {
      return None;
    }
    var min := Extract(rest, found2.value.0);
    if min.None? {
      return None;
    }
    return Some(Version(maj, min.value));
  }

  /** `Version::from_env`, given the variable's value (None when unset): an
      unset or blank value gives None; otherwise the trimmed value is parsed,
      and a failure carries the value as it was, untrimmed. */
  method FromEnv(env: Option<string>) returns (r: Option<Result<Version, string>>)
    ensures r.None? <==> (env.None? || Text.Trim(env.value) == [])
    ensures r.Some? && r.value.Ok? ==> Parse(Text.Trim(env.value)) == Some(r.value.value)
    ensures r.Some? && r.value.Err? ==> Parse(Text.Trim(env.value)) == None && r.value.error == env.value
  {
    if env.None? {
      return None;
    }
    var value := Text.Trim(env.value);
    if value == [] {
      return None;
    }
    var v := FromBytes(value);
    if v.None? {
      return Some(Err(env.value));
    }
    return Some(Ok(v.value));
  }

  // ---------------------------------------------------------------------
  // What the parser accepts

  /** A component of one to `MaxLen` digits whose value fits a `u16`. */
  predicate Fits(a: string) {
    AllDigits(a) && 1 <= |a| <= MaxLen && Value(a) <= U16Max
  }

  /** Scanning digits that stop at the end or at a `.`. */
  lemma ScanDigits(a: string, tail: string)
    requires AllDigits(a) && (tail == [] || tail[0] == '.')
    ensures |a| <= MaxLen ==> FindDigitsSpec(a + tail) == Some((|a|, if tail == [] then |a| else |a| + 1))
    ensures |a| <= MaxLen ==> (a + tail)[..|a|] == a
    ensures |a| > MaxLen ==> FindDigitsSpec(a + tail) == Some((MaxLen + 1, MaxLen + 1))
  {
    var s := a + tail;
    assert s[..|a|] == a;
    if |a| <= MaxLen {
      DigitRunIs(s, |a|);
    } else {
      assert s[..MaxLen + 1] == a[..MaxLen + 1];
      DigitRunAtLeast(s, MaxLen + 1);
    }
  }

  /** A component that scans successfully is extracted exactly when it fits. */
  lemma ExtractFits(a: string, tail: string)
    requires AllDigits(a) && a != [] && (tail == [] || tail[0] == '.')
    ensures ParseMinor(a + tail) == if Fits(a) then Some(Value(a)) else None
  {
    ScanDigits(a, tail);
  }

  /** A major number with nothing after it, or a major number and a dot:
      `"N"` and `"N."` both give `Version(N, 0)`, when N fits. */
  lemma ParseMajorOnly(a: string, dot: string)
    requires AllDigits(a) && a != [] && (dot == [] || dot == ".")
    ensures Parse(a + dot) == if Fits(a) then Some(Version(Value(a), 0)) else None
  {
    ScanDigits(a, dot);
    assert StripV(a + dot) == a + dot;
    if |a| <= MaxLen {
      assert (a + dot)[(if dot == [] then |a| else |a| + 1)..] == [];
    }
  }

  /** The general shape `A.B…`: a major of zero or more digits, a dot, a
      minor of one or more digits and then nothing or another dot (whatever
      follows a second dot is ignored). An empty major is 0. */
  lemma ParseMajorMinor(a: string, b: string, tail: string)
    requires AllDigits(a) && AllDigits(b) && b != [] && (tail == [] || tail[0] == '.')
    ensures Parse(a + "." + b + tail) ==
      if (a == [] || Fits(a)) && Fits(b) then Some(Version(if a == [] then 0 else Value(a), Value(b)))
      else None
  {
    var s := a + "." + b + tail;
    assert s == a + ("." + b + tail);
    ScanDigits(a, "." + b + tail);
    if |a| <= MaxLen {
      assert s[|a| + 1..] == b + tail;
      ExtractFits(b, tail);
      MajorThenMinor(s, a, b + tail);
    } else {
      MajorTooLong(s);
    }
  }

  /** A major run longer than `MaxLen` digits fails the parse. */
  lemma MajorTooLong(s: string)
    requires s != [] && s[0] != 'v' && FindDigitsSpec(s) == Some((MaxLen + 1, MaxLen + 1))
    ensures Parse(s) == None
  {
  }

  /** Once the major scan stopped at a dot, the parse depends only on the
      major digits and the minor text. */
  lemma MajorThenMinor(s: string, a: string, rest: string)
    requires AllDigits(a) && |a| <= MaxLen && rest != []
    requires s != [] && s[0] != 'v' && FindDigitsSpec(s) == Some((|a|, |a| + 1))
    requires s[..|a|] == a && s[|a| + 1..] == rest
    ensures Parse(s) ==
      if (a == [] || Fits(a)) && ParseMinor(rest).Some?
      then Some(Version(if a == [] then 0 else Value(a), ParseMinor(rest).value))
      else None
  {
  }

  /** A character that is neither a digit nor `.` inside the major number,
      or inside the minor number, makes the parse fail. */
  lemma ParseBadChar(a: string, c: char, t: string)
    requires AllDigits(a) && |a| <= MaxLen && !IsDigit(c) && c != '.' && (a != [] || c != 'v')
    ensures Parse(a + [c] + t) == None
  {
    var s := a + [c] + t;
    assert s[..|a|] == a;
    DigitRunIs(s, |a|);
  }

  lemma ParseBadMinorChar(a: string, b: string, c: char, t: string)
    requires AllDigits(a) && AllDigits(b) && |b| <= MaxLen && !IsDigit(c) && c != '.'
    ensures Parse(a + "." + b + [c] + t) == None
  {
    var s := a + "." + b + [c] + t;
    assert s == a + ("." + b + [c] + t);
    assert StripV(s) == s;
    ScanDigits(a, "." + b + [c] + t);
    if |a| <= MaxLen {
      var rest := b + [c] + t;
      assert s[|a| + 1..] == rest;
      assert rest[..|b|] == b;
      DigitRunIs(rest, |b|);
    }
  }

  /** One leading `v` is dropped, a second one is not. */
  lemma ParseStripsV(s: string)
    ensures (s == [] || s[0] != 'v') ==> Parse("v" + s) == Parse(s)
    ensures Parse("") == None && Parse("v") == None
    ensures Parse("vv" + s) == None
  {
    assert ("v" + s)[1..] == s;
    assert ("vv" + s)[1..] == "v" + s;
    assert DigitRun("v" + s) == 0;
  }

  /** Parsing the rendering of a version gives the version back. */
  lemma ParseDisplay(v: Version)
    ensures Parse(Display(v)) == Some(v)
  {
    var a := Show(v.maj);
    var b := Show(v.min);
    ValueOfShow(v.maj);
    ValueOfShow(v.min);
    ShowLength(v.maj, MaxLen);
    ShowLength(v.min, MaxLen);
    assert Display(v) == "v" + (a + "." + b + "");
    ParseMajorMinor(a, b, "");
    assert IsDigit(a[0]);
    ParseStripsV(a + "." + b + "");
  }

  // ---------------------------------------------------------------------
  // Ordering

  /** `Ord for Version`: by major number, then by minor number. */
  function Cmp(a: Version, b: Version): Ordering {
    match CompareInt(a.maj, b.maj)
    case Equal => CompareInt(a.min, b.min)
    case o => o
  }

  /** `PartialOrd for Version`: always defined. */
  function PartialCmp(a: Version, b: Version): (r: Option<Ordering>)
    ensures r.Some?
  {
    Some(Cmp(a, b))
  }

  /** `a < b`, the way `PartialOrd` derives it. */
  predicate Lt(a: Version, b: Version) {
    PartialCmp(a, b) == Some(Less)
  }

  /** The order is lexicographic on (maj, min), and `partial_cmp` agrees with it. */
  lemma CmpLexicographic(a: Version, b: Version)
    ensures Cmp(a, b) == Less <==> (a.maj < b.maj || (a.maj == b.maj && a.min < b.min))
    ensures Cmp(a, b) == Equal <==> a == b
    ensures Cmp(a, b) == Greater <==> (a.maj > b.maj || (a.maj == b.maj && a.min > b.min))
    ensures Lt(a, b) <==> (a.maj < b.maj || (a.maj == b.maj && a.min < b.min))
  {
  }

  /** Swapping the operands reverses the outcome. */
  lemma CmpAntisymmetric(a: Version, b: Version)
    ensures Cmp(b, a) == Cmp(a, b).Reverse()
  {
  }

  lemma CmpTransitive(a: Version, b: Version, c: Version)
    requires Cmp(a, b) == Less && Cmp(b, c) == Less
    ensures Cmp(a, c) == Less
  {
  }
}
