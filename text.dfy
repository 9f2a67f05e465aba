/** The pieces of Rust's `str` API that the modelled code relies on: trimming,
    splitting, joining, repetition and prefix tests, over `string` (a sequence
    of Unicode scalar values, as a Rust `str` is). */
module Text {

  /** Rust's `char::is_whitespace`: the Unicode White_Space property. */
  predicate IsWhitespace(c: char) {
    ('\t' <= c <= '\r') || c == ' ' || c == '\U{85}' || c == '\U{A0}' || c == '\U{1680}'
    || ('\U{2000}' <= c <= '\U{200A}') || c == '\U{2028}' || c == '\U{2029}'
    || c == '\U{202F}' || c == '\U{205F}' || c == '\U{3000}'
  }

  predicate NoWhitespace(s: string) {
    forall i | 0 <= i < |s| :: !IsWhitespace(s[i])
  }

  predicate StartsWith(s: string, prefix: string) {
    |prefix| <= |s| && s[..|prefix|] == prefix
  }

  predicate EndsWith(s: string, suffix: string) {
    |suffix| <= |s| && s[|s| - |suffix|..] == suffix
  }

  /** `str::trim_start`. */
  function TrimStart(s: string): (r: string)
    ensures |r| <= |s| && r == s[|s| - |r|..]
    ensures r == [] || !IsWhitespace(r[0])
    ensures forall i | 0 <= i < |s| - |r| :: IsWhitespace(s[i])
  {
    if s != [] && IsWhitespace(s[0]) then TrimStart(s[1..]) else s
  }

  /** `str::trim_end`. */
  function TrimEnd(s: string): (r: string)
    ensures |r| <= |s| && r == s[..|r|]
    ensures r == [] || !IsWhitespace(r[|r| - 1])
    ensures forall i | |r| <= i < |s| :: IsWhitespace(s[i])
  {
    if s != [] && IsWhitespace(s[|s| - 1]) then TrimEnd(s[..|s| - 1]) else s
  }

  /** `str::trim`: both ends. */
  function Trim(s: string): (r: string)
    ensures r == [] || (!IsWhitespace(r[0]) && !IsWhitespace(r[|r| - 1]))
  {
    TrimEnd(TrimStart(s))
  }

  /** `str::trim_start_matches(c)`: every leading `c` removed. */
  function TrimStartMatches(s: string, c: char): (r: string)
    ensures |r| <= |s| && r == s[|s| - |r|..]
    ensures r == [] || r[0] != c
    ensures forall i | 0 <= i < |s| - |r| :: s[i] == c
  {
    if s != [] && s[0] == c then TrimStartMatches(s[1..], c) else s
  }

  /** `str::trim_end_matches(c)`: every trailing `c` removed. */
  function TrimEndMatches(s: string, c: char): (r: string)
    ensures |r| <= |s| && r == s[..|r|]
    ensures r == [] || r[|r| - 1] != c
    ensures forall i | |r| <= i < |s| :: s[i] == c
  {
    if s != [] && s[|s| - 1] == c then TrimEndMatches(s[..|s| - 1], c) else s
  }

  /** `c.to_string().repeat(n)`. */
  function Repeat(c: char, n: nat): (r: string)
    ensures |r| == n
    ensures forall i | 0 <= i < n :: r[i] == c
  {
    if n == 0 then "" else [c] + Repeat(c, n - 1)
  }

  /** `parts.join(sep)`. */
  function Join(parts: seq<string>, sep: string): string {
    if |parts| == 0 then ""
    else if |parts| == 1 then parts[0]
    else parts[0] + sep + Join(parts[1..], sep)
  }

  /** Joining one more part at the end adds the separator and the part. */
  lemma {:induction false} JoinSnoc(parts: seq<string>, x: string, sep: string)
    requires parts != []
    ensures Join(parts + [x], sep) == Join(parts, sep) + sep + x
  {
    if |parts| == 1 {
      assert parts + [x] == [parts[0], x];
      assert [parts[0], x][1..] == [x];
    } else {
      assert (parts + [x])[1..] == parts[1..] + [x];
      JoinSnoc(parts[1..], x, sep);
    }
  }

  /** Index of the first `c` in `s`, or `|s|` when there is none. */
  function Find(s: string, c: char): (r: nat)
    ensures r <= |s|
    ensures r < |s| ==> s[r] == c
    ensures forall i | 0 <= i < r :: s[i] != c
  {
    if s == [] then 0 else if s[0] == c then 0 else 1 + Find(s[1..], c)
  }

  /** The first `c` after a stretch without one is found right there. */
  lemma {:induction false} FindAfter(a: string, c: char, rest: string)
    requires c !in a
    ensures Find(a + [c] + rest, c) == |a|
  {
    var s := a + [c] + rest;
    if a != [] {
      assert s[1..] == a[1..] + [c] + rest;
      FindAfter(a[1..], c, rest);
    }
  }

  /** `str::split(c)`: the pieces between occurrences of `c`; at least one. */
  function Split(s: string, c: char): (r: seq<string>)
    ensures |r| >= 1
    ensures forall i | 0 <= i < |r| :: c !in r[i]
    decreases |s|
  {
    var i := Find(s, c);
    if i == |s| then [s] else [s[..i]] + Split(s[i + 1..], c)
  }

  /** Pieces without `c`, joined by `c`, split back into those pieces. */
  lemma {:induction false} SplitOfJoin(parts: seq<string>, c: char)
    requires parts != []
    requires forall i | 0 <= i < |parts| :: c !in parts[i]
    ensures Split(Join(parts, [c]), c) == parts
  {
    if |parts| == 1 {
      assert Find(parts[0], c) == |parts[0]|;
    } else {
      SplitCons(parts[0], c, Join(parts[1..], [c]));
      SplitOfJoin(parts[1..], c);
      assert parts == [parts[0]] + parts[1..];
    }
  }

  /** A piece without `c`, then `c`, splits into that piece first. */
  lemma SplitCons(a: string, c: char, rest: string)
    requires c !in a
    ensures Split(a + [c] + rest, c) == [a] + Split(rest, c)
  {
    var s := a + [c] + rest;
    FindAfter(a, c, rest);
    assert s[..|a|] == a;
    assert s[|a| + 1..] == rest;
  }

  /** `str::splitn(n, c)`: at most `n` pieces, the last holding the rest. */
  function SplitN(s: string, n: nat, c: char): (r: seq<string>)
    requires n >= 1
    ensures 1 <= |r| <= n
    decreases n
  {
    var i := Find(s, c);
    if n == 1 || i == |s| then [s] else [s[..i]] + SplitN(s[i + 1..], n - 1, c)
  }

  /** Length of the longest prefix of `s` without whitespace. */
  function WordLength(s: string): (n: nat)
    ensures n <= |s|
    ensures forall i | 0 <= i < n :: !IsWhitespace(s[i])
    ensures n < |s| ==> IsWhitespace(s[n])
  {
    if s == [] || IsWhitespace(s[0]) then 0 else 1 + WordLength(s[1..])
  }

  /** `str::split_whitespace`: the maximal non-empty runs without whitespace. */
  function SplitWhitespace(s: string): (r: seq<string>)
    ensures forall i | 0 <= i < |r| :: r[i] != [] && NoWhitespace(r[i])
    decreases |s|
  {
    var t := TrimStart(s);
    if t == [] then []
    else
      var n := WordLength(t);
      var word, rest := t[..n], SplitWhitespace(t[n..]);
      assert word != [] && NoWhitespace(word) by {
        assert word[0] == t[0];
      }
      WordsCons(word, rest);
      [word] + rest
  }

  /** A non-empty word without whitespace in front of such words. */
  lemma WordsCons(word: string, rest: seq<string>)
    requires word != [] && NoWhitespace(word)
    requires forall i | 0 <= i < |rest| :: rest[i] != [] && NoWhitespace(rest[i])
    ensures var r := [word] + rest; forall i | 0 <= i < |r| :: r[i] != [] && NoWhitespace(r[i])
  {
    var r := [word] + rest;
    forall i | 0 <= i < |r|
      ensures r[i] != [] && NoWhitespace(r[i])
    {
      if i > 0 {
        assert r[i] == rest[i - 1];
      }
    }
  }

  /** Tokens without whitespace, joined by single spaces, split back into
      exactly those tokens. */
  lemma {:induction false} SplitWhitespaceOfJoin(tokens: seq<string>)
    requires AreTokens(tokens)
    ensures SplitWhitespace(Join(tokens, " ")) == tokens
  {
    if |tokens| == 1 {
      TokensTail(tokens);
      SingleWord(tokens[0]);
    } else if |tokens| > 1 {
      TokensTail(tokens);
      var t, more := tokens[0], tokens[1..];
      assert tokens == [t] + more;
      SplitWhitespaceOfJoin(more);
      JoinedWordsStep(t, more);
    }
  }

  /** One more word in front of joined words that split back. */
  lemma JoinedWordsStep(t: string, more: seq<string>)
    requires t != [] && NoWhitespace(t) && more != []
    requires SplitWhitespace(Join(more, " ")) == more
    ensures SplitWhitespace(Join([t] + more, " ")) == [t] + more
  {
    var rest := Join(more, " ");
    assert ([t] + more)[1..] == more;
    assert Join([t] + more, " ") == t + (" " + rest);
    WordThenSpace(t, rest);
  }

  /** A single word splits into itself. */
  lemma SingleWord(t: string)
    requires t != [] && NoWhitespace(t)
    ensures SplitWhitespace(t) == [t]
  {
    WordOfToken(t, "");
    assert t + "" == t;
    FirstWord(t, "");
    assert SplitWhitespace("") == [];
  }

  /** A word, a space and the rest split into the word and the rest's split. */
  lemma WordThenSpace(t: string, rest: string)
    requires t != [] && NoWhitespace(t)
    ensures SplitWhitespace(t + (" " + rest)) == [t] + SplitWhitespace(rest)
  {
    WordOfToken(t, " " + rest);
    FirstWord(t, " " + rest);
    SkipSpace(rest);
  }

  /** Non-empty strings without whitespace. */
  predicate AreTokens(tokens: seq<string>) {
    forall i | 0 <= i < |tokens| :: tokens[i] != [] && NoWhitespace(tokens[i])
  }

  lemma TokensTail(tokens: seq<string>)
    requires tokens != [] && AreTokens(tokens)
    ensures AreTokens(tokens[1..]) && tokens[0] != [] && NoWhitespace(tokens[0])
  {
  }

  /** Splitting a string that opens with a whole word yields that word first. */
  lemma FirstWord(t: string, after: string)
    requires t != []
    requires TrimStart(t + after) == t + after
    requires WordLength(t + after) == |t|
    requires (t + after)[..|t|] == t
    ensures SplitWhitespace(t + after) == [t] + SplitWhitespace(after)
  {
    assert (t + after)[|t|..] == after;
  }

  /** A leading space does not change the split. */
  lemma SkipSpace(r: string)
    ensures SplitWhitespace(" " + r) == SplitWhitespace(r)
  {
    var s := " " + r;
    assert s[0] == ' ';
    assert s[1..] == r;
  }

  /** A non-empty token followed by nothing or by whitespace is the first
      word; nothing is trimmed before it. */
  lemma {:induction false} WordOfToken(t: string, after: string)
    requires t != [] && NoWhitespace(t)
    requires after == [] || IsWhitespace(after[0])
    ensures TrimStart(t + after) == t + after
    ensures WordLength(t + after) == |t|
    ensures (t + after)[..|t|] == t
  {
    var s := t + after;
    assert s[0] == t[0];
    assert s[1..] == t[1..] + after;
    if |t| > 1 {
      WordOfToken(t[1..], after);
    }
  }

  /** Concatenation regrouped, for the callers that build a sequence
      piece by piece. */
  lemma Assoc<T>(a: seq<T>, b: seq<T>, c: seq<T>)
    ensures (a + b) + c == a + (b + c)
  {
  }

  lemma Assoc3<T>(o: seq<T>, a: seq<T>, b: seq<T>, c: seq<T>)
    ensures o + a + b + c == o + (a + b + c)
  {
  }
}
