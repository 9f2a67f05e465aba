/** Helpers of the test suite: reading a yes/no word and cutting output
    into non-empty lines. */
module TestUtils {
  import opened Wrappers
  import Text

  /** ASCII lower-casing; every other character is left alone. */
  function AsciiLower(c: char): (l: char)
    ensures 'A' <= c <= 'Z' ==> l as int == c as int + 32
    ensures !('A' <= c <= 'Z') ==> l == c
  {
    if 'A' <= c <= 'Z' then (c as int + 32) as char else c
  }

  /** `str::eq_ignore_ascii_case`. */
  predicate EqIgnoreAsciiCase(a: string, b: string) {
    |a| == |b| && forall i | 0 <= i < |a| :: AsciiLower(a[i]) == AsciiLower(b[i])
  }

  predicate IsAsciiLower(w: string) {
    forall i | 0 <= i < |w| :: AsciiLower(w[i]) == w[i]
  }

  const TrueWords: seq<string> := ["true", "yes", "1", "on", "enable", "enabled"]
  const FalseWords: seq<string> := ["false", "no", "0", "off", "disable", "disabled"]

  predicate MatchesAny(s: string, words: seq<string>) {
    exists k | 0 <= k < |words| :: EqIgnoreAsciiCase(s, words[k])
  }

  /** `str_to_bool`: the words for yes, then the words for no, in any ASCII case. */
  function StrToBool(s: string): (r: Option<bool>)
    ensures r == Some(true) <==> MatchesAny(s, TrueWords)
    ensures r == Some(false) <==> MatchesAny(s, FalseWords)
    ensures r == None <==> !MatchesAny(s, TrueWords) && !MatchesAny(s, FalseWords)
  {
    TrueFalseDisjoint(s);
    if MatchesAny(s, TrueWords) then Some(true)
    else if MatchesAny(s, FalseWords) then Some(false)
    else None
  }

  /** Two lower-case words that match the same text are the same word. */
  lemma SameLowerWord(s: string, v: string, w: string)
    requires IsAsciiLower(v) && IsAsciiLower(w)
    requires EqIgnoreAsciiCase(s, v) && EqIgnoreAsciiCase(s, w)
    ensures v == w
  {
    forall i | 0 <= i < |v|
      ensures v[i] == w[i]
    {
      assert AsciiLower(v[i]) == AsciiLower(s[i]) == AsciiLower(w[i]);
    }
  }

  /** No text reads both as yes and as no. */
  lemma TrueFalseDisjoint(s: string)
    ensures !(MatchesAny(s, TrueWords) && MatchesAny(s, FalseWords))
  {
    if MatchesAny(s, TrueWords) && MatchesAny(s, FalseWords) {
      var j :| 0 <= j < |TrueWords| && EqIgnoreAsciiCase(s, TrueWords[j]);
      var k :| 0 <= k < |FalseWords| && EqIgnoreAsciiCase(s, FalseWords[k]);
      WordIsLower(TrueWords[j]);
      WordIsLower(FalseWords[k]);
      assert TrueWords[j] != FalseWords[k];
      SameLowerWord(s, TrueWords[j], FalseWords[k]);
    }
  }

  lemma WordIsLower(w: string)
    requires w in TrueWords || w in FalseWords
    ensures IsAsciiLower(w)
  {
  }

  /** Any spelling of a recognised word in upper or mixed case is read the
      same as the word itself. */
  lemma StrToBoolIgnoresCase(s: string, t: string)
    requires EqIgnoreAsciiCase(s, t)
    ensures StrToBool(s) == StrToBool(t)
  {
    forall words: seq<string>, k | 0 <= k < |words|
      ensures EqIgnoreAsciiCase(s, words[k]) <==> EqIgnoreAsciiCase(t, words[k])
    {
    }
  }

  /** The pieces that are not empty, in order. */
  function NonEmpty(pieces: seq<string>): (r: seq<string>)
    ensures forall i | 0 <= i < |r| :: r[i] != [] && r[i] in pieces
  {
    if pieces == [] then []
    else if pieces[0] == [] then NonEmpty(pieces[1..])
    else [pieces[0]] + NonEmpty(pieces[1..])
  }

  lemma {:induction false} NonEmptyOfNonEmpty(pieces: seq<string>)
    requires forall i | 0 <= i < |pieces| :: pieces[i] != []
    ensures NonEmpty(pieces) == pieces
  {
    if pieces != [] {
      NonEmptyOfNonEmpty(pieces[1..]);
      assert pieces == [pieces[0]] + pieces[1..];
    }
  }

  /** `lines`: the non-empty pieces between newlines. */
  function Lines(data: string): (r: seq<string>)
    ensures forall i | 0 <= i < |r| :: r[i] != [] && '\n' !in r[i]
  {
    NonEmpty(Text.Split(data, '\n'))
  }

  /** Non-empty lines without newlines, joined by newlines, read back as
      exactly those lines. */
  lemma LinesOfJoin(ls: seq<string>)
    requires ls != []
    requires forall i | 0 <= i < |ls| :: ls[i] != [] && '\n' !in ls[i]
    ensures Lines(Text.Join(ls, "\n")) == ls
  {
    Text.SplitOfJoin(ls, '\n');
    NonEmptyOfNonEmpty(ls);
  }
}
