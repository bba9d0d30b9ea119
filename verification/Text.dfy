/** Failure-compatible result types shared by every module. */
module Wrappers {
  datatype Option<+T> = None | Some(value: T)

  datatype Result<+T, +E> = Ok(value: T) | Err(error: E)
}

/**
 The string operations the Rust sources call, on sequences of Unicode scalar values:
 trimming, ASCII case folding, searching, splitting and joining.
 */
module Text {
  import opened Wrappers

  /******* Character classes *******/

  // The Unicode White_Space property, which `str::trim` uses.
  predicate IsWhite(c: char) {
    || '\U{9}' <= c <= '\U{D}' || c == ' ' || c == '\U{85}' || c == '\U{A0}' || c == '\U{1680}'
    || '\U{2000}' <= c <= '\U{200A}' || c == '\U{2028}' || c == '\U{2029}' || c == '\U{202F}'
    || c == '\U{205F}' || c == '\U{3000}'
  }

  // The separators of `str::split_ascii_whitespace`; vertical tab is not one of them.
  predicate IsAsciiWhite(c: char) {
    c == ' ' || c == '\t' || c == '\n' || c == '\r' || c == '\U{C}'
  }

  // `char::is_control`: the general category Cc.
  predicate IsControl(c: char) {
    c <= '\U{1F}' || '\U{7F}' <= c <= '\U{9F}'
  }

  predicate IsDigit(c: char) {
    '0' <= c <= '9'
  }

  predicate IsAlphanumeric(c: char) {
    IsDigit(c) || 'a' <= c <= 'z' || 'A' <= c <= 'Z'
  }

  // What `HeaderValue::to_str` lets through.
  predicate IsVisibleAscii(c: char) {
    ' ' <= c <= '~' || c == '\t'
  }

  predicate AllVisible(s: string) {
    forall i | 0 <= i < |s| :: IsVisibleAscii(s[i])
  }

  predicate Blank(s: string) {
    forall i | 0 <= i < |s| :: IsWhite(s[i])
  }

  predicate Free(c: char, s: string) {
    forall i | 0 <= i < |s| :: s[i] != c
  }

  /******* ASCII case *******/

  function LowerChar(c: char): (l: char)
    ensures !('A' <= l <= 'Z')
    ensures l != c ==> 'A' <= c <= 'Z' && 'a' <= l <= 'z'
  {
    if 'A' <= c <= 'Z' then (c as int + 32) as char else c
  }

  function Lower(s: string): (l: string)
    ensures |l| == |s|
    ensures forall i | 0 <= i < |s| :: l[i] == LowerChar(s[i])
  {
    seq(|s|, i requires 0 <= i < |s| => LowerChar(s[i]))
  }

  lemma LowerIdempotent(s: string)
    ensures Lower(Lower(s)) == Lower(s)
  {
    assert forall i | 0 <= i < |s| :: Lower(Lower(s))[i] == Lower(s)[i];
  }

  predicate EqualIgnoringCase(a: string, b: string) {
    Lower(a) == Lower(b)
  }

  /******* Trimming *******/

  function TrimStart(s: string): (t: string)
    ensures |t| <= |s|
    ensures t != "" ==> !IsWhite(t[0])
  {
    if s != "" && IsWhite(s[0]) then TrimStart(s[1..]) else s
  }

  function TrimEnd(s: string): (t: string)
    ensures |t| <= |s|
    ensures t != "" ==> !IsWhite(t[|t| - 1])
  {
    if s != "" && IsWhite(s[|s| - 1]) then TrimEnd(s[..|s| - 1]) else s
  }

  function Trim(s: string): string {
    TrimEnd(TrimStart(s))
  }

  lemma {:induction false} TrimStartCuts(s: string) returns (blank: string)
    ensures Blank(blank) && s == blank + TrimStart(s)
  {
    if s != "" && IsWhite(s[0]) {
      blank := TrimStartCuts(s[1..]);
      blank := [s[0]] + blank;
    } else {
      blank := "";
    }
  }

  lemma {:induction false} TrimEndCuts(s: string) returns (blank: string)
    ensures Blank(blank) && s == TrimEnd(s) + blank
  {
    if s != "" && IsWhite(s[|s| - 1]) {
      blank := TrimEndCuts(s[..|s| - 1]);
      blank := blank + [s[|s| - 1]];
    } else {
      blank := "";
    }
  }

  lemma {:induction false} TrimStartSkips(blank: string, s: string)
    requires Blank(blank)
    ensures TrimStart(blank + s) == TrimStart(s)
  {
    if blank == "" {
      assert blank + s == s;
    } else {
      assert (blank + s)[1..] == blank[1..] + s;
      assert (blank + s)[0] == blank[0];
      TrimStartSkips(blank[1..], s);
    }
  }

  lemma {:induction false} TrimEndSkips(s: string, blank: string)
    requires Blank(blank)
    ensures TrimEnd(s + blank) == TrimEnd(s)
  {
    if blank == "" {
      assert s + blank == s;
    } else {
      var n := |blank| - 1;
      assert (s + blank)[..|s + blank| - 1] == s + blank[..n];
      assert (s + blank)[|s + blank| - 1] == blank[n];
      TrimEndSkips(s, blank[..n]);
    }
  }

  // Trimming only removes characters, so it cannot introduce one.
  lemma TrimKeepsFree(c: char, s: string)
    requires Free(c, s)
    ensures Free(c, Trim(s))
  {
    var lead := TrimStartCuts(s);
    var trail := TrimEndCuts(TrimStart(s));
    var t := Trim(s);
    forall i | 0 <= i < |t| ensures t[i] != c {
      assert t[i] == TrimStart(s)[i] == s[|lead| + i];
    }
  }

  lemma TrimOfTight(s: string)
    requires s != "" && !IsWhite(s[0]) && !IsWhite(s[|s| - 1])
    ensures Trim(s) == s
  {
  }

  /******* Searching *******/

  function IndexOf(c: char, s: string): (i: Option<nat>)
    ensures i.Some? ==> i.value < |s|
  {
    if s == "" then None
    else if s[0] == c then Some(0)
    else match IndexOf(c, s[1..])
      case None => None
      case Some(i) => Some(i + 1)
  }

  lemma {:induction false} IndexOfFirst(c: char, s: string)
    ensures match IndexOf(c, s)
            case Some(i) => s[i] == c && Free(c, s[..i]) && s == s[..i] + ([c] + s[i + 1..])
            case None => Free(c, s)
  {
    if s != "" && s[0] != c {
      IndexOfFirst(c, s[1..]);
      match IndexOf(c, s[1..])
      case Some(i) =>
        assert s[..i + 1] == [s[0]] + s[1..][..i];
        assert s[i + 2..] == s[1..][i + 1..];
        assert s == [s[0]] + s[1..];
      case None =>
    }
  }

  lemma {:induction false} IndexOfSkips(c: char, a: string, s: string)
    requires Free(c, a)
    ensures IndexOf(c, a + s) == match IndexOf(c, s) case None => None case Some(i) => Some(|a| + i)
  {
    if a == "" {
      assert a + s == s;
    } else {
      assert (a + s)[1..] == a[1..] + s;
      IndexOfSkips(c, a[1..], s);
    }
  }

  /******* Splitting and joining *******/

  // `str::split(sep)`: the pieces between separators, one more than there are separators.
  function SplitOn(sep: char, s: string): (pieces: seq<string>)
    ensures |pieces| >= 1
    decreases |s|
  {
    match IndexOf(sep, s)
    case None => [s]
    case Some(i) => [s[..i]] + SplitOn(sep, s[i + 1..])
  }

  // `[..].join(sep)` for a one-character separator.
  function Join(pieces: seq<string>, sep: char): string {
    if pieces == [] then ""
    else if |pieces| == 1 then pieces[0]
    else pieces[0] + ([sep] + Join(pieces[1..], sep))
  }

  // Splitting undoes joining, so joining is injective on separator-free pieces.
  lemma {:induction false} SplitJoin(pieces: seq<string>, sep: char)
    requires pieces != []
    requires forall i | 0 <= i < |pieces| :: Free(sep, pieces[i])
    ensures SplitOn(sep, Join(pieces, sep)) == pieces
  {
    if |pieces| == 1 {
      IndexOfFirst(sep, pieces[0]);
    } else {
      SplitFirst(sep, pieces[0], Join(pieces[1..], sep));
      SplitJoin(pieces[1..], sep);
      assert pieces == [pieces[0]] + pieces[1..];
    }
  }

  lemma SplitFirst(sep: char, first: string, rest: string)
    requires Free(sep, first)
    ensures SplitOn(sep, first + ([sep] + rest)) == [first] + SplitOn(sep, rest)
  {
    var s := first + ([sep] + rest);
    IndexOfSkips(sep, first, [sep] + rest);
    assert s[..|first|] == first && s[|first| + 1..] == rest;
  }

  // `str::split_ascii_whitespace`: the maximal runs of other characters.
  function Words(s: string): seq<string>
    decreases |s|
  {
    if s == "" then []
    else if IsAsciiWhite(s[0]) then Words(s[1..])
    else
      var n := WordLength(s);
      [s[..n]] + Words(s[n..])
  }

  function WordLength(s: string): (n: nat)
    ensures n <= |s|
    ensures s != "" && !IsAsciiWhite(s[0]) ==> n > 0
    ensures forall i | 0 <= i < n :: !IsAsciiWhite(s[i])
    ensures n < |s| ==> IsAsciiWhite(s[n])
  {
    if s == "" || IsAsciiWhite(s[0]) then 0 else 1 + WordLength(s[1..])
  }

  predicate IsWord(s: string) {
    s != "" && forall i | 0 <= i < |s| :: !IsAsciiWhite(s[i])
  }

  lemma {:induction false} WordsAreWords(s: string)
    ensures forall i | 0 <= i < |Words(s)| :: IsWord(Words(s)[i])
    decreases |s|
  {
    if s != "" {
      if IsAsciiWhite(s[0]) {
        WordsAreWords(s[1..]);
      } else {
        WordsAreWords(s[WordLength(s)..]);
      }
    }
  }

  // Splitting at blanks undoes joining words with single spaces.
  lemma {:induction false} WordsJoin(words: seq<string>)
    requires forall i | 0 <= i < |words| :: IsWord(words[i])
    ensures Words(Join(words, ' ')) == words
  {
    if words == [] {
    } else if |words| == 1 {
      assert WordLength(words[0]) == |words[0]|;
      assert words[0][..|words[0]|] == words[0] && words[0][|words[0]|..] == "";
      assert !IsAsciiWhite(words[0][0]);
    } else {
      var rest := Join(words[1..], ' ');
      var s := words[0] + ([' '] + rest);
      assert s[0] == words[0][0];
      assert s[|words[0]|] == ' ';
      assert forall j | 0 <= j < |words[0]| :: s[j] == words[0][j];
      assert s[..|words[0]|] == words[0];
      assert s[|words[0]|..] == [' '] + rest;
      assert s[|words[0]|..][1..] == rest;
      WordsJoin(words[1..]);
      assert words == [words[0]] + words[1..];
    }
  }
}
