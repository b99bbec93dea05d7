/** The string operations of Python that the scripts rely on: `str.split()`,
    `str.split(sep)`, `str.strip()`, the substring test `sub in s`, and the
    iteration of a text file line by line. */
module Text {

  /** `str.isspace()` for one character: the characters Python's
      argument-less `split()` and `strip()` treat as whitespace. */
  predicate IsSpace(c: char) {
    var n := c as int;
    (9 <= n <= 13) || (28 <= n <= 32) || n == 0x85 || n == 0xA0 || n == 0x1680
    || (0x2000 <= n <= 0x200A) || n == 0x2028 || n == 0x2029 || n == 0x202F
    || n == 0x205F || n == 0x3000
  }

  predicate NoSpace(s: string) {
    forall i | 0 <= i < |s| :: !IsSpace(s[i])
  }

  predicate AllSpace(s: string) {
    forall i | 0 <= i < |s| :: IsSpace(s[i])
  }

  /** `s.lstrip()`: drops the leading whitespace. */
  function SkipSpace(s: string): (r: string)
    ensures |r| <= |s|
  {
    if s == [] || !IsSpace(s[0]) then s else SkipSpace(s[1..])
  }

  /** What `lstrip` drops is whitespace, and what it keeps is the rest of the
      text, starting with a non-whitespace character. */
  lemma {:induction false} SkipSpaceSuffix(s: string)
    ensures SkipSpace(s) == s[|s| - |SkipSpace(s)|..]
    ensures AllSpace(s[..|s| - |SkipSpace(s)|])
    ensures SkipSpace(s) == [] || !IsSpace(SkipSpace(s)[0])
    decreases |s|
  {
    if s != [] && IsSpace(s[0]) {
      var r := SkipSpace(s[1..]);
      SkipSpaceSuffix(s[1..]);
      assert s[..|s| - |r|] == [s[0]] + s[1..][..|s| - 1 - |r|];
    }
  }

  /** `s.rstrip()`: drops the trailing whitespace. */
  function TrimEnd(s: string): (r: string)
    ensures |r| <= |s|
  {
    if s != [] && IsSpace(s[|s| - 1]) then TrimEnd(s[..|s| - 1]) else s
  }

  /** What `rstrip` keeps is a prefix of the text ending in a non-whitespace
      character, and what it drops is whitespace. */
  lemma {:induction false} TrimEndPrefix(s: string)
    ensures TrimEnd(s) == s[..|TrimEnd(s)|]
    ensures AllSpace(s[|TrimEnd(s)|..])
    ensures TrimEnd(s) == [] || !IsSpace(TrimEnd(s)[|TrimEnd(s)| - 1])
    decreases |s|
  {
    if s != [] && IsSpace(s[|s| - 1]) {
      var init := s[..|s| - 1];
      var r := TrimEnd(init);
      TrimEndPrefix(init);
      assert s[|r|..] == init[|r|..] + [s[|s| - 1]];
    }
  }

  /** `s.strip()`. */
  function Strip(s: string): string {
    TrimEnd(SkipSpace(s))
  }

  /** Stripping keeps a contiguous piece of the text with no whitespace at
      either end; in particular it adds no character. */
  lemma StripPiece(s: string)
    ensures |s| - |SkipSpace(s)| + |Strip(s)| <= |s|
    ensures Strip(s) == s[|s| - |SkipSpace(s)|..|s| - |SkipSpace(s)| + |Strip(s)|]
    ensures AllSpace(s[..|s| - |SkipSpace(s)|]) && AllSpace(s[|s| - |SkipSpace(s)| + |Strip(s)|..])
    ensures Strip(s) == [] || (!IsSpace(Strip(s)[0]) && !IsSpace(Strip(s)[|Strip(s)| - 1]))
  {
    var l := SkipSpace(s);
    SkipSpaceSuffix(s);
    TrimEndPrefix(l);
    var k := |s| - |l|;
    assert Strip(s) == s[k..k + |Strip(s)|];
    assert s[k + |Strip(s)|..] == l[|Strip(s)|..];
  }

  /** Length of the run of non-whitespace characters at the start of `s`. */
  function TokenEnd(s: string): (n: nat)
    ensures n <= |s|
  {
    if s == [] || IsSpace(s[0]) then 0 else 1 + TokenEnd(s[1..])
  }

  /** The run is maximal: it holds no whitespace and is followed by whitespace
      or the end of the text. */
  lemma {:induction false} TokenEndRun(s: string)
    ensures NoSpace(s[..TokenEnd(s)])
    ensures TokenEnd(s) == |s| || IsSpace(s[TokenEnd(s)])
    decreases |s|
  {
    if s != [] && !IsSpace(s[0]) {
      TokenEndRun(s[1..]);
      assert s[..TokenEnd(s)] == [s[0]] + s[1..][..TokenEnd(s[1..])];
    }
  }

  /** `s.split()`: the maximal runs of non-whitespace characters, in order. */
  function Split(s: string): seq<string>
    decreases |s|
  {
    var rest := SkipSpace(s);
    if rest == [] then []
    else
      var n := TokenEnd(rest);
      [rest[..n]] + Split(rest[n..])
  }

  /** Every token is non-empty and free of whitespace, and blank text has none. */
  lemma {:induction false} SplitTokens(s: string)
    ensures forall t | t in Split(s) :: t != [] && NoSpace(t)
    ensures AllSpace(s) <==> Split(s) == []
    decreases |s|
  {
    var rest := SkipSpace(s);
    SkipSpaceSuffix(s);
    if rest == [] {
      assert s[..|s|] == s;
    } else {
      var n := TokenEnd(rest);
      TokenEndRun(rest);
      var token, tail := rest[..n], Split(rest[n..]);
      assert rest[0] == s[|s| - |rest|];
      assert n >= 1;
      SplitTokens(rest[n..]);
      assert Split(s) == [token] + tail;
      forall t | t in Split(s) ensures t != [] && NoSpace(t) {
        if t != token {
          assert t in tail;
        }
      }
    }
  }

  /** A text made of leading whitespace, a token and a rest that starts with
      whitespace (or is empty) splits into that token followed by the tokens
      of the rest. With `SplitTokens`' blank case this determines `Split`. */
  lemma SplitCons(ws: string, t: string, rest: string)
    requires AllSpace(ws) && t != [] && NoSpace(t)
    requires rest == [] || IsSpace(rest[0])
    ensures Split(ws + t + rest) == [t] + Split(rest)
  {
    SkipSpaceAll(ws, t + rest);
    assert ws + t + rest == ws + (t + rest);
    assert SkipSpace(t + rest) == t + rest by {
      assert (t + rest)[0] == t[0];
    }
    TokenEndOf(t, rest);
    assert (t + rest)[..|t|] == t && (t + rest)[|t|..] == rest;
  }

  lemma {:induction false} SkipSpaceAll(ws: string, u: string)
    requires AllSpace(ws)
    ensures SkipSpace(ws + u) == SkipSpace(u)
    decreases |ws|
  {
    if ws == [] {
      assert ws + u == u;
    } else {
      assert (ws + u)[0] == ws[0];
      assert (ws + u)[1..] == ws[1..] + u;
      SkipSpaceAll(ws[1..], u);
    }
  }

  lemma {:induction false} TokenEndOf(t: string, rest: string)
    requires NoSpace(t) && (rest == [] || IsSpace(rest[0]))
    ensures TokenEnd(t + rest) == |t|
    decreases |t|
  {
    if t == [] {
      assert t + rest == rest;
    } else {
      assert (t + rest)[0] == t[0];
      assert (t + rest)[1..] == t[1..] + rest;
      TokenEndOf(t[1..], rest);
    }
  }

  /** Index of the first occurrence of `c` in `s`, or `|s|` when there is none. */
  function Find(s: string, c: char): (i: nat)
    ensures i <= |s|
    ensures forall k | 0 <= k < i :: s[k] != c
    ensures i < |s| ==> s[i] == c
  {
    if s == [] || s[0] == c then 0 else 1 + Find(s[1..], c)
  }

  /** `s.split(sep)` for a one-character separator: the pieces between the
      separators, empty pieces included. */
  function SplitOn(s: string, sep: char): (r: seq<string>)
    ensures |r| >= 1
    decreases |s|
  {
    var i := Find(s, sep);
    if i == |s| then [s] else [s[..i]] + SplitOn(s[i + 1..], sep)
  }

  /** There is a single piece exactly when the separator does not occur, and
      that piece is the whole text. */
  lemma SplitOnSingle(s: string, sep: char)
    ensures |SplitOn(s, sep)| == 1 <==> sep !in s
    ensures sep !in s ==> SplitOn(s, sep) == [s]
  {
    var i := Find(s, sep);
    if i < |s| {
      assert |SplitOn(s, sep)| == 1 + |SplitOn(s[i + 1..], sep)|;
    } else {
      assert sep !in s;
    }
  }

  /** No piece contains the separator. */
  lemma {:induction false} SplitOnPieces(s: string, sep: char)
    ensures forall t | t in SplitOn(s, sep) :: sep !in t
    decreases |s|
  {
    var i := Find(s, sep);
    if i < |s| {
      SplitOnPieces(s[i + 1..], sep);
      assert SplitOn(s, sep) == [s[..i]] + SplitOn(s[i + 1..], sep);
      assert sep !in s[..i];
    } else {
      assert sep !in s;
    }
  }

  /** `sep.join(pieces)`. */
  function JoinOn(pieces: seq<string>, sep: char): string
    requires |pieces| >= 1
  {
    if |pieces| == 1 then pieces[0] else pieces[0] + [sep] + JoinOn(pieces[1..], sep)
  }

  /** Splitting on a separator loses nothing: joining the pieces back gives the text. */
  lemma {:induction false} SplitOnJoin(s: string, sep: char)
    ensures JoinOn(SplitOn(s, sep), sep) == s
    decreases |s|
  {
    var i := Find(s, sep);
    if i < |s| {
      var pieces, rest := SplitOn(s, sep), SplitOn(s[i + 1..], sep);
      assert pieces[1..] == rest;
      SplitOnJoin(s[i + 1..], sep);
      assert s == s[..i] + [sep] + s[i + 1..];
    }
  }

  predicate StartsWith(s: string, prefix: string) {
    |prefix| <= |s| && s[..|prefix|] == prefix
  }

  /** Python's `sub in s`: `sub` occurs somewhere in `s`. */
  predicate Contains(s: string, sub: string)
    decreases |s|
  {
    StartsWith(s, sub) || (s != [] && Contains(s[1..], sub))
  }

  /** Number of occurrences of `c` in `s`. */
  function Count(s: string, c: char): nat {
    if s == [] then 0 else (if s[0] == c then 1 else 0) + Count(s[1..], c)
  }

  lemma {:induction false} CountAppend(a: string, b: string, c: char)
    ensures Count(a + b, c) == Count(a, c) + Count(b, c)
    decreases |a|
  {
    if a == [] {
      assert a + b == b;
    } else {
      CountAppend(a[1..], b, c);
      assert (a + b)[1..] == a[1..] + b;
    }
  }

  lemma {:induction false} CountAbsent(s: string, c: char)
    requires forall k | 0 <= k < |s| :: s[k] != c
    ensures Count(s, c) == 0
    decreases |s|
  {
    if s != [] {
      CountAbsent(s[1..], c);
    }
  }

  /** The lines of a text file as Python's `for line in file` yields them:
      every line but the last ends with its newline, which it keeps; a last
      line without a newline is still a line. */
  function Lines(text: string): (r: seq<string>)
    ensures r == [] <==> text == []
    decreases |text|
  {
    var i := Find(text, '\n');
    if text == [] then []
    else if i == |text| then [text]
    else [text[..i + 1]] + Lines(text[i + 1..])
  }

  function Concat(ls: seq<string>): string {
    if ls == [] then [] else ls[0] + Concat(ls[1..])
  }

  /** Reading a file line by line loses nothing and adds nothing. */
  lemma {:induction false} LinesConcat(text: string)
    ensures Concat(Lines(text)) == text
    decreases |text|
  {
    var i := Find(text, '\n');
    if text != [] && i < |text| {
      LinesConcat(text[i + 1..]);
      assert text == text[..i + 1] + text[i + 1..];
    }
  }

  /** A line as file iteration yields it: non-empty, with no newline before
      its last character. */
  predicate OneLine(line: string) {
    line != [] && forall j | 0 <= j < |line| - 1 :: line[j] != '\n'
  }

  predicate EndsLine(line: string) {
    line != [] && line[|line| - 1] == '\n'
  }

  /** Every line is a single line, and every line but the last ends with its
      newline: the breaks are exactly at the newlines. */
  lemma {:induction false} LinesBreaks(text: string)
    ensures forall k | 0 <= k < |Lines(text)| :: OneLine(Lines(text)[k])
    ensures forall k | 0 <= k < |Lines(text)| - 1 :: EndsLine(Lines(text)[k])
    decreases |text|
  {
    var i := Find(text, '\n');
    if text != [] && i < |text| {
      var head, tail := text[..i + 1], text[i + 1..];
      LinesBreaks(tail);
      assert Lines(text) == [head] + Lines(tail);
      assert OneLine(head);
    }
  }

  /** The number of lines is the number of newlines, plus one when the text
      does not end with a newline. */
  lemma {:induction false} LinesCount(text: string)
    ensures |Lines(text)| == Count(text, '\n') + (if text != [] && text[|text| - 1] != '\n' then 1 else 0)
    decreases |text|
  {
    var i := Find(text, '\n');
    if text == [] {
    } else if i == |text| {
      CountAbsent(text, '\n');
    } else {
      LinesStep(text, i);
      LinesCount(text[i + 1..]);
    }
  }

  /** Taking the first line off a text that contains a newline. */
  lemma LinesStep(text: string, i: nat)
    requires i == Find(text, '\n') < |text|
    ensures |Lines(text)| == 1 + |Lines(text[i + 1..])|
    ensures Count(text, '\n') == 1 + Count(text[i + 1..], '\n')
    ensures text[i + 1..] != [] ==> text[|text| - 1] == text[i + 1..][|text[i + 1..]| - 1]
    ensures text[i + 1..] == [] ==> text[|text| - 1] == '\n'
  {
    var tail := text[i + 1..];
    HeadCount(text, i);
    assert text == text[..i + 1] + tail;
    CountAppend(text[..i + 1], tail, '\n');
  }

  /** A line up to and including the first newline holds one newline. */
  lemma HeadCount(text: string, i: nat)
    requires i < |text| && text[i] == '\n'
    requires forall k | 0 <= k < i :: text[k] != '\n'
    ensures Count(text[..i + 1], '\n') == 1
  {
    assert text[..i + 1] == text[..i] + ['\n'];
    CountAppend(text[..i], ['\n'], '\n');
    CountAbsent(text[..i], '\n');
  }
}
