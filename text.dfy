/**
  The string operations of Python's standard library that the analyser relies on:
  `str.lower`, the `\w` character class, `in` on strings, `str.strip`, the
  slices `s[:n]` and `s[2:-2]`, and the decimal rendering of integers in f-strings.
*/
module Text {

  // ---------------------------------------------------------------------------
  // Case

  predicate IsUpper(c: char) { 'A' <= c <= 'Z' }

  function LowerChar(c: char): char
  {
    if IsUpper(c) then (c as int + 32) as char else c
  }

  /** `s.lower()`, restricted to the ASCII letters. */
  function Lower(s: string): (r: string)
    ensures |r| == |s|
    ensures forall i :: 0 <= i < |r| ==> !IsUpper(r[i])
    ensures forall i :: 0 <= i < |s| && !IsUpper(s[i]) ==> r[i] == s[i]
    ensures forall i :: 0 <= i < |s| && IsUpper(s[i]) ==> r[i] as int == s[i] as int + 32
  {
    seq(|s|, i requires 0 <= i < |s| => LowerChar(s[i]))
  }

  /** A string with no upper-case letter is its own lower-case form. */
  lemma LowerOfLower(s: string)
    requires forall i :: 0 <= i < |s| ==> !IsUpper(s[i])
    ensures Lower(s) == s
  {
  }

  // ---------------------------------------------------------------------------
  // Words: the `\w` class and the maximal runs of it that `\b\w+\b` finds

  predicate IsWordChar(c: char)
  {
    'a' <= c <= 'z' || 'A' <= c <= 'Z' || '0' <= c <= '9' || c == '_'
  }

  /** Length of the run of word characters at the start of `s`. */
  function WordRunLength(s: string): (n: nat)
    ensures n <= |s|
    ensures forall i :: 0 <= i < n ==> IsWordChar(s[i])
    ensures n == |s| || !IsWordChar(s[n])
  {
    if s == [] || !IsWordChar(s[0]) then 0 else 1 + WordRunLength(s[1..])
  }

  /** The strings that `re.findall(r'\b\w+\b', s)` returns: the maximal runs of
      word characters of `s`, in order of appearance, repeats included. */
  function Tokens(s: string): seq<string>
    decreases |s|
  {
    if s == [] then []
    else if !IsWordChar(s[0]) then Tokens(s[1..])
    else
      var n := WordRunLength(s);
      [s[..n]] + Tokens(s[n..])
  }

  /** `t` occurs in `s` at `i` as a maximal run: the characters just before and
      just after it, where there are any, are not word characters. */
  ghost predicate TokenAt(s: string, t: string, i: int)
  {
    && OccursAt(s, t, i)
    && (i == 0 || !IsWordChar(s[i - 1]))
    && (i + |t| == |s| || !IsWordChar(s[i + |t|]))
  }

  /** Every token is a non-empty run of word characters taken from the string. */
  lemma {:induction false} TokensAreWords(s: string)
    ensures forall t | t in Tokens(s) :: |t| > 0 && forall c | c in t :: IsWordChar(c) && c in s
    decreases |s|
  {
    if s == [] {
    } else if !IsWordChar(s[0]) {
      TokensAreWords(s[1..]);
      assert forall c | c in s[1..] :: c in s;
    } else {
      var n := WordRunLength(s);
      TokensAreWords(s[n..]);
      assert forall c | c in s[n..] :: c in s;
      assert forall c | c in s[..n] :: c in s;
    }
  }

  /** A maximal run in a suffix of `s` is one in `s`, unless it starts the suffix
      right after a word character. */
  lemma TokenAtShift(s: string, k: nat, t: string, i: int)
    requires k <= |s| && TokenAt(s[k..], t, i)
    requires i > 0 || k == 0 || !IsWordChar(s[k - 1])
    ensures TokenAt(s, t, i + k)
  {
    var tail := s[k..];
    assert tail[i..i + |t|] == s[i + k..i + k + |t|];
    assert i > 0 ==> s[i + k - 1] == tail[i - 1];
    assert i + |t| < |tail| ==> s[i + k + |t|] == tail[i + |t|];
  }

  /** Every token occurs in the string with no word character on either side:
      the tokens are maximal runs of the string itself. */
  lemma {:induction false} TokensOccur(s: string)
    ensures forall t | t in Tokens(s) :: exists i :: TokenAt(s, t, i)
    decreases |s|
  {
    if s == [] {
    } else if !IsWordChar(s[0]) {
      var tail := s[1..];
      TokensOccur(tail);
      forall t | t in Tokens(tail) ensures exists j :: TokenAt(s, t, j) {
        var i :| TokenAt(tail, t, i);
        TokenAtShift(s, 1, t, i);
      }
    } else {
      var n := WordRunLength(s);
      var tail := s[n..];
      TokensOccur(tail);
      TokensAreWords(tail);
      assert TokenAt(s, s[..n], 0);
      forall t | t in Tokens(tail) ensures exists j :: TokenAt(s, t, j) {
        var i :| TokenAt(tail, t, i);
        assert t[0] in t && t[0] == tail[i];
        TokenAtShift(s, n, t, i);
      }
    }
  }

  /** The words of `ws`, each followed by one space. */
  function Spaced(ws: seq<string>): string
  {
    if ws == [] then [] else ws[0] + " " + Spaced(ws[1..])
  }

  ghost predicate IsWord(w: string)
  {
    |w| > 0 && forall i :: 0 <= i < |w| ==> IsWordChar(w[i])
  }

  /** A word followed by a non-word character is one run. */
  lemma {:induction false} WordRunOfWord(w: string, t: string)
    requires IsWord(w) && t != [] && !IsWordChar(t[0])
    ensures WordRunLength(w + t) == |w|
    decreases |w|
  {
    if |w| > 1 {
      assert (w + t)[1..] == w[1..] + t;
      WordRunOfWord(w[1..], t);
    } else {
      assert (w + t)[1..] == t;
    }
  }

  /** The tokens of a word followed by text that starts with a non-word
      character are the word, then the tokens of that text. */
  lemma TokensOfWordThen(w: string, t: string)
    requires IsWord(w) && t != [] && !IsWordChar(t[0])
    ensures Tokens(w + t) == [w] + Tokens(t)
  {
    var s := w + t;
    WordRunOfWord(w, t);
    assert s[..|w|] == w && s[|w|..] == t;
  }

  /** A leading space produces no token. */
  lemma TokensAfterSpace(rest: string)
    ensures Tokens(" " + rest) == Tokens(rest)
  {
    assert (" " + rest)[1..] == rest;
  }

  /** Tokenising words separated by spaces gives the words back, in their order
      and with their repeats. */
  lemma {:induction false} TokensOfSpaced(ws: seq<string>)
    requires forall k :: 0 <= k < |ws| ==> IsWord(ws[k])
    ensures Tokens(Spaced(ws)) == ws
  {
    if ws != [] {
      var rest := Spaced(ws[1..]);
      assert Spaced(ws) == ws[0] + (" " + rest);
      TokensOfWordThen(ws[0], " " + rest);
      TokensAfterSpace(rest);
      TokensOfSpaced(ws[1..]);
    }
  }

  // ---------------------------------------------------------------------------
  // Substrings: Python's `needle in hay`

  function Contains(hay: string, needle: string): bool
    decreases |hay|
  {
    if |needle| > |hay| then false
    else hay[..|needle|] == needle || (|hay| > 0 && Contains(hay[1..], needle))
  }

  ghost predicate OccursAt(hay: string, needle: string, i: int)
  {
    0 <= i && i + |needle| <= |hay| && hay[i..i + |needle|] == needle
  }

  /** `Contains` holds exactly when the needle occurs at some position of the hay. */
  lemma {:induction false} ContainsIff(hay: string, needle: string)
    ensures Contains(hay, needle) <==> exists i :: OccursAt(hay, needle, i)
    decreases |hay|
  {
    if |needle| > |hay| {
    } else if hay[..|needle|] == needle {
      assert OccursAt(hay, needle, 0);
    } else if |hay| > 0 {
      ContainsIff(hay[1..], needle);
      if Contains(hay[1..], needle) {
        var i :| OccursAt(hay[1..], needle, i);
        assert hay[1..][i..i + |needle|] == hay[i + 1..i + 1 + |needle|];
        assert OccursAt(hay, needle, i + 1);
      }
      if i :| OccursAt(hay, needle, i) {
        assert i != 0;
        assert hay[1..][i - 1..i - 1 + |needle|] == hay[i..i + |needle|];
        assert OccursAt(hay[1..], needle, i - 1);
      }
    }
  }

  // ---------------------------------------------------------------------------
  // Whitespace: `str.strip()` with no argument

  /** The characters for which Python's `str.isspace()` holds. */
  predicate IsSpace(c: char)
  {
    || '\t' <= c <= '\r'
    || '\U{1c}' <= c <= ' '
    || c == '\U{85}' || c == '\U{a0}' || c == '\U{1680}'
    || '\U{2000}' <= c <= '\U{200a}'
    || c == '\U{2028}' || c == '\U{2029}' || c == '\U{202f}' || c == '\U{205f}'
    || c == '\U{3000}'
  }

  /** `s.lstrip()`. */
  function StripLeading(s: string): string
  {
    if s != [] && IsSpace(s[0]) then StripLeading(s[1..]) else s
  }

  /** `s.rstrip()`. */
  function StripTrailing(s: string): string
  {
    if s != [] && IsSpace(s[|s| - 1]) then StripTrailing(s[..|s| - 1]) else s
  }

  function Strip(s: string): string
  {
    StripTrailing(StripLeading(s))
  }

  /** Stripping the front leaves a suffix that does not start with white space;
      everything dropped is white space. */
  lemma {:induction false} StripLeadingSuffix(s: string)
    ensures var r := StripLeading(s);
      && |r| <= |s| && r == s[|s| - |r|..]
      && (forall k :: 0 <= k < |s| - |r| ==> IsSpace(s[k]))
      && (r != [] ==> !IsSpace(r[0]))
  {
    if s != [] && IsSpace(s[0]) {
      var t := s[1..];
      StripLeadingSuffix(t);
      var r := StripLeading(t);
      assert StripLeading(s) == r;
      assert t[|t| - |r|..] == s[|s| - |r|..];
      forall k | 0 <= k < |s| - |r| ensures IsSpace(s[k]) {
        if k > 0 {
          assert s[k] == t[k - 1];
        }
      }
    }
  }

  /** Stripping the back leaves a prefix that does not end with white space;
      everything dropped is white space. */
  lemma {:induction false} StripTrailingPrefix(s: string)
    ensures var r := StripTrailing(s);
      && |r| <= |s| && r == s[..|r|]
      && (forall k :: |r| <= k < |s| ==> IsSpace(s[k]))
      && (r != [] ==> !IsSpace(r[|r| - 1]))
  {
    if s != [] && IsSpace(s[|s| - 1]) {
      var t := s[..|s| - 1];
      StripTrailingPrefix(t);
      var r := StripTrailing(t);
      assert StripTrailing(s) == r;
      assert t[..|r|] == s[..|r|];
      forall k | |r| <= k < |s| ensures IsSpace(s[k]) {
        if k < |t| {
          assert s[k] == t[k];
        }
      }
    }
  }

  /** `s.strip()` is a slice of `s` that neither starts nor ends with white space,
      outside of which there is only white space. */
  lemma StripSlice(s: string)
    ensures exists i, j ::
      && 0 <= i <= j <= |s| && Strip(s) == s[i..j]
      && (forall k :: 0 <= k < i || j <= k < |s| ==> IsSpace(s[k]))
    ensures Strip(s) != [] ==> !IsSpace(Strip(s)[0]) && !IsSpace(Strip(s)[|Strip(s)| - 1])
  {
    var l := StripLeading(s);
    StripLeadingSuffix(s);
    StripTrailingPrefix(l);
    var i := |s| - |l|;
    var j := i + |Strip(s)|;
    assert Strip(s) == s[i..j];
    assert forall k :: j <= k < |s| ==> s[k] == l[k - i];
  }

  /** A string that neither starts nor ends with white space is left alone. */
  lemma StripUnchanged(s: string)
    requires s != [] && !IsSpace(s[0]) && !IsSpace(s[|s| - 1])
    ensures Strip(s) == s
  {
    assert StripLeading(s) == s;
  }

  // ---------------------------------------------------------------------------
  // Slices

  function StartsWith(s: string, prefix: string): bool
  {
    |prefix| <= |s| && s[..|prefix|] == prefix
  }

  function EndsWith(s: string, suffix: string): bool
  {
    |suffix| <= |s| && s[|s| - |suffix|..] == suffix
  }

  /** `s[:n]` for a non-negative `n`. */
  function Prefix<T>(s: seq<T>, n: nat): (r: seq<T>)
    ensures |r| <= n && |r| <= |s|
    ensures r == s[..|r|]
    ensures |s| <= n ==> r == s
    ensures |s| > n ==> |r| == n
  {
    if |s| <= n then s else s[..n]
  }

  /** `s[2:-2]`: empty when `s` has fewer than four characters. */
  function Inner(s: string): (r: string)
    ensures |s| >= 4 ==> s == s[..2] + r + s[|s| - 2..]
    ensures |s| < 4 ==> r == []
  {
    if |s| >= 4 then s[2..|s| - 2] else []
  }

  // ---------------------------------------------------------------------------
  // Decimal rendering of integers, as in an f-string

  function DigitChar(d: nat): char
    requires d < 10
  {
    "0123456789"[d]
  }

  function NatToString(n: nat): string
  {
    if n < 10 then [DigitChar(n)] else NatToString(n / 10) + [DigitChar(n % 10)]
  }

  function IntToString(i: int): string
  {
    if i < 0 then "-" + NatToString(-i) else NatToString(i)
  }
}
