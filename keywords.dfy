/**
  Keyword extraction from the data description, and the keyword matcher that
  decides which keywords a piece of content mentions.
*/
module Keywords {
  import opened Text

  // ---------------------------------------------------------------------------
  // Extraction

  /** The tokens longer than two characters, in their order. */
  function LongTokens(ts: seq<string>): (r: seq<string>)
    ensures forall t | t in r :: t in ts && |t| > 2
    decreases |ts|
  {
    if ts == [] then []
    else
      var init, last := ts[..|ts| - 1], ts[|ts| - 1];
      assert forall t | t in init :: t in ts;
      LongTokens(init) + (if |last| > 2 then [last] else [])
  }

  /** The kept tokens are the tokens with some left out, in their order. */
  lemma {:induction false} LongTokensSubsequence(ts: seq<string>)
    ensures IsSubsequence(LongTokens(ts), ts)
    decreases |ts|
  {
    if ts != [] {
      var init, last := ts[..|ts| - 1], ts[|ts| - 1];
      var m := LongTokens(init);
      LongTokensSubsequence(init);
      assert init + [last] == ts;
      if |last| > 2 {
        assert LongTokens(ts) == m + [last];
        assert (m + [last])[..|m|] == m;
      } else {
        assert LongTokens(ts) == m;
        SubsequenceExtend(m, init, last);
      }
    }
  }

  /** A token longer than two characters is kept as often as it occurs; a
      shorter one is never kept. */
  lemma {:induction false} LongTokensCounts(ts: seq<string>)
    ensures forall t :: multiset(LongTokens(ts))[t] == if |t| > 2 then multiset(ts)[t] else 0
    decreases |ts|
  {
    if ts != [] {
      var init, last := ts[..|ts| - 1], ts[|ts| - 1];
      LongTokensCounts(init);
      assert init + [last] == ts;
      assert multiset(ts) == multiset(init) + multiset{last};
    }
  }

  /** The keywords of a data description: its lower-cased word tokens longer than
      two characters, in the order they appear and with their repeats. Every
      keyword is a non-empty run of lower-case word characters. */
  function ExtractKeywords(description: string): (keywords: seq<string>)
    ensures forall kw | kw in keywords ::
      |kw| > 2 && forall c | c in kw :: IsWordChar(c) && !IsUpper(c)
    ensures IsSubsequence(keywords, Tokens(Lower(description)))
    ensures forall t ::
      multiset(keywords)[t] == if |t| > 2 then multiset(Tokens(Lower(description)))[t] else 0
  {
    var lowered := Lower(description);
    assert forall c | c in lowered :: !IsUpper(c);
    TokensAreWords(lowered);
    LongTokensSubsequence(Tokens(lowered));
    LongTokensCounts(Tokens(lowered));
    LongTokens(Tokens(lowered))
  }

  /** Words without upper-case letters, separated by spaces, give back exactly the
      words longer than two characters, in order and with their repeats. */
  lemma {:induction false} ExtractKeywordsOfSpaced(ws: seq<string>)
    requires forall k :: 0 <= k < |ws| ==> IsWord(ws[k])
    requires forall k, i :: 0 <= k < |ws| && 0 <= i < |ws[k]| ==> !IsUpper(ws[k][i])
    ensures ExtractKeywords(Spaced(ws)) == LongTokens(ws)
  {
    SpacedHasNoUpper(ws);
    LowerOfLower(Spaced(ws));
    TokensOfSpaced(ws);
  }

  lemma {:induction false} SpacedHasNoUpper(ws: seq<string>)
    requires forall k, i :: 0 <= k < |ws| && 0 <= i < |ws[k]| ==> !IsUpper(ws[k][i])
    ensures forall i :: 0 <= i < |Spaced(ws)| ==> !IsUpper(Spaced(ws)[i])
  {
    if ws != [] {
      SpacedHasNoUpper(ws[1..]);
      var w := ws[0];
      assert Spaced(ws) == w + " " + Spaced(ws[1..]);
      forall i | 0 <= i < |Spaced(ws)| ensures !IsUpper(Spaced(ws)[i]) {
        if i < |w| {
          assert Spaced(ws)[i] == ws[0][i];
        } else if i > |w| {
          assert Spaced(ws)[i] == Spaced(ws[1..])[i - |w| - 1];
        }
      }
    }
  }

  // ---------------------------------------------------------------------------
  // Matching

  /** Whether the content mentions the keyword, ignoring case. */
  predicate Mentions(content: string, keyword: string)
  {
    Contains(Lower(content), Lower(keyword))
  }

  /** The keywords that the content mentions, in keyword order. */
  function KeywordMatches(content: string, keywords: seq<string>): seq<string>
    decreases |keywords|
  {
    if keywords == [] then []
    else
      var last := keywords[|keywords| - 1];
      KeywordMatches(content, keywords[..|keywords| - 1])
        + (if Mentions(content, last) then [last] else [])
  }

  /** The matcher: lower-cases the content once, then appends every keyword whose
      lower-case form occurs in it. */
  method CheckKeywordsInContent(content: string, keywords: seq<string>) returns (matched: seq<string>)
    ensures matched == KeywordMatches(content, keywords)
  {
    var contentLower := Lower(content);
    matched := [];
    for i := 0 to |keywords|
      invariant matched == KeywordMatches(content, keywords[..i])
    {
      var keyword := keywords[i];
      assert keywords[..i + 1][..i] == keywords[..i];
      if Contains(contentLower, Lower(keyword)) {
        matched := matched + [keyword];
      }
    }
    assert keywords[..|keywords|] == keywords;
  }

  /** A keyword is matched exactly when it is one of the keywords and its
      lower-case form is a substring of the lower-case content. */
  lemma {:induction false} KeywordMatchesIff(content: string, keywords: seq<string>, kw: string)
    ensures kw in KeywordMatches(content, keywords) <==>
      kw in keywords && exists i :: OccursAt(Lower(content), Lower(kw), i)
    decreases |keywords|
  {
    ContainsIff(Lower(content), Lower(kw));
    if keywords != [] {
      var init := keywords[..|keywords| - 1];
      KeywordMatchesIff(content, init, kw);
      assert keywords == init + [keywords[|keywords| - 1]];
    }
  }

  /** No keyword is matched exactly when the content mentions none of them; in
      particular no keywords give no matches. */
  lemma {:induction false} KeywordMatchesEmpty(content: string, keywords: seq<string>)
    ensures KeywordMatches(content, keywords) == [] <==>
      forall kw | kw in keywords :: !Mentions(content, kw)
    decreases |keywords|
  {
    if keywords != [] {
      var init := keywords[..|keywords| - 1];
      KeywordMatchesEmpty(content, init);
      assert keywords == init + [keywords[|keywords| - 1]];
    }
  }

  /** A keyword the content mentions is matched as often as it is listed; any
      other keyword is never matched. */
  lemma {:induction false} KeywordMatchesCounts(content: string, keywords: seq<string>)
    ensures forall kw ::
      multiset(KeywordMatches(content, keywords))[kw] == if Mentions(content, kw) then multiset(keywords)[kw] else 0
    decreases |keywords|
  {
    if keywords != [] {
      var init, last := keywords[..|keywords| - 1], keywords[|keywords| - 1];
      KeywordMatchesCounts(content, init);
      assert init + [last] == keywords;
      assert multiset(keywords) == multiset(init) + multiset{last};
    }
  }

  /** `xs` is `ys` with some elements left out, order kept. */
  ghost predicate IsSubsequence<T>(xs: seq<T>, ys: seq<T>)
    decreases |ys|
  {
    if xs == [] then true
    else if ys == [] then false
    else if xs[|xs| - 1] == ys[|ys| - 1] then IsSubsequence(xs[..|xs| - 1], ys[..|ys| - 1])
    else IsSubsequence(xs, ys[..|ys| - 1])
  }

  lemma {:induction false} SubsequenceExtend<T>(xs: seq<T>, ys: seq<T>, y: T)
    requires IsSubsequence(xs, ys)
    ensures IsSubsequence(xs, ys + [y])
    decreases |ys|, 1
  {
    if xs != [] {
      var ys' := ys + [y];
      assert ys'[..|ys'| - 1] == ys;
      if xs[|xs| - 1] == y {
        SubsequenceDropLast(xs, ys);
      }
    }
  }

  lemma {:induction false} SubsequenceDropLast<T>(xs: seq<T>, ys: seq<T>)
    requires xs != [] && IsSubsequence(xs, ys)
    ensures IsSubsequence(xs[..|xs| - 1], ys)
    decreases |ys|, 0
  {
    var init := ys[..|ys| - 1];
    if xs[|xs| - 1] == ys[|ys| - 1] {
      SubsequenceExtend(xs[..|xs| - 1], init, ys[|ys| - 1]);
      assert init + [ys[|ys| - 1]] == ys;
    } else {
      SubsequenceDropLast(xs, init);
      SubsequenceExtend(xs[..|xs| - 1], init, ys[|ys| - 1]);
      assert init + [ys[|ys| - 1]] == ys;
    }
  }

  /** The matched keywords are the keyword list with some keywords left out:
      order and repeats follow the keyword list. */
  lemma {:induction false} KeywordMatchesSubsequence(content: string, keywords: seq<string>)
    ensures IsSubsequence(KeywordMatches(content, keywords), keywords)
    decreases |keywords|
  {
    if keywords != [] {
      var init, last := keywords[..|keywords| - 1], keywords[|keywords| - 1];
      var m := KeywordMatches(content, init);
      KeywordMatchesSubsequence(content, init);
      assert init + [last] == keywords;
      if Mentions(content, last) {
        assert KeywordMatches(content, keywords) == m + [last];
        assert (m + [last])[..|m|] == m;
      } else {
        assert KeywordMatches(content, keywords) == m;
        SubsequenceExtend(m, init, last);
      }
    }
  }
}
