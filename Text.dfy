/**
 * Token clean-up of the retrieval engine: case folding, stop-word removal and
 * the per-document normalisation pipeline built from them.
 *
 * The Porter stemmer is a library call whose behaviour is not modelled: every
 * operation that stems takes it as the parameter `stem`.
 */
module Text {

  /** Python's `str.lower()` on one character, restricted to ASCII. */
  function LowerChar(c: char): char {
    if 'A' <= c <= 'Z' then (c as int + 32) as char else c
  }

  /**
   * Python's `str.lower()` on a whole string, character by character: no
   * upper-case ASCII letter remains, each one becomes its lower-case partner,
   * and every other character is left as it is.
   */
  function Lower(s: string): (r: string)
    ensures |r| == |s|
    ensures forall i :: 0 <= i < |r| ==> !('A' <= r[i] <= 'Z')
    ensures forall i :: 0 <= i < |s| && 'A' <= s[i] <= 'Z' ==> IsLetter(r[i]) && r[i] as int - s[i] as int == 'a' as int - 'A' as int
    ensures forall i :: 0 <= i < |s| && !('A' <= s[i] <= 'Z') ==> r[i] == s[i]
  {
    seq(|s|, i requires 0 <= i < |s| => LowerChar(s[i]))
  }

  predicate IsLetter(c: char) {
    'a' <= c <= 'z'
  }

  /** The characters of `s` that are lower-case English letters, in their order. */
  function Letters(s: string): string {
    if s == [] then []
    else Letters(s[..|s| - 1]) + (if IsLetter(s[|s| - 1]) then [s[|s| - 1]] else [])
  }

  /** What `case_fold` computes: lower-case, then keep only `a`..`z`. */
  function CaseFolded(token: string): string {
    Letters(Lower(token))
  }

  /** `case_fold`: lower-cases `token` and appends its letters one by one. */
  method CaseFold(token: string) returns (folded: string)
    ensures folded == CaseFolded(token)
    ensures forall i :: 0 <= i < |folded| ==> IsLetter(folded[i])
  {
    var word := Lower(token);
    folded := "";
    for i := 0 to |word|
      invariant folded == Letters(word[..i])
    {
      assert word[..i + 1][..i] == word[..i];
      if 'a' <= word[i] <= 'z' {
        folded := folded + [word[i]];
      }
    }
    assert word[..|word|] == word;
    LettersAreLetters(word);
  }

  lemma {:induction false} LettersAreLetters(s: string)
    ensures forall i :: 0 <= i < |Letters(s)| ==> IsLetter(Letters(s)[i])
  {
    if s != [] {
      LettersAreLetters(s[..|s| - 1]);
    }
  }

  /** A character survives `Letters` exactly when it is a letter occurring in `s`. */
  lemma {:induction false} LettersMembership(s: string, c: char)
    ensures c in Letters(s) <==> IsLetter(c) && c in s
  {
    if s != [] {
      var init := s[..|s| - 1];
      LettersMembership(init, c);
      assert s == init + [s[|s| - 1]];
    }
  }

  /** `Letters` keeps the original order: it distributes over concatenation. */
  lemma {:induction false} LettersAppend(a: string, b: string)
    ensures Letters(a + b) == Letters(a) + Letters(b)
  {
    if b == [] {
      assert a + b == a;
    } else {
      var init := b[..|b| - 1];
      assert (a + b)[..|a + b| - 1] == a + init;
      LettersAppend(a, init);
    }
  }

  lemma {:induction false} LettersOfLetters(s: string)
    requires forall i :: 0 <= i < |s| ==> IsLetter(s[i])
    ensures Letters(s) == s
  {
    if s != [] {
      LettersOfLetters(s[..|s| - 1]);
    }
  }

  /**
   * Every character of a case-folded token is in `a`..`z`, and a character
   * occurs in it exactly when it is a letter that some character of the
   * token lower-cases to.
   */
  lemma CaseFoldedChars(token: string, c: char)
    ensures forall i :: 0 <= i < |CaseFolded(token)| ==> IsLetter(CaseFolded(token)[i])
    ensures c in CaseFolded(token) <==> IsLetter(c) && exists i :: 0 <= i < |token| && LowerChar(token[i]) == c
  {
    var low := Lower(token);
    LettersAreLetters(low);
    LettersMembership(low, c);
    if c in low {
      var i :| 0 <= i < |low| && low[i] == c;
      assert LowerChar(token[i]) == c;
    }
  }

  /** Case folding the output of case folding changes nothing. */
  lemma CaseFoldedIdempotent(token: string)
    ensures CaseFolded(CaseFolded(token)) == CaseFolded(token)
  {
    var f := CaseFolded(token);
    LettersAreLetters(Lower(token));
    assert Lower(f) == f;
    LettersOfLetters(f);
  }

  /** Case folding works character by character, in order. */
  lemma CaseFoldedAppend(a: string, b: string)
    ensures CaseFolded(a + b) == CaseFolded(a) + CaseFolded(b)
  {
    assert Lower(a + b) == Lower(a) + Lower(b);
    LettersAppend(Lower(a), Lower(b));
  }

  /** What `stopWordsRemoval` computes: the tokens not in `stopWords`, in order. */
  function WithoutStopWords(tokens: seq<string>, stopWords: seq<string>): seq<string> {
    if tokens == [] then []
    else
      var last := tokens[|tokens| - 1];
      WithoutStopWords(tokens[..|tokens| - 1], stopWords) + (if last in stopWords then [] else [last])
  }

  /** `stopWordsRemoval`: appends every token that is not a stop word. */
  method StopWordsRemoval(tokens: seq<string>, stopWords: seq<string>) returns (words: seq<string>)
    ensures words == WithoutStopWords(tokens, stopWords)
  {
    words := [];
    for i := 0 to |tokens|
      invariant words == WithoutStopWords(tokens[..i], stopWords)
    {
      assert tokens[..i + 1][..i] == tokens[..i];
      if tokens[i] !in stopWords {
        words := words + [tokens[i]];
      }
    }
    assert tokens[..|tokens|] == tokens;
  }

  /** A token survives stop-word removal exactly when it occurs and is not a stop word. */
  lemma {:induction false} WithoutStopWordsMembership(tokens: seq<string>, stopWords: seq<string>, w: string)
    ensures w in WithoutStopWords(tokens, stopWords) <==> w in tokens && w !in stopWords
  {
    if tokens != [] {
      var init := tokens[..|tokens| - 1];
      WithoutStopWordsMembership(init, stopWords, w);
      assert tokens == init + [tokens[|tokens| - 1]];
    }
  }

  /** `a` is obtained from `b` by deleting elements. */
  predicate IsSubsequence<T(==)>(a: seq<T>, b: seq<T>)
    decreases |b|
  {
    if a == [] then true
    else if b == [] then false
    else
      (a[|a| - 1] == b[|b| - 1] && IsSubsequence(a[..|a| - 1], b[..|b| - 1]))
      || IsSubsequence(a, b[..|b| - 1])
  }

  /** Stop-word removal keeps the surviving tokens in their original order. */
  lemma {:induction false} WithoutStopWordsIsSubsequence(tokens: seq<string>, stopWords: seq<string>)
    ensures IsSubsequence(WithoutStopWords(tokens, stopWords), tokens)
  {
    if tokens != [] {
      var init := tokens[..|tokens| - 1];
      var last := tokens[|tokens| - 1];
      var r := WithoutStopWords(init, stopWords);
      WithoutStopWordsIsSubsequence(init, stopWords);
      if last in stopWords {
        assert WithoutStopWords(tokens, stopWords) == r;
        if r != [] {
          WithoutStopWordsMembership(init, stopWords, r[|r| - 1]);
          assert r[|r| - 1] != last;
        }
      } else {
        assert (r + [last])[..|r + [last]| - 1] == r;
      }
    }
  }

  /** Removing stop words a second time removes nothing more. */
  lemma {:induction false} WithoutStopWordsIdempotent(tokens: seq<string>, stopWords: seq<string>)
    ensures WithoutStopWords(WithoutStopWords(tokens, stopWords), stopWords) == WithoutStopWords(tokens, stopWords)
  {
    if tokens != [] {
      var init := tokens[..|tokens| - 1];
      var r := WithoutStopWords(init, stopWords);
      WithoutStopWordsIdempotent(init, stopWords);
      var last := tokens[|tokens| - 1];
      if last !in stopWords {
        assert (r + [last])[..|r + [last]| - 1] == r;
        assert WithoutStopWords(tokens, stopWords) == r + [last];
        assert WithoutStopWords(r + [last], stopWords) == WithoutStopWords(r, stopWords) + [last];
      } else {
        assert WithoutStopWords(tokens, stopWords) == r;
      }
    }
  }

  /** What `normalize` computes: case folding, then stemming. */
  function Normalize(token: string, stem: string -> string): string {
    stem(CaseFolded(token))
  }

  /** `normalize`: case folds `token` with `case_fold`, then stems it. */
  method NormalizeToken(token: string, stem: string -> string) returns (term: string)
    ensures term == Normalize(token, stem)
  {
    term := CaseFold(token);
    term := stem(term);
  }

  /** The normalised form of each word, dropping the ones that normalise to "". */
  function NonEmptyNormalized(words: seq<string>, stem: string -> string): seq<string> {
    if words == [] then []
    else
      var t := Normalize(words[|words| - 1], stem);
      NonEmptyNormalized(words[..|words| - 1], stem) + (if |t| > 0 then [t] else [])
  }

  /** What `parseDoc` computes from the tokenizer's words. */
  function ParsedDocument(words: seq<string>, stem: string -> string, stopWords: seq<string>): seq<string> {
    WithoutStopWords(NonEmptyNormalized(words, stem), stopWords)
  }

  /** `parseDoc` after tokenization: normalise every word, keep the non-empty ones, remove stop words. */
  method ParseDoc(words: seq<string>, stem: string -> string, stopWords: seq<string>) returns (tokens: seq<string>)
    ensures tokens == ParsedDocument(words, stem, stopWords)
  {
    tokens := [];
    for i := 0 to |words|
      invariant tokens == NonEmptyNormalized(words[..i], stem)
    {
      assert words[..i + 1][..i] == words[..i];
      var token := NormalizeToken(words[i], stem);
      if |token| > 0 {
        tokens := tokens + [token];
      }
    }
    assert words[..|words|] == words;
    tokens := StopWordsRemoval(tokens, stopWords);
  }

  /**
   * A parsed document holds no empty token and no stop word, and a string
   * occurs in it exactly when it is the non-empty normal form of some word
   * and not a stop word.
   */
  lemma {:induction false} ParsedDocumentTokens(words: seq<string>, stem: string -> string, stopWords: seq<string>, w: string)
    ensures w in ParsedDocument(words, stem, stopWords) <==>
      |w| > 0 && w !in stopWords && exists i :: 0 <= i < |words| && Normalize(words[i], stem) == w
  {
    WithoutStopWordsMembership(NonEmptyNormalized(words, stem), stopWords, w);
    NonEmptyNormalizedMembership(words, stem, w);
  }

  lemma {:induction false} NonEmptyNormalizedMembership(words: seq<string>, stem: string -> string, w: string)
    ensures w in NonEmptyNormalized(words, stem) <==>
      |w| > 0 && exists i :: 0 <= i < |words| && Normalize(words[i], stem) == w
  {
    if words != [] {
      var init := words[..|words| - 1];
      NonEmptyNormalizedMembership(init, stem, w);
      if exists i :: 0 <= i < |words| && Normalize(words[i], stem) == w {
        var i :| 0 <= i < |words| && Normalize(words[i], stem) == w;
        if i < |init| {
          assert init[i] == words[i];
        }
      }
      forall i | 0 <= i < |init| && Normalize(init[i], stem) == w
        ensures words[i] == init[i]
      {
      }
    }
  }
}
