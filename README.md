# Boolean retrieval engine — a Dafny model

This project models the core of `Assign1.py`, a Boolean retrieval engine over a
corpus of N = 30 text documents:

- **Token clean-up** (`Text`): `case_fold` lower-cases a token and keeps only
  the letters `a`–`z`; `stopWordsRemoval` filters stop words while keeping
  order; `normalize` and `parseDoc` chain these with the stemmer.
- **Index construction** (`Terms`, `Indexer`): `processDocs` builds a
  positional index (document → term → positions) and a sorted vocabulary, then
  an inverted index (term → document frequency and posting list).
- **Query evaluation** (`Query`): `fetchPostingList`, `fetchPositions`,
  the proximity query `t1 t2 / k`, and the Boolean chain `t1 OP t2 OP ...`.
  The chain splits at its first AND/OR/NOT, evaluates the tail as a query of
  its own, and combines the result with the term just before the operator.
  `processQuery` dispatches between the two kinds of query.
- **Laws** (`QueryLaws`): the set laws of AND, OR and NOT, how a chain splits,
  what the proximity query finds, its monotonicity in the window, and what
  queries return over an index that `processDocs` built.

The loops of the source are methods, each proved against a specification
function or predicate: `CaseFold`, `StopWordsRemoval`, `ParseDoc`,
`IndexDocument`, `CollectPostings`, `BuildInverted`, `ProcessDocs`,
`WithinWindow` (the two-pointer walk), `ProximityQuery` and `BooleanQuery`.
`ProcessQuery`, the dispatch, is a method because it calls those two. The
lookups, the dispatch test and the set combinations are functions.

Where the source raises an exception, the model returns an error value
(`Query.QueryError`):

- an unbound `operator` (an empty chain, or several tokens and no operator) is
  `MissingOperator`;
- an unbound `term` (AND or OR at the head of a chain) is `MissingTerm`;
- a missing or unparsable window `tokens[3]` is `MissingWindow` or `BadWindow`;
- a `KeyError` from the inverted index is `UnknownTerm`;
- a failed `posIndex[doc - 1][term]` is `MissingPositions`.

Points where the code behaves differently from what a reader might expect,
which the model follows:

- `op_list` holds only the six spellings `AND and OR or NOT not`, so `Not`
  or `And` is a term, not an operator.
- In a proximity query, a term missing from the vocabulary raises a
  `KeyError` in the code. The model returns `Err(UnknownTerm(...))`, not an
  empty result.
- A negative window `k` is accepted by `int()`. With `k < 0` no pair of
  positions qualifies.
- A chain whose first token is `NOT` is valid: NOT never reads `term`.
- `fetchPositions` with document 0 reads `posIndex[-1]`, the last entry, as
  Python indexing does.

## Model

| member | source | states |
|---|---|---|
| Text.Lower | Assign1.py:74 | the ASCII lower-casing keeps the length, leaves no `A`–`Z`, maps each `A`–`Z` to its letter in `a`–`z` and leaves every other character as it is |
| Text.CaseFold | Assign1.py:72-84 | the result is the lower-cased token with every character outside `a`–`z` dropped, in order; every character of it is a letter |
| Text.LettersAreLetters | Assign1.py:80-82 | every character the letter filter keeps is in `a`–`z` |
| Text.LettersMembership | Assign1.py:80-82 | a character survives the filter iff it is a letter and occurs in the input |
| Text.LettersAppend | Assign1.py:80-82 | the letter filter distributes over concatenation, so it keeps the original order |
| Text.LettersOfLetters | Assign1.py:80-82 | a string of letters only passes the filter unchanged |
| Text.CaseFoldedChars | Assign1.py:72-84 | a character is in the case-folded token iff it is a letter and the lower-case form of some input character |
| Text.CaseFoldedIdempotent | Assign1.py:72-84 | case folding a case-folded token changes nothing |
| Text.CaseFoldedAppend | Assign1.py:72-84 | case folding works character by character, so it distributes over concatenation |
| Text.StopWordsRemoval | Assign1.py:58-66 | the result is the order-preserving filter of the tokens that are not stop words |
| Text.WithoutStopWordsMembership | Assign1.py:58-66 | a word is in the result iff it is among the tokens and is not a stop word, so no stop word survives |
| Text.WithoutStopWordsIsSubsequence | Assign1.py:58-66 | the result is a subsequence of the input |
| Text.WithoutStopWordsIdempotent | Assign1.py:58-66 | removing stop words twice gives the same as once |
| Text.NormalizeToken | Assign1.py:101-106 | a token normalises to the stem of its case-folded form |
| Text.ParseDoc | Assign1.py:124-141 | a document's tokens are its words, normalised, with empty results and then stop words removed |
| Text.ParsedDocumentTokens | Assign1.py:124-141 | a term is among a document's tokens iff it is non-empty, not a stop word, and the normal form of one of its words |
| Text.NonEmptyNormalizedMembership | Assign1.py:129-136 | a term survives the empty-token filter iff it is non-empty and the normal form of some word |
| Terms.BelowIrreflexive | Assign1.py:248 | the string order that `sort` uses is irreflexive |
| Terms.BelowTransitive | Assign1.py:248 | the string order is transitive |
| Terms.BelowTotal | Assign1.py:248 | any two distinct strings are ordered one way or the other |
| Terms.Insert | Assign1.py:248 | inserting into a sorted list keeps it sorted and adds exactly the one element |
| Terms.SortTerms | Assign1.py:248 | `globalDict.sort()` yields a sorted permutation of the vocabulary |
| Terms.SortedDistinctIsStrict | Assign1.py:244-248 | a sorted list without duplicates is strictly ascending |
| Indexer.IndexDocument | Assign1.py:231-245 | every key of a document's entry is one of its tokens and back; each list is strictly ascending and holds exactly the positions of its term; the vocabulary list gains exactly the new tokens and stays free of duplicates |
| Indexer.RecordNextPosition | Assign1.py:238-241 | recording position `pos` under its token extends a correct entry for the first `pos` tokens to one for the first `pos + 1` |
| Indexer.CollectPostings | Assign1.py:257-266 | a term's posting list holds, in ascending order, exactly the documents 1..N whose entry has the term, and its document frequency is the list's length |
| Indexer.BuildInverted | Assign1.py:250-266 | the inverted index has exactly the vocabulary as keys, and every value is the posting of that term |
| Indexer.ProcessDocs | Assign1.py:215-266 | the indexes are built from the corpus: each document's entry records its positions, the keys of the inverted index are exactly the tokens of all documents, every posting is correct, and the vocabulary is strictly sorted and holds exactly those keys |
| Indexer.PositionRecordedOnce | Assign1.py:233-241 | every position is recorded under its own token and under no other, and no key has an empty list |
| Indexer.PostingsMatchCorpus | Assign1.py:253-266 | a document is in a term's posting list iff it is in 1..N and holds the term; every vocabulary term has a non-empty list and a positive document frequency |
| Indexer.BuiltPositionsIncreasing | Assign1.py:233-241 | every position list of a built index is strictly ascending |
| Query.UpTo | Assign1.py:395 | `range(1, n + 1)` visits exactly the documents 1..n |
| Query.FetchPostingList | Assign1.py:189-192 | the lookup succeeds iff the term is a key, and then yields its posting list |
| Query.FetchPositions | Assign1.py:197-200 | for a document d in 1..N the lookup succeeds iff the term is a key of entry d - 1, and then yields `posIndex[d - 1][term]`; document 0 reads the last entry; any result is a list the positional index holds |
| Query.PostingSet | Assign1.py:371 | a document is in a term's posting set iff the term is known and the document is on its list |
| Query.Decimal | Assign1.py:294 | the decimal spelling of a number is a non-empty string of digits |
| Query.DigitsOfDecimal | Assign1.py:294 | the digits of a number's spelling read back as that number |
| Query.ParseInt | Assign1.py:294 | `int(tokens[3])` succeeds exactly on a non-empty digit string or a sign followed by one or more digits, so an empty token, a lone sign or a non-digit is the `BadWindow` error; a digit string reads as its value and a signed one as its signed value; a negative result needs a leading minus sign |
| Query.ParseIntOfDecimal | Assign1.py:294 | `int()` reads back a written window, with or without a minus sign |
| Query.WithinWindow | Assign1.py:314-332 | the two-pointer walk reports a pair only when some two positions lie within `k`, and on ascending lists it finds one whenever one exists |
| Query.ScanDocs | Assign1.py:304-332 | the walk over the first term's posting list, in order, stopping at the first failed lookup; a successful walk keeps only candidate documents |
| Query.ScanDocsErrorPersists | Assign1.py:304-312 | once a lookup fails on a candidate document, the whole proximity query fails with that error |
| Query.ProximityQuery | Assign1.py:288-334 | the query returns the missing-window, bad-window and unknown-term errors as the code raises them, and otherwise the documents of the first posting list that are in the second and have two positions within `k` |
| Query.FirstOperator | Assign1.py:348-352 | the chain's split point is an operator and no earlier token is one |
| Query.Combine | Assign1.py:374-398 | the final combination fails iff AND or OR has no term; AND yields exactly the documents in both the tail's result and the term's posting set; OR contains both and nothing else; NOT is exactly the documents 1..N outside the tail's result |
| Query.IsProximityQuery | Assign1.py:420-421 | a query classified as proximity has at least three tokens, and its third token is not an operator |
| Query.BooleanQuery | Assign1.py:339-400 | the chain is split at its first operator, the tail is evaluated as a query, and the result is combined with the term before the operator by AND, OR or NOT; single terms and the unbound-name errors as in the code |
| Query.ProcessQuery | Assign1.py:407-426 | a query of more than two tokens whose third token is `/` is a proximity query, every other query a Boolean chain |
| QueryLaws.ChainSplit | Assign1.py:348-362 | `A OP1 B OP2 C` evaluates as `A OP1 (B OP2 C)`: the tail after the first operator is a query of its own |
| QueryLaws.SingleTerm | Assign1.py:369-372 | a one-token query returns its term's posting set, and the empty set for an unknown term |
| QueryLaws.ChainWithoutOperator | Assign1.py:348-375 | an empty query, or several tokens without an operator, fails with an unbound operator |
| QueryLaws.AndLaw | Assign1.py:375-383 | `a AND b` is the intersection of the two posting sets, empty when either term is unknown |
| QueryLaws.OrLaw | Assign1.py:385-389 | `a OR b` is the union of the two posting sets |
| QueryLaws.NotLaw | Assign1.py:391-398 | `a NOT b` is every document 1..N outside b's posting set |
| QueryLaws.NotIgnoresLeadingTerms | Assign1.py:391-398 | NOT does not depend on the terms before it, and its result is disjoint from the tail's |
| QueryLaws.NotStep | Assign1.py:391-398 | a chain whose first operator is NOT yields the complement in 1..N of its tail, or the tail's error |
| QueryLaws.LeadingAndOrFails | Assign1.py:366-389 | AND or OR at the head of a chain has no term and fails once the tail succeeds |
| QueryLaws.ResultsWithinCorpus | Assign1.py:339-400 | when the posting lists name only documents 1..N, every query result lies within 1..N |
| QueryLaws.DoubleNegation | Assign1.py:391-398 | `a NOT b NOT c...` evaluates exactly as `c...` |
| QueryLaws.ScanDocsStep | Assign1.py:304-326 | one step of the walk keeps the next candidate exactly when it is in the second posting list and has two positions within `k` |
| QueryLaws.ScanDocsMembers | Assign1.py:304-332 | a successful scan keeps exactly the candidates that are in the second posting list and have two positions within `k` |
| QueryLaws.ProximityMembers | Assign1.py:304-334 | a document is in the proximity result iff it is in both posting lists and two positions of the terms lie within `k`; so the result lies in the intersection of the posting sets |
| QueryLaws.NearMonotone | Assign1.py:324 | a pair within `k` is within every wider window |
| QueryLaws.ScanDocsMonotone | Assign1.py:304-334 | with a wider window the scan fails in the same way or finds a superset |
| QueryLaws.ProximityMonotone | Assign1.py:288-334 | the result for window `k` is a subset of the result for any `k' >= k` |
| QueryLaws.SingleTermOnCorpus | Assign1.py:369-372 | over a built index a one-token query returns exactly the documents holding its term |
| QueryLaws.NearInDocument | Assign1.py:231-241 | over recorded position lists, two positions within `k` are two occurrences in the document within `k` |
| QueryLaws.PositionsOnCorpus | Assign1.py:311-312 | over a built index, `fetchPositions` succeeds for every document on a term's posting list |
| QueryLaws.ScanDocsSucceedsOnCorpus | Assign1.py:304-312 | over a built index the scan never fails once both terms are known |
| QueryLaws.ProximityOnCorpus | Assign1.py:288-334 | over a built index, with both terms known, the proximity query returns exactly the documents where the two terms occur at most `k` positions apart |
| QueryLaws.ProximityErrorsOnCorpus | Assign1.py:304-307 | over a built index the proximity query fails only on an unknown term: the first term if it is unknown, else the second |

## Left out

- The NLTK tokenizer and the Porter stemmer are library calls. Queries and documents arrive as token lists, and the stemmer is a function parameter `stem`.
- The hyphen and bullet replacement before tokenizing is left out, since it only feeds the tokenizer.
- Reading the stop-word list, the dataset files and the JSON index files is file I/O. The stop words are a parameter and the indexes are values. The JSON round trip is assumed to give back the same indexes.
- `nltk.download` and the wall-clock timing that `processQuery` returns beside its result are left out.
- The tail of a Boolean chain is joined into a string and re-tokenized by the source. The model passes the token sub-list after the operator on as it is.
- Text.Lower: lower-cases only the ASCII letters A–Z. Python's `.lower()` also maps a few non-ASCII characters onto ASCII letters, such as the Kelvin sign onto `k`. The model drops those characters instead of keeping the letter. Python's `.lower()` can also lengthen a string (`İ` becomes two characters); the model keeps the length.
- Query.ParseInt: accepts an optional sign followed by ASCII digits. Python's `int()` also accepts surrounding whitespace, underscores between digits and non-ASCII digits.
- Query.ProximityQuery: the ensures holds when every position list is strictly ascending. That is always so for an index that `ProcessDocs` builds (`Indexer.BuiltPositionsIncreasing`). On other lists the two-pointer walk may miss a pair.
- Query.BooleanQuery: the ensures holds under the same condition, because a chain may have a proximity query as its tail.
- Query.ProcessQuery: the ensures holds under the same condition.
- Indexer.ProcessDocs: builds the indexes as values rather than by updating Python lists and dictionaries in place.
- Python exceptions are error values. The model does not distinguish `KeyError`, `IndexError`, `ValueError` and `UnboundLocalError` beyond the error kinds above.
