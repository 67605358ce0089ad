/**
 * Index construction (`processDocs` without its file reads and JSON writes):
 * from the normalised token list of each of the N documents it builds the
 * positional index (document -> term -> positions) and the inverted index
 * (term -> document frequency and posting list).
 */
module Indexer {
  import opened Terms

  type Term = string

  /** Documents are numbered 1..N; document d is entry d - 1 of the positional index. */
  type DocId = nat

  /** The number of documents, fixed by the source's `range(1, 31)`. */
  const N: nat := 30

  /** An inverted-index value: the document frequency and the posting list. */
  datatype Posting = Posting(docFreq: nat, docs: seq<DocId>)

  type DocumentPositions = map<Term, seq<nat>>
  type PositionalIndex = seq<DocumentPositions>
  type InvertedIndex = map<Term, Posting>

  predicate Increasing(s: seq<int>) {
    forall i, j :: 0 <= i < j < |s| ==> s[i] < s[j]
  }

  /**
   * `entry` is the positional index of `tokens`: its keys are the tokens, and
   * each key lists, in increasing order, exactly the positions holding it.
   */
  ghost predicate RecordsPositions(tokens: seq<Term>, entry: DocumentPositions) {
    && (forall t :: t in entry <==> t in tokens)
    && (forall t | t in entry ::
          && Increasing(entry[t])
          && (forall p :: p in entry[t] <==> 0 <= p < |tokens| && tokens[p] == t))
  }

  /** Every position list of the positional index is strictly increasing. */
  ghost predicate PositionsIncreasing(posIndex: PositionalIndex) {
    forall i, t :: 0 <= i < |posIndex| && t in posIndex[i] ==> Increasing(posIndex[i][t])
  }

  /**
   * `p` lists, in increasing order, exactly the documents 1..N whose
   * positional entry has `t` as a key, and counts them.
   */
  ghost predicate ListsDocuments(posIndex: PositionalIndex, t: Term, p: Posting)
    requires |posIndex| == N
  {
    && p.docFreq == |p.docs|
    && Increasing(p.docs)
    && (forall d :: d in p.docs <==> 1 <= d <= N && t in posIndex[d - 1])
  }

  /** The two indexes are the ones `processDocs` builds from `corpus`. */
  ghost predicate BuiltFrom(corpus: seq<seq<Term>>, posIndex: PositionalIndex, inverted: InvertedIndex) {
    && |corpus| == N
    && |posIndex| == N
    && (forall i :: 0 <= i < N ==> RecordsPositions(corpus[i], posIndex[i]))
    && (forall t :: t in inverted <==> exists i :: 0 <= i < N && t in corpus[i])
    && (forall t | t in inverted :: ListsDocuments(posIndex, t, inverted[t]))
  }

  /**
   * One pass of the per-document loop of `processDocs`: records each position
   * under its token and appends the tokens not seen before to `seen`
   * (the source's `globalDict`).
   */
  method IndexDocument(tokens: seq<Term>, seen: seq<Term>) returns (entry: DocumentPositions, extended: seq<Term>)
    ensures RecordsPositions(tokens, entry)
    ensures forall t :: t in extended <==> t in seen || t in tokens
    ensures NoDuplicates(seen) ==> NoDuplicates(extended)
  {
    entry := map[];
    extended := seen;
    for pos := 0 to |tokens|
      invariant RecordsPositions(tokens[..pos], entry)
      invariant forall t :: t in extended <==> t in seen || t in tokens[..pos]
      invariant NoDuplicates(seen) ==> NoDuplicates(extended)
    {
      var token := tokens[pos];
      ghost var before := entry;
      if token !in entry {
        assert [pos] == [] + [pos];
        entry := entry[token := [pos]];
      } else {
        entry := entry[token := entry[token] + [pos]];
      }
      RecordNextPosition(tokens, pos, before, entry);
      if token !in extended {
        extended := extended + [token];
      }
    }
    assert tokens[..|tokens|] == tokens;
  }

  lemma RecordNextPosition(tokens: seq<Term>, pos: nat, before: DocumentPositions, after: DocumentPositions)
    requires pos < |tokens|
    requires RecordsPositions(tokens[..pos], before)
    requires after == before[tokens[pos] := (if tokens[pos] in before then before[tokens[pos]] else []) + [pos]]
    ensures RecordsPositions(tokens[..pos + 1], after)
  {
    var token := tokens[pos];
    var prefix := tokens[..pos + 1];
    assert tokens[..pos] == prefix[..pos];
    forall t | t in after
      ensures Increasing(after[t])
      ensures forall p :: p in after[t] <==> 0 <= p < |prefix| && prefix[p] == t
    {
      if t == token {
        var old_ := if token in before then before[token] else [];
        assert forall p :: p in old_ ==> p < pos;
        assert forall i :: 0 <= i < |old_| ==> old_[i] in old_;
      }
    }
    assert forall t :: t in after <==> t in prefix;
  }

  /** The inner loop of `processDocs` over documents 1..N for one vocabulary term. */
  method CollectPostings(posIndex: PositionalIndex, term: Term) returns (posting: Posting)
    requires |posIndex| == N
    ensures ListsDocuments(posIndex, term, posting)
  {
    var docFreq := 0;
    var docs: seq<DocId> := [];
    for docId := 1 to N + 1
      invariant docFreq == |docs|
      invariant Increasing(docs)
      invariant forall d :: d in docs <==> 1 <= d < docId && term in posIndex[d - 1]
    {
      if term in posIndex[docId - 1] {
        assert forall i :: 0 <= i < |docs| ==> docs[i] in docs;
        docFreq := docFreq + 1;
        docs := docs + [docId];
      }
    }
    posting := Posting(docFreq, docs);
  }

  /**
   * The second half of `processDocs`: every vocabulary term starts with an
   * empty posting and is then given its posting list and frequency.
   */
  method BuildInverted(posIndex: PositionalIndex, vocabulary: seq<Term>) returns (inverted: InvertedIndex)
    requires |posIndex| == N
    ensures forall t :: t in inverted <==> t in vocabulary
    ensures forall t | t in inverted :: ListsDocuments(posIndex, t, inverted[t])
  {
    inverted := map w | w in vocabulary :: Posting(0, []);
    for j := 0 to |vocabulary|
      invariant forall t :: t in inverted <==> t in vocabulary
      invariant forall t | t in vocabulary[..j] :: ListsDocuments(posIndex, t, inverted[t])
    {
      var term := vocabulary[j];
      var posting := CollectPostings(posIndex, term);
      inverted := inverted[term := posting];
      assert vocabulary[..j + 1] == vocabulary[..j] + [term];
    }
    assert vocabulary[..|vocabulary|] == vocabulary;
  }

  /**
   * `processDocs`: builds the positional index document by document, sorts the
   * vocabulary, then gives every vocabulary term its posting list and
   * document frequency by scanning documents 1..N.
   */
  method ProcessDocs(corpus: seq<seq<Term>>) returns (posIndex: PositionalIndex, inverted: InvertedIndex, vocabulary: seq<Term>)
    requires |corpus| == N
    ensures BuiltFrom(corpus, posIndex, inverted)
    ensures StrictlySorted(vocabulary)
    ensures forall t :: t in vocabulary <==> t in inverted
  {
    posIndex := [];
    var globalDict: seq<Term> := [];
    for i := 1 to N + 1
      invariant |posIndex| == i - 1
      invariant forall j :: 0 <= j < i - 1 ==> RecordsPositions(corpus[j], posIndex[j])
      invariant NoDuplicates(globalDict)
      invariant forall t :: t in globalDict <==> exists j :: 0 <= j < i - 1 && t in corpus[j]
    {
      var entry;
      entry, globalDict := IndexDocument(corpus[i - 1], globalDict);
      posIndex := posIndex + [entry];
    }

    vocabulary := SortTerms(globalDict);
    SortedDistinctIsStrict(vocabulary);
    inverted := BuildInverted(posIndex, vocabulary);

    forall t
      ensures t in inverted <==> exists i :: 0 <= i < N && t in corpus[i]
    {
      assert t in vocabulary <==> t in multiset(vocabulary);
      assert t in globalDict <==> t in multiset(globalDict);
    }
  }

  /**
   * Each position of a document is recorded exactly once: under its own token,
   * and under no other key; and no key has an empty position list.
   */
  lemma PositionRecordedOnce(tokens: seq<Term>, entry: DocumentPositions, p: nat)
    requires RecordsPositions(tokens, entry)
    requires p < |tokens|
    ensures tokens[p] in entry && p in entry[tokens[p]]
    ensures forall t | t in entry && t != tokens[p] :: p !in entry[t]
    ensures forall t | t in entry :: entry[t] != []
  {
    forall t | t in entry
      ensures entry[t] != []
    {
      var q :| 0 <= q < |tokens| && tokens[q] == t;
      assert q in entry[t];
    }
  }

  /** In a built index, a document is in a term's posting list iff the document contains the term. */
  lemma PostingsMatchCorpus(corpus: seq<seq<Term>>, posIndex: PositionalIndex, inverted: InvertedIndex, t: Term, d: DocId)
    requires BuiltFrom(corpus, posIndex, inverted)
    ensures t in inverted && d in inverted[t].docs <==> 1 <= d <= N && t in corpus[d - 1]
    ensures t in inverted ==> inverted[t].docs != [] && inverted[t].docFreq > 0
  {
    if t in inverted {
      var i :| 0 <= i < N && t in corpus[i];
      assert t in posIndex[i];
      assert (i + 1) in inverted[t].docs;
    }
  }

  /** A built index keeps every position list strictly increasing. */
  lemma BuiltPositionsIncreasing(corpus: seq<seq<Term>>, posIndex: PositionalIndex, inverted: InvertedIndex)
    requires BuiltFrom(corpus, posIndex, inverted)
    ensures PositionsIncreasing(posIndex)
  {
    forall i, t | 0 <= i < |posIndex| && t in posIndex[i]
      ensures Increasing(posIndex[i][t])
    {
      assert RecordsPositions(corpus[i], posIndex[i]);
    }
  }
}
