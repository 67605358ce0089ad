/**
 * Properties of query evaluation: how a boolean chain splits and combines,
 * the set laws of AND, OR and NOT, what the proximity scan finds, its
 * monotonicity in the window, and what queries return over an index that
 * `processDocs` built.
 */
module QueryLaws {
  import opened Wrappers
  import opened Text
  import opened Indexer
  import opened Query

  predicate OperatorFree(tokens: seq<string>) {
    forall j :: 0 <= j < |tokens| ==> !IsOperator(tokens[j])
  }

  /** Every posting list names only documents 1..N. */
  ghost predicate PostingsInCorpus(inverted: InvertedIndex) {
    forall t, d :: t in inverted && d in inverted[t].docs ==> 1 <= d <= N
  }

  // ------------------------------------------------------------ boolean chain

  /**
   * A chain splits at its first operator; the tail after it is evaluated as a
   * query of its own and combined with the last term before the operator.
   * So `A OP1 B OP2 C` is `A OP1 (B OP2 C)`.
   */
  lemma ChainSplit(prefix: seq<string>, op: string, tail: seq<string>, index: Index, stem: string -> string)
    requires OperatorFree(prefix) && IsOperator(op)
    requires !IsProximityQuery(prefix + [op] + tail)
    ensures Evaluate(prefix + [op] + tail, index, stem) ==
      match Evaluate(tail, index, stem)
      case Err(e) => Err(e)
      case Ok(rest) =>
        Combine(op, if prefix == [] then None else Some(Normalize(prefix[|prefix| - 1], stem)), rest, index.inverted)
  {
    var q := prefix + [op] + tail;
    assert forall j :: 0 <= j < |prefix| ==> q[j] == prefix[j];
    assert q[|prefix|] == op;
    assert FirstOperator(q) == Some(|prefix|);
    assert q[|prefix| + 1..] == tail;
  }

  /** A single non-operator token yields its term's posting set, empty when the term is unknown. */
  lemma SingleTerm(token: string, index: Index, stem: string -> string)
    requires !IsOperator(token)
    ensures Evaluate([token], index, stem) == Ok(PostingSet(Normalize(token, stem), index.inverted))
    ensures Normalize(token, stem) !in index.inverted ==> Evaluate([token], index, stem) == Ok({})
  {
    assert FirstOperator([token]) == None;
  }

  /** An empty query, and a chain of several tokens without an operator, fail. */
  lemma ChainWithoutOperator(query: seq<string>, index: Index, stem: string -> string)
    requires OperatorFree(query) && |query| != 1
    requires !IsProximityQuery(query)
    ensures Evaluate(query, index, stem) == Err(MissingOperator)
  {
    assert FirstOperator(query) == None;
  }

  /** `a AND b` is the intersection of the two posting sets. */
  lemma AndLaw(a: string, op: string, b: string, index: Index, stem: string -> string)
    requires !IsOperator(a) && !IsOperator(b) && IsAnd(op) && b != "/"
    ensures Evaluate([a, op, b], index, stem) ==
      Ok(PostingSet(Normalize(a, stem), index.inverted) * PostingSet(Normalize(b, stem), index.inverted))
  {
    assert [a, op, b] == [a] + [op] + [b];
    SingleTerm(b, index, stem);
    ChainSplit([a], op, [b], index, stem);
    var pa := PostingSet(Normalize(a, stem), index.inverted);
    var pb := PostingSet(Normalize(b, stem), index.inverted);
    assert Evaluate([b], index, stem) == Ok(pb);
    assert Evaluate([a, op, b], index, stem) == Combine(op, Some(Normalize(a, stem)), pb, index.inverted);
    if Normalize(a, stem) in index.inverted {
      assert pb * pa == pa * pb;
    } else {
      assert pa * pb == {};
    }
  }

  /** `a OR b` is the union of the two posting sets. */
  lemma OrLaw(a: string, op: string, b: string, index: Index, stem: string -> string)
    requires !IsOperator(a) && !IsOperator(b) && IsOr(op) && b != "/"
    ensures Evaluate([a, op, b], index, stem) ==
      Ok(PostingSet(Normalize(a, stem), index.inverted) + PostingSet(Normalize(b, stem), index.inverted))
  {
    assert [a, op, b] == [a] + [op] + [b];
    SingleTerm(b, index, stem);
    ChainSplit([a], op, [b], index, stem);
    var pa := PostingSet(Normalize(a, stem), index.inverted);
    var pb := PostingSet(Normalize(b, stem), index.inverted);
    assert Evaluate([a, op, b], index, stem) == Combine(op, Some(Normalize(a, stem)), pb, index.inverted);
    if Normalize(a, stem) in index.inverted {
      assert pb + pa == pa + pb;
    } else {
      assert pa + pb == pb;
    }
  }

  /** `a NOT b` is every document 1..N outside b's posting set; `a` plays no part. */
  lemma NotLaw(a: string, op: string, b: string, index: Index, stem: string -> string)
    requires !IsOperator(a) && !IsOperator(b) && IsNot(op) && b != "/"
    ensures Evaluate([a, op, b], index, stem) == Ok(Universe() - PostingSet(Normalize(b, stem), index.inverted))
  {
    assert [a, op, b] == [a] + [op] + [b];
    SingleTerm(b, index, stem);
    ChainSplit([a], op, [b], index, stem);
  }

  /**
   * NOT complements the tail and ignores whatever terms precede it: two chains
   * that differ only before their first operator, a NOT, evaluate alike, and
   * the result is disjoint from the tail's.
   */
  lemma NotIgnoresLeadingTerms(prefix1: seq<string>, prefix2: seq<string>, op: string, tail: seq<string>, index: Index, stem: string -> string)
    requires OperatorFree(prefix1) && OperatorFree(prefix2) && IsNot(op)
    requires !IsProximityQuery(prefix1 + [op] + tail) && !IsProximityQuery(prefix2 + [op] + tail)
    ensures Evaluate(prefix1 + [op] + tail, index, stem) == Evaluate(prefix2 + [op] + tail, index, stem)
    ensures Evaluate(tail, index, stem).Ok? ==>
      && Evaluate(prefix1 + [op] + tail, index, stem) == Ok(Universe() - Evaluate(tail, index, stem).value)
      && Evaluate(prefix1 + [op] + tail, index, stem).value !! Evaluate(tail, index, stem).value
  {
    NotStep(prefix1, op, tail, index, stem);
    NotStep(prefix2, op, tail, index, stem);
  }

  /** AND or OR at the head of a chain has no term to combine with, and fails once the tail succeeds. */
  lemma LeadingAndOrFails(op: string, tail: seq<string>, index: Index, stem: string -> string)
    requires (IsAnd(op) || IsOr(op)) && !IsProximityQuery([op] + tail)
    ensures Evaluate([op] + tail, index, stem) ==
      if Evaluate(tail, index, stem).Ok? then Err(MissingTerm) else Evaluate(tail, index, stem)
  {
    assert [op] + tail == [] + [op] + tail;
    ChainSplit([], op, tail, index, stem);
  }

  /** Over an index whose postings name documents 1..N, every result lies in 1..N. */
  lemma {:induction false} ResultsWithinCorpus(query: seq<string>, index: Index, stem: string -> string)
    requires PostingsInCorpus(index.inverted)
    ensures Evaluate(query, index, stem).Ok? ==> Evaluate(query, index, stem).value <= Universe()
    decreases |query|
  {
    if !IsProximityQuery(query) {
      match FirstOperator(query)
      case None =>
      case Some(i) =>
        ResultsWithinCorpus(query[i + 1..], index, stem);
    }
  }

  /** A chain whose first operator is a NOT evaluates to the complement of its tail. */
  lemma NotStep(prefix: seq<string>, op: string, tail: seq<string>, index: Index, stem: string -> string)
    requires OperatorFree(prefix) && IsNot(op)
    requires !IsProximityQuery(prefix + [op] + tail)
    ensures Evaluate(prefix + [op] + tail, index, stem) ==
      if Evaluate(tail, index, stem).Ok? then Ok(Universe() - Evaluate(tail, index, stem).value)
      else Evaluate(tail, index, stem)
  {
    ChainSplit(prefix, op, tail, index, stem);
  }

  /** Two NOTs in a row cancel: `a NOT b NOT c...` evaluates as `c...`. */
  lemma DoubleNegation(a: string, not1: string, b: string, not2: string, tail: seq<string>, index: Index, stem: string -> string)
    requires !IsOperator(a) && !IsOperator(b) && IsNot(not1) && IsNot(not2)
    requires b != "/" && !(|tail| > 0 && tail[0] == "/")
    requires PostingsInCorpus(index.inverted)
    ensures Evaluate([a, not1, b, not2] + tail, index, stem) == Evaluate(tail, index, stem)
  {
    var inner := [b, not2] + tail;
    assert [a, not1, b, not2] + tail == [a] + [not1] + inner;
    assert inner == [b] + [not2] + tail;
    NotStep([b], not2, tail, index, stem);
    NotStep([a], not1, inner, index, stem);
    ResultsWithinCorpus(tail, index, stem);
    var r := Evaluate(tail, index, stem);
    if r.Ok? {
      var u := Universe();
      assert u - (u - r.value) == r.value;
    }
  }

  // ---------------------------------------------------------------- proximity

  /** Document `d` holds both terms, both position lists exist, and two of their positions lie within `k`. */
  ghost predicate Matches(d: DocId, term1: Term, term2: Term, k: int, index: Index) {
    && term2 in index.inverted
    && d in index.inverted[term2].docs
    && FetchPositions(term1, d, index.positions).Some?
    && FetchPositions(term2, d, index.positions).Some?
    && Near(FetchPositions(term1, d, index.positions).value, FetchPositions(term2, d, index.positions).value, k)
  }

  /** One step of the scan: the last candidate is kept exactly when it matches. */
  lemma ScanDocsStep(init: seq<DocId>, doc: DocId, term1: Term, term2: Term, k: int, index: Index, d: DocId)
    requires ScanDocs(init + [doc], term1, term2, k, index).Ok?
    ensures ScanDocs(init, term1, term2, k, index).Ok?
    ensures d in ScanDocs(init + [doc], term1, term2, k, index).value <==>
      d in ScanDocs(init, term1, term2, k, index).value || (d == doc && Matches(doc, term1, term2, k, index))
  {
    assert (init + [doc])[..|init|] == init;
  }

  /** A successful scan keeps exactly the candidates that match. */
  lemma {:induction false} ScanDocsMembers(docs: seq<DocId>, term1: Term, term2: Term, k: int, index: Index, d: DocId)
    requires ScanDocs(docs, term1, term2, k, index).Ok?
    ensures d in ScanDocs(docs, term1, term2, k, index).value <==> d in docs && Matches(d, term1, term2, k, index)
  {
    if docs != [] {
      var init := docs[..|docs| - 1];
      var doc := docs[|docs| - 1];
      assert docs == init + [doc];
      ScanDocsStep(init, doc, term1, term2, k, index, d);
      ScanDocsMembers(init, term1, term2, k, index, d);
    }
  }

  /**
   * A document is in the proximity result exactly when it is in both posting
   * lists and some positions of the two terms in it lie within `k`; so the
   * result lies within the intersection of the two posting sets.
   */
  lemma ProximityMembers(term1: Term, term2: Term, k: int, index: Index, d: DocId)
    requires ProximityOf(term1, term2, k, index).Ok?
    ensures d in ProximityOf(term1, term2, k, index).value <==>
      d in PostingSet(term1, index.inverted) && Matches(d, term1, term2, k, index)
    ensures d in ProximityOf(term1, term2, k, index).value ==>
      d in PostingSet(term1, index.inverted) * PostingSet(term2, index.inverted)
  {
    ScanDocsMembers(index.inverted[term1].docs, term1, term2, k, index, d);
  }

  lemma NearMonotone(list1: seq<nat>, list2: seq<nat>, k: int, k': int)
    requires k <= k' && Near(list1, list2, k)
    ensures Near(list1, list2, k')
  {
    var i, j :| 0 <= i < |list1| && 0 <= j < |list2| && -k <= list1[i] - list2[j] <= k;
  }

  /** Widening the window fails in the same way, or finds a superset. */
  lemma {:induction false} ScanDocsMonotone(docs: seq<DocId>, term1: Term, term2: Term, k: int, k': int, index: Index)
    requires k <= k'
    ensures ScanDocs(docs, term1, term2, k, index).Err? ==>
      ScanDocs(docs, term1, term2, k', index) == ScanDocs(docs, term1, term2, k, index)
    ensures ScanDocs(docs, term1, term2, k, index).Ok? ==>
      ScanDocs(docs, term1, term2, k', index).Ok? &&
      ScanDocs(docs, term1, term2, k, index).value <= ScanDocs(docs, term1, term2, k', index).value
  {
    if docs != [] {
      var init := docs[..|docs| - 1];
      ScanDocsMonotone(init, term1, term2, k, k', index);
      var doc := docs[|docs| - 1];
      var l1 := FetchPositions(term1, doc, index.positions);
      var l2 := FetchPositions(term2, doc, index.positions);
      if l1.Some? && l2.Some? && Near(l1.value, l2.value, k) {
        NearMonotone(l1.value, l2.value, k, k');
      }
    }
  }

  /** A document found with window `k` is found with every wider window `k'`. */
  lemma ProximityMonotone(a: string, b: string, k: nat, k': nat, index: Index, stem: string -> string)
    requires k <= k'
    ensures Evaluate([a, b, "/", Decimal(k)], index, stem).Ok? ==>
      Evaluate([a, b, "/", Decimal(k')], index, stem).Ok? &&
      Evaluate([a, b, "/", Decimal(k)], index, stem).value <= Evaluate([a, b, "/", Decimal(k')], index, stem).value
  {
    ParseIntOfDecimal(k);
    ParseIntOfDecimal(k');
    var t1 := Normalize(a, stem);
    if t1 in index.inverted {
      ScanDocsMonotone(index.inverted[t1].docs, t1, Normalize(b, stem), k, k', index);
    }
  }

  // ------------------------------------------------- over a built index

  /** Over a built index a single-term query returns exactly the documents containing the term. */
  lemma SingleTermOnCorpus(corpus: seq<seq<Term>>, index: Index, token: string, stem: string -> string, d: DocId)
    requires BuiltFrom(corpus, index.positions, index.inverted)
    requires !IsOperator(token)
    ensures Evaluate([token], index, stem).Ok?
    ensures d in Evaluate([token], index, stem).value <==> 1 <= d <= N && Normalize(token, stem) in corpus[d - 1]
  {
    SingleTerm(token, index, stem);
    PostingsMatchCorpus(corpus, index.positions, index.inverted, Normalize(token, stem), d);
  }

  /** Occurrences of `term1` and `term2` in `tokens` lie at most `k` positions apart. */
  ghost predicate OccurWithin(tokens: seq<Term>, term1: Term, term2: Term, k: int) {
    exists i, j :: 0 <= i < |tokens| && 0 <= j < |tokens| && tokens[i] == term1 && tokens[j] == term2 && -k <= i - j <= k
  }

  /** `Near` over recorded position lists speaks of positions of the document itself. */
  lemma NearInDocument(tokens: seq<Term>, entry: DocumentPositions, term1: Term, term2: Term, k: int)
    requires RecordsPositions(tokens, entry) && term1 in entry && term2 in entry
    ensures Near(entry[term1], entry[term2], k) <==> OccurWithin(tokens, term1, term2, k)
  {
    var l1, l2 := entry[term1], entry[term2];
    if Near(l1, l2, k) {
      var a, b :| 0 <= a < |l1| && 0 <= b < |l2| && -k <= l1[a] - l2[b] <= k;
      assert l1[a] in l1 && l2[b] in l2;
    }
    if OccurWithin(tokens, term1, term2, k) {
      var i, j :| 0 <= i < |tokens| && 0 <= j < |tokens| && tokens[i] == term1 && tokens[j] == term2 && -k <= i - j <= k;
      assert i in l1 && j in l2;
      var a :| 0 <= a < |l1| && l1[a] == i;
      var b :| 0 <= b < |l2| && l2[b] == j;
    }
  }

  /** Over a built index, a term's posting list names only documents whose positions for it can be fetched. */
  lemma PositionsOnCorpus(corpus: seq<seq<Term>>, index: Index, t: Term, d: DocId)
    requires BuiltFrom(corpus, index.positions, index.inverted)
    requires t in index.inverted && d in index.inverted[t].docs
    ensures FetchPositions(t, d, index.positions).Some?
  {
    assert ListsDocuments(index.positions, t, index.inverted[t]);
  }

  /** Over a built index, a scan of candidates from term1's postings never fails once term2 is known. */
  lemma {:induction false} ScanDocsSucceedsOnCorpus(corpus: seq<seq<Term>>, docs: seq<DocId>, term1: Term, term2: Term, k: int, index: Index)
    requires BuiltFrom(corpus, index.positions, index.inverted)
    requires term1 in index.inverted && term2 in index.inverted
    requires forall d :: d in docs ==> d in index.inverted[term1].docs
    ensures ScanDocs(docs, term1, term2, k, index).Ok?
  {
    if docs != [] {
      var init := docs[..|docs| - 1];
      var doc := docs[|docs| - 1];
      assert docs == init + [doc];
      ScanDocsSucceedsOnCorpus(corpus, init, term1, term2, k, index);
      if doc in index.inverted[term2].docs {
        PositionsOnCorpus(corpus, index, term1, doc);
        PositionsOnCorpus(corpus, index, term2, doc);
      }
    }
  }

  /**
   * Over a built index, with both terms in the vocabulary, the proximity query
   * returns exactly the documents in which the two terms occur at positions at
   * most `k` apart.
   */
  lemma ProximityOnCorpus(corpus: seq<seq<Term>>, index: Index, term1: Term, term2: Term, k: int, d: DocId)
    requires BuiltFrom(corpus, index.positions, index.inverted)
    requires term1 in index.inverted && term2 in index.inverted
    ensures ProximityOf(term1, term2, k, index).Ok?
    ensures d in ProximityOf(term1, term2, k, index).value <==>
      1 <= d <= N && OccurWithin(corpus[d - 1], term1, term2, k)
  {
    ScanDocsSucceedsOnCorpus(corpus, index.inverted[term1].docs, term1, term2, k, index);
    ProximityMembers(term1, term2, k, index, d);
    PostingsMatchCorpus(corpus, index.positions, index.inverted, term1, d);
    PostingsMatchCorpus(corpus, index.positions, index.inverted, term2, d);
    if 1 <= d <= N && term1 in corpus[d - 1] && term2 in corpus[d - 1] {
      NearInDocument(corpus[d - 1], index.positions[d - 1], term1, term2, k);
    }
  }

  /**
   * Over a built index the proximity query fails only on an unknown term: the
   * first term when it is not in the vocabulary, else the second one, which is
   * looked up as soon as the first term's (never empty) posting list is walked.
   */
  lemma ProximityErrorsOnCorpus(corpus: seq<seq<Term>>, index: Index, term1: Term, term2: Term, k: int)
    requires BuiltFrom(corpus, index.positions, index.inverted)
    ensures term1 !in index.inverted ==> ProximityOf(term1, term2, k, index) == Err(UnknownTerm(term1))
    ensures term1 in index.inverted && term2 !in index.inverted ==> ProximityOf(term1, term2, k, index) == Err(UnknownTerm(term2))
    ensures term1 in index.inverted && term2 in index.inverted ==> ProximityOf(term1, term2, k, index).Ok?
  {
    if term1 in index.inverted {
      var docs := index.inverted[term1].docs;
      PostingsMatchCorpus(corpus, index.positions, index.inverted, term1, 1);
      if term2 !in index.inverted {
        assert ScanDocs(docs[..1], term1, term2, k, index) == Err(UnknownTerm(term2)) by {
          assert docs[..1][..0] == [];
        }
        ScanDocsErrorPersists(docs, 1, term1, term2, k, index);
      } else {
        ScanDocsSucceedsOnCorpus(corpus, docs, term1, term2, k, index);
      }
    }
  }
}
