/**
 * Query evaluation: the proximity query (`proximityQuery`), the boolean chain
 * (`booleanQuery`) and the dispatch between them (`processQuery`), each a
 * method proved against a specification function of the same name's meaning.
 *
 * A query arrives already split into tokens: the tokenizer is a library call
 * outside this model. The tail of a boolean chain, which the source joins back
 * into a string and re-tokenizes, is passed on as the token list itself.
 */
module Query {
  import opened Wrappers
  import opened Text
  import opened Indexer

  /** What the source raises as an exception, as a value. */
  datatype QueryError =
    | MissingOperator                          // `operator` never assigned: an empty chain, or several tokens and no operator
    | MissingTerm                              // `term` never assigned: AND or OR at the head of the chain
    | MissingWindow                            // `tokens[3]` does not exist
    | BadWindow(token: string)                 // `int(tokens[3])` fails
    | UnknownTerm(term: Term)                  // `invertedIndex[term]` has no entry
    | MissingPositions(doc: DocId, term: Term) // `posIndex[doc - 1][term]` has no entry

  datatype Result<T> = Ok(value: T) | Err(error: QueryError)

  type DocSet = set<DocId>

  /** The two indexes as `processQuery` and `proximityQuery` load them. */
  datatype Index = Index(inverted: InvertedIndex, positions: PositionalIndex)

  /** The documents 1..n, as the source's `range(1, n + 1)` visits them. */
  function UpTo(n: nat): (u: DocSet)
    ensures forall d :: d in u <==> 1 <= d <= n
  {
    if n == 0 then {} else UpTo(n - 1) + {n}
  }

  /** The documents 1..N that a NOT complements against. */
  function Universe(): DocSet {
    UpTo(N)
  }

  // ---------------------------------------------------------------- lookups

  /** `fetchPostingList`: the posting list of `term`, absent when the dictionary has no such key. */
  function FetchPostingList(term: Term, inverted: InvertedIndex): (r: Option<seq<DocId>>)
    ensures r.Some? <==> term in inverted
    ensures r.Some? ==> r.value == inverted[term].docs
  {
    if term in inverted then Some(inverted[term].docs) else None
  }

  /**
   * `fetchPositions`: `posIndex[doc - 1][term]`, with Python's indexing, under
   * which document 0 reads the last entry; absent when the index or the key
   * does not exist.
   */
  function FetchPositions(term: Term, doc: DocId, posIndex: PositionalIndex): (r: Option<seq<nat>>)
    ensures r.Some? ==> exists i :: 0 <= i < |posIndex| && term in posIndex[i] && r.value == posIndex[i][term]
    ensures 1 <= doc <= |posIndex| ==> (r.Some? <==> term in posIndex[doc - 1])
    ensures 1 <= doc <= |posIndex| && term in posIndex[doc - 1] ==> r == Some(posIndex[doc - 1][term])
    ensures doc == 0 && |posIndex| > 0 ==>
      r == if term in posIndex[|posIndex| - 1] then Some(posIndex[|posIndex| - 1][term]) else None
    ensures doc == 0 && |posIndex| == 0 ==> r.None?
  {
    var i := if doc == 0 then |posIndex| - 1 else doc - 1;
    if 0 <= i < |posIndex| && term in posIndex[i] then Some(posIndex[i][term]) else None
  }

  /** The documents of a posting list; none when the term is not in the vocabulary. */
  function PostingSet(term: Term, inverted: InvertedIndex): (s: DocSet)
    ensures forall d :: d in s <==> term in inverted && d in inverted[term].docs
  {
    if term in inverted then set d | d in inverted[term].docs else {}
  }

  // --------------------------------------------------------- window parsing

  predicate AllDigits(s: string) {
    forall i :: 0 <= i < |s| ==> '0' <= s[i] <= '9'
  }

  function DigitsValue(s: string): nat
    requires AllDigits(s)
  {
    if s == [] then 0 else DigitsValue(s[..|s| - 1]) * 10 + (s[|s| - 1] as int - '0' as int)
  }

  /**
   * `int(token)` for an optional sign followed by one or more decimal digits:
   * it fails on anything else (an empty token, a lone sign, a non-digit); a
   * digit string reads as its value and a signed one as its signed value.
   */
  function ParseInt(token: string): (r: Option<int>)
    ensures r.Some? <==>
      |token| > 0 && (AllDigits(token) || ((token[0] == '-' || token[0] == '+') && |token| > 1 && AllDigits(token[1..])))
    ensures r.Some? && (token[0] == '-' || token[0] == '+') ==>
      r.value == (if token[0] == '-' then -(DigitsValue(token[1..]) as int) else DigitsValue(token[1..]))
    ensures r.Some? ==> |token| > 0 && forall i :: 1 <= i < |token| ==> '0' <= token[i] <= '9'
    ensures |token| > 0 && AllDigits(token) ==> r == Some(DigitsValue(token))
    ensures r.Some? && r.value < 0 ==> token[0] == '-'
  {
    if |token| > 0 && (token[0] == '-' || token[0] == '+') then
      var digits := token[1..];
      if |digits| > 0 && AllDigits(digits) then
        var v: int := DigitsValue(digits);
        Some(if token[0] == '-' then -v else v)
      else None
    else if |token| > 0 && AllDigits(token) then Some(DigitsValue(token))
    else None
  }

  /** The decimal spelling of `n`, as `str(n)` writes it. */
  function Decimal(n: nat): (s: string)
    ensures |s| > 0 && AllDigits(s)
  {
    if n < 10 then [('0' as int + n) as char]
    else Decimal(n / 10) + [('0' as int + n % 10) as char]
  }

  lemma {:induction false} DigitsOfDecimal(n: nat)
    ensures DigitsValue(Decimal(n)) == n
  {
    if n >= 10 {
      var s := Decimal(n);
      assert s[..|s| - 1] == Decimal(n / 10);
      DigitsOfDecimal(n / 10);
    }
  }

  /** Reading back a written window gives the window: `int(str(k)) == k`. */
  lemma ParseIntOfDecimal(n: nat)
    ensures ParseInt(Decimal(n)) == Some(n)
    ensures ParseInt(['-'] + Decimal(n)) == Some(-(n as int))
  {
    DigitsOfDecimal(n);
    var s := ['-'] + Decimal(n);
    assert s[1..] == Decimal(n);
  }

  // ------------------------------------------------------------- proximity

  /** Some position of `list1` lies within `k` of some position of `list2`. */
  ghost predicate Near(list1: seq<nat>, list2: seq<nat>, k: int) {
    exists i, j :: 0 <= i < |list1| && 0 <= j < |list2| && -k <= list1[i] - list2[j] <= k
  }

  /**
   * The inner `while` loop of `proximityQuery`: a two-pointer walk over two
   * position lists that stops at the first pair within `k`. It never reports a
   * pair that is not there, and on increasing lists it misses none.
   */
  method WithinWindow(list1: seq<nat>, list2: seq<nat>, k: int) returns (found: bool)
    ensures found ==> Near(list1, list2, k)
    ensures Increasing(list1) && Increasing(list2) ==> (found <==> Near(list1, list2, k))
  {
    var l1, l2 := 0, 0;
    found := false;
    while l1 < |list1| && l2 < |list2|
      invariant 0 <= l1 <= |list1| && 0 <= l2 <= |list2|
      invariant !found
      invariant Increasing(list1) && Increasing(list2) ==>
        forall i, j :: 0 <= i < |list1| && 0 <= j < |list2| && (i < l1 || j < l2) ==> !(-k <= list1[i] - list2[j] <= k)
      decreases |list1| - l1 + |list2| - l2
    {
      var diff := list1[l1] as int - list2[l2] as int;
      if diff <= k && diff >= -k {
        found := true;
        break;
      } else if diff > k {
        l2 := l2 + 1;
      } else {
        l1 := l1 + 1;
      }
    }
  }

  /**
   * The proximity result over the candidate documents `docs` (the posting list
   * of `term1`), taken in order, so that a failing lookup stops at the first
   * document where it fails.
   */
  ghost function ScanDocs(docs: seq<DocId>, term1: Term, term2: Term, k: int, index: Index): (r: Result<DocSet>)
    decreases |docs|
    ensures r.Ok? ==> forall d :: d in r.value ==> d in docs
  {
    if docs == [] then Ok({})
    else
      match ScanDocs(docs[..|docs| - 1], term1, term2, k, index)
      case Err(e) => Err(e)
      case Ok(found) =>
        var doc := docs[|docs| - 1];
        match FetchPostingList(term2, index.inverted)
        case None => Err(UnknownTerm(term2))
        case Some(postings2) =>
          if doc !in postings2 then Ok(found)
          else
            match FetchPositions(term1, doc, index.positions)
            case None => Err(MissingPositions(doc, term1))
            case Some(list1) =>
              match FetchPositions(term2, doc, index.positions)
              case None => Err(MissingPositions(doc, term2))
              case Some(list2) => Ok(if Near(list1, list2, k) then found + {doc} else found)
  }

  /** The proximity query on normalised terms and a parsed window. */
  ghost function ProximityOf(term1: Term, term2: Term, k: int, index: Index): Result<DocSet> {
    match FetchPostingList(term1, index.inverted)
    case None => Err(UnknownTerm(term1))
    case Some(postings1) => ScanDocs(postings1, term1, term2, k, index)
  }

  /** The meaning of the proximity query `t1 t2 / k`. */
  ghost function Proximity(tokens: seq<string>, index: Index, stem: string -> string): Result<DocSet> {
    if |tokens| < 4 then Err(MissingWindow)
    else
      match ParseInt(tokens[3])
      case None => Err(BadWindow(tokens[3]))
      case Some(k) => ProximityOf(Normalize(tokens[0], stem), Normalize(tokens[1], stem), k, index)
  }

  /** Once a prefix of the candidates fails, the whole scan fails the same way. */
  lemma {:induction false} ScanDocsErrorPersists(docs: seq<DocId>, n: nat, term1: Term, term2: Term, k: int, index: Index)
    requires n <= |docs|
    requires ScanDocs(docs[..n], term1, term2, k, index).Err?
    ensures ScanDocs(docs, term1, term2, k, index) == ScanDocs(docs[..n], term1, term2, k, index)
  {
    if n < |docs| {
      var init := docs[..|docs| - 1];
      assert init[..n] == docs[..n];
      ScanDocsErrorPersists(init, n, term1, term2, k, index);
    } else {
      assert docs[..n] == docs;
    }
  }

  /**
   * `proximityQuery`: for each document of the first term's posting list that
   * is also in the second term's, run the two-pointer walk over the two
   * position lists and keep the document if it finds a pair within `k`.
   */
  method ProximityQuery(tokens: seq<string>, index: Index, stem: string -> string) returns (r: Result<DocSet>)
    ensures PositionsIncreasing(index.positions) ==> r == Proximity(tokens, index, stem)
  {
    if |tokens| < 4 {
      return Err(MissingWindow);
    }
    var window := ParseInt(tokens[3]);
    if window.None? {
      return Err(BadWindow(tokens[3]));
    }
    var k := window.value;
    var term1 := NormalizeToken(tokens[0], stem);
    var term2 := NormalizeToken(tokens[1], stem);
    var result: DocSet := {};
    var fetched1 := FetchPostingList(term1, index.inverted);
    if fetched1.None? {
      return Err(UnknownTerm(term1));
    }
    var postings1 := fetched1.value;
    for n := 0 to |postings1|
      invariant PositionsIncreasing(index.positions) ==> ScanDocs(postings1[..n], term1, term2, k, index) == Ok(result)
    {
      var doc := postings1[n];
      assert postings1[..n + 1][..n] == postings1[..n];
      var fetched2 := FetchPostingList(term2, index.inverted);
      if fetched2.None? {
        ScanDocsErrorPersists(postings1, n + 1, term1, term2, k, index);
        return Err(UnknownTerm(term2));
      }
      if doc !in fetched2.value {
        continue;
      }
      var list1 := FetchPositions(term1, doc, index.positions);
      if list1.None? {
        ScanDocsErrorPersists(postings1, n + 1, term1, term2, k, index);
        return Err(MissingPositions(doc, term1));
      }
      var list2 := FetchPositions(term2, doc, index.positions);
      if list2.None? {
        ScanDocsErrorPersists(postings1, n + 1, term1, term2, k, index);
        return Err(MissingPositions(doc, term2));
      }
      var found := WithinWindow(list1.value, list2.value, k);
      if found {
        result := result + {doc};
      }
    }
    assert postings1[..|postings1|] == postings1;
    return Ok(result);
  }

  // ----------------------------------------------------------- boolean chain

  /** The source's `op_list`: exactly these six spellings are operators. */
  const Operators: seq<string> := ["AND", "and", "OR", "or", "NOT", "not"]

  predicate IsOperator(token: string) {
    token in Operators
  }

  predicate IsAnd(op: string) {
    op == "AND" || op == "and"
  }

  predicate IsOr(op: string) {
    op == "OR" || op == "or"
  }

  predicate IsNot(op: string) {
    op == "NOT" || op == "not"
  }

  /** The position of the first operator of the chain, if it has one. */
  function FirstOperator(query: seq<string>): (r: Option<nat>)
    ensures r.Some? ==> r.value < |query| && IsOperator(query[r.value])
    ensures forall j :: 0 <= j < |query| && (r.None? || j < r.value) ==> !IsOperator(query[j])
  {
    if query == [] then None
    else if IsOperator(query[0]) then Some(0)
    else
      match FirstOperator(query[1..])
      case None => None
      case Some(i) => Some(i + 1)
  }

  /**
   * The set combination at the end of `booleanQuery`: `term` is the normalised
   * token just before the operator (none when the operator leads), `rest` the
   * result of the tail.
   */
  function Combine(op: string, term: Option<Term>, rest: DocSet, inverted: InvertedIndex): (r: Result<DocSet>)
    requires IsOperator(op)
    ensures r.Err? <==> !IsNot(op) && term.None?
    ensures r.Ok? && IsAnd(op) ==> forall d :: d in r.value <==> d in rest && d in PostingSet(term.value, inverted)
    ensures r.Ok? && IsOr(op) ==> rest <= r.value && PostingSet(term.value, inverted) <= r.value
    ensures r.Ok? && IsOr(op) ==> forall d :: d in r.value ==> d in rest || d in PostingSet(term.value, inverted)
    ensures r.Ok? && IsNot(op) ==> forall d :: d in r.value <==> 1 <= d <= N && d !in rest
  {
    if IsAnd(op) then
      if term.None? then Err(MissingTerm)
      else Ok(if term.value in inverted then rest * PostingSet(term.value, inverted) else {})
    else if IsOr(op) then
      if term.None? then Err(MissingTerm)
      else Ok(if term.value in inverted then rest + PostingSet(term.value, inverted) else rest)
    else
      Ok(Universe() - rest)
  }

  /**
   * The dispatch test of `processQuery`. A proximity query has the two terms
   * the proximity path reads, and its `/` is never an operator the boolean
   * chain would split at.
   */
  predicate IsProximityQuery(query: seq<string>)
    ensures IsProximityQuery(query) ==> |query| >= 3 && !IsOperator(query[2])
  {
    |query| > 2 && query[2] == "/"
  }

  /** The meaning of a query, as `processQuery` evaluates it. */
  ghost function Evaluate(query: seq<string>, index: Index, stem: string -> string): Result<DocSet>
    decreases |query|, 1
  {
    if IsProximityQuery(query) then Proximity(query, index, stem) else EvaluateChain(query, index, stem)
  }

  /**
   * The meaning of a boolean chain: split at the first operator, evaluate the
   * tail as a query of its own, and combine it with the term just before the
   * operator.
   */
  ghost function EvaluateChain(query: seq<string>, index: Index, stem: string -> string): Result<DocSet>
    decreases |query|, 0
  {
    match FirstOperator(query)
    case None =>
      if |query| == 1 then Ok(PostingSet(Normalize(query[0], stem), index.inverted))
      else Err(MissingOperator)
    case Some(i) =>
      match Evaluate(query[i + 1..], index, stem)
      case Err(e) => Err(e)
      case Ok(rest) =>
        Combine(query[i], if i == 0 then None else Some(Normalize(query[i - 1], stem)), rest, index.inverted)
  }

  /**
   * `booleanQuery`: scan the tokens, normalising each non-operator into `term`,
   * until the first operator; evaluate the tail after it through
   * `processQuery` and combine.
   */
  method BooleanQuery(query: seq<string>, index: Index, stem: string -> string) returns (r: Result<DocSet>)
    decreases |query|, 0
    ensures PositionsIncreasing(index.positions) ==> r == EvaluateChain(query, index, stem)
  {
    var term: Option<Term> := None;
    var i := 0;
    while i < |query|
      invariant 0 <= i <= |query|
      invariant forall j :: 0 <= j < i ==> !IsOperator(query[j])
      invariant term == if i == 0 then None else Some(Normalize(query[i - 1], stem))
    {
      if IsOperator(query[i]) {
        assert FirstOperator(query) == Some(i);
        var tail := ProcessQuery(query[i + 1..], index, stem);
        if tail.Err? {
          return tail;
        }
        // The source's single-token test cannot succeed here: the tail of a
        // one-token chain is empty, and an empty chain has already failed.
        return Combine(query[i], term, tail.value, index.inverted);
      }
      var t := NormalizeToken(query[i], stem);
      term := Some(t);
      i := i + 1;
    }
    assert FirstOperator(query) == None;
    if |query| == 1 {
      return Ok(PostingSet(term.value, index.inverted));
    }
    return Err(MissingOperator);
  }

  /**
   * `processQuery` without its clock: a query of more than two tokens whose
   * third token is `/` is a proximity query, every other one a boolean chain.
   */
  method ProcessQuery(query: seq<string>, index: Index, stem: string -> string) returns (r: Result<DocSet>)
    decreases |query|, 1
    ensures PositionsIncreasing(index.positions) ==> r == Evaluate(query, index, stem)
    ensures PositionsIncreasing(index.positions) && |query| > 2 && query[2] == "/" ==> r == Proximity(query, index, stem)
    ensures PositionsIncreasing(index.positions) && !(|query| > 2 && query[2] == "/") ==> r == EvaluateChain(query, index, stem)
  {
    if |query| > 2 {
      if query[2] == "/" {
        r := ProximityQuery(query, index, stem);
      } else {
        r := BooleanQuery(query, index, stem);
      }
    } else {
      r := BooleanQuery(query, index, stem);
    }
  }
}
