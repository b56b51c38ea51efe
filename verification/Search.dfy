/**
What a search returns (src/knowledge_core.py, `search`), defined without any table: the BM25
score of each chunk from its tokens, the boost, the stable order and the cut. The theorems say
which chunks are found and how they are ranked.
*/
module Searches {
  import opened Bm25
  import opened Chunkers
  import opened Collections
  import opened Rankings
  import opened SearchIndexes
  import opened Tokenizers
  import opened Wrappers

  /** The logarithm in use and the two BM25 parameters. */
  datatype Scoring = Scoring(log: real -> real, k1: real, b: real)

  ghost predicate Usual(s: Scoring) {
    IsLog(s.log) && UsualParameters(s.k1, s.b)
  }

  datatype SearchError = ZeroDivision

  /** The length of a document against the average; both count at least one where they are zero. */
  function LengthRatio(docs: seq<seq<string>>, i: nat): real
    requires i < |docs|
  {
    (if docs[i] == [] then 1.0 else |docs[i]| as real) / NonZero(AverageLength(docs))
  }

  /** `x or 1.0`. */
  function NonZero(x: real): (r: real)
    ensures r != 0.0
  {
    if x == 0.0 then 1.0 else x
  }

  function DivisorOf(s: Scoring, docs: seq<seq<string>>, i: nat, term: string): real
    requires i < |docs|
  {
    Denominator(TermFrequency(docs[i], term), s.k1, s.b, LengthRatio(docs, i))
  }

  function TermScore(s: Scoring, docs: seq<seq<string>>, i: nat, term: string): real
    requires i < |docs|
  {
    Contribution(Idf(s.log, |docs|, DocFrequency(docs, term)), TermFrequency(docs[i], term),
      s.k1, s.b, LengthRatio(docs, i))
  }

  /** The terms in order of first appearance, each once. */
  function Unique(tokens: seq<string>): (terms: seq<string>)
    ensures forall t :: t in terms <==> t in tokens
    ensures Distinct(terms)
  {
    if tokens == [] then []
    else
      var front, last := Unique(tokens[..|tokens| - 1]), tokens[|tokens| - 1];
      if last in front then front else front + [last]
  }

  /** More tokens leave the terms so far in place; so the terms stand in order of first appearance. */
  lemma {:induction false} TermsStay(a: seq<string>, b: seq<string>)
    ensures Unique(a) <= Unique(a + b)
  {
    if b == [] {
      assert a + b == a;
    } else {
      assert (a + b)[..|a + b| - 1] == a + b[..|b| - 1];
      TermsStay(a, b[..|b| - 1]);
    }
  }

  /** The terms a document holds. */
  function Matched(doc: seq<string>, terms: seq<string>): (matched: seq<string>)
    ensures forall t :: t in matched <==> t in terms && t in doc
  {
    if terms == [] then []
    else
      var front, last := Matched(doc, terms[..|terms| - 1]), terms[|terms| - 1];
      if last in doc then front + [last] else front
  }

  /** The BM25 score of document `i`. */
  function Bm25Score(s: Scoring, docs: seq<seq<string>>, i: nat, terms: seq<string>): real
    requires i < |docs|
  {
    if terms == [] then 0.0
    else
      var front, last := Bm25Score(s, docs, i, terms[..|terms| - 1]), terms[|terms| - 1];
      if last in docs[i] then front + TermScore(s, docs, i, last) else front
  }

  function HeadingBoost(chunk: Chunk, terms: seq<string>): real {
    if exists t :: t in terms && t in Tokenize(chunk.heading) then 1.2 else 1.0
  }

  function HitOf(s: Scoring, chunks: seq<Chunk>, i: nat, terms: seq<string>): SearchHit
    requires i < |chunks|
  {
    var docs := Documents(chunks);
    SearchHit(chunks[i], Bm25Score(s, docs, i, terms) * chunks[i].priority * HeadingBoost(chunks[i], terms),
              Matched(docs[i], terms))
  }

  /** The hits among the first `n` chunks: those whose score is not zero. */
  function Hits(s: Scoring, chunks: seq<Chunk>, terms: seq<string>, n: nat): seq<SearchHit>
    requires n <= |chunks|
  {
    if n == 0 then []
    else
      Hits(s, chunks, terms, n - 1) + HitIfAny(s, chunks, terms, n - 1)
  }

  function HitIfAny(s: Scoring, chunks: seq<Chunk>, terms: seq<string>, i: nat): seq<SearchHit>
    requires i < |chunks|
  {
    if Bm25Score(s, Documents(chunks), i, terms) != 0.0 then [HitOf(s, chunks, i, terms)] else []
  }

  /** Document `i` holds a query term for which the score divides by zero. */
  ghost predicate FailsAt(s: Scoring, docs: seq<seq<string>>, i: nat, terms: seq<string>) {
    i < |docs| && exists t :: t in terms && t in docs[i] && DivisorOf(s, docs, i, t) == 0.0
  }

  ghost function SearchResult(s: Scoring, chunks: seq<Chunk>, query: string, limit: int)
      : Result<seq<SearchHit>, SearchError> {
    var terms := Unique(Tokenize(query));
    if terms == [] || chunks == [] then Ok([])
    else if exists i :: FailsAt(s, Documents(chunks), i, terms) then Err(ZeroDivision)
    else Ok(Shown(StableSort(Hits(s, chunks, terms, |chunks|)), limit))
  }

  /** A search raises exactly if a chunk holds a word of the query for which the formula divides by zero. */
  lemma SearchRaisesExactly(s: Scoring, chunks: seq<Chunk>, query: string, limit: int)
    ensures SearchResult(s, chunks, query, limit) == Err(ZeroDivision) <==>
      exists i, t :: 0 <= i < |chunks| && t in Tokenize(query) && t in ChunkTokens(chunks[i])
        && DivisorOf(s, Documents(chunks), i, t) == 0.0
    ensures forall docs: seq<seq<string>>, i: nat, t :: i < |docs| ==>
      DivisorOf(s, docs, i, t) == TermFrequency(docs[i], t) as real + s.k1 * (1.0 - s.b + s.b * LengthRatio(docs, i))
  {
    hide Tokenize, StableSort, Hits, Shown, TermFrequency, LengthRatio, ChunkTokens;
    var docs, terms := Documents(chunks), Unique(Tokenize(query));
    if i, t :|
      0 <= i < |chunks| && t in Tokenize(query) && t in ChunkTokens(chunks[i]) && DivisorOf(s, docs, i, t) == 0.0
    {
      assert t in terms && t in docs[i] && FailsAt(s, docs, i, terms);
    }
    if i: nat :| FailsAt(s, docs, i, terms) {
      var t :| t in terms && t in docs[i] && DivisorOf(s, docs, i, t) == 0.0;
      assert t in Tokenize(query) && t in ChunkTokens(chunks[i]);
    }
  }

  // Which chunks are found.

  lemma RatioIsPositive(docs: seq<seq<string>>, i: nat)
    requires i < |docs|
    ensures LengthRatio(docs, i) > 0.0
  {
    if AverageLength(docs) != 0.0 {
      QuotientPositive(TotalLength(docs) as real, |docs| as real);
    }
    QuotientPositive(if docs[i] == [] then 1.0 else |docs[i]| as real, NonZero(AverageLength(docs)));
  }

  /** What a matched term adds, from the texts: the BM25 formula, multiplied out. */
  lemma TermScoreTells(s: Scoring, docs: seq<seq<string>>, i: nat, term: string)
    requires Usual(s) && i < |docs| && term in docs[i]
    ensures AverageLength(docs) > 0.0
    ensures var f := TermFrequency(docs[i], term) as real;
      var weight := s.log((|docs| as real + 1.0) / (DocFrequency(docs, term) as real + 0.5));
      var ratio := |docs[i]| as real / AverageLength(docs);
      TermScore(s, docs, i, term) * (f + s.k1 * (1.0 - s.b + s.b * ratio)) == weight * (f * (s.k1 + 1.0))
  {
    AverageIsPositive(docs, i);
    hide DocFrequency, TermFrequency, AverageLength, Idf, Contribution;
    var idf := Idf(s.log, |docs|, DocFrequency(docs, term));
    IdfClosedForm(s.log, |docs|, DocFrequency(docs, term));
    RatioIsPositive(docs, i);
    PenaltyIsPositive(s.k1, s.b, LengthRatio(docs, i));
    ContributionTells(idf, TermFrequency(docs[i], term), s.k1, s.b, LengthRatio(docs, i));
  }

  lemma {:induction false} TotalCoversEach(docs: seq<seq<string>>, i: nat)
    requires i < |docs|
    ensures TotalLength(docs) >= |docs[i]|
  {
    if i < |docs| - 1 {
      TotalCoversEach(docs[..|docs| - 1], i);
    }
  }

  lemma AverageIsPositive(docs: seq<seq<string>>, i: nat)
    requires i < |docs| && docs[i] != []
    ensures AverageLength(docs) > 0.0
  {
    TotalCoversEach(docs, i);
    QuotientPositive(TotalLength(docs) as real, |docs| as real);
  }

  lemma TermScoreBounds(s: Scoring, docs: seq<seq<string>>, i: nat, term: string)
    requires Usual(s) && i < |docs| && term in docs[i]
    ensures 0.0 < TermScore(s, docs, i, term) < Idf(s.log, |docs|, DocFrequency(docs, term)) * (s.k1 + 1.0)
  {
    RatioIsPositive(docs, i);
    assert Holds(docs, i, term);
    DocFrequencyBounds(docs, term);
    IdfIsPositive(s.log, |docs|, DocFrequency(docs, term));
    ContributionBounds(Idf(s.log, |docs|, DocFrequency(docs, term)), TermFrequency(docs[i], term),
      s.k1, s.b, LengthRatio(docs, i));
  }

  /** With the usual parameters no search divides by zero. */
  lemma UsualNeverFails(s: Scoring, docs: seq<seq<string>>, i: nat, terms: seq<string>)
    requires Usual(s)
    ensures !FailsAt(s, docs, i, terms)
  {
    if i < |docs| {
      RatioIsPositive(docs, i);
      PenaltyIsPositive(s.k1, s.b, LengthRatio(docs, i));
    }
  }

  /** The sum of the weights of the matched terms. */
  function MatchedIdf(s: Scoring, docs: seq<seq<string>>, i: nat, terms: seq<string>): real
    requires i < |docs|
  {
    if terms == [] then 0.0
    else
      var front, last := MatchedIdf(s, docs, i, terms[..|terms| - 1]), terms[|terms| - 1];
      if last in docs[i] then front + Idf(s.log, |docs|, DocFrequency(docs, last)) else front
  }

  /** The unboosted score is positive exactly when a term matched, and below k1 + 1 times the matched weights. */
  lemma {:induction false} ScoreBounds(s: Scoring, docs: seq<seq<string>>, i: nat, terms: seq<string>)
    requires Usual(s) && i < |docs|
    ensures Bm25Score(s, docs, i, terms) >= 0.0
    ensures Bm25Score(s, docs, i, terms) > 0.0 <==> Matched(docs[i], terms) != []
    ensures Matched(docs[i], terms) != []
      ==> Bm25Score(s, docs, i, terms) < MatchedIdf(s, docs, i, terms) * (s.k1 + 1.0)
    ensures Matched(docs[i], terms) == [] ==> MatchedIdf(s, docs, i, terms) == 0.0
  {
    hide *;
    if terms == [] {
      NoTermsNoScore(s, docs, i);
    } else {
      var front, last := terms[..|terms| - 1], terms[|terms| - 1];
      ScoreBounds(s, docs, i, front);
      LastTerm(s, docs, i, terms);
      if last in docs[i] {
        TermScoreBounds(s, docs, i, last);
        BoundsAdd(Bm25Score(s, docs, i, front), MatchedIdf(s, docs, i, front), TermScore(s, docs, i, last),
                  Idf(s.log, |docs|, DocFrequency(docs, last)), s.k1 + 1.0);
      }
    }
  }

  lemma NoTermsNoScore(s: Scoring, docs: seq<seq<string>>, i: nat)
    requires i < |docs|
    ensures Bm25Score(s, docs, i, []) == 0.0 && MatchedIdf(s, docs, i, []) == 0.0 && Matched(docs[i], []) == []
  {
  }

  lemma LastTerm(s: Scoring, docs: seq<seq<string>>, i: nat, terms: seq<string>)
    requires i < |docs| && terms != []
    ensures var front, last := terms[..|terms| - 1], terms[|terms| - 1];
      if last in docs[i] then
        && Bm25Score(s, docs, i, terms) == Bm25Score(s, docs, i, front) + TermScore(s, docs, i, last)
        && MatchedIdf(s, docs, i, terms) == MatchedIdf(s, docs, i, front) + Idf(s.log, |docs|, DocFrequency(docs, last))
        && Matched(docs[i], terms) == Matched(docs[i], front) + [last]
      else
        && Bm25Score(s, docs, i, terms) == Bm25Score(s, docs, i, front)
        && MatchedIdf(s, docs, i, terms) == MatchedIdf(s, docs, i, front)
        && Matched(docs[i], terms) == Matched(docs[i], front)
  {
    hide TermScore, Idf, DocFrequency;
  }

  lemma BoundsAdd(score: real, weights: real, more: real, weight: real, factor: real)
    requires (score <= 0.0 && weights == 0.0) || score < weights * factor
    requires more < weight * factor
    ensures score + more < (weights + weight) * factor
  {
    assert (weights + weight) * factor == weights * factor + weight * factor;
  }

  /** The chunks that hold a query term, in order. */
  function MatchingChunks(chunks: seq<Chunk>, terms: seq<string>): seq<Chunk> {
    if chunks == [] then []
    else
      var last := chunks[|chunks| - 1];
      MatchingChunks(chunks[..|chunks| - 1], terms)
      + (if exists t :: t in terms && t in ChunkTokens(last) then [last] else [])
  }

  function ChunksOf(hits: seq<SearchHit>): (chunks: seq<Chunk>)
    ensures |chunks| == |hits| && forall i :: 0 <= i < |hits| ==> chunks[i] == hits[i].chunk
  {
    seq(|hits|, i requires 0 <= i < |hits| => hits[i].chunk)
  }

  /** Before order and cut, the hits are exactly the chunks that hold at least one query term. */
  lemma {:induction false} HitsAreMatches(s: Scoring, chunks: seq<Chunk>, terms: seq<string>, n: nat)
    requires Usual(s) && n <= |chunks|
    ensures ChunksOf(Hits(s, chunks, terms, n)) == MatchingChunks(chunks[..n], terms)
    ensures forall hit :: hit in Hits(s, chunks, terms, n) ==> hit.terms == Matched(ChunkTokens(hit.chunk), terms) != []
  {
    hide HitIfAny, ChunkTokens, Usual, Matched, Holds;
    if n > 0 {
      HitsAreMatches(s, chunks, terms, n - 1);
      HitMatches(s, chunks, terms, n - 1);
      assert chunks[..n][..n - 1] == chunks[..n - 1];
      ChunksConcatenate(Hits(s, chunks, terms, n - 1), HitIfAny(s, chunks, terms, n - 1));
    }
  }

  lemma ChunksConcatenate(a: seq<SearchHit>, b: seq<SearchHit>)
    ensures ChunksOf(a + b) == ChunksOf(a) + ChunksOf(b)
  {
  }

  lemma HitMatches(s: Scoring, chunks: seq<Chunk>, terms: seq<string>, i: nat)
    requires Usual(s) && i < |chunks|
    ensures ChunksOf(HitIfAny(s, chunks, terms, i))
         == if exists t :: t in terms && t in ChunkTokens(chunks[i]) then [chunks[i]] else []
    ensures forall hit ::
      hit in HitIfAny(s, chunks, terms, i) ==> hit.terms == Matched(ChunkTokens(hit.chunk), terms) != []
  {
    hide Bm25Score, ChunkTokens, HeadingBoost, Usual, Matched;
    ScoreBounds(s, Documents(chunks), i, terms);
    var matched := Matched(Documents(chunks)[i], terms);
    if matched != [] {
      assert matched[0] in terms && matched[0] in Documents(chunks)[i];
    }
  }

  /** A query term in the heading makes the chunk a hit, so the boost only ever applies to hits. */
  lemma HeadingTermMatches(chunk: Chunk, term: string)
    requires term in Tokenize(chunk.heading)
    ensures term in ChunkTokens(chunk)
  {
    hide Tokenize;
    TokenizeConcat(chunk.heading, "\n" + chunk.body);
    assert chunk.heading + "\n" + chunk.body == chunk.heading + ("\n" + chunk.body);
  }

  /** The boost lifts exactly the hits of some priority with a query term in the heading, by a fifth. */
  lemma BoostLiftsHeadingHits(s: Scoring, chunks: seq<Chunk>, i: nat, terms: seq<string>)
    requires Usual(s) && i < |chunks| && chunks[i].priority >= 0.0 && HitIfAny(s, chunks, terms, i) != []
    ensures var plain := Bm25Score(s, Documents(chunks), i, terms) * chunks[i].priority;
      var score := HitOf(s, chunks, i, terms).score;
      && score == (if exists t :: t in terms && t in Tokenize(chunks[i].heading) then plain + plain / 5.0 else plain)
      && 0.0 <= plain && (plain > 0.0 <==> chunks[i].priority > 0.0)
  {
    hide Bm25Score, Tokenize, Documents, Usual;
    ScoreBounds(s, Documents(chunks), i, terms);
    var plain := Bm25Score(s, Documents(chunks), i, terms) * chunks[i].priority;
    if chunks[i].priority > 0.0 {
      Times(Bm25Score(s, Documents(chunks), i, terms), chunks[i].priority);
    }
    assert plain * 1.2 == plain + plain / 5.0;
  }

  /** A word of the query stands in the heading or in the body. */
  predicate IsAbout(chunk: Chunk, query: string) {
    exists t :: t in Tokenize(query) && (t in Tokenize(chunk.heading) || t in Tokenize(chunk.body))
  }

  lemma {:induction false} MatchingIsAbout(chunks: seq<Chunk>, query: string, chunk: Chunk)
    ensures chunk in MatchingChunks(chunks, Unique(Tokenize(query))) <==> chunk in chunks && IsAbout(chunk, query)
  {
    hide Tokenize, ChunkTokens;
    if chunks != [] {
      MatchingIsAbout(chunks[..|chunks| - 1], query, chunk);
      HeadingAndBodyAreIndexed(chunks[|chunks| - 1]);
    }
  }

  /**
   The answer to a search with the usual parameters: no error; best first; every shown chunk
   holds a query term; every chunk that holds one is shown or scores no more than all shown.
   */
  lemma SearchAnswers(s: Scoring, chunks: seq<Chunk>, query: string, limit: int) returns (cut: seq<SearchHit>)
    requires Usual(s)
    ensures var terms := Unique(Tokenize(query));
      var r := SearchResult(s, chunks, query, limit);
      && r.Ok?
      && Descending(r.value)
      && multiset(r.value + cut) == multiset(if terms == [] then [] else Hits(s, chunks, terms, |chunks|))
      && multiset(ChunksOf(r.value + cut)) == multiset(MatchingChunks(chunks, terms))
      && (forall chunk :: chunk in MatchingChunks(chunks, terms) <==> chunk in chunks && IsAbout(chunk, query))
      && (forall shown, other :: shown in r.value && other in cut ==> shown.score >= other.score)
      && (limit >= |chunks| ==> cut == [])
  {
    hide *;
    var terms := Unique(Tokenize(query));
    HitsAreMatches(s, chunks, terms, |chunks|);
    assert chunks[..|chunks|] == chunks;
    NoTermsNoMatches(chunks, terms);
    UsualResult(s, chunks, query, limit);
    forall chunk
      ensures chunk in MatchingChunks(chunks, terms) <==> chunk in chunks && IsAbout(chunk, query)
    {
      MatchingIsAbout(chunks, query, chunk);
    }
    if terms == [] || chunks == [] {
      cut := [];
    } else {
      HitsAreFew(s, chunks, terms, |chunks|);
      cut := RankedHits(Hits(s, chunks, terms, |chunks|), limit, |chunks|);
    }
  }

  lemma RankedHits(hits: seq<SearchHit>, limit: int, n: nat) returns (cut: seq<SearchHit>)
    requires |hits| <= n
    ensures var shown := Shown(StableSort(hits), limit);
      && Descending(shown)
      && multiset(shown + cut) == multiset(hits)
      && multiset(ChunksOf(shown + cut)) == multiset(ChunksOf(hits))
      && (forall best, other :: best in shown && other in cut ==> best.score >= other.score)
      && (limit >= n ==> cut == [])
  {
    hide *;
    var sorted := StableSort(hits);
    CutOffIsWorse(hits, limit);
    StableSortSorts(hits);
    cut := sorted[|Shown(sorted, limit)|..];
    assert Shown(sorted, limit) + cut == sorted;
    SameHitsSameChunks(sorted, hits);
    assert |sorted| == |multiset(sorted)| == |multiset(hits)| == |hits|;
    PrefixDescends(sorted, Shown(sorted, limit));
  }

  lemma PrefixDescends(hits: seq<SearchHit>, shown: seq<SearchHit>)
    requires Descending(hits) && shown <= hits
    ensures Descending(shown)
  {
  }

  lemma UsualResult(s: Scoring, chunks: seq<Chunk>, query: string, limit: int)
    requires Usual(s)
    ensures var terms := Unique(Tokenize(query));
      SearchResult(s, chunks, query, limit)
      == Ok(if terms == [] || chunks == [] then [] else Shown(StableSort(Hits(s, chunks, terms, |chunks|)), limit))
    ensures Descending([])
  {
    hide Tokenize, StableSort, Hits, FailsAt, Usual;
    var terms := Unique(Tokenize(query));
    forall i
      ensures !FailsAt(s, Documents(chunks), i, terms)
    {
      UsualNeverFails(s, Documents(chunks), i, terms);
    }
  }

  lemma {:induction false} NoTermsNoMatches(chunks: seq<Chunk>, terms: seq<string>)
    ensures terms == [] || chunks == [] ==> MatchingChunks(chunks, terms) == []
  {
    if chunks != [] {
      NoTermsNoMatches(chunks[..|chunks| - 1], terms);
    }
  }

  lemma {:induction false} HitsAreFew(s: Scoring, chunks: seq<Chunk>, terms: seq<string>, n: nat)
    requires n <= |chunks|
    ensures |Hits(s, chunks, terms, n)| <= n
  {
    if n > 0 {
      HitsAreFew(s, chunks, terms, n - 1);
    }
  }

  lemma {:induction false} SameHitsSameChunks(a: seq<SearchHit>, b: seq<SearchHit>)
    requires multiset(a) == multiset(b)
    ensures multiset(ChunksOf(a)) == multiset(ChunksOf(b))
    decreases |a|
  {
    if a == [] {
      assert |b| == |multiset(b)| == |multiset(a)| == 0;
      assert ChunksOf(a) == ChunksOf(b) == [];
    } else {
      var n := |a| - 1;
      var k := LastElsewhere(a, b);
      SameHitsSameChunks(a[..n], b[..k] + b[k + 1..]);
      assert ChunksOf(a) == ChunksOf(a[..n]) + [a[n].chunk];
      ChunksAround(b, k);
    }
  }

  /** Where an arrangement has the last element of another, and what is left without it. */
  lemma LastElsewhere<T>(a: seq<T>, b: seq<T>) returns (k: nat)
    requires multiset(a) == multiset(b) && a != []
    ensures k < |b| && b[k] == a[|a| - 1]
    ensures multiset(a[..|a| - 1]) == multiset(b[..k] + b[k + 1..])
  {
    var front, last := a[..|a| - 1], a[|a| - 1];
    assert a == front + [last];
    assert last in multiset(b);
    k :| 0 <= k < |b| && b[k] == last;
    assert b == b[..k] + [last] + b[k + 1..];
    assert multiset(a) - multiset{last} == multiset(front);
    assert multiset(b) - multiset{last} == multiset(b[..k] + b[k + 1..]);
  }

  lemma ChunksAround(b: seq<SearchHit>, k: nat)
    requires k < |b|
    ensures multiset(ChunksOf(b)) == multiset(ChunksOf(b[..k] + b[k + 1..])) + multiset{b[k].chunk}
  {
    assert ChunksOf(b) == ChunksOf(b[..k]) + [b[k].chunk] + ChunksOf(b[k + 1..]);
    assert ChunksOf(b[..k] + b[k + 1..]) == ChunksOf(b[..k]) + ChunksOf(b[k + 1..]);
  }

  // The query counts as a set of words.

  lemma {:induction false} ScoreConcat(s: Scoring, docs: seq<seq<string>>, i: nat, a: seq<string>, b: seq<string>)
    requires i < |docs|
    ensures Bm25Score(s, docs, i, a + b) == Bm25Score(s, docs, i, a) + Bm25Score(s, docs, i, b)
  {
    if b == [] {
      assert a + b == a;
    } else {
      var n := |b| - 1;
      assert (a + b)[..|a + b| - 1] == a + b[..n];
      ScoreConcat(s, docs, i, a, b[..n]);
    }
  }

  /** The order of the terms does not matter. */
  lemma {:induction false} ScoreIgnoresOrder(s: Scoring, docs: seq<seq<string>>, i: nat, a: seq<string>, b: seq<string>)
    requires i < |docs| && multiset(a) == multiset(b)
    ensures Bm25Score(s, docs, i, a) == Bm25Score(s, docs, i, b)
    decreases |a|
  {
    if a == [] {
      assert |b| == |multiset(b)| == |multiset(a)| == 0;
    } else {
      var n := |a| - 1;
      var k := LastElsewhere(a, b);
      ScoreIgnoresOrder(s, docs, i, a[..n], b[..k] + b[k + 1..]);
      assert a == a[..n] + [a[n]];
      assert b == b[..k] + [a[n]] + b[k + 1..];
      ScoreConcat(s, docs, i, a[..n], [a[n]]);
      ScoreConcat(s, docs, i, b[..k], [a[n]]);
      ScoreConcat(s, docs, i, b[..k] + [a[n]], b[k + 1..]);
      ScoreConcat(s, docs, i, b[..k], b[k + 1..]);
    }
  }

  lemma UniqueAsMultiset(tokens: seq<string>, t: string)
    ensures multiset(Unique(tokens))[t] == if t in tokens then 1 else 0
  {
    DistinctAsMultiset(Unique(tokens), t);
  }

  lemma {:induction false} DistinctAsMultiset(terms: seq<string>, t: string)
    requires Distinct(terms)
    ensures multiset(terms)[t] == if t in terms then 1 else 0
  {
    if terms != [] {
      var n := |terms| - 1;
      assert terms == terms[..n] + [terms[n]];
      DistinctAsMultiset(terms[..n], t);
    }
  }

  /** Chunks and scores of hits, without the list of matched terms. */
  function Bare(hits: seq<SearchHit>): (bare: seq<SearchHit>)
    ensures |bare| == |hits| && forall i :: 0 <= i < |hits| ==> bare[i] == hits[i].(terms := [])
  {
    seq(|hits|, i requires 0 <= i < |hits| => hits[i].(terms := []))
  }

  lemma {:induction false} SortIgnoresTerms(hits: seq<SearchHit>)
    ensures Bare(StableSort(hits)) == StableSort(Bare(hits))
  {
    if hits != [] {
      var n := |hits| - 1;
      SortIgnoresTerms(hits[..n]);
      assert Bare(hits)[..n] == Bare(hits[..n]);
      InsertIgnoresTerms(hits[n], StableSort(hits[..n]));
    }
  }

  lemma {:induction false} InsertIgnoresTerms(hit: SearchHit, hits: seq<SearchHit>)
    ensures Bare(Insert(hit, hits)) == Insert(hit.(terms := []), Bare(hits))
  {
    if hits != [] && hit.score <= hits[0].score {
      InsertIgnoresTerms(hit, hits[1..]);
      assert Bare(hits)[1..] == Bare(hits[1..]);
    }
  }

  lemma {:induction false} HitsIgnoreOrder(s: Scoring, chunks: seq<Chunk>, a: seq<string>, b: seq<string>, n: nat)
    requires n <= |chunks| && multiset(a) == multiset(b)
    ensures Bare(Hits(s, chunks, a, n)) == Bare(Hits(s, chunks, b, n))
  {
    hide Bm25Score, Documents;
    if n > 0 {
      HitsIgnoreOrder(s, chunks, a, b, n - 1);
      ScoreIgnoresOrder(s, Documents(chunks), n - 1, a, b);
      BareHit(s, chunks, a, b, n - 1);
      BareConcat(Hits(s, chunks, a, n - 1), HitIfAny(s, chunks, a, n - 1));
      BareConcat(Hits(s, chunks, b, n - 1), HitIfAny(s, chunks, b, n - 1));
    }
  }

  lemma BareHit(s: Scoring, chunks: seq<Chunk>, a: seq<string>, b: seq<string>, i: nat)
    requires i < |chunks| && multiset(a) == multiset(b)
    requires Bm25Score(s, Documents(chunks), i, a) == Bm25Score(s, Documents(chunks), i, b)
    ensures Bare(HitIfAny(s, chunks, a, i)) == Bare(HitIfAny(s, chunks, b, i))
  {
    hide Bm25Score, Documents, Tokenize;
    SameElements(a, b);
    var heading := Tokenize(chunks[i].heading);
    assert (exists t :: t in a && t in heading) <==> (exists t :: t in b && t in heading);
    assert HeadingBoost(chunks[i], a) == HeadingBoost(chunks[i], b);
    var x, y := HitOf(s, chunks, i, a), HitOf(s, chunks, i, b);
    assert x.score == y.score && x.chunk == y.chunk;
    assert Bare([x]) == [x.(terms := [])] == [y.(terms := [])] == Bare([y]);
  }

  lemma BareConcat(a: seq<SearchHit>, b: seq<SearchHit>)
    ensures Bare(a + b) == Bare(a) + Bare(b)
  {
  }

  lemma SameElements(a: seq<string>, b: seq<string>)
    requires multiset(a) == multiset(b)
    ensures forall t :: t in a <==> t in b
  {
    assert forall t :: t in a <==> t in multiset(a);
    assert forall t :: t in b <==> t in multiset(b);
  }

  /** Queries with the same words, in any order and any number, find the same chunks with the same scores. */
  lemma QueryIsASetOfWords(s: Scoring, chunks: seq<Chunk>, first: string, second: string, limit: int)
    requires forall t :: t in Tokenize(first) <==> t in Tokenize(second)
    ensures var x, y := SearchResult(s, chunks, first, limit), SearchResult(s, chunks, second, limit);
      if x.Ok? then y.Ok? && Bare(x.value) == Bare(y.value) else x == y
  {
    hide Tokenize, StableSort, Hits, HitOf, Bm25Score, DivisorOf, Documents;
    var a, b := Unique(Tokenize(first)), Unique(Tokenize(second));
    forall t
      ensures multiset(a)[t] == multiset(b)[t]
    {
      UniqueAsMultiset(Tokenize(first), t);
      UniqueAsMultiset(Tokenize(second), t);
    }
    assert multiset(a) == multiset(b);
    assert |a| == |multiset(a)| == |multiset(b)| == |b|;
    var docs := Documents(chunks);
    assert forall i :: FailsAt(s, docs, i, a) <==> FailsAt(s, docs, i, b);
    var x, y := Hits(s, chunks, a, |chunks|), Hits(s, chunks, b, |chunks|);
    HitsIgnoreOrder(s, chunks, a, b, |chunks|);
    SortIgnoresTerms(x);
    SortIgnoresTerms(y);
    ShownBare(StableSort(x), StableSort(y), limit);
  }

  lemma ShownBare(a: seq<SearchHit>, b: seq<SearchHit>, limit: int)
    requires Bare(a) == Bare(b)
    ensures Bare(Shown(a, limit)) == Bare(Shown(b, limit))
  {
    assert |a| == |Bare(a)| == |b|;
    var n := |Shown(a, limit)|;
    assert Bare(a[..n]) == Bare(a)[..n] && Bare(b[..n]) == Bare(b)[..n];
  }
}
