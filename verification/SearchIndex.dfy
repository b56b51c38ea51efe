/**
The inverted index of the knowledge search (src/knowledge_core.py, `rebuild_index`): the loops
that fill it, against the plain definitions over the token lists.
*/
module SearchIndexes {
  import opened Chunkers
  import opened Tokenizers

  // The plain definitions.

  /** What is indexed of a chunk: its heading and its body. */
  function ChunkTokens(chunk: Chunk): seq<string> {
    Tokenize(chunk.heading + "\n" + chunk.body)
  }

  function Documents(chunks: seq<Chunk>): (docs: seq<seq<string>>)
    ensures |docs| == |chunks|
    ensures forall i :: 0 <= i < |docs| ==> docs[i] == ChunkTokens(chunks[i])
  {
    seq(|chunks|, i requires 0 <= i < |chunks| => ChunkTokens(chunks[i]))
  }

  /** How often a term occurs in a document. */
  function TermFrequency(doc: seq<string>, term: string): nat {
    multiset(doc)[term]
  }

  /** In how many documents a term occurs. */
  function DocFrequency(docs: seq<seq<string>>, term: string): nat {
    |set i | 0 <= i < |docs| && term in docs[i]|
  }

  function TotalLength(docs: seq<seq<string>>): nat {
    if docs == [] then 0 else TotalLength(docs[..|docs| - 1]) + |docs[|docs| - 1]|
  }

  function AverageLength(docs: seq<seq<string>>): real {
    if docs == [] then 0.0 else TotalLength(docs) as real / |docs| as real
  }

  /** A chunk is searched by the words of its heading and of its body, and by no others. */
  lemma HeadingAndBodyAreIndexed(chunk: Chunk)
    ensures ChunkTokens(chunk) == Tokenize(chunk.heading) + Tokenize(chunk.body)
  {
    hide Tokenize;
    var line := "\n";
    assert chunk.heading + line + chunk.body == chunk.heading + (line + chunk.body);
    TokenizeConcat(chunk.heading, line + chunk.body);
    TokenizeConcat(line, chunk.body);
    TokenPattern(line);
    assert [] + Tokenize(chunk.body) == Tokenize(chunk.body);
  }

  /** Frequencies count occurrences: they add up over parts, and one token counts once. */
  lemma FrequencyCounts(a: seq<string>, b: seq<string>, token: string, term: string)
    ensures TermFrequency(a + b, term) == TermFrequency(a, term) + TermFrequency(b, term)
    ensures TermFrequency([token], term) == if token == term then 1 else 0
    ensures TermFrequency([], term) == 0
  {
    assert multiset(a + b) == multiset(a) + multiset(b);
  }

  /** The total length adds up, document by document. */
  lemma LengthsAddUp(docs: seq<seq<string>>, doc: seq<string>)
    ensures TotalLength([]) == 0 && TotalLength(docs + [doc]) == TotalLength(docs) + |doc|
  {
    assert (docs + [doc])[..|docs|] == docs;
  }

  /** The average length times the number of documents is the length of all documents together. */
  lemma AverageCounts(docs: seq<seq<string>>)
    ensures AverageLength(docs) * |docs| as real == TotalLength(docs) as real
  {
    hide TotalLength;
    if docs == [] {
      assert TotalLength(docs) == 0 by { LengthsAddUp([], []); }
    } else {
      TimesBack(TotalLength(docs) as real, |docs| as real);
    }
  }

  lemma TimesBack(x: real, y: real)
    requires y > 0.0
    ensures (x / y) * y == x
  {
  }

  lemma DocFrequencySnoc(docs: seq<seq<string>>, doc: seq<string>, term: string)
    ensures DocFrequency(docs + [doc], term) == DocFrequency(docs, term) + (if term in doc then 1 else 0)
  {
    var more := docs + [doc];
    var before := set i | 0 <= i < |docs| && term in docs[i];
    var after := set i | 0 <= i < |more| && term in more[i];
    assert forall i :: 0 <= i < |docs| ==> more[i] == docs[i];
    assert after == before + (if term in doc then {|docs|} else {});
  }

  predicate Holds(docs: seq<seq<string>>, i: nat, term: string) {
    i < |docs| && term in docs[i]
  }

  lemma NoDocuments(term: string)
    ensures DocFrequency([], term) == 0
  {
    var docs: seq<seq<string>> := [];
    assert (set i | 0 <= i < |docs| && term in docs[i]) == {};
  }

  /** A term is in at most all documents, and in at least one when some document holds it. */
  lemma {:induction false} DocFrequencyBounds(docs: seq<seq<string>>, term: string)
    ensures DocFrequency(docs, term) <= |docs|
    ensures DocFrequency(docs, term) > 0 <==> exists i: nat :: Holds(docs, i, term)
  {
    hide DocFrequency;
    if docs == [] {
      NoDocuments(term);
    } else {
      var n := |docs| - 1;
      DocFrequencyBounds(docs[..n], term);
      assert docs == docs[..n] + [docs[n]];
      DocFrequencySnoc(docs[..n], docs[n], term);
      assert forall i: nat :: Holds(docs, i, term) <==> Holds(docs[..n], i, term) || (i == n && term in docs[n]);
      assert term in docs[n] ==> Holds(docs, n, term);
    }
  }

  // What the tables of the index should hold.

  ghost predicate CountsTerms(freqs: map<string, nat>, doc: seq<string>) {
    && (forall term :: term in freqs <==> term in doc)
    && (forall term :: term in freqs ==> freqs[term] == TermFrequency(doc, term))
  }

  ghost predicate CountsDocs(freqs: map<string, nat>, docs: seq<seq<string>>) {
    && (forall term :: term in freqs <==> DocFrequency(docs, term) > 0)
    && (forall term :: term in freqs ==> freqs[term] == DocFrequency(docs, term))
  }

  /** `get(term, 0)`. */
  function CountOr0(freqs: map<string, nat>, term: string): nat {
    if term in freqs then freqs[term] else 0
  }

  /** Read with `get(term, 0)`, the tables give the frequencies themselves. */
  lemma TablesAnswer(termFreqs: map<string, nat>, doc: seq<string>, docFreqs: map<string, nat>, docs: seq<seq<string>>,
                     term: string)
    requires CountsTerms(termFreqs, doc) && CountsDocs(docFreqs, docs)
    ensures CountOr0(termFreqs, term) == TermFrequency(doc, term)
    ensures CountOr0(docFreqs, term) == DocFrequency(docs, term)
    ensures TermFrequency(doc, term) > 0 <==> term in doc
  {
  }

  lemma CountsTermsSnoc(before: map<string, nat>, doc: seq<string>, token: string)
    requires CountsTerms(before, doc)
    ensures CountsTerms(before[token := CountOr0(before, token) + 1], doc + [token])
  {
    assert multiset(doc + [token]) == multiset(doc) + multiset{token};
    assert forall term :: term in doc + [token] <==> term in doc || term == token;
  }

  lemma CountsDocsSnoc(before: map<string, nat>, docs: seq<seq<string>>, doc: seq<string>, token: string)
    requires CountsDocs(before, docs + [doc])
    ensures var after := if token in doc then before else before[token := CountOr0(before, token) + 1];
      CountsDocs(after, docs + [doc + [token]])
  {
    hide DocFrequency;
    assert forall term :: term in doc + [token] <==> term in doc || term == token;
    forall term
      ensures DocFrequency(docs + [doc + [token]], term)
           == DocFrequency(docs + [doc], term) + (if term == token && term !in doc then 1 else 0)
    {
      DocFrequencySnoc(docs, doc, term);
      DocFrequencySnoc(docs, doc + [token], term);
    }
  }

  lemma CountsDocsEmpty(freqs: map<string, nat>, docs: seq<seq<string>>)
    requires CountsDocs(freqs, docs)
    ensures CountsDocs(freqs, docs + [[]])
  {
    hide DocFrequency;
    forall term
      ensures DocFrequency(docs + [[]], term) == DocFrequency(docs, term)
    {
      DocFrequencySnoc(docs, [], term);
    }
  }

  lemma NothingIndexed()
    ensures CountsDocs(map[], [])
  {
    forall term: string
      ensures DocFrequency([], term) == 0
    {
      NoDocuments(term);
    }
  }

  /** A file of the knowledge directory: its path, the path's stem, and its lines. */
  datatype MarkdownFile = MarkdownFile(path: string, stem: string, lines: seq<string>)

  /** The chunks of all files, in the order of the files. */
  function LoadedChunks(files: seq<MarkdownFile>): seq<Chunk> {
    if files == [] then []
    else
      var last := files[|files| - 1];
      LoadedChunks(files[..|files| - 1]) + Chunks(last.path, last.stem, last.lines)
  }

  /** Files are loaded in order, each with its own chunks. */
  lemma {:induction false} FilesAreLoadedInOrder(a: seq<MarkdownFile>, b: seq<MarkdownFile>)
    ensures LoadedChunks(a + b) == LoadedChunks(a) + LoadedChunks(b)
    ensures |a| == 1 ==> LoadedChunks(a) == Chunks(a[0].path, a[0].stem, a[0].lines)
  {
    hide Chunks;
    assert |a| == 1 ==> a[..0] == [] && LoadedChunks([]) == [];
    if b == [] {
      assert a + b == a;
    } else {
      assert (a + b)[..|a + b| - 1] == a + b[..|b| - 1];
      FilesAreLoadedInOrder(a, b[..|b| - 1]);
    }
  }
}
