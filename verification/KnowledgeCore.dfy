/**
The knowledge search itself (src/knowledge_core.py): the tables, the loops that fill them, and
the loops that search them, proved to give what the plain definitions say.
*/
module KnowledgeCores {
  import opened Bm25
  import opened Chunkers
  import opened Rankings
  import opened SearchIndexes
  import opened Searches
  import opened Tokenizers
  import opened Wrappers

  /** Files with different paths give chunks with different ids, as texts. */
  lemma {:induction false} ChunkIdsAreDistinct(files: seq<MarkdownFile>)
    requires forall i, j :: 0 <= i < j < |files| ==> files[i].path != files[j].path
    ensures var chunks := LoadedChunks(files);
      && (forall c :: c in chunks ==> IsNumbered(c) && exists i :: 0 <= i < |files| && c.sourcePath == files[i].path)
      && forall i, j :: 0 <= i < j < |chunks| ==> chunks[i].id != chunks[j].id
  {
    hide Chunks, ChunkId;
    if files != [] {
      var n := |files| - 1;
      ChunkIdsAreDistinct(files[..n]);
      var front := LoadedChunks(files[..n]);
      var own := Chunks(files[n].path, files[n].stem, files[n].lines);
      OwnChunkIds(files[n]);
      forall i, j | 0 <= i < |front| && 0 <= j < |own|
        ensures front[i].id != own[j].id
      {
        assert front[i] in front;
        var k: nat :| front[i].id == ChunkId(front[i].sourcePath, k);
        ChunkIdTells(front[i].sourcePath, k, files[n].path, j);
      }
    }
  }

  ghost predicate IsNumbered(chunk: Chunk) {
    exists k: nat :: chunk.id == ChunkId(chunk.sourcePath, k)
  }

  lemma OwnChunkIds(file: MarkdownFile)
    ensures var own := Chunks(file.path, file.stem, file.lines);
      && (forall i :: 0 <= i < |own| ==> own[i].id == ChunkId(file.path, i) && own[i].sourcePath == file.path)
      && forall i, j :: 0 <= i < j < |own| ==> own[i].id != own[j].id
  {
    hide Sections, ChunkId;
    ChunksAreNumbered(file.path, 0, Sections(file.stem, 1, file.lines));
    var own := Chunks(file.path, file.stem, file.lines);
    forall i, j | 0 <= i < j < |own|
      ensures own[i].id != own[j].id
    {
      ChunkIdTells(file.path, i, file.path, j);
    }
  }

  class KnowledgeCore {
    var chunks: seq<Chunk>
    var docFreq: map<string, nat>
    var termFreqs: seq<map<string, nat>>
    var docLengths: seq<nat>
    var avgDocLength: real

    /** The first `n` chunks are indexed. */
    ghost predicate IndexedUpTo(n: nat)
      requires n <= |chunks|
      reads this
    {
      var docs := Documents(chunks)[..n];
      && |termFreqs| == |docLengths| == n
      && (forall i :: 0 <= i < n ==> CountsTerms(termFreqs[i], docs[i]))
      && (forall i :: 0 <= i < n ==> docLengths[i] == |docs[i]|)
      && CountsDocs(docFreq, docs)
    }

    /** Every table says what its definition says about the chunks. */
    ghost predicate Indexed()
      reads this
    {
      IndexedUpTo(|chunks|) && avgDocLength == AverageLength(Documents(chunks))
    }

    /** The object as built on the files found then. */
    constructor (files: seq<MarkdownFile>)
      ensures chunks == LoadedChunks(files) && Indexed()
    {
      chunks, docFreq, termFreqs, docLengths, avgDocLength := [], map[], [], [], 0.0;
      new;
      RebuildIndex(files);
    }

    /** `_load_chunks`, given the files in the order of their paths. */
    method LoadChunks(files: seq<MarkdownFile>) returns (loaded: seq<Chunk>)
      ensures loaded == LoadedChunks(files)
    {
      hide Chunks;
      loaded := [];
      for i := 0 to |files|
        invariant loaded == LoadedChunks(files[..i])
      {
        assert files[..i + 1][..i] == files[..i];
        var chunker := new Chunker(files[i].path, files[i].stem);
        chunker.ChunkMarkdown(files[i].stem, files[i].lines);
        loaded := loaded + chunker.chunks;
      }
      assert files[..|files|] == files;
    }

    /** The inner loop: counts the tokens of one more document. */
    method IndexDocument(ghost docs: seq<seq<string>>, tokens: seq<string>) returns (freqs: map<string, nat>)
      requires CountsDocs(docFreq, docs)
      modifies this`docFreq
      ensures CountsTerms(freqs, tokens)
      ensures CountsDocs(docFreq, docs + [tokens])
    {
      freqs := map[];
      assert CountsTerms(freqs, []);
      hide CountsTerms, CountsDocs;
      var seen: set<string> := {};
      CountsDocsEmpty(docFreq, docs);
      for i := 0 to |tokens|
        invariant CountsTerms(freqs, tokens[..i])
        invariant CountsDocs(docFreq, docs + [tokens[..i]])
        invariant forall term :: term in seen <==> term in tokens[..i]
      {
        var token := tokens[i];
        assert tokens[..i + 1] == tokens[..i] + [token];
        CountsTermsSnoc(freqs, tokens[..i], token);
        CountsDocsSnoc(docFreq, docs, tokens[..i], token);
        freqs := freqs[token := CountOr0(freqs, token) + 1];
        if token !in seen {
          docFreq := docFreq[token := CountOr0(docFreq, token) + 1];
          seen := seen + {token};
        }
      }
      assert tokens[..|tokens|] == tokens;
    }

    /** `rebuild_index`. */
    method RebuildIndex(files: seq<MarkdownFile>)
      modifies this
      ensures chunks == LoadedChunks(files)
      ensures Indexed()
    {
      hide CountsTerms, CountsDocs, LoadedChunks, Tokenize;
      chunks := LoadChunks(files);
      termFreqs, docFreq, docLengths := [], map[], [];
      ghost var docs := Documents(chunks);
      NothingIndexed();
      for i := 0 to |chunks|
        invariant chunks == LoadedChunks(files) && docs == Documents(chunks)
        invariant IndexedUpTo(i)
      {
        assert docs[..i + 1] == docs[..i] + [docs[i]];
        var tokens := Tokenize(chunks[i].heading + "\n" + chunks[i].body);
        var freqs := IndexDocument(docs[..i], tokens);
        termFreqs := termFreqs + [freqs];
        docLengths := docLengths + [|tokens|];
      }
      assert docs[..|chunks|] == docs;
      var totalTerms := SumLengths(docs);
      avgDocLength := if docLengths != [] then totalTerms as real / |docLengths| as real else 0.0;
    }

    /** `sum(self._doc_lengths)`. */
    method SumLengths(ghost docs: seq<seq<string>>) returns (total: nat)
      requires |docLengths| == |docs| && forall i :: 0 <= i < |docs| ==> docLengths[i] == |docs[i]|
      ensures total == TotalLength(docs)
    {
      total := 0;
      for i := 0 to |docLengths|
        invariant total == TotalLength(docs[..i])
      {
        assert docs[..i + 1][..i] == docs[..i];
        total := total + docLengths[i];
      }
      assert docs[..|docs|] == docs;
    }

    /** `dict.fromkeys`: each term once, in order. */
    method UniqueTerms(tokens: seq<string>) returns (terms: seq<string>)
      ensures terms == Unique(tokens)
    {
      terms := [];
      for i := 0 to |tokens|
        invariant terms == Unique(tokens[..i])
      {
        assert tokens[..i + 1][..i] == tokens[..i];
        if tokens[i] !in terms {
          terms := terms + [tokens[i]];
        }
      }
      assert tokens[..|tokens|] == tokens;
    }

    /** The inner loop of `search`: the score of one chunk, from the tables. */
    method ScoreChunk(s: Scoring, index: nat, terms: seq<string>) returns (r: Result<(real, seq<string>), SearchError>)
      requires Indexed() && index < |chunks|
      ensures var docs := Documents(chunks);
        if FailsAt(s, docs, index, terms) then r == Err(ZeroDivision)
        else r == Ok((Bm25Score(s, docs, index, terms), Matched(docs[index], terms)))
    {
      hide CountsTerms, CountsDocs, DocFrequency, TermFrequency, AverageLength, Idf, Bm25Score, Matched, FailsAt;
      ghost var docs := Documents(chunks);
      assert docs[..|chunks|] == docs;
      var docLength := if docLengths[index] > 1 then docLengths[index] else 1;
      var score, matched := 0.0, [];
      NoTermsYet(s, docs, index);
      for j := 0 to |terms|
        invariant !FailsAt(s, docs, index, terms[..j])
        invariant score == Bm25Score(s, docs, index, terms[..j])
        invariant matched == Matched(docs[index], terms[..j])
      {
        var term := terms[j];
        OneMoreTerm(s, docs, index, terms, j);
        TablesAnswer(termFreqs[index], docs[index], docFreq, docs, term);
        var freq := CountOr0(termFreqs[index], term);
        if freq == 0 {
          continue;
        }
        matched := matched + [term];
        var idf := Idf(s.log, |chunks|, CountOr0(docFreq, term));
        var numerator := freq as real * (s.k1 + 1.0);
        var denominator := Denominator(freq, s.k1, s.b, docLength as real / NonZero(avgDocLength));
        if denominator == 0.0 {
          return Err(ZeroDivision);
        }
        score := score + idf * (numerator / denominator);
      }
      assert terms[..|terms|] == terms;
      r := Ok((score, matched));
    }

    /** `search`. */
    method Search(s: Scoring, query: string, limit: int) returns (r: Result<seq<SearchHit>, SearchError>)
      requires Indexed()
      ensures r == SearchResult(s, chunks, query, limit)
    {
      hide Tokenize, Bm25Score, FailsAt, StableSort, Documents, Indexed, Matched, HeadingBoost;
      var tokens := Tokenize(query);
      var terms := UniqueTerms(tokens);
      if tokens == [] || chunks == [] {
        EmptyTerms(tokens);
        return Ok([]);
      }
      EmptyTerms(tokens);
      var results := [];
      for index := 0 to |chunks|
        invariant results == Hits(s, chunks, terms, index)
        invariant forall i :: 0 <= i < index ==> !FailsAt(s, Documents(chunks), i, terms)
      {
        var scored := ScoreChunk(s, index, terms);
        if scored.Err? {
          return Err(ZeroDivision);
        }
        assert Hits(s, chunks, terms, index + 1) == Hits(s, chunks, terms, index) + HitIfAny(s, chunks, terms, index);
        if scored.value.0 == 0.0 {
          assert HitIfAny(s, chunks, terms, index) == [];
          assert results + [] == results;
          continue;
        }
        var finalScore := scored.value.0 * chunks[index].priority * HeadingBoost(chunks[index], terms);
        assert HitIfAny(s, chunks, terms, index) == [HitOf(s, chunks, index, terms)];
        assert SearchHit(chunks[index], finalScore, scored.value.1) == HitOf(s, chunks, index, terms);
        results := results + [SearchHit(chunks[index], finalScore, scored.value.1)];
      }
      NoOtherDocument(s, Documents(chunks), terms);
      return Ok(Shown(StableSort(results), limit));
    }
  }

  lemma NoTermsYet(s: Scoring, docs: seq<seq<string>>, i: nat)
    requires i < |docs|
    ensures Bm25Score(s, docs, i, []) == 0.0 && Matched(docs[i], []) == [] && !FailsAt(s, docs, i, [])
  {
  }

  lemma OneMoreTerm(s: Scoring, docs: seq<seq<string>>, i: nat, terms: seq<string>, j: nat)
    requires i < |docs| && j < |terms|
    ensures var term := terms[j];
      if term in docs[i] then
        && Bm25Score(s, docs, i, terms[..j + 1]) == Bm25Score(s, docs, i, terms[..j]) + TermScore(s, docs, i, term)
        && Matched(docs[i], terms[..j + 1]) == Matched(docs[i], terms[..j]) + [term]
        && (FailsAt(s, docs, i, terms[..j + 1])
          <==> FailsAt(s, docs, i, terms[..j]) || DivisorOf(s, docs, i, term) == 0.0)
        && (DivisorOf(s, docs, i, term) == 0.0 ==> FailsAt(s, docs, i, terms))
      else
        && Bm25Score(s, docs, i, terms[..j + 1]) == Bm25Score(s, docs, i, terms[..j])
        && Matched(docs[i], terms[..j + 1]) == Matched(docs[i], terms[..j])
        && (FailsAt(s, docs, i, terms[..j + 1]) <==> FailsAt(s, docs, i, terms[..j]))
  {
    hide TermScore, DivisorOf;
    assert terms[..j + 1][..j] == terms[..j];
    assert forall t :: t in terms[..j + 1] <==> t in terms[..j] || t == terms[j];
  }

  lemma EmptyTerms(tokens: seq<string>)
    ensures Unique(tokens) == [] <==> tokens == []
  {
    if tokens != [] {
      assert tokens[0] in Unique(tokens);
    }
  }

  lemma NoOtherDocument(s: Scoring, docs: seq<seq<string>>, terms: seq<string>)
    ensures forall i :: i >= |docs| ==> !FailsAt(s, docs, i, terms)
  {
  }
}
