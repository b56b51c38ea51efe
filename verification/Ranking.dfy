/**
The order in which search results are shown (src/knowledge_core.py): `list.sort` by score with
`reverse=True`, which keeps the order of equal scores, and the slice `[:limit]`.
*/
module Rankings {
  import opened Chunkers

  datatype SearchHit = SearchHit(chunk: Chunk, score: real, terms: seq<string>)

  predicate Descending(hits: seq<SearchHit>) {
    forall i, j :: 0 <= i < j < |hits| ==> hits[i].score >= hits[j].score
  }

  /** Puts a hit behind everything that scores at least as much. */
  function Insert(hit: SearchHit, hits: seq<SearchHit>): seq<SearchHit> {
    if hits == [] || hit.score > hits[0].score then [hit] + hits
    else [hits[0]] + Insert(hit, hits[1..])
  }

  function StableSort(hits: seq<SearchHit>): seq<SearchHit> {
    if hits == [] then []
    else Insert(hits[|hits| - 1], StableSort(hits[..|hits| - 1]))
  }

  /** The hits with one particular score, in order. */
  function WithScore(hits: seq<SearchHit>, score: real): seq<SearchHit> {
    if hits == [] then []
    else (if hits[0].score == score then [hits[0]] else []) + WithScore(hits[1..], score)
  }

  lemma {:induction false} WithScoreSnoc(hits: seq<SearchHit>, last: SearchHit, score: real)
    ensures WithScore(hits + [last], score) == WithScore(hits, score) + (if last.score == score then [last] else [])
  {
    if hits != [] {
      assert (hits + [last])[1..] == hits[1..] + [last];
      WithScoreSnoc(hits[1..], last, score);
    }
  }

  lemma {:induction false} WithScoreMembers(hits: seq<SearchHit>, score: real)
    ensures WithScore(hits, score) == [] <==> forall i :: 0 <= i < |hits| ==> hits[i].score != score
  {
    if hits != [] {
      WithScoreMembers(hits[1..], score);
      assert forall i :: 0 < i < |hits| ==> hits[i] == hits[1..][i - 1];
      assert forall i :: 0 <= i < |hits| - 1 ==> hits[1..][i] == hits[i + 1];
    }
  }

  lemma {:induction false} InsertSorts(hit: SearchHit, hits: seq<SearchHit>)
    requires Descending(hits)
    ensures Descending(Insert(hit, hits))
    ensures multiset(Insert(hit, hits)) == multiset(hits) + multiset{hit}
  {
    if hits != [] && hit.score <= hits[0].score {
      InsertSorts(hit, hits[1..]);
      InsertHead(hit, hits);
      assert hits == [hits[0]] + hits[1..];
    }
  }

  lemma {:induction false} InsertIsStable(hit: SearchHit, hits: seq<SearchHit>, score: real)
    requires Descending(hits)
    ensures WithScore(Insert(hit, hits), score) == WithScore(hits, score) + (if hit.score == score then [hit] else [])
  {
    if hits == [] || hit.score > hits[0].score {
      assert ([hit] + hits)[1..] == hits;
      WithScoreMembers(hits, score);
    } else {
      InsertIsStable(hit, hits[1..], score);
      var inserted := Insert(hit, hits[1..]);
      assert ([hits[0]] + inserted)[1..] == inserted;
    }
  }

  lemma InsertHead(hit: SearchHit, hits: seq<SearchHit>)
    requires Descending(hits) && hits != [] && hit.score <= hits[0].score
    requires multiset(Insert(hit, hits[1..])) == multiset(hits[1..]) + multiset{hit}
    ensures forall i :: 0 <= i < |Insert(hit, hits[1..])| ==> hits[0].score >= Insert(hit, hits[1..])[i].score
  {
    var inserted := Insert(hit, hits[1..]);
    forall i | 0 <= i < |inserted|
      ensures hits[0].score >= inserted[i].score
    {
      assert inserted[i] in multiset(inserted);
      assert inserted[i] in multiset(hits[1..]) || inserted[i] == hit;
      assert inserted[i] in hits[1..] || inserted[i] == hit;
    }
  }

  /** Sorting puts high scores first, keeps every hit, and keeps the order of hits of one score. */
  lemma {:induction false} StableSortSorts(hits: seq<SearchHit>)
    ensures Descending(StableSort(hits))
    ensures multiset(StableSort(hits)) == multiset(hits)
    ensures forall score :: WithScore(StableSort(hits), score) == WithScore(hits, score)
  {
    if hits != [] {
      var front, last := hits[..|hits| - 1], hits[|hits| - 1];
      StableSortSorts(front);
      InsertSorts(last, StableSort(front));
      assert hits == front + [last];
      forall score
        ensures WithScore(StableSort(hits), score) == WithScore(hits, score)
      {
        InsertIsStable(last, StableSort(front), score);
        WithScoreSnoc(front, last, score);
      }
    }
  }

  /** These two facts determine the order: no other arrangement has them both. */
  lemma {:induction false} StableOrderIsUnique(a: seq<SearchHit>, b: seq<SearchHit>)
    requires Descending(a) && Descending(b)
    requires forall score :: WithScore(a, score) == WithScore(b, score)
    ensures a == b
  {
    if a == [] {
      assert b == [] by {
        Nonempty(b, a);
      }
    } else {
      SameHead(a, b);
      forall score
        ensures WithScore(a[1..], score) == WithScore(b[1..], score)
      {
        assert WithScore(a, score) == WithScore(b, score);
        var head := if a[0].score == score then [a[0]] else [];
        assert WithScore(a, score)[|head|..] == WithScore(a[1..], score);
        assert WithScore(b, score)[|head|..] == WithScore(b[1..], score);
      }
      StableOrderIsUnique(a[1..], b[1..]);
      assert a == [a[0]] + a[1..] && b == [b[0]] + b[1..];
    }
  }

  lemma Nonempty(a: seq<SearchHit>, b: seq<SearchHit>)
    requires forall score :: WithScore(b, score) == WithScore(a, score)
    ensures a != [] ==> b != []
  {
    if a != [] {
      assert WithScore(b, a[0].score) == WithScore(a, a[0].score);
    }
  }

  lemma SameHead(a: seq<SearchHit>, b: seq<SearchHit>)
    requires Descending(a) && Descending(b) && a != []
    requires forall score :: WithScore(a, score) == WithScore(b, score)
    ensures b != [] && a[0] == b[0]
  {
    hide WithScore, Descending;
    assert WithScore(b, a[0].score) == WithScore(a, a[0].score);
    HeadIsFirst(a);
    ScoresAtMostHead(b, a[0].score);
    assert WithScore(b, b[0].score) == WithScore(a, b[0].score);
    HeadIsFirst(b);
    ScoresAtMostHead(a, b[0].score);
  }

  lemma HeadIsFirst(hits: seq<SearchHit>)
    requires hits != []
    ensures WithScore(hits, hits[0].score) != [] && WithScore(hits, hits[0].score)[0] == hits[0]
  {
  }

  lemma ScoresAtMostHead(hits: seq<SearchHit>, score: real)
    requires Descending(hits) && WithScore(hits, score) != []
    ensures hits != [] && score <= hits[0].score
  {
    hide WithScore;
    WithScoreMembers(hits, score);
  }

  /** The slice `hits[:limit]`: a negative limit drops hits from the end. */
  function Shown(hits: seq<SearchHit>, limit: int): (shown: seq<SearchHit>)
    ensures shown <= hits
    ensures 0 <= limit <= |hits| ==> |shown| == limit
    ensures limit >= |hits| ==> shown == hits
    ensures -|hits| <= limit < 0 ==> |shown| == |hits| + limit
    ensures limit < -|hits| ==> shown == []
  {
    if limit > |hits| then hits
    else if limit >= 0 then hits[..limit]
    else if |hits| + limit >= 0 then hits[..|hits| + limit]
    else []
  }

  /** Nothing that is cut off scores more than anything that is shown. */
  lemma CutOffIsWorse(hits: seq<SearchHit>, limit: int)
    ensures var sorted := StableSort(hits);
      var shown := Shown(sorted, limit);
      && multiset(shown) + multiset(sorted[|shown|..]) == multiset(hits)
      && forall best, cut :: best in shown && cut in sorted[|shown|..] ==> best.score >= cut.score
  {
    StableSortSorts(hits);
    var sorted := StableSort(hits);
    var shown := Shown(sorted, limit);
    assert sorted == shown + sorted[|shown|..];
  }
}
