/**
 * The in-memory vector store: filter by metadata, score by cosine similarity,
 * sort by descending score and cut.
 */
module VectorStore {
  import opened Lists
  import opened StableSort
  import opened Wrappers
  import opened Cosine

  datatype MetaValue = NoneValue | Text(text: string) | Number(number: real) | Texts(texts: seq<string>)

  datatype VectorDocument = VectorDocument(
    id: string,
    text: string,
    embedding: Vector,
    metadata: map<string, MetaValue>)

  datatype SearchResult = SearchResult(document: VectorDocument, score: real)

  /** `metadata.get(k)` */
  function Lookup(metadata: map<string, MetaValue>, k: string): MetaValue {
    if k in metadata then metadata[k] else NoneValue
  }

  function HasMetadata(filters: map<string, MetaValue>): VectorDocument -> bool {
    (doc: VectorDocument) => forall k :: k in filters ==> Lookup(doc.metadata, k) == filters[k]
  }

  function Score(sqrt: real -> real, query: Vector, docs: seq<VectorDocument>): (r: seq<SearchResult>)
    ensures |r| == |docs|
    ensures forall i :: 0 <= i < |docs| ==> r[i] == SearchResult(docs[i], Similarity(sqrt, query, docs[i].embedding))
  {
    seq(|docs|, i requires 0 <= i < |docs| => SearchResult(docs[i], Similarity(sqrt, query, docs[i].embedding)))
  }

  /** `key=lambda x: x.similarity_score, reverse=True` */
  function BestFirst(): SearchResult -> real {
    (r: SearchResult) => -r.score
  }

  function Candidates(docs: seq<VectorDocument>, filters: map<string, MetaValue>): seq<VectorDocument> {
    Filter(docs, HasMetadata(filters))
  }

  /**
   * The candidates are the documents that agree with the filter on every key,
   * as often as they were stored and in that order; a missing key reads as none.
   */
  lemma CandidateMeaning(docs: seq<VectorDocument>, filters: map<string, MetaValue>, doc: VectorDocument)
    ensures Subsequence(Candidates(docs, filters), docs)
    ensures multiset(Candidates(docs, filters))[doc] ==
            if forall k :: k in filters ==>
                 if k in doc.metadata then doc.metadata[k] == filters[k] else filters[k] == NoneValue
            then multiset(docs)[doc] else 0
    ensures filters == map[] ==> Candidates(docs, filters) == docs
  {
    FilterKeepsOrder(docs, HasMetadata(filters));
    FilterCount(docs, HasMetadata(filters), doc);
    if filters == map[] {
      FilterAll(docs, HasMetadata(filters));
    }
  }

  /** What a search means: the stable top of the scored candidates. */
  function TopMatches(sqrt: real -> real, docs: seq<VectorDocument>, query: Vector, limit: int,
          filters: map<string, MetaValue>)
    : seq<SearchResult>
  {
    TakeSlice(Sort(Score(sqrt, query, Candidates(docs, filters)), BestFirst()), limit)
  }

  class InMemoryVectorStore {
    const sqrt: real -> real
    var documents: seq<VectorDocument>

    constructor (sqrt: real -> real)
      ensures documents == [] && this.sqrt == sqrt
    {
      this.sqrt := sqrt;
      documents := [];
    }

    method AddDocuments(docs: seq<VectorDocument>)
      modifies this
      ensures documents == old(documents) + docs
    {
      documents := documents + docs;
    }

    method Matches(doc: VectorDocument, filters: map<string, MetaValue>) returns (matching: bool)
      ensures matching == HasMetadata(filters)(doc)
    {
      matching := true;
      var keys := filters.Keys;
      while keys != {}
        invariant keys <= filters.Keys
        invariant matching
        invariant forall k :: k in filters && k !in keys ==> Lookup(doc.metadata, k) == filters[k]
        decreases |keys|
      {
        var k :| k in keys;
        keys := keys - {k};
        if Lookup(doc.metadata, k) != filters[k] {
          matching := false;
          break;
        }
      }
    }

    /** `None` and an empty filter both select every document. */
    method Search(query: Vector, limit: int, filters: Option<map<string, MetaValue>>) returns (r: seq<SearchResult>)
      ensures r == TopMatches(sqrt, documents, query, limit, if filters.Some? then filters.value else map[])
    {
      var candidates := documents;
      ghost var wanted := if filters.Some? then filters.value else map[];
      if filters.Some? && filters.value != map[] {
        var filtered: seq<VectorDocument> := [];
        for i := 0 to |candidates|
          invariant filtered == Filter(candidates[..i], HasMetadata(filters.value))
        {
          assert candidates[..i + 1][..i] == candidates[..i];
          var matches := Matches(candidates[i], filters.value);
          if matches {
            filtered := filtered + [candidates[i]];
          }
        }
        assert candidates[..|candidates|] == candidates;
        candidates := filtered;
      } else {
        FilterAll(documents, HasMetadata(wanted));
      }
      var scored: seq<SearchResult> := [];
      for i := 0 to |candidates|
        invariant |scored| == i
        invariant forall j :: 0 <= j < i ==>
                    scored[j] == SearchResult(candidates[j], Similarity(sqrt, query, candidates[j].embedding))
      {
        scored := scored + [SearchResult(candidates[i], Similarity(sqrt, query, candidates[i].embedding))];
      }
      assert scored == Score(sqrt, query, candidates);
      scored := Sort(scored, BestFirst());
      return TakeSlice(scored, limit);
    }
  }

  /**
   * With a limit of zero or more a search returns the best `limit` candidates,
   * best first, and no candidate it leaves out scores higher than one it returns.
   */
  lemma SearchReturnsBest(sqrt: real -> real, docs: seq<VectorDocument>, query: Vector, limit: nat,
          filters: map<string, MetaValue>)
    ensures var all := Score(sqrt, query, Candidates(docs, filters));
            var r := TopMatches(sqrt, docs, query, limit, filters);
            && |r| == (if limit < |all| then limit else |all|)
            && (forall i, j :: 0 <= i < j < |r| ==> r[i].score >= r[j].score)
            && exists omitted: seq<SearchResult> ::
                 && multiset(r) + multiset(omitted) == multiset(all)
                 && forall x, y :: x in r && y in omitted ==> x.score >= y.score
  {
    var all := Score(sqrt, query, Candidates(docs, filters));
    TopOfSort(all, BestFirst(), limit);
    var r := TopMatches(sqrt, docs, query, limit, filters);
    var omitted := Sort(all, BestFirst())[|r|..];
    forall x, y | x in r && y in omitted ensures x.score >= y.score {
      assert BestFirst()(x) <= BestFirst()(y);
    }
    forall i, j | 0 <= i < j < |r| ensures r[i].score >= r[j].score {
      assert BestFirst()(r[i]) <= BestFirst()(r[j]);
    }
  }

  /**
   * When a candidate stores the query itself, the first result has the full
   * score, and its embedding is as long as the query and a positive multiple
   * of it.
   */
  lemma StoredQueryComesFirst(sqrt: real -> real, docs: seq<VectorDocument>, query: Vector, limit: int,
          filters: map<string, MetaValue>, copy: VectorDocument)
    requires IsSqrt(sqrt) && NonZero(query) && limit >= 1
    requires copy in Candidates(docs, filters) && copy.embedding == query
    ensures var r := TopMatches(sqrt, docs, query, limit, filters);
            && r != []
            && r[0].score == 1.0
            && |r[0].document.embedding| == |query|
            && exists c: real :: c > 0.0 && query == Scale(c, r[0].document.embedding)
  {
    hide Candidates;
    hide Sort;
    hide Similarity;
    var candidates := Candidates(docs, filters);
    var all := Score(sqrt, query, candidates);
    var i :| 0 <= i < |candidates| && candidates[i] == copy;
    SelfScore(sqrt, query);
    assert all[i].score == 1.0;
    SearchReturnsBest(sqrt, docs, query, limit, filters);
    TopOfSort(all, BestFirst(), limit);
    var r := TopMatches(sqrt, docs, query, limit, filters);
    var rest := Sort(all, BestFirst())[|r|..];
    assert all[i] in multiset(all);
    assert all[i] in multiset(r) + multiset(rest);
    assert r[0].score >= 1.0 by {
      if all[i] in r {
        var j :| 0 <= j < |r| && r[j] == all[i];
      } else {
        assert BestFirst()(r[0]) <= BestFirst()(all[i]);
      }
    }
    assert r[0] in multiset(all) by {
      assert r[0] in multiset(r);
    }
    var j :| 0 <= j < |all| && all[j] == r[0];
    FullScoreIsComparable(sqrt, query, r[0].document.embedding);
    FullScoreMeansParallel(sqrt, query, r[0].document.embedding);
  }

  lemma FullScoreIsComparable(sqrt: real -> real, a: Vector, b: Vector)
    requires IsSqrt(sqrt) && Similarity(sqrt, a, b) == 1.0
    ensures |a| == |b| && NonZero(a) && NonZero(b)
  {
    DotNonNegative(a);
    DotNonNegative(b);
    Root(sqrt, Dot(a, a));
    Root(sqrt, Dot(b, b));
  }
}
