/**
 * Searching the incident memory: a service filter with a fallback to every
 * service, then a character budget on the texts of the ranked results.
 */
module EpisodicMemory {
  import opened Arithmetic
  import opened StableSort
  import opened Wrappers
  import opened Cosine
  import opened VectorStore

  const TRUNCATED := "\n...[truncated]"

  function TextLength(results: seq<SearchResult>): nat {
    if results == [] then 0 else TextLength(results[..|results| - 1]) + |results[|results| - 1].document.text|
  }

  /** The result cut down to `remaining` characters and marked. */
  function Truncate(r: SearchResult, remaining: nat): SearchResult {
    r.(document := r.document.(text := TakeSlice(r.document.text, remaining) + TRUNCATED))
  }

  /** The first result that no longer fits, or the number of results when all fit. */
  function FirstOverflow(ranked: seq<SearchResult>, budget: int): (n: nat)
    ensures n <= |ranked|
    ensures ranked != [] ==> n >= 1
  {
    if |ranked| <= 1 then |ranked| else
      var n := FirstOverflow(ranked[..|ranked| - 1], budget);
      if n < |ranked| - 1 || TextLength(ranked) > budget then n else |ranked|
  }

  /** What the budget does to the ranked results. */
  function Budgeted(ranked: seq<SearchResult>, budget: int): seq<SearchResult> {
    var n := FirstOverflow(ranked, budget);
    if n == |ranked| then ranked
    else ranked[..n] + [Truncate(ranked[n], Max(100, budget - TextLength(ranked[..n])))]
  }

  function ServiceFilter(service: Option<string>): map<string, MetaValue> {
    if service.Some? && service.value != "" then map["service" := Text(service.value)] else map[]
  }

  /** The ranked candidates: those of the service if there are any, else those of all services. */
  function Ranked(sqrt: real -> real, docs: seq<VectorDocument>, query: Vector, service: Option<string>, topK: int)
    : seq<SearchResult>
  {
    var ofService := TopMatches(sqrt, docs, query, topK, ServiceFilter(service));
    if ServiceFilter(service) != map[] && ofService != [] then ofService
    else TopMatches(sqrt, docs, query, topK, map[])
  }

  /** `not query.strip()`, with the ASCII white space: the controls 9 to 13 and 28 to 31, and the space. */
  predicate Blank(query: string) {
    forall i :: 0 <= i < |query| ==> 9 <= query[i] as int <= 13 || 28 <= query[i] as int <= 32
  }

  class EpisodicMemoryManager {
    const store: InMemoryVectorStore
    const embed: string -> Vector
    const defaults: seq<VectorDocument>
    var seeded: bool

    constructor (store: InMemoryVectorStore, embed: string -> Vector, defaults: seq<VectorDocument>)
      ensures this.store == store && this.embed == embed && this.defaults == defaults && !seeded
    {
      this.store, this.embed, this.defaults, seeded := store, embed, defaults, false;
    }

    method SeedDefaultMemories()
      modifies this, store
      ensures seeded
      ensures store.documents == if old(seeded) then old(store.documents) else old(store.documents) + defaults
    {
      if seeded {
        return;
      }
      store.AddDocuments(defaults);
      seeded := true;
    }

    method SearchSimilarIncidents(query: string, service: Option<string>, topK: int, budget: int)
      returns (r: seq<SearchResult>)
      modifies this, store
      ensures var blank := forall i :: 0 <= i < |query| ==>
                             9 <= query[i] as int <= 13 || 28 <= query[i] as int <= 32;
              if blank then r == [] && store.documents == old(store.documents) && seeded == old(seeded)
              else
                && seeded
                && store.documents == (if old(seeded) then old(store.documents) else old(store.documents) + defaults)
                && r == Budgeted(TakeSlice(Ranked(store.sqrt, store.documents, embed(query), service, topK), topK),
                       budget)
    {
      if Blank(query) {
        return [];
      }
      if !seeded {
        SeedDefaultMemories();
      }
      var queryVector := embed(query);
      var results: seq<SearchResult> := [];
      if service.Some? && service.value != "" {
        results := store.Search(queryVector, topK, Some(map["service" := Text(service.value)]));
      }
      if results == [] {
        results := store.Search(queryVector, topK, None);
      }
      assert results == Ranked(store.sqrt, store.documents, queryVector, service, topK);
      r := ApplyBudget(TakeSlice(results, topK), budget);
    }

    method ApplyBudget(ranked: seq<SearchResult>, budget: int) returns (r: seq<SearchResult>)
      ensures r == Budgeted(ranked, budget)
    {
      hide TextLength;
      hide FirstOverflow;
      hide Truncate;
      r := [];
      var accumulated := 0;
      NothingTaken(ranked, budget);
      for i := 0 to |ranked|
        invariant r == ranked[..i]
        invariant accumulated == TextLength(ranked[..i])
        invariant FirstOverflow(ranked[..i], budget) == i
      {
        OneMoreTaken(ranked, budget, i);
        var length := |ranked[i].document.text|;
        if accumulated + length > budget && r != [] {
          r := r + [Truncate(ranked[i], Max(100, budget - accumulated))];
          OverflowIsFirst(ranked, budget, i);
          return;
        }
        accumulated := accumulated + length;
        r := r + [ranked[i]];
      }
      assert ranked[..|ranked|] == ranked;
    }
  }

  lemma NothingTaken(ranked: seq<SearchResult>, budget: int)
    ensures TextLength(ranked[..0]) == 0 && FirstOverflow(ranked[..0], budget) == 0
  {
  }

  lemma OneMoreTaken(ranked: seq<SearchResult>, budget: int, i: nat)
    requires i < |ranked| && FirstOverflow(ranked[..i], budget) == i
    ensures TextLength(ranked[..i + 1]) == TextLength(ranked[..i]) + |ranked[i].document.text|
    ensures i == 0 || TextLength(ranked[..i + 1]) <= budget ==> FirstOverflow(ranked[..i + 1], budget) == i + 1
  {
    assert ranked[..i + 1][..i] == ranked[..i];
  }

  lemma {:induction false} OverflowIsFirst(ranked: seq<SearchResult>, budget: int, i: nat)
    requires 0 < i < |ranked| && FirstOverflow(ranked[..i], budget) == i
    requires TextLength(ranked[..i + 1]) > budget
    ensures FirstOverflow(ranked, budget) == i
  {
    var front := ranked[..|ranked| - 1];
    if i == |ranked| - 1 {
      assert ranked[..i + 1] == ranked && ranked[..i] == front;
    } else {
      assert front[..i] == ranked[..i] && front[..i + 1] == ranked[..i + 1];
      OverflowIsFirst(front, budget, i);
    }
  }

  // What the budget promises, and what it does not

  lemma {:induction false} TextLengthMonotone(ranked: seq<SearchResult>, n: nat)
    requires n <= |ranked|
    ensures TextLength(ranked[..n]) <= TextLength(ranked)
  {
    if n < |ranked| {
      var front := ranked[..|ranked| - 1];
      assert front[..n] == ranked[..n];
      TextLengthMonotone(front, n);
    } else {
      assert ranked[..n] == ranked;
    }
  }

  /** Everything before the overflow fits, unless it is the first result; the overflow does not fit. */
  lemma {:induction false} OverflowMeaning(ranked: seq<SearchResult>, budget: int)
    ensures var n := FirstOverflow(ranked, budget);
            && (n >= 2 ==> TextLength(ranked[..n]) <= budget)
            && (n < |ranked| ==> TextLength(ranked[..n + 1]) > budget)
  {
    var n := FirstOverflow(ranked, budget);
    assert ranked[..|ranked|] == ranked;
    if |ranked| >= 2 {
      var front := ranked[..|ranked| - 1];
      OverflowMeaning(front, budget);
      if n <= |front| {
        assert front[..n] == ranked[..n];
        if n < |front| {
          assert front[..n + 1] == ranked[..n + 1];
        } else {
          assert ranked[..n + 1] == ranked;
        }
      }
    }
  }

  /**
   * The results are the ranked candidates in order, with the same ids and
   * scores; only the last may have another text, and the texts together stay
   * within 115 characters of the budget or of the first candidate.
   */
  lemma BudgetKeepsRanking(ranked: seq<SearchResult>, budget: int)
    ensures var r := Budgeted(ranked, budget);
            && |r| <= |ranked|
            && (ranked != [] ==> r != [])
            && (forall i :: 0 <= i < |r| ==> r[i].document.id == ranked[i].document.id && r[i].score == ranked[i].score)
            && (forall i :: 0 <= i < |r| - 1 ==> r[i] == ranked[i])
            && (ranked != [] ==> TextLength(r) <= Max(|ranked[0].document.text|, budget) + 115)
  {
    var n := FirstOverflow(ranked, budget);
    OverflowMeaning(ranked, budget);
    assert ranked[..|ranked|] == ranked;
    if ranked != [] {
      FirstText(ranked);
      if n < |ranked| {
        BudgetedLength(ranked, budget);
      }
    }
  }

  lemma FirstText(ranked: seq<SearchResult>)
    requires ranked != []
    ensures TextLength(ranked[..1]) == |ranked[0].document.text|
  {
    assert ranked[..1][..0] == [];
  }

  lemma TextLengthLast(results: seq<SearchResult>, last: SearchResult)
    ensures TextLength(results + [last]) == TextLength(results) + |last.document.text|
  {
    assert (results + [last])[..|results|] == results;
  }

  lemma BudgetedLength(ranked: seq<SearchResult>, budget: int)
    requires FirstOverflow(ranked, budget) < |ranked|
    ensures var n := FirstOverflow(ranked, budget);
            var used, length := TextLength(ranked[..n]), |ranked[n].document.text|;
            var remaining := Max(100, budget - used);
            && TextLength(Budgeted(ranked, budget)) == used + (if remaining < length then remaining else length) + 15
            && used + length > budget
  {
    hide FirstOverflow;
    hide TextLength;
    var n := FirstOverflow(ranked, budget);
    OverflowMeaning(ranked, budget);
    assert ranked[..n + 1] == ranked[..n] + [ranked[n]];
    TextLengthLast(ranked[..n], ranked[n]);
    TextLengthLast(ranked[..n], Truncate(ranked[n], Max(100, budget - TextLength(ranked[..n]))));
    assert |TRUNCATED| == 15;
  }

  /**
   * The answer is within the budget exactly when the candidates were: as soon
   * as a result has to be cut, its mark takes the answer past the budget.
   */
  lemma BudgetHonoured(ranked: seq<SearchResult>, budget: int)
    ensures TextLength(Budgeted(ranked, budget)) <= budget <==> TextLength(ranked) <= budget
  {
    var n := FirstOverflow(ranked, budget);
    if n < |ranked| {
      BudgetedLength(ranked, budget);
      OverflowMeaning(ranked, budget);
      TextLengthMonotone(ranked, n + 1);
    }
  }

  /**
   * Two texts of three characters overrun a budget of five: the second is
   * marked, and the answer is longer than both.
   */
  lemma BudgetOverrun(a: SearchResult, b: SearchResult)
    requires |a.document.text| == 3 && |b.document.text| == 3
    ensures Budgeted([a, b], 5) == [a, Truncate(b, 100)]
    ensures TextLength(Budgeted([a, b], 5)) == 21
  {
    var ranked := [a, b];
    assert ranked[..1] == [a] && [a][..0] == [];
    assert TextLength([a]) == 3;
    assert ranked[..2] == ranked;
    assert [a, Truncate(b, 100)][..1] == [a];
  }

  /** The mark makes a text longer than the original exactly when fewer than 15 characters were cut. */
  lemma TruncationLengthens(r: SearchResult, remaining: nat)
    ensures |Truncate(r, remaining).document.text| > |r.document.text| <==> |r.document.text| < remaining + 15
  {
    assert |TRUNCATED| == 15;
  }

  /** Candidates that fit into the budget are returned as they are, and so is a single one. */
  lemma WhatFitsIsKept(ranked: seq<SearchResult>, budget: int)
    requires |ranked| <= 1 || TextLength(ranked) <= budget
    ensures Budgeted(ranked, budget) == ranked
  {
    var n := FirstOverflow(ranked, budget);
    if n < |ranked| {
      OverflowMeaning(ranked, budget);
      TextLengthMonotone(ranked, n + 1);
    }
  }

  /**
   * The first candidate that does not fit, the very first one excepted, is the
   * last result: its text is cut to the room left, or to 100 characters when
   * that is more, and marked.
   */
  lemma FirstMisfitIsCut(ranked: seq<SearchResult>, budget: int, n: nat)
    requires 1 <= n < |ranked| && (n >= 2 ==> TextLength(ranked[..n]) <= budget)
    requires TextLength(ranked[..n + 1]) > budget
    ensures var doc, room := ranked[n].document, budget - TextLength(ranked[..n]);
            var length := if room < 100 then 100 else room;
            var text := if length < |doc.text| then doc.text[..length] else doc.text;
            Budgeted(ranked, budget) ==
              ranked[..n] + [SearchResult(doc.(text := text + "\n...[truncated]"), ranked[n].score)]
  {
    var front := ranked[..n];
    OverflowMeaning(front, budget);
    if FirstOverflow(front, budget) < n {
      TextLengthMonotone(front, FirstOverflow(front, budget) + 1);
    }
    OverflowIsFirst(ranked, budget, n);
    var text := ranked[n].document.text;
    assert text[..|text|] == text;
  }

  /** The service's own results when one is given and there are any, else the results among all documents. */
  lemma FallbackExactly(sqrt: real -> real, docs: seq<VectorDocument>, query: Vector, service: Option<string>,
          topK: int)
    ensures var ranked := Ranked(sqrt, docs, query, service, topK);
            var all := TakeSlice(Sort(Score(sqrt, query, docs), BestFirst()), topK);
            if service.Some? && service.value != "" then
              var limited := TopMatches(sqrt, docs, query, topK, map["service" := Text(service.value)]);
              ranked == if limited != [] then limited else all
            else ranked == all
  {
    hide Sort;
    hide Score;
    hide TakeSlice;
    CandidateMeaning(docs, map[], VectorDocument("", "", [], map[]));
    if service.Some? && service.value != "" {
      assert "service" in ServiceFilter(service);
    }
  }

  /** For a positive count, a search limited to a service has a result exactly when some document is of it. */
  lemma LimitedSearchFinds(sqrt: real -> real, docs: seq<VectorDocument>, query: Vector, service: string, topK: int)
    requires topK >= 1
    ensures TopMatches(sqrt, docs, query, topK, map["service" := Text(service)]) != [] <==>
            exists doc :: doc in docs && "service" in doc.metadata && doc.metadata["service"] == Text(service)
  {
    hide Sort;
    hide Score;
    hide Filter;
    var filters := map["service" := Text(service)];
    assert "service" in filters;
    var candidates := Candidates(docs, filters);
    TopOfSort(Score(sqrt, query, candidates), BestFirst(), topK);
    if candidates != [] {
      FilterMembers(docs, HasMetadata(filters), candidates[0]);
    }
    if doc :| doc in docs && "service" in doc.metadata && doc.metadata["service"] == Text(service) {
      FilterMembers(docs, HasMetadata(filters), doc);
    }
  }

  lemma TopMatchesAreCandidates(sqrt: real -> real, docs: seq<VectorDocument>, query: Vector, topK: nat,
          filters: map<string, MetaValue>)
    ensures forall x :: x in TopMatches(sqrt, docs, query, topK, filters) ==> x.document in Candidates(docs, filters)
  {
    hide Sort;
    hide Candidates;
    var all := Score(sqrt, query, Candidates(docs, filters));
    TopOfSort(all, BestFirst(), topK);
    var ranked := TopMatches(sqrt, docs, query, topK, filters);
    var rest := Sort(all, BestFirst())[|ranked|..];
    forall x | x in ranked ensures x.document in Candidates(docs, filters) {
      assert x in multiset(ranked) + multiset(rest);
      assert x in multiset(all);
      var i :| 0 <= i < |all| && all[i] == x;
    }
  }

  /** With a positive count, one matching document keeps every result within the service. */
  lemma ServiceResultsStayInService(sqrt: real -> real, docs: seq<VectorDocument>, query: Vector, service: string,
          topK: int, budget: int, doc: VectorDocument)
    requires service != "" && topK >= 1
    requires doc in docs && Lookup(doc.metadata, "service") == Text(service)
    ensures var r := Budgeted(TakeSlice(Ranked(sqrt, docs, query, Some(service), topK), topK), budget);
            r != [] && forall x :: x in r ==> Lookup(x.document.metadata, "service") == Text(service)
  {
    hide Sort;
    hide Score;
    hide Candidates;
    var filters := ServiceFilter(Some(service));
    assert "service" in filters;
    var ranked := TopMatches(sqrt, docs, query, topK, filters);
    LimitedSearchFinds(sqrt, docs, query, service, topK);
    TopMatchesAreCandidates(sqrt, docs, query, topK, filters);
    forall x | x in ranked ensures Lookup(x.document.metadata, "service") == Text(service) {
      CandidateMeaning(docs, filters, x.document);
      assert multiset(Candidates(docs, filters))[x.document] > 0;
    }
    assert Ranked(sqrt, docs, query, Some(service), topK) == ranked;
    assert TakeSlice(ranked, topK) == ranked;
    BudgetKeepsRanking(ranked, budget);
    forall x | x in Budgeted(ranked, budget) ensures Lookup(x.document.metadata, "service") == Text(service) {
      var n := FirstOverflow(ranked, budget);
      if n < |ranked| && x == Budgeted(ranked, budget)[n] {
        assert x.document.metadata == ranked[n].document.metadata;
      }
    }
  }
}
