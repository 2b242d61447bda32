/**
 * The deployment tracker of the simulator. A query without filters holds an
 * alias of the tracker's own list and sorts it in place.
 */
module MockRepo {
  import opened Lists
  import opened StableSort
  import opened Wrappers
  import opened Text

  datatype DeploymentEvent = DeploymentEvent(
    deploymentId: string,
    service: string,
    version: string,
    previousVersion: string,
    timestamp: real,
    deployedBy: string,
    status: string,
    commitSha: string,
    configChanges: map<string, string>)

  // The reference meaning of a query

  /** `key=lambda d: d.timestamp, reverse=True` */
  function NewestFirst(): DeploymentEvent -> real {
    (d: DeploymentEvent) => -d.timestamp
  }

  function OfService(service: string): DeploymentEvent -> bool {
    (d: DeploymentEvent) => d.service == service
  }

  function NotBefore(since: real): DeploymentEvent -> bool {
    (d: DeploymentEvent) => d.timestamp >= since
  }

  function Matching(log: seq<DeploymentEvent>, service: Option<string>, since: Option<real>): seq<DeploymentEvent> {
    var ofService := if Given(service) then Filter(log, OfService(service.value)) else log;
    if since.Some? then Filter(ofService, NotBefore(since.value)) else ofService
  }

  /** What a query means: newest first among the matches, cut to the limit. */
  function Recent(log: seq<DeploymentEvent>, service: Option<string>, limit: int, since: Option<real>)
    : seq<DeploymentEvent>
  {
    TakeSlice(Sort(Matching(log, service, since), NewestFirst()), limit)
  }

  /**
   * The matches are the deployments of the service, when one is given, that are
   * not older than the bound, as often as they were recorded and in that order.
   */
  lemma MatchingMeaning(log: seq<DeploymentEvent>, service: Option<string>, since: Option<real>, d: DeploymentEvent)
    ensures Subsequence(Matching(log, service, since), log)
    ensures multiset(Matching(log, service, since))[d] ==
            if
              && (service.Some? && service.value != "" ==> d.service == service.value)
              && (since.Some? ==> d.timestamp >= since.value)
            then multiset(log)[d] else 0
  {
    hide Filter;
    hide Subsequence;
    SubsequenceOfItself(log);
    var ofService := if Given(service) then Filter(log, OfService(service.value)) else log;
    if Given(service) {
      FilterKeepsOrder(log, OfService(service.value));
      FilterCount(log, OfService(service.value), d);
    }
    if since.Some? {
      FilterKeepsOrder(ofService, NotBefore(since.value));
      FilterCount(ofService, NotBefore(since.value), d);
      SubsequenceTransitive(Matching(log, service, since), ofService, log);
    }
  }

  lemma MatchingSameBuckets(s: seq<DeploymentEvent>, t: seq<DeploymentEvent>, service: Option<string>,
          since: Option<real>)
    requires SameBuckets(s, t, NewestFirst())
    ensures SameBuckets(Matching(s, service, since), Matching(t, service, since), NewestFirst())
    ensures forall limit :: Recent(s, service, limit, since) == Recent(t, service, limit, since)
  {
    var key := NewestFirst();
    var a := if Given(service) then Filter(s, OfService(service.value)) else s;
    var b := if Given(service) then Filter(t, OfService(service.value)) else t;
    if Given(service) {
      FilterSameBuckets(s, t, OfService(service.value), key);
    }
    if since.Some? {
      FilterSameBuckets(a, b, NotBefore(since.value), key);
    }
    SortByBuckets(Matching(s, service, since), Matching(t, service, since), key);
  }

  // The tracker

  /** A Python list object: it can be shared, appended to and sorted in place. */
  class List<T> {
    var items: seq<T>

    constructor (items: seq<T>)
      ensures this.items == items
    {
      this.items := items;
    }

    method Append(x: T)
      modifies this
      ensures items == old(items) + [x]
    {
      items := items + [x];
    }

    method SortBy(key: T -> real)
      modifies this
      ensures items == Sort(old(items), key)
    {
      items := Sort(items, key);
    }

    /** `[x for x in self if p(x)]`, a new list. */
    method Where(p: T -> bool) returns (r: List<T>)
      ensures fresh(r) && r.items == Filter(items, p)
    {
      var kept: seq<T> := [];
      for i := 0 to |items|
        invariant kept == Filter(items[..i], p)
      {
        assert items[..i + 1][..i] == items[..i];
        if p(items[i]) {
          kept := kept + [items[i]];
        }
      }
      assert items[..|items|] == items;
      r := new List(kept);
    }
  }

  /** What a query leaves in the tracker's list: sorted when nothing was filtered. */
  function AfterQuery(items: seq<DeploymentEvent>, service: Option<string>, since: Option<real>): seq<DeploymentEvent> {
    if Given(service) || since.Some? then items else Sort(items, NewestFirst())
  }

  class MockCodeRepository {
    const deployments: List<DeploymentEvent>
    /** Everything recorded, in recording order. */
    ghost var log: seq<DeploymentEvent>

    ghost predicate Valid()
      reads this, deployments
    {
      SameBuckets(deployments.items, log, NewestFirst())
    }

    constructor ()
      ensures Valid() && fresh(deployments)
      ensures log == [] && deployments.items == []
    {
      deployments := new List([]);
      log := [];
    }

    method RecordDeployment(deployment: DeploymentEvent)
      requires Valid()
      modifies this, deployments
      ensures Valid()
      ensures log == old(log) + [deployment]
      ensures deployments.items == old(deployments.items) + [deployment]
    {
      deployments.Append(deployment);
      log := log + [deployment];
      AppendSameBuckets(old(deployments.items), old(log), deployment);
    }

    method GetRecentDeployments(service: Option<string>, limit: int, since: Option<real>)
      returns (r: seq<DeploymentEvent>)
      requires Valid()
      modifies deployments
      ensures Valid() && log == old(log)
      ensures deployments.items == AfterQuery(old(deployments.items), service, since)
      ensures r == Recent(log, service, limit, since)
    {
      var results := deployments;
      if Given(service) {
        results := results.Where(OfService(service.value));
      }
      if since.Some? {
        results := results.Where(NotBefore(since.value));
      }
      assert results.items == Matching(deployments.items, service, since);
      MatchingSameBuckets(deployments.items, log, service, since);
      SortCorrect(deployments.items, NewestFirst());
      results.SortBy(NewestFirst());
      return TakeSlice(results.items, limit);
    }
  }

  lemma AppendSameBuckets(s: seq<DeploymentEvent>, t: seq<DeploymentEvent>, d: DeploymentEvent)
    requires SameBuckets(s, t, NewestFirst())
    ensures SameBuckets(s + [d], t + [d], NewestFirst())
  {
  }

  /**
   * With a limit of zero or more the answer holds matches only, newest first,
   * and no match that was left out is newer than one returned.
   */
  lemma AnswerIsNewest(log: seq<DeploymentEvent>, service: Option<string>, limit: nat, since: Option<real>)
    ensures var r := Recent(log, service, limit, since);
            var matches := Matching(log, service, since);
            && |r| == (if limit < |matches| then limit else |matches|)
            && (forall i, j :: 0 <= i < j < |r| ==> r[i].timestamp >= r[j].timestamp)
            && exists omitted: seq<DeploymentEvent> ::
                 && multiset(r) + multiset(omitted) == multiset(matches)
                 && forall d, e :: d in r && e in omitted ==> d.timestamp >= e.timestamp
  {
    var matches := Matching(log, service, since);
    TopOfSort(matches, NewestFirst(), limit);
    var r := Recent(log, service, limit, since);
    var omitted := Sort(matches, NewestFirst())[|r|..];
    forall d, e | d in r && e in omitted ensures d.timestamp >= e.timestamp {
      assert NewestFirst()(d) <= NewestFirst()(e);
    }
    forall i, j | 0 <= i < j < |r| ensures r[i].timestamp >= r[j].timestamp {
      assert NewestFirst()(r[i]) <= NewestFirst()(r[j]);
    }
  }

  // Whole runs

  datatype Call =
    | Record(deployment: DeploymentEvent)
    | Query(service: Option<string>, limit: int, since: Option<real>)

  /** The answers of the tracker, which keeps re-sorting its own list ... */
  function Answers(items: seq<DeploymentEvent>, calls: seq<Call>): seq<seq<DeploymentEvent>>
    decreases |calls|
  {
    if calls == [] then [] else
      match calls[0]
      case Record(d) => Answers(items + [d], calls[1..])
      case Query(service, limit, since) =>
        [Recent(items, service, limit, since)] + Answers(AfterQuery(items, service, since), calls[1..])
  }

  /** ... and of an append-only log that no query touches. */
  function LogAnswers(log: seq<DeploymentEvent>, calls: seq<Call>): seq<seq<DeploymentEvent>>
    decreases |calls|
  {
    if calls == [] then [] else
      match calls[0]
      case Record(d) => LogAnswers(log + [d], calls[1..])
      case Query(service, limit, since) =>
        [Recent(log, service, limit, since)] + LogAnswers(log, calls[1..])
  }

  lemma {:induction false} SameAnswersFrom(items: seq<DeploymentEvent>, log: seq<DeploymentEvent>, calls: seq<Call>)
    requires SameBuckets(items, log, NewestFirst())
    ensures Answers(items, calls) == LogAnswers(log, calls)
    decreases |calls|
  {
    if calls != [] {
      match calls[0]
      case Record(d) =>
        AppendSameBuckets(items, log, d);
        SameAnswersFrom(items + [d], log + [d], calls[1..]);
      case Query(service, limit, since) =>
        MatchingSameBuckets(items, log, service, since);
        SortCorrect(items, NewestFirst());
        SameAnswersFrom(AfterQuery(items, service, since), log, calls[1..]);
    }
  }

  /** No sequence of calls can tell that queries re-order the tracker's list. */
  lemma InPlaceSortUnobservable(calls: seq<Call>)
    ensures Answers([], calls) == LogAnswers([], calls)
  {
    SameAnswersFrom([], [], calls);
  }
}
