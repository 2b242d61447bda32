/**
 * The queryable telemetry store: every batch is appended and the whole list is
 * sorted again, and a query returns the last `limit` matches.
 */
module TelemetryStore {
  import opened Lists
  import opened StableSort
  import opened Wrappers
  import opened Text

  datatype LogRecord = LogRecord(
    timestamp: real,
    level: string,
    service: string,
    message: string,
    traceId: Option<string>,
    metadata: map<string, string>)

  datatype MetricDataPoint = MetricDataPoint(
    timestamp: real,
    metricName: string,
    service: string,
    value: real,
    labels: map<string, string>)

  function LogTime(): LogRecord -> real { (r: LogRecord) => r.timestamp }

  function MetricTime(): MetricDataPoint -> real { (m: MetricDataPoint) => m.timestamp }

  datatype LogQuery = LogQuery(
    service: Option<string>,
    startTime: Option<real>,
    endTime: Option<real>,
    pattern: Option<string>,
    level: Option<string>)

  /** The conditions of a log query; one that is not given accepts every record. */
  function LogStages(q: LogQuery): (stages: seq<LogRecord -> bool>)
    ensures |stages| == 5
  {
    [ (r: LogRecord) => !Given(q.service) || r.service == q.service.value,
      (r: LogRecord) => !Given(q.level) || r.level == Upper(q.level.value),
      (r: LogRecord) => q.startTime.None? || r.timestamp >= q.startTime.value,
      (r: LogRecord) => q.endTime.None? || r.timestamp <= q.endTime.value,
      (r: LogRecord) => !Given(q.pattern) || Contains(Lower(r.message), Lower(q.pattern.value)) ]
  }

  lemma UngivenLogStages(q: LogQuery)
    ensures !Given(q.service) ==> forall r :: LogStages(q)[0](r)
    ensures !Given(q.level) ==> forall r :: LogStages(q)[1](r)
    ensures q.startTime.None? ==> forall r :: LogStages(q)[2](r)
    ensures q.endTime.None? ==> forall r :: LogStages(q)[3](r)
    ensures !Given(q.pattern) ==> forall r :: LogStages(q)[4](r)
  {
  }

  datatype MetricQuery = MetricQuery(
    metricName: string,
    service: Option<string>,
    startTime: Option<real>,
    endTime: Option<real>)

  function MetricStages(q: MetricQuery): (stages: seq<MetricDataPoint -> bool>)
    ensures |stages| == 4
  {
    [ (m: MetricDataPoint) => m.metricName == q.metricName,
      (m: MetricDataPoint) => !Given(q.service) || m.service == q.service.value,
      (m: MetricDataPoint) => q.startTime.None? || m.timestamp >= q.startTime.value,
      (m: MetricDataPoint) => q.endTime.None? || m.timestamp <= q.endTime.value ]
  }

  lemma UngivenMetricStages(q: MetricQuery)
    ensures !Given(q.service) ==> forall m :: MetricStages(q)[1](m)
    ensures q.startTime.None? ==> forall m :: MetricStages(q)[2](m)
    ensures q.endTime.None? ==> forall m :: MetricStages(q)[3](m)
  {
  }

  lemma SelectNothing<T>(s: seq<T>, stages: seq<T -> bool>)
    ensures Select(s, stages[..0]) == s
  {
  }

  /** One condition more: a comprehension when it is given, nothing otherwise. */
  method Narrow<T>(s: seq<T>, ghost all: seq<T>, stages: seq<T -> bool>, k: nat, given: bool) returns (r: seq<T>)
    requires k < |stages| && s == Select(all, stages[..k])
    requires !given ==> forall x: T :: stages[k](x)
    ensures r == Select(all, stages[..k + 1])
  {
    assert stages[..k + 1][..k] == stages[..k];
    if given {
      r := Filter(s, stages[k]);
    } else {
      FilterAll(s, stages[k]);
      r := s;
    }
  }

  class TelemetryStore {
    var logs: seq<LogRecord>
    var metrics: seq<MetricDataPoint>
    /** The batches since the last clear, concatenated. */
    ghost var allLogs: seq<LogRecord>
    ghost var allMetrics: seq<MetricDataPoint>

    ghost predicate Valid()
      reads this
    {
      logs == Sort(allLogs, LogTime()) && metrics == Sort(allMetrics, MetricTime())
    }

    constructor ()
      ensures Valid() && allLogs == [] && allMetrics == []
    {
      logs, metrics, allLogs, allMetrics := [], [], [], [];
    }

    method Clear()
      modifies this
      ensures Valid() && allLogs == [] && allMetrics == []
    {
      logs, metrics, allLogs, allMetrics := [], [], [], [];
    }

    method AddLogs(batch: seq<LogRecord>)
      requires Valid()
      modifies this
      ensures Valid()
      ensures allLogs == old(allLogs) + batch
      ensures allMetrics == old(allMetrics) && metrics == old(metrics)
    {
      SortAfterAppend(allLogs, batch, LogTime());
      logs := logs + batch;
      logs := Sort(logs, LogTime());
      allLogs := allLogs + batch;
    }

    method AddMetrics(batch: seq<MetricDataPoint>)
      requires Valid()
      modifies this
      ensures Valid()
      ensures allMetrics == old(allMetrics) + batch
      ensures allLogs == old(allLogs) && logs == old(logs)
    {
      SortAfterAppend(allMetrics, batch, MetricTime());
      metrics := metrics + batch;
      metrics := Sort(metrics, MetricTime());
      allMetrics := allMetrics + batch;
    }

    /** The last `limit` of the matches among everything added, oldest first. */
    method QueryLogs(q: LogQuery, limit: int) returns (r: seq<LogRecord>)
      requires Valid()
      ensures r == LastSlice(Sort(Select(allLogs, LogStages(q)), LogTime()), limit)
    {
      hide LogStages;
      hide Given;
      hide Select;
      hide Sort;
      hide LastSlice;
      var stages := LogStages(q);
      UngivenLogStages(q);
      var results := logs;
      SelectNothing(logs, stages);
      results := Narrow(results, logs, stages, 0, Given(q.service));
      results := Narrow(results, logs, stages, 1, Given(q.level));
      results := Narrow(results, logs, stages, 2, q.startTime.Some?);
      results := Narrow(results, logs, stages, 3, q.endTime.Some?);
      results := Narrow(results, logs, stages, 4, Given(q.pattern));
      assert stages[..5] == stages;
      SortSelect(allLogs, stages, LogTime());
      return LastSlice(results, limit);
    }

    method QueryMetrics(q: MetricQuery, limit: int) returns (r: seq<MetricDataPoint>)
      requires Valid()
      ensures r == LastSlice(Sort(Select(allMetrics, MetricStages(q)), MetricTime()), limit)
    {
      hide MetricStages;
      hide Given;
      hide Select;
      hide Sort;
      hide LastSlice;
      var stages := MetricStages(q);
      UngivenMetricStages(q);
      var results := metrics;
      SelectNothing(metrics, stages);
      results := Narrow(results, metrics, stages, 0, true);
      results := Narrow(results, metrics, stages, 1, Given(q.service));
      results := Narrow(results, metrics, stages, 2, q.startTime.Some?);
      results := Narrow(results, metrics, stages, 3, q.endTime.Some?);
      assert stages[..4] == stages;
      SortSelect(allMetrics, stages, MetricTime());
      return LastSlice(results, limit);
    }
  }

  /** Appending batch after batch, with a sort after each. */
  function AddBatches<T>(list: seq<T>, batches: seq<seq<T>>, key: T -> real): seq<T> {
    if batches == [] then list
    else Sort(AddBatches(list, batches[..|batches| - 1], key) + batches[|batches| - 1], key)
  }

  function Flatten<T>(batches: seq<seq<T>>): seq<T> {
    if batches == [] then [] else Flatten(batches[..|batches| - 1]) + batches[|batches| - 1]
  }

  /** However the records were batched, the list is one stable sort of all of them. */
  lemma {:induction false} BatchingUnobservable<T>(batches: seq<seq<T>>, key: T -> real)
    ensures AddBatches([], batches, key) == Sort(Flatten(batches), key)
  {
    if batches != [] {
      var front := batches[..|batches| - 1];
      BatchingUnobservable(front, key);
      SortAfterAppend(Flatten(front), batches[|batches| - 1], key);
    }
  }

  /**
   * With a limit of at least one, the last `limit` of the sorted matches are in
   * order, and no match that is left out comes after one that is returned.
   */
  lemma QueryIsNewest<T>(all: seq<T>, stages: seq<T -> bool>, key: T -> real, limit: int)
    requires limit >= 1
    ensures var matches := Select(all, stages);
            var r := LastSlice(Sort(matches, key), limit);
            && |r| == (if limit < |matches| then limit else |matches|)
            && (forall i, j :: 0 <= i < j < |r| ==> key(r[i]) <= key(r[j]))
            && exists omitted: seq<T> ::
                 && multiset(omitted) + multiset(r) == multiset(matches)
                 && forall d, e :: d in omitted && e in r ==> key(d) <= key(e)
  {
    hide Select;
    hide Sort;
    var matches := Select(all, stages);
    BottomOfSort(matches, key, limit);
    var t := Sort(matches, key);
    var r := LastSlice(t, limit);
    var omitted := t[..|t| - |r|];
    assert multiset(omitted) + multiset(r) == multiset(matches);
  }

  /** A query for logs returns matches in time order and leaves out none newer than one it returns. */
  lemma LogsAreNewest(all: seq<LogRecord>, q: LogQuery, limit: int)
    requires limit >= 1
    ensures var matches := Select(all, LogStages(q));
            var r := LastSlice(Sort(matches, LogTime()), limit);
            && |r| == (if limit < |matches| then limit else |matches|)
            && (forall i, j :: 0 <= i < j < |r| ==> r[i].timestamp <= r[j].timestamp)
            && exists omitted: seq<LogRecord> ::
                 && multiset(omitted) + multiset(r) == multiset(matches)
                 && forall d, e :: d in omitted && e in r ==> d.timestamp <= e.timestamp
  {
    hide Select;
    hide Sort;
    hide LastSlice;
    QueryIsNewest(all, LogStages(q), LogTime(), limit);
    var r := LastSlice(Sort(Select(all, LogStages(q)), LogTime()), limit);
    forall i, j | 0 <= i < j < |r| ensures r[i].timestamp <= r[j].timestamp {
      assert LogTime()(r[i]) <= LogTime()(r[j]);
    }
    var omitted: seq<LogRecord> :|
      && multiset(omitted) + multiset(r) == multiset(Select(all, LogStages(q)))
      && forall d, e :: d in omitted && e in r ==> LogTime()(d) <= LogTime()(e);
    forall d, e | d in omitted && e in r ensures d.timestamp <= e.timestamp {
      assert LogTime()(d) <= LogTime()(e);
    }
  }

  lemma MetricsAreNewest(all: seq<MetricDataPoint>, q: MetricQuery, limit: int)
    requires limit >= 1
    ensures var matches := Select(all, MetricStages(q));
            var r := LastSlice(Sort(matches, MetricTime()), limit);
            && |r| == (if limit < |matches| then limit else |matches|)
            && (forall i, j :: 0 <= i < j < |r| ==> r[i].timestamp <= r[j].timestamp)
            && exists omitted: seq<MetricDataPoint> ::
                 && multiset(omitted) + multiset(r) == multiset(matches)
                 && forall d, e :: d in omitted && e in r ==> d.timestamp <= e.timestamp
  {
    hide Select;
    hide Sort;
    hide LastSlice;
    QueryIsNewest(all, MetricStages(q), MetricTime(), limit);
    var r := LastSlice(Sort(Select(all, MetricStages(q)), MetricTime()), limit);
    forall i, j | 0 <= i < j < |r| ensures r[i].timestamp <= r[j].timestamp {
      assert MetricTime()(r[i]) <= MetricTime()(r[j]);
    }
    var omitted: seq<MetricDataPoint> :|
      && multiset(omitted) + multiset(r) == multiset(Select(all, MetricStages(q)))
      && forall d, e :: d in omitted && e in r ==> MetricTime()(d) <= MetricTime()(e);
    forall d, e | d in omitted && e in r ensures d.timestamp <= e.timestamp {
      assert MetricTime()(d) <= MetricTime()(e);
    }
  }

  /**
   * The matches are the records that meet every given condition, as often as
   * they were added and in that order. An empty string gives no condition; a
   * level is compared in capitals, a pattern in any case and at any place.
   */
  lemma LogMatches(all: seq<LogRecord>, q: LogQuery, r: LogRecord)
    ensures Subsequence(Select(all, LogStages(q)), all)
    ensures multiset(Select(all, LogStages(q)))[r] ==
            if
              && (q.service.Some? && q.service.value != "" ==> r.service == q.service.value)
              && (q.level.Some? && q.level.value != "" ==>
                    && SameIgnoringCase(q.level.value, r.level)
                    && forall i :: 0 <= i < |r.level| ==> !('a' <= r.level[i] <= 'z'))
              && (q.startTime.Some? ==> r.timestamp >= q.startTime.value)
              && (q.endTime.Some? ==> r.timestamp <= q.endTime.value)
              && (q.pattern.Some? && q.pattern.value != "" ==> exists i: nat :: ReadsAt(r.message, q.pattern.value, i))
            then multiset(all)[r] else 0
  {
    hide Select;
    hide Upper;
    hide Contains;
    hide ReadsAt;
    var stages := LogStages(q);
    SelectKeepsOrder(all, stages);
    SelectCount(all, stages, r);
    assert (forall i :: 0 <= i < |stages| ==> stages[i](r)) <==>
           stages[0](r) && stages[1](r) && stages[2](r) && stages[3](r) && stages[4](r);
    if q.level.Some? {
      UpperMeaning(q.level.value, r.level);
    }
    if q.pattern.Some? {
      SearchIgnoresCase(r.message, q.pattern.value);
    }
  }

  lemma MetricMatches(all: seq<MetricDataPoint>, q: MetricQuery, m: MetricDataPoint)
    ensures Subsequence(Select(all, MetricStages(q)), all)
    ensures multiset(Select(all, MetricStages(q)))[m] ==
            if
              && m.metricName == q.metricName
              && (q.service.Some? && q.service.value != "" ==> m.service == q.service.value)
              && (q.startTime.Some? ==> m.timestamp >= q.startTime.value)
              && (q.endTime.Some? ==> m.timestamp <= q.endTime.value)
            then multiset(all)[m] else 0
  {
    hide Select;
    var stages := MetricStages(q);
    SelectKeepsOrder(all, stages);
    SelectCount(all, stages, m);
    assert (forall i :: 0 <= i < |stages| ==> stages[i](m)) <==>
           stages[0](m) && stages[1](m) && stages[2](m) && stages[3](m);
  }

  /**
   * The limit is an upper bound on the answer exactly when it is at least one
   * (or is zero with nothing to return): a limit of zero returns every match.
   */
  lemma LimitHonoured<T>(matches: seq<T>, limit: int)
    ensures |LastSlice(matches, limit)| <= limit <==> limit >= 1 || (limit == 0 && matches == [])
    ensures limit == 0 ==> LastSlice(matches, limit) == matches
  {
  }

  /** One record in the store, and a query that asks for none of it returns it. */
  lemma LimitZeroReturnsAll()
    ensures var all := [LogRecord(0.0, "ERROR", "payment-service", "timeout", None, map[])];
            LastSlice(Sort(Select(all, LogStages(LogQuery(None, None, None, None, None))), LogTime()), 0) == all
  {
    var record := LogRecord(0.0, "ERROR", "payment-service", "timeout", None, map[]);
    var q := LogQuery(None, None, None, None, None);
    LogMatches([record], q, record);
    assert record in multiset(Select([record], LogStages(q)));
    SelectSingle(record, LogStages(q));
    SortSingle(record, LogTime());
  }

  lemma {:induction false} SelectSingle<T>(x: T, stages: seq<T -> bool>)
    requires x in Select([x], stages)
    ensures Select([x], stages) == [x]
  {
    if stages != [] {
      var n := |stages| - 1;
      FilterMembers(Select([x], stages[..n]), stages[n], x);
      SelectSingle(x, stages[..n]);
      assert [x][..0] == [];
    }
  }

  lemma SortSingle<T>(x: T, key: T -> real)
    ensures Sort([x], key) == [x]
  {
    assert [x][..0] == [];
  }
}
