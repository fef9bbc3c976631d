/** Splitting work and notifying subscribers (jsonrpc/endpoints_eth.go, jsonrpc/query.go). */
module Notifications {
  import opened Wrappers
  import opened FilterStorage
  import opened Sequences

  // ----- Splitting items among workers -----

  function Flatten<T>(jobs: seq<seq<T>>): seq<T> {
    if jobs == [] then [] else Flatten(jobs[..|jobs| - 1]) + jobs[|jobs| - 1]
  }

  lemma FlattenSnoc<T>(jobs: seq<seq<T>>, job: seq<T>)
    ensures Flatten(jobs + [job]) == Flatten(jobs) + job
  {
    assert (jobs + [job])[..|jobs|] == jobs;
  }

  /** Items per worker; rounding up leaves nothing over. */
  function JobSize(n: nat, workers: nat): (size: nat)
    requires workers > 0
    ensures workers * size >= n
  {
    var size, rest := n / workers, n % workers;
    assert n == workers * size + rest;
    assert workers * (size + 1) == workers * size + workers;
    if rest > 0 then size + 1 else size
  }

  lemma NextJob<T>(jobs: seq<seq<T>>, items: seq<T>, start: nat, end: nat)
    requires start <= end <= |items| && Flatten(jobs) == items[..start]
    ensures Flatten(jobs + [items[start..end]]) == items[..end]
  {
    FlattenSnoc(jobs, items[start..end]);
    assert items[..end] == items[..start] + items[start..end];
  }

  lemma NextRange(worker: nat, jobSize: nat)
    ensures (worker + 1) * jobSize == worker * jobSize + jobSize
  {
  }

  /** The items of each started worker; together they are the items, in order, each once. */
  method Parallelize<T>(maxWorkers: nat, items: seq<T>) returns (jobs: seq<seq<T>>)
    requires maxWorkers >= 1 || items == []
    ensures |jobs| <= maxWorkers && |jobs| <= |items|
    ensures Flatten(jobs) == items
  {
    jobs := [];
    if |items| == 0 {
      return;
    }
    var workersCount := maxWorkers;
    if workersCount > |items| {
      workersCount := |items|;
    }
    var jobSize := JobSize(|items|, workersCount);
    ghost var start := 0;
    for worker := 0 to workersCount
      invariant |jobs| <= worker && start == worker * jobSize
      invariant Flatten(jobs) == items[..if start > |items| then |items| else start]
    {
      var rangeStart := worker * jobSize;
      var rangeEnd := (worker + 1) * jobSize;
      NextRange(worker, jobSize);
      start := start + jobSize;
      if rangeStart > |items| {
        continue;
      }
      if rangeEnd > |items| {
        rangeEnd := |items|;
      }
      NextJob(jobs, items, rangeStart, rangeEnd);
      jobs := jobs + [items[rangeStart..rangeEnd]];
    }
    assert items[..|items|] == items;
  }

  lemma {:induction false} TakeHead<T>(jobs: seq<seq<T>>, w: nat)
    requires w < |jobs| && jobs[w] != []
    ensures multiset(Flatten(jobs)) == multiset(Flatten(jobs[w := jobs[w][1..]])) + multiset{jobs[w][0]}
    ensures |Flatten(jobs)| == |Flatten(jobs[w := jobs[w][1..]])| + 1
  {
    var last := |jobs| - 1;
    var after := jobs[w := jobs[w][1..]];
    assert jobs[w] == [jobs[w][0]] + jobs[w][1..];
    if w < last {
      TakeHead(jobs[..last], w);
      assert after[..last] == jobs[..last][w := jobs[w][1..]];
    } else {
      assert after[..last] == jobs[..last];
    }
  }

  lemma {:induction false} NothingLeft<T>(jobs: seq<seq<T>>)
    requires forall w :: 0 <= w < |jobs| ==> jobs[w] == []
    ensures Flatten(jobs) == []
  {
    if jobs != [] {
      NothingLeft(jobs[..|jobs| - 1]);
    }
  }

  /**
   A new head is enqueued exactly once for every block filter with a connection, whatever the order in
   which the workers run.
   */
  method NotifyNewHeads(storage: Storage) returns (enqueued: seq<Filter>)
    requires storage.Valid()
    ensures multiset(enqueued) == multiset(OfKind(storage.allFilters, BlockFilterType).Values)
  {
    var filters := storage.GetAllBlockFiltersWithWSConn();
    var jobs := Parallelize(32, filters);
    enqueued := [];
    while exists w :: 0 <= w < |jobs| && jobs[w] != []
      invariant multiset(Flatten(jobs)) + multiset(enqueued) == multiset(filters)
      decreases |Flatten(jobs)|
    {
      var w :| 0 <= w < |jobs| && jobs[w] != [];
      TakeHead(jobs, w);
      enqueued := enqueued + [jobs[w][0]];
      jobs := jobs[w := jobs[w][1..]];
    }
    NothingLeft(jobs);
  }

  // ----- Two ways to match a log -----

  type Word = nat

  const MAX_TOPICS: nat := 4

  datatype Log = Log(address: Word, topics: seq<Word>)

  /** Per topic position a list of accepted values; an empty list accepts anything. */
  datatype LogFilter = LogFilter(addresses: seq<Word>, topics: seq<seq<Word>>)

  predicate AddressAccepted(f: LogFilter, l: Log) {
    f.addresses == [] || l.address in f.addresses
  }

  /** What subscriptions deliver: positions past the fourth are not looked at, trailing wildcards need no topic. */
  predicate Kept(f: LogFilter, l: Log) {
    && AddressAccepted(f, l)
    && forall i :: 0 <= i < |f.topics| && i < MAX_TOPICS ==>
         f.topics[i] == [] || (i < |l.topics| && l.topics[i] in f.topics[i])
  }

  /** What queries return: the log must have as many topics as the filter has positions. */
  predicate Matches(f: LogFilter, l: Log) {
    && AddressAccepted(f, l)
    && |f.topics| <= |l.topics|
    && forall i :: 0 <= i < |f.topics| ==> f.topics[i] == [] || l.topics[i] in f.topics[i]
  }

  function PickKept(f: LogFilter): Log -> Option<Log> {
    l => if Kept(f, l) then Some(l) else None
  }

  method Contains(items: seq<Word>, itemToFind: Word) returns (found: bool)
    ensures found <==> itemToFind in items
  {
    for i := 0 to |items|
      invariant itemToFind !in items[..i]
    {
      if items[i] == itemToFind {
        return true;
      }
    }
    return false;
  }

  /** The topic check of one log. */
  method TopicsKept(f: LogFilter, l: Log) returns (match_: bool)
    requires AddressAccepted(f, l)
    ensures match_ <==> Kept(f, l)
  {
    match_ := true;
    for i := 0 to MAX_TOPICS
      invariant match_
      invariant forall k :: 0 <= k < i && k < |f.topics| ==>
        f.topics[k] == [] || (k < |l.topics| && l.topics[k] in f.topics[k])
    {
      if |f.topics| <= i {
        break;
      }
      if |f.topics[i]| == 0 {
        continue;
      }
      if |l.topics| <= i {
        return false;
      }
      var found := Contains(f.topics[i], l.topics[i]);
      if !found {
        return false;
      }
    }
  }

  method FilterLogs(logsToFilter: seq<Log>, f: LogFilter) returns (logs: seq<Log>)
    ensures logs == Collect(PickKept(f), logsToFilter)
    ensures exists at :: TakenFrom(PickKept(f), logsToFilter, logs, at)
  {
    logs := [];
    for i := 0 to |logsToFilter|
      invariant logs == Collect(PickKept(f), logsToFilter[..i])
    {
      CollectNext(PickKept(f), logsToFilter, i);
      var l := logsToFilter[i];
      if |f.addresses| > 0 {
        var found := Contains(f.addresses, l.address);
        if !found {
          continue;
        }
      }
      var kept := TopicsKept(f, l);
      if kept {
        logs := logs + [l];
      }
    }
    assert logsToFilter[..|logsToFilter|] == logsToFilter;
    ghost var at := CollectExact(PickKept(f), logsToFilter);
  }

  method Match(f: LogFilter, l: Log) returns (r: bool)
    ensures r <==> Matches(f, l)
  {
    if |f.addresses| > 0 {
      var found := Contains(f.addresses, l.address);
      if !found {
        return false;
      }
    }
    if |f.topics| > |l.topics| {
      return false;
    }
    for i := 0 to |f.topics|
      invariant forall k :: 0 <= k < i ==> f.topics[k] == [] || l.topics[k] in f.topics[k]
    {
      var found := Contains(f.topics[i], l.topics[i]);
      if |f.topics[i]| != 0 && !found {
        return false;
      }
    }
    return true;
  }

  /** A log with `n` topics that every position of the filter accepts. */
  function Accepted(f: LogFilter, n: nat): (l: Log)
    ensures |l.topics| == n && AddressAccepted(f, l)
    ensures forall i :: 0 <= i < n && i < |f.topics| ==> f.topics[i] == [] || l.topics[i] in f.topics[i]
  {
    Log(if f.addresses == [] then 0 else f.addresses[0],
        seq(n, i requires 0 <= i => if i < |f.topics| && f.topics[i] != [] then f.topics[i][0] else 0))
  }

  /** Addresses are alternatives, of which none at all accepts anything. */
  lemma AddressesAdd(f: LogFilter, more: seq<Word>, address: Word, l: Log)
    requires f.addresses != [] && more != []
    ensures Kept(f.(addresses := f.addresses + more), l) <==> Kept(f, l) || Kept(f.(addresses := more), l)
    ensures Matches(f.(addresses := f.addresses + more), l) <==> Matches(f, l) || Matches(f.(addresses := more), l)
    ensures Kept(f.(addresses := [address]), l) <==> Kept(f.(addresses := []), l) && l.address == address
    ensures Matches(f.(addresses := [address]), l) <==> Matches(f.(addresses := []), l) && l.address == address
  {
  }

  /** A topic position narrows what its wildcard accepts to the logs with one of its values there. */
  lemma TopicNarrows(f: LogFilter, i: nat, values: seq<Word>, l: Log)
    requires i < |f.topics| && values != []
    ensures var one, any := f.(topics := f.topics[i := values]), f.(topics := f.topics[i := []]);
            && (Matches(one, l) <==> Matches(any, l) && l.topics[i] in values)
            && (Kept(one, l) <==> Kept(any, l) && (i < MAX_TOPICS ==> i < |l.topics| && l.topics[i] in values))
  {
    var one, any := f.(topics := f.topics[i := values]), f.(topics := f.topics[i := []]);
    assert one.topics[i] == values && any.topics[i] == [] && |one.topics| == |any.topics|;
    assert forall k :: 0 <= k < |f.topics| && k != i ==> one.topics[k] == any.topics[k];
    if Kept(any, l) && (i < MAX_TOPICS ==> i < |l.topics| && l.topics[i] in values) {
      forall k | 0 <= k < |one.topics| && k < MAX_TOPICS
        ensures one.topics[k] == [] || (k < |l.topics| && l.topics[k] in one.topics[k])
      {
        assert k != i ==> one.topics[k] == any.topics[k];
      }
    }
  }

  /** Subscriptions deliver every log that a query would return. */
  lemma MatchedIsKept(f: LogFilter, l: Log)
    ensures Matches(f, l) ==> Kept(f, l)
    ensures Kept(f, l) && |f.topics| <= MAX_TOPICS && |f.topics| <= |l.topics| ==> Matches(f, l)
  {
  }

  /** They agree on all logs exactly when the filter has at most four positions and the last is no wildcard. */
  lemma AgreeExactly(f: LogFilter)
    ensures (forall l: Log :: |l.topics| <= 4 ==> (Matches(f, l) <==> Kept(f, l)))
       <==> |f.topics| <= 4 && (f.topics == [] || f.topics[|f.topics| - 1] != [])
  {
    var n := |f.topics|;
    if n > MAX_TOPICS {
      assert Kept(f, Accepted(f, MAX_TOPICS)) && !Matches(f, Accepted(f, MAX_TOPICS));
    } else if n > 0 && f.topics[n - 1] == [] {
      assert Kept(f, Accepted(f, n - 1)) && !Matches(f, Accepted(f, n - 1));
    } else {
      forall l: Log | |l.topics| <= MAX_TOPICS
        ensures Matches(f, l) <==> Kept(f, l)
      {
        MatchedIsKept(f, l);
        if n > 0 && Kept(f, l) {
          assert f.topics[n - 1] == [] || n - 1 < |l.topics|;
        }
      }
    }
  }
}
