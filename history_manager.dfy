/** `HistoryManager` (MyInternetChecker/Chart/HistoryManager.cs): a rolling
    one-minute history of ping results per host. The clock (`DateTime.Now`) is
    passed in as `now`, in ticks. */
module HistoryManager {
  import opened Text
  import opened SettingsModels

  /** A history entry: when it was recorded (ticks) and the ping in ms. */
  datatype Sample = Sample(timestamp: int, ping: int64)

  /** `_historyDuration`: one minute, in ticks. */
  const HistoryDuration: int := 60 * TicksPerSecond

  /** The front of the queue after removing samples more than a minute older
      than `now`, oldest first, stopping at the first recent one. */
  function Evict(queue: seq<Sample>, now: int): (r: seq<Sample>)
    ensures |r| <= |queue|
    ensures r != [] ==> now - r[0].timestamp <= HistoryDuration
  {
    if queue != [] && now - queue[0].timestamp > HistoryDuration then Evict(queue[1..], now) else queue
  }

  /** The pings of the samples at most a minute older than `now`, in queue order. */
  function Recent(queue: seq<Sample>, now: int): (r: seq<int64>)
    ensures |r| <= |queue|
  {
    if queue == [] then []
    else
      var init := Recent(queue[..|queue| - 1], now);
      var last := queue[|queue| - 1];
      if now - last.timestamp <= HistoryDuration then init + [last.ping] else init
  }

  /** What `GetLatestHistoryForHost` reads from the history map: the recent
      pings of `host`, or none for a host never heard from. */
  function LatestHistory(history: map<string, seq<Sample>>, host: string, now: int): (r: seq<int64>)
    ensures host !in history ==> r == []
  {
    if host in history then Recent(history[host], now) else []
  }

  /** Timestamps never decrease along the queue. */
  predicate Chronological(queue: seq<Sample>) {
    forall i, j :: 0 <= i < j < |queue| ==> queue[i].timestamp <= queue[j].timestamp
  }

  class HistoryManager {
    /** `_history`: each host's queue, oldest sample first. */
    var history: map<string, seq<Sample>>

    constructor()
      ensures history == map[]
    {
      history := map[];
    }

    /** The queue of `host`, empty when it has none yet. */
    function Queue(host: string): seq<Sample>
      reads this
    {
      if host in history then history[host] else []
    }

    /** `AddPingResult`: enqueue the sample, then drop stale ones from the front. */
    method AddPingResult(host: string, pingTime: int64, now: int)
      modifies this
      ensures history == old(history)[host := Evict(old(Queue(host)) + [Sample(now, pingTime)], now)]
    {
      var queue := Queue(host);
      queue := queue + [Sample(now, pingTime)];
      ghost var kept := Evict(queue, now);
      while queue != [] && now - queue[0].timestamp > HistoryDuration
        invariant Evict(queue, now) == kept
        decreases |queue|
      {
        queue := queue[1..];
      }
      history := history[host := queue];
    }

    /** `GetLatestHistoryForHost`: the recent pings of `host`, or none. */
    function GetLatestHistoryForHost(host: string, now: int): (r: seq<int64>)
      reads this
      ensures host !in history ==> r == []
      ensures host in history ==> r == Recent(history[host], now) && |r| <= |history[host]|
    {
      LatestHistory(history, host, now)
    }

    /** `GetLatestPing`: the ping at the front of the queue (the oldest kept),
        or -1 when the host has no samples. */
    function GetLatestPing(host: string): (r: int64)
      reads this
      ensures r == -1 || (host in history && |history[host]| > 0 && r == history[host][0].ping)
      ensures host in history && history[host] != [] ==> r == history[host][0].ping
      ensures host !in history || history[host] == [] ==> r == -1
    {
      if host in history && |history[host]| > 0 then history[host][0].ping else -1
    }
  }

  // ---------------------------------------------------------------------------
  // Properties
  // ---------------------------------------------------------------------------

  /** While the front sample of a host is at most a minute old (as it is
      right after `AddPingResult` at `now`, by `Evict`'s contract),
      `GetLatestPing` is the first point `GetLatestHistoryForHost` lists. */
  lemma LatestPingLeadsHistory(m: HistoryManager, host: string, now: int)
    requires host in m.history && m.history[host] != []
    requires now - m.history[host][0].timestamp <= HistoryDuration
    ensures m.GetLatestHistoryForHost(host, now) != []
    ensures m.GetLatestHistoryForHost(host, now)[0] == m.GetLatestPing(host)
  {
    RecentFront(m.history[host], now);
  }

  /** A queue whose front sample is recent lists that sample's ping first. */
  lemma {:induction false} RecentFront(queue: seq<Sample>, now: int)
    requires queue != [] && now - queue[0].timestamp <= HistoryDuration
    ensures Recent(queue, now) != [] && Recent(queue, now)[0] == queue[0].ping
  {
    if |queue| > 1 {
      var init := queue[..|queue| - 1];
      assert init[0] == queue[0];
      RecentFront(init, now);
    } else {
      assert queue[..0] == [];
    }
  }

  /** Eviction keeps a suffix of the queue and drops only samples more than
      a minute older than `now`. */
  lemma {:induction false} EvictSuffix(queue: seq<Sample>, now: int)
    ensures var r := Evict(queue, now);
      && r == queue[|queue| - |r|..]
      && forall i :: 0 <= i < |queue| - |r| ==> now - queue[i].timestamp > HistoryDuration
  {
    if queue != [] && now - queue[0].timestamp > HistoryDuration {
      var r := Evict(queue, now);
      EvictSuffix(queue[1..], now);
      assert queue[1..][|queue| - 1 - |r|..] == queue[|queue| - |r|..];
      forall i | 0 < i < |queue| - |r| ensures now - queue[i].timestamp > HistoryDuration {
        assert queue[i] == queue[1..][i - 1];
      }
    }
  }

  /** The sample just added is never evicted: it ends the queue. */
  lemma {:induction false} EvictKeepsNewest(queue: seq<Sample>, s: Sample, now: int)
    requires s.timestamp == now
    ensures var r := Evict(queue + [s], now);
      |r| > 0 && r[|r| - 1] == s
  {
    if queue != [] && now - queue[0].timestamp > HistoryDuration {
      assert (queue + [s])[1..] == queue[1..] + [s];
      EvictKeepsNewest(queue[1..], s, now);
    }
  }

  /** A sample exactly one minute old is kept. */
  lemma EvictKeepsMinuteOld(queue: seq<Sample>, now: int)
    requires queue != [] && now - queue[0].timestamp == HistoryDuration
    ensures Evict(queue, now) == queue
  {
  }

  /** In a chronological queue, everything eviction keeps is at most one
      minute older than `now`. */
  lemma EvictLeavesRecent(queue: seq<Sample>, now: int)
    requires Chronological(queue)
    ensures var r := Evict(queue, now);
      forall i :: 0 <= i < |r| ==> now - r[i].timestamp <= HistoryDuration
  {
    var r := Evict(queue, now);
    var k := |queue| - |r|;
    EvictSuffix(queue, now);
    forall i | 0 <= i < |r| ensures now - r[i].timestamp <= HistoryDuration {
      assert r[0] == queue[k] && r[i] == queue[k + i];
    }
  }

  /** A recent ping list is the pings of exactly the samples at most a minute
      old, in queue order: a sample is counted in `Recent` iff it is recent. */
  lemma {:induction false} RecentOfAppend(queue: seq<Sample>, s: Sample, now: int)
    ensures Recent(queue + [s], now) ==
              Recent(queue, now) + (if now - s.timestamp <= HistoryDuration then [s.ping] else [])
  {
    assert (queue + [s])[..|queue + [s]| - 1] == queue;
  }

  /** When every sample is recent, `Recent` lists all their pings. */
  lemma {:induction false} RecentOfFresh(queue: seq<Sample>, now: int)
    requires forall i :: 0 <= i < |queue| ==> now - queue[i].timestamp <= HistoryDuration
    ensures |Recent(queue, now)| == |queue|
    ensures forall i :: 0 <= i < |queue| ==> Recent(queue, now)[i] == queue[i].ping
  {
    if queue != [] {
      RecentOfFresh(queue[..|queue| - 1], now);
    }
  }

  /** Samples more than a minute old are never listed. */
  lemma {:induction false} RecentOfStale(queue: seq<Sample>, now: int)
    requires forall i :: 0 <= i < |queue| ==> now - queue[i].timestamp > HistoryDuration
    ensures Recent(queue, now) == []
  {
    if queue != [] {
      RecentOfStale(queue[..|queue| - 1], now);
    }
  }

  /** After `AddPingResult(host, p)` at `now`: the host's queue ends with the
      new sample, every other host's queue is unchanged, and reading the
      history at the same moment ends with `p`. */
  lemma AfterAdd(before: map<string, seq<Sample>>, host: string, p: int64, now: int)
    ensures var q := if host in before then before[host] else [];
      var after := before[host := Evict(q + [Sample(now, p)], now)];
      && |after[host]| > 0 && after[host][|after[host]| - 1] == Sample(now, p)
      && (forall h :: h != host ==> (h in after <==> h in before) && (h in before ==> after[h] == before[h]))
      && var r := Recent(after[host], now); |r| > 0 && r[|r| - 1] == p
  {
    var q := if host in before then before[host] else [];
    var e := Evict(q + [Sample(now, p)], now);
    EvictKeepsNewest(q, Sample(now, p), now);
    assert e == e[..|e| - 1] + [Sample(now, p)];
    RecentOfAppend(e[..|e| - 1], Sample(now, p), now);
  }

  /** A host first heard from at `t0` with a ping of 20, then again at
      `t0` plus 61 seconds with a ping of 30: only the second sample is kept,
      so the latest ping and the history both give 30. */
  lemma MinuteScenario(t0: int)
    ensures var q1 := Evict([] + [Sample(t0, 20)], t0);
      var t1 := t0 + 61 * TicksPerSecond;
      var q2 := Evict(q1 + [Sample(t1, 30)], t1);
      q2 == [Sample(t1, 30)] && Recent(q2, t1) == [30]
  {
    var s0 := Sample(t0, 20);
    var t1 := t0 + 61 * TicksPerSecond;
    var s1 := Sample(t1, 30);
    assert [] + [s0] == [s0];
    assert Evict([s0], t0) == [s0];
    assert [s0] + [s1] == [s0, s1];
    assert [s0, s1][1..] == [s1];
    assert Evict([s1], t1) == [s1];
    assert Evict([s0, s1], t1) == [s1];
    assert [s1][..0] == [];
    assert Recent([s1], t1) == [30];
  }
}
