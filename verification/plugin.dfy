/**
 * One run of the plugin, memcachedStats (mackerel-plugin-memcached-lite.go:118-226): fetch
 * "stats" and "stats settings" into one map, stamp it with the time, then either save a first
 * snapshot (status 1) or load the previous one, print the report and save the new snapshot
 * (status 0). Every failure returns early with the status still 0.
 *
 * The outside world is an input: what the server answers to each command, whether the
 * snapshot file exists and can be opened, whether it can be created, and the clock.
 */
module Plugin {
  import opened Wrappers
  import opened GoInt
  import opened Counters
  import opened Text
  import opened Protocol
  import opened StatsParser
  import opened Snapshot
  import opened StatsStore
  import opened Rates

  /** One command on the connection: whether it was sent, and the reads that answer it. */
  datatype Exchange = Exchange(sent: bool, results: seq<ReadResult>)

  /** The memcached server: not reachable, or the answers to "stats" and "stats settings". */
  datatype Server = Unreachable | Session(stats: Exchange, settings: Exchange)

  /** The snapshot file: missing, present but unreadable (None), or present with its content. */
  datatype SnapshotFile = Absent | Present(content: Option<string>)

  /** Everything a run depends on. */
  datatype World = World(server: Server, snapshot: SnapshotFile, canCreate: bool, now: int64)

  /** What a run does: its status, the lines it prints, and what it saves as the snapshot. */
  datatype Outcome = Outcome(status: int, printed: seq<Metric>, written: Option<string>)

  /** A run that returns early: status 0, nothing printed, nothing saved. */
  const Failed: Outcome := Outcome(0, [], None)

  /** The stats map after both fetches (:129-149), or None when a command or a fetch fails. */
  function Collected(server: Server): Option<Counters>
  {
    match server
    case Unreachable => None
    case Session(stats, settings) =>
      if !stats.sent then None
      else
        var first := FetchInto(map[], stats.results);
        if !first.ok || !settings.sent then None
        else
          var second := FetchInto(first.entries, settings.results);
          if !second.ok then None else Some(second.entries)
  }

  /** The map a run saves and reports from: the fetched stats with its own time (:154-155). */
  function Current(stats: Counters, now: int64): (cur: Counters)
    ensures TimeKey in cur && cur[TimeKey] == now
    ensures forall k :: k != TimeKey ==> (k in cur <==> k in stats)
    ensures forall k :: k != TimeKey && k in stats ==> cur[k] == stats[k]
  {
    stats[TimeKey := now]
  }

  /** content, if any, is one of the files writeStats writes for m, present when it can create the file. */
  ghost predicate Saves(written: Option<string>, canCreate: bool, m: Counters)
  {
    if canCreate then written.Some? && IsDumpOf(written.value, m) else written == None
  }

  /** The outcomes of a run that fetched the stats and stamped them into cur. */
  ghost predicate RunFrom(cur: Counters, snapshot: SnapshotFile, canCreate: bool, now: int64, o: Outcome)
  {
    match snapshot
    case Absent =>
      if canCreate then o.status == 1 && o.printed == [] && Saves(o.written, true, cur)
      else o == Failed
    case Present(None) => o == Failed
    case Present(Some(content)) =>
      var loaded := LoadInto(map[], content);
      if !loaded.ok then o == Failed
      else o.status == 0 && IsReportOf(o.printed, cur, loaded.entries, now) && Saves(o.written, canCreate, cur)
  }

  /** The outcomes a run in world w can have (the map order in writeStats and the rate loop is free). */
  ghost predicate IsRunOf(w: World, o: Outcome)
  {
    match Collected(w.server)
    case None => o == Failed
    case Some(stats) => RunFrom(Current(stats, w.now), w.snapshot, w.canCreate, w.now, o)
  }

  /** memcachedStats (:118-226). */
  method MemcachedStats(w: World) returns (o: Outcome)
    ensures IsRunOf(w, o)
  {
    if w.server.Unreachable? {
      return Failed;
    }
    var stats := new Stats();
    if !w.server.stats.sent {
      return Failed;
    }
    var ok := stats.FetchStats(w.server.stats.results);
    if !ok || !w.server.settings.sent {
      return Failed;
    }
    ok := stats.FetchStats(w.server.settings.results);
    if !ok {
      return Failed;
    }
    assert Collected(w.server) == Some(stats.entries);
    stats.entries := stats.entries[TimeKey := w.now];
    o := Continue(stats, w.snapshot, w.canCreate, w.now);
  }

  /** What a run does once the stats are fetched and stamped (:157-225). */
  method Continue(stats: Stats, snapshot: SnapshotFile, canCreate: bool, now: int64) returns (o: Outcome)
    ensures RunFrom(stats.entries, snapshot, canCreate, now, o)
  {
    var cur := stats.entries;
    match snapshot {
      case Absent =>
        if !canCreate {
          return Failed;
        }
        var content := stats.WriteStats();
        return Outcome(1, [], Some(content));
      case Present(None) =>
        return Failed;
      case Present(Some(text)) =>
        var prevStats := new Stats();
        var ok := prevStats.LoadStats(text);
        if !ok {
          return Failed;
        }
        var prev := prevStats.entries;
        var period := Period(cur, prev);
        var rates := EmitRates(cur, prev, period, now);
        var printed := Gauges(cur, now) + rates + Trailer(cur, prev, now);
        Assembled(cur, prev, now, rates);
        var written: Option<string> := None;
        if canCreate {
          var content := stats.WriteStats();
          written := Some(content);
        }
        return Outcome(0, printed, written);
    }
  }

  /** Every key of the fetched map is a stat name. */
  lemma CollectedNames(server: Server)
    requires Collected(server).Some?
    ensures forall k :: k in Collected(server).value ==> IsName(k)
  {
    var first := FetchInto(map[], server.stats.results);
    MergeGrows(map[], Split(SlurpOf(server.stats.results).buf, '\n'));
    MergeGrows(first.entries, Split(SlurpOf(server.settings.results).buf, '\n'));
  }

  /** Stat names and the time key survive a round trip through the snapshot file. */
  lemma CurrentKeysSafe(server: Server, now: int64)
    requires Collected(server).Some?
    ensures forall k :: k in Current(Collected(server).value, now) ==> SafeKey(k)
  {
    CollectedNames(server);
    forall k | k in Current(Collected(server).value, now) ensures SafeKey(k) {
      if k != TimeKey {
        assert IsName(k);
        assert forall i :: 0 <= i < |k| ==> k[i] != '\t' && k[i] != '\n' && k[i] != '"';
      }
    }
  }

  /**
   * The status rule: 1 exactly when the stats were fetched, there was no snapshot and a first
   * one was saved; 0 otherwise, including a normal run whose final save fails.
   */
  lemma StatusRule(w: World, o: Outcome)
    requires IsRunOf(w, o)
    ensures o.status == 1 <==> Collected(w.server).Some? && w.snapshot == Absent && w.canCreate
    ensures o.status == 0 || o.status == 1
  {
  }

  /**
   * A run prints either nothing or the ten report lines, all stamped with its time; it prints
   * them exactly when the stats were fetched and the previous snapshot was read.
   */
  lemma PrintedLines(w: World, o: Outcome)
    requires IsRunOf(w, o)
    ensures o.printed == [] || |o.printed| == 10
    ensures |o.printed| == 10 <==>
              Collected(w.server).Some? && w.snapshot.Present? && w.snapshot.content.Some? &&
              LoadInto(map[], w.snapshot.content.value).ok
    ensures forall i :: 0 <= i < |o.printed| ==> o.printed[i].time == w.now
  {
    if o.printed != [] {
      var stats := Collected(w.server).value;
      var content := w.snapshot.content.value;
      ReportTimes(o.printed, Current(stats, w.now), LoadInto(map[], content).entries, w.now);
    }
  }

  /**
   * Whatever a run saves reads back, by loadStats into an empty map, as exactly the fetched
   * stats with the run's time, overriding a _time_ the server may have sent.
   */
  lemma SavedSnapshotLoads(w: World, o: Outcome)
    requires IsRunOf(w, o)
    requires o.written.Some?
    ensures Collected(w.server).Some?
    ensures LoadInto(map[], o.written.value) == Merged(Current(Collected(w.server).value, w.now), true)
  {
    CurrentKeysSafe(w.server, w.now);
    LoadWritten(o.written.value, Current(Collected(w.server).value, w.now));
  }

  /** A run that fetched stats goes on as RunFrom prescribes for them. */
  lemma RunOf(w: World, o: Outcome, stats: Counters)
    requires IsRunOf(w, o) && Collected(w.server) == Some(stats)
    ensures RunFrom(Current(stats, w.now), w.snapshot, w.canCreate, w.now, o)
  {
  }

  /** Between two stamped maps the period is the int64 difference of the two runs' times. */
  lemma PeriodOfRuns(stats2: Counters, now2: int64, stats1: Counters, now1: int64)
    ensures Period(Current(stats2, now2), Current(stats1, now1)) == Wrap64(now2 - now1)
  {
    var cur, prev := Current(stats2, now2), Current(stats1, now1);
    assert Get(cur, TimeKey) == now2 && Get(prev, TimeKey) == now1;
  }

  /** A run that reads a snapshot holding prev reports against prev and returns 0. */
  lemma RunAgainst(cur: Counters, content: string, prev: Counters, canCreate: bool, now: int64, o: Outcome)
    requires RunFrom(cur, Present(Some(content)), canCreate, now, o)
    requires LoadInto(map[], content) == Merged(prev, true)
    ensures o.status == 0 && IsReportOf(o.printed, cur, prev, now)
  {
  }

  /**
   * Two runs in a row: when the second finds the snapshot the first saved, it reports the
   * second run's stats against the first run's and returns 0; the period of that report is
   * the time between the two runs (PeriodOfRuns).
   */
  lemma NextRun(w1: World, o1: Outcome, w2: World, o2: Outcome, stats1: Counters, stats2: Counters)
    requires IsRunOf(w1, o1) && o1.written.Some? && Collected(w1.server) == Some(stats1)
    requires w2.snapshot == Present(Some(o1.written.value))
    requires IsRunOf(w2, o2) && Collected(w2.server) == Some(stats2)
    ensures o2.status == 0
    ensures IsReportOf(o2.printed, Current(stats2, w2.now), Current(stats1, w1.now), w2.now)
  {
    SavedSnapshotLoads(w1, o1);
    var cur := Current(stats2, w2.now);
    var prev := Current(stats1, w1.now);
    RunOf(w2, o2, stats2);
    RunAgainst(cur, o1.written.value, prev, w2.canCreate, w2.now, o2);
  }
}
