/**
 * The stats map the plugin fills in place. Go passes a map by reference, so fetchStats and
 * loadStats change the caller's map; here that map is the entries field of a Stats object.
 */
module StatsStore {
  import opened Wrappers
  import opened Strconv
  import opened Text
  import opened Counters
  import opened Sequences
  import opened Protocol
  import opened StatsParser
  import opened Snapshot

  class Stats {
    var entries: Counters

    /** make(map[string]int64) */
    constructor ()
      ensures entries == map[]
    {
      entries := map[];
    }

    /**
     * fetchStats (mackerel-plugin-memcached-lite.go:54-71): read the reply, then store
     * every matching line's value, stopping at the first value that does not parse.
     */
    method FetchStats(results: seq<ReadResult>) returns (ok: bool)
      modifies this
      ensures Merged(entries, ok) == FetchInto(old(entries), results)
    {
      var buf, readOk := Slurp(results);
      if !readOk {
        return false;
      }
      var lines := Split(buf, '\n');
      var i := 0;
      while i < |lines|
        invariant 0 <= i <= |lines|
        invariant MergeLines(entries, lines[i..]) == MergeLines(old(entries), lines)
      {
        assert lines[i..][0] == lines[i] && lines[i..][1..] == lines[i + 1..];
        var m := MatchStat(lines[i]);
        if m.Some? {
          var v := ParseInt(m.value.digits);
          if v.None? {
            return false;
          }
          entries := entries[m.value.name := v.value];
        }
        i := i + 1;
      }
      assert lines[i..] == [];
      return true;
    }

    /**
     * loadStats (:91-116) on the content of the snapshot file: store each record's second
     * field under its first, stopping at the first record that does not read.
     */
    method LoadStats(content: string) returns (ok: bool)
      modifies this
      ensures Merged(entries, ok) == LoadInto(old(entries), content)
    {
      var lines := Split(content, '\n');
      var width: Option<nat> := None;
      var i := 0;
      while i < |lines|
        invariant 0 <= i <= |lines|
        invariant LoadLines(entries, width, lines[i..]) == LoadLines(old(entries), None, lines)
      {
        assert lines[i..][0] == lines[i] && lines[i..][1..] == lines[i + 1..];
        var line := DropCR(lines[i]);
        if line != [] {
          var fields := Split(line, '\t');
          if width.Some? && |fields| != width.value {
            return false;
          }
          if |fields| < 2 {
            return false;
          }
          var v := ParseInt(fields[1]);
          if v.None? {
            return false;
          }
          entries := entries[fields[0] := v.value];
          width := Some(|fields|);
        }
        i := i + 1;
      }
      assert lines[i..] == [];
      return true;
    }

    /**
     * writeStats (:78-89): one record per entry, in whatever order the map's keys come up.
     * The file it writes is one of the dumps of the map.
     */
    method WriteStats() returns (content: string)
      ensures IsDumpOf(content, entries)
    {
      content := [];
      var remaining := entries.Keys;
      ghost var ks: seq<string> := [];
      while remaining != {}
        invariant remaining <= entries.Keys
        invariant forall k :: k in ks <==> k in entries && k !in remaining
        invariant Distinct(ks)
        invariant content == Dump(ks, entries)
        decreases remaining
      {
        var k :| k in remaining;
        DumpAppend(ks, k, entries);
        content := content + Record(k, entries[k]) + "\n";
        ks := ks + [k];
        remaining := remaining - {k};
      }
      assert Enumerates(ks, entries);
    }
  }
}
