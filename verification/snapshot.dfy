/**
 * The snapshot file: writeStats (mackerel-plugin-memcached-lite.go:78-89) writes one
 * name TAB value LF record per entry, loadStats (:91-116) reads the records back with a
 * tab-separated reader and merges them into a map; the file name is built at :153.
 */
module Snapshot {
  import opened Wrappers
  import opened GoInt
  import opened Strconv
  import opened Text
  import opened Counters
  import opened Sequences

  /** One record as %s\t%d\n writes it, without its line feed. */
  function Record(key: string, v: int64): string
  {
    key + "\t" + FormatInt(v)
  }

  /** The records of m's entries, in the order ks lists the keys. */
  function Records(ks: seq<string>, m: Counters): (rs: seq<string>)
    requires forall k :: k in ks ==> k in m
    ensures |rs| == |ks|
  {
    if ks == [] then [] else [Record(ks[0], m[ks[0]])] + Records(ks[1..], m)
  }

  /** A file of records, each ended by a line feed. */
  function Lines(rs: seq<string>): string
  {
    if rs == [] then [] else rs[0] + "\n" + Lines(rs[1..])
  }

  /** The file writeStats writes for m when its keys come up in the order ks. */
  function Dump(ks: seq<string>, m: Counters): string
    requires forall k :: k in ks ==> k in m
  {
    Lines(Records(ks, m))
  }

  /** ks lists every key of m exactly once: one iteration order of a Go map. */
  ghost predicate Enumerates(ks: seq<string>, m: Counters)
  {
    (forall k :: k in ks <==> k in m) && Distinct(ks)
  }

  /** content is what writeStats writes for m, for some iteration order of the map. */
  ghost predicate IsDumpOf(content: string, m: Counters)
  {
    exists ks :: Enumerates(ks, m) && content == Dump(ks, m)
  }

  /** Writing one more record appends it and its line feed. */
  lemma {:induction false} LinesAppend(rs: seq<string>, r: string)
    ensures Lines(rs + [r]) == Lines(rs) + r + "\n"
  {
    if rs != [] {
      assert (rs + [r])[0] == rs[0] && (rs + [r])[1..] == rs[1..] + [r];
      LinesAppend(rs[1..], r);
    } else {
      assert rs + [r] == [r];
    }
  }

  /** One more key gives one more record at the end. */
  lemma {:induction false} RecordsAppend(ks: seq<string>, k: string, m: Counters)
    requires forall x :: x in ks ==> x in m
    requires k in m
    ensures Records(ks + [k], m) == Records(ks, m) + [Record(k, m[k])]
  {
    if ks != [] {
      assert (ks + [k])[0] == ks[0] && (ks + [k])[1..] == ks[1..] + [k];
      RecordsAppend(ks[1..], k, m);
    } else {
      assert ks + [k] == [k];
    }
  }

  /** Writing one more key appends its record. */
  lemma DumpAppend(ks: seq<string>, k: string, m: Counters)
    requires forall x :: x in ks ==> x in m
    requires k in m
    ensures Dump(ks + [k], m) == Dump(ks, m) + Record(k, m[k]) + "\n"
  {
    RecordsAppend(ks, k, m);
    LinesAppend(Records(ks, m), Record(k, m[k]));
  }

  /** The reader's line: a carriage return before the line feed (or the end of the file) is dropped. */
  function DropCR(line: string): string
  {
    if |line| > 0 && line[|line| - 1] == '\r' then line[..|line| - 1] else line
  }

  /**
   * The loop of loadStats over the lines of the file. Empty lines are skipped; a record's
   * fields are split at tabs; the first record fixes the number of fields and a record with
   * another number is an error; the second field is parsed with base 0 and stored under the first.
   */
  function LoadLines(m: Counters, width: Option<nat>, lines: seq<string>): Merged
    decreases |lines|
  {
    if lines == [] then Merged(m, true)
    else
      var line := DropCR(lines[0]);
      if line == [] then LoadLines(m, width, lines[1..])
      else
        var fields := Split(line, '\t');
        if width.Some? && |fields| != width.value then Merged(m, false)
        else if |fields| < 2 then Merged(m, false)
        else
          match ParseInt(fields[1])
          case None => Merged(m, false)
          case Some(v) => LoadLines(m[fields[0] := v], Some(|fields|), lines[1..])
  }

  /** loadStats on the file content, merging into m. */
  function LoadInto(m: Counters, content: string): Merged
  {
    LoadLines(m, None, Split(content, '\n'))
  }

  /** A key the reader gives back unchanged: no tab, no line feed, no opening quote. */
  predicate SafeKey(k: string)
  {
    '\t' !in k && '\n' !in k && (|k| == 0 || k[0] != '"')
  }

  /** A record of a safe key is one line of two fields, the second reading back as the value. */
  lemma RecordFields(k: string, v: int64)
    requires SafeKey(k)
    ensures '\n' !in Record(k, v)
    ensures DropCR(Record(k, v)) == Record(k, v) != []
    ensures Split(Record(k, v), '\t') == [k, FormatInt(v)]
    ensures ParseInt(FormatInt(v)) == Some(v)
  {
    var f := FormatInt(v);
    FormatIntChars(v);
    assert '\n' !in f && '\t' !in f;
    SplitAt(k, '\t', f);
    SplitWithout(f, '\t');
    ParseFormatInt(v);
  }

  /** Reading one record line stores its value and fixes the record width at two fields. */
  lemma LoadRecord(acc: Counters, width: Option<nat>, k: string, v: int64, rest: seq<string>)
    requires width == None || width == Some(2)
    requires SafeKey(k)
    ensures LoadLines(acc, width, [Record(k, v)] + rest) == LoadLines(acc[k := v], Some(2), rest)
  {
    RecordFields(k, v);
    assert ([Record(k, v)] + rest)[1..] == rest;
  }

  /** Every key of ks is in m and safe. */
  ghost predicate SafeKeysOf(ks: seq<string>, m: Counters)
  {
    forall k :: k in ks ==> k in m && SafeKey(k)
  }

  /** The entries of m whose keys ks lists. */
  function Picked(ks: seq<string>, m: Counters): Counters
  {
    map x | x in ks && x in m :: m[x]
  }

  /** Storing the first key's entry and then the rest's is storing all of them. */
  lemma PickedCons(acc: Counters, ks: seq<string>, m: Counters)
    requires ks != [] && ks[0] in m
    ensures acc[ks[0] := m[ks[0]]] + Picked(ks[1..], m) == acc + Picked(ks, m)
  {
    assert forall x :: x in ks <==> x == ks[0] || x in ks[1..];
  }

  /** Reading the records of ks back into acc stores every one of them. */
  lemma {:induction false} LoadDumpFrom(acc: Counters, width: Option<nat>, ks: seq<string>, m: Counters)
    requires width == None || width == Some(2)
    requires SafeKeysOf(ks, m)
    ensures LoadLines(acc, width, Split(Dump(ks, m), '\n')) == Merged(acc + Picked(ks, m), true)
    decreases |ks|
  {
    if ks == [] {
      assert Split([], '\n') == [[]];
      assert acc + Picked(ks, m) == acc;
    } else {
      var k := ks[0];
      assert k in ks;
      var r := Record(k, m[k]);
      var rest := Dump(ks[1..], m);
      assert Records(ks, m)[0] == r && Records(ks, m)[1..] == Records(ks[1..], m);
      assert Dump(ks, m) == r + ['\n'] + rest;
      RecordFields(k, m[k]);
      SplitAt(r, '\n', rest);
      LoadRecord(acc, width, k, m[k], Split(rest, '\n'));
      assert SafeKeysOf(ks[1..], m) by {
        forall x | x in ks[1..] ensures x in m && SafeKey(x) { assert x in ks; }
      }
      LoadDumpFrom(acc[k := m[k]], Some(2), ks[1..], m);
      PickedCons(acc, ks, m);
    }
  }

  /** Round trip: loading into an empty map the file writeStats wrote for m gives back exactly m. */
  lemma LoadDump(ks: seq<string>, m: Counters)
    requires Enumerates(ks, m)
    requires forall k :: k in m ==> SafeKey(k)
    ensures LoadInto(map[], Dump(ks, m)) == Merged(m, true)
  {
    LoadDumpFrom(map[], None, ks, m);
    assert map[] + Picked(ks, m) == m;
  }

  /** The same round trip, for any file writeStats may have written for m. */
  lemma LoadWritten(content: string, m: Counters)
    requires IsDumpOf(content, m)
    requires forall k :: k in m ==> SafeKey(k)
    ensures LoadInto(map[], content) == Merged(m, true)
  {
    var ks :| Enumerates(ks, m) && content == Dump(ks, m);
    LoadDump(ks, m);
  }

  /** The snapshot's file name for a user id, host and port, as line 153 builds it. */
  function SnapshotName(uid: string, host: string, port: string): string
  {
    uid + "-mackerel-plugin-memcached-lite-" + host + "-" + port
  }

  /** Two targets share a snapshot exactly when host-port reads the same for both. */
  lemma SnapshotNameShared(uid: string, host: string, port: string, host': string, port': string)
    ensures SnapshotName(uid, host, port) == SnapshotName(uid, host', port') <==> host + "-" + port == host' + "-" + port'
  {
    var p := uid + "-mackerel-plugin-memcached-lite-";
    assert SnapshotName(uid, host, port) == p + (host + "-" + port);
    assert SnapshotName(uid, host', port') == p + (host' + "-" + port');
    if SnapshotName(uid, host, port) == SnapshotName(uid, host', port') {
      assert (p + (host + "-" + port))[|p|..] == host + "-" + port;
      assert (p + (host' + "-" + port'))[|p|..] == host' + "-" + port';
    }
  }

  /** So the name does not tell targets apart: host a-b, port 1 and host a, port b-1 collide. */
  lemma SnapshotNameCollision(uid: string)
    ensures SnapshotName(uid, "a-b", "1") == SnapshotName(uid, "a", "b-1")
  {
    SnapshotNameShared(uid, "a-b", "1", "a", "b-1");
    assert "a-b" + "-" + "1" == "a" + "-" + "b-1";
  }
}
