/**
 * The stats parser of fetchStats (mackerel-plugin-memcached-lite.go:54-71): the reply is split
 * at line feeds, every line whose start matches STAT, one space, a name of lower-case letters and
 * underscores, one space and a run of decimal digits is stored into the caller's map, and anything
 * after the digits (a carriage return, ".6.9" of a version) is ignored.
 */
module StatsParser {
  import opened Wrappers
  import opened GoInt
  import opened Strconv
  import opened Text
  import opened Counters
  import opened Protocol

  predicate IsNameChar(c: char) { 'a' <= c <= 'z' || c == '_' }

  /** A stat name as the grammar admits it: [a-z_]+. */
  predicate IsName(s: string)
  {
    |s| > 0 && forall i :: 0 <= i < |s| ==> IsNameChar(s[i])
  }

  /** A numeral as the grammar admits it: [0-9]+. */
  predicate IsNumeral(s: string)
  {
    |s| > 0 && AllDecimal(s)
  }

  /** The name and the digits a matching line carries. */
  datatype StatLine = StatLine(name: string, digits: string)

  /**
   * The grammar as a predicate: line starts with "STAT " + name + " " + digits,
   * and the digits are not followed by a further digit (the run is maximal).
   */
  ghost predicate Matches(line: string, name: string, digits: string)
  {
    IsName(name) && IsNumeral(digits) &&
    var k := 6 + |name| + |digits|;
    |line| >= k && line[..k] == "STAT " + name + " " + digits && (|line| == k || !IsDecimalDigit(line[k]))
  }

  /** The length of the longest prefix of name characters. */
  function NameSpan(s: string): (n: nat)
    ensures n <= |s|
    ensures forall i :: 0 <= i < n ==> IsNameChar(s[i])
    ensures n < |s| ==> !IsNameChar(s[n])
  {
    if s == [] || !IsNameChar(s[0]) then 0 else 1 + NameSpan(s[1..])
  }

  /** The length of the longest prefix of decimal digits. */
  function DigitSpan(s: string): (n: nat)
    ensures n <= |s|
    ensures forall i :: 0 <= i < n ==> IsDecimalDigit(s[i])
    ensures n < |s| ==> !IsDecimalDigit(s[n])
  {
    if s == [] || !IsDecimalDigit(s[0]) then 0 else 1 + DigitSpan(s[1..])
  }

  /** The submatches of ^STAT ([a-z_]+) (\d+) on line, or None when it does not match. */
  function MatchStat(line: string): Option<StatLine>
  {
    if |line| < 5 || line[..5] != "STAT " then None
    else
      var n := NameSpan(line[5..]);
      if n == 0 || 5 + n >= |line| || line[5 + n] != ' ' then None
      else
        var rest := line[6 + n..];
        var d := DigitSpan(rest);
        if d == 0 then None else Some(StatLine(line[5..5 + n], rest[..d]))
  }

  /** Soundness: whatever MatchStat finds is a match the grammar admits. */
  lemma MatchStatSound(line: string)
    ensures MatchStat(line).Some? ==> Matches(line, MatchStat(line).value.name, MatchStat(line).value.digits)
  {
    if MatchStat(line).Some? {
      var m := MatchStat(line).value;
      var n := |m.name|;
      var d := |m.digits|;
      var k := 6 + n + d;
      assert line[..k] == line[..5] + line[5..5 + n] + [line[5 + n]] + line[6 + n..k];
      assert line[6 + n..][..d] == line[6 + n..k];
      if |line| > k {
        assert line[k] == line[6 + n..][d];
      }
    }
  }

  /** NameSpan stops right after a run of name characters that is not followed by another. */
  lemma NameSpanOf(s: string, name: string)
    requires |name| < |s| && s[..|name|] == name && s[|name|] == ' '
    requires forall i :: 0 <= i < |name| ==> IsNameChar(name[i])
    ensures NameSpan(s) == |name|
  {
  }

  /** DigitSpan stops right after a run of digits that is not followed by another. */
  lemma DigitSpanOf(s: string, digits: string)
    requires |digits| <= |s| && s[..|digits|] == digits
    requires forall i :: 0 <= i < |digits| ==> IsDecimalDigit(digits[i])
    requires |s| == |digits| || !IsDecimalDigit(s[|digits|])
    ensures DigitSpan(s) == |digits|
  {
  }

  /** A line of the grammar's shape, character by character. */
  lemma MatchesChars(line: string, name: string, digits: string)
    requires Matches(line, name, digits)
    ensures |line| >= 6 + |name| + |digits|
    ensures line[..5] == "STAT "
    ensures forall i :: 0 <= i < |name| ==> line[5 + i] == name[i]
    ensures line[5 + |name|] == ' '
    ensures forall i :: 0 <= i < |digits| ==> line[6 + |name| + i] == digits[i]
  {
    var k := 6 + |name| + |digits|;
    var pre := "STAT " + name + " " + digits;
    assert line[..k] == pre;
    forall i | 0 <= i < k ensures line[i] == pre[i] {
      assert line[..k][i] == line[i];
    }
    assert line[..5] == pre[..5];
  }

  /** Completeness: every match the grammar admits is the one MatchStat finds. */
  lemma MatchStatComplete(line: string, name: string, digits: string)
    requires Matches(line, name, digits)
    ensures MatchStat(line) == Some(StatLine(name, digits))
  {
    var n := |name|;
    var d := |digits|;
    MatchesChars(line, name, digits);
    var tail := line[5..];
    assert tail[..n] == name by {
      forall i | 0 <= i < n ensures tail[..n][i] == name[i] {
        assert tail[..n][i] == line[5 + i];
      }
    }
    assert tail[n] == ' ';
    NameSpanOf(tail, name);
    assert line[5..5 + n] == name by {
      assert line[5..5 + n] == tail[..n];
    }
    var rest := line[6 + n..];
    assert rest[..d] == digits by {
      forall i | 0 <= i < d ensures rest[..d][i] == digits[i] {
        assert rest[..d][i] == line[6 + n + i];
      }
    }
    assert |rest| == d || !IsDecimalDigit(rest[d]) by {
      if |rest| > d { assert rest[d] == line[6 + n + d]; }
    }
    assert forall i :: 0 <= i < d ==> IsDecimalDigit(digits[i]);
    DigitSpanOf(rest, digits);
  }

  /** Matching is by prefix: a version line yields its leading digits. */
  lemma VersionLineExample()
    ensures MatchStat("STAT version 1.6.9") == Some(StatLine("version", "1"))
  {
    var line := "STAT version 1.6.9";
    assert line[..14] == "STAT " + "version" + " " + "1";
    MatchStatComplete(line, "version", "1");
  }

  /** A trailing carriage return is ignored. */
  lemma CarriageReturnExample()
    ensures MatchStat("STAT curr_items 12\r") == Some(StatLine("curr_items", "12"))
  {
    var line := "STAT curr_items 12\r";
    assert line[..18] == "STAT " + "curr_items" + " " + "12";
    MatchStatComplete(line, "curr_items", "12");
  }

  /** A value that is not a numeral does not match. */
  lemma WordValueExample()
    ensures MatchStat("STAT evictions on") == None
  {
    var line := "STAT evictions on";
    assert line[..5] == "STAT ";
    var s := line[5..];
    assert s[9] == ' ' && forall i :: 0 <= i < 9 ==> IsNameChar(s[i]);
    assert NameSpan(s) == 9;
    assert line[15] == 'o';
  }

  /** The terminating line and an empty line do not match. */
  lemma EndLineExample()
    ensures MatchStat("END\r") == None
    ensures MatchStat("") == None
  {
    assert "END\r"[..4] != "STAT ";
  }

  /**
   * The loop of fetchStats over the lines: a matching line whose value parses is stored
   * (overwriting), a non-matching line is skipped, and a matching line whose value does not
   * parse stops the merge with an error, keeping what the earlier lines stored.
   */
  function MergeLines(m: Counters, lines: seq<string>): Merged
    decreases |lines|
  {
    if lines == [] then Merged(m, true)
    else
      match MatchStat(lines[0])
      case None => MergeLines(m, lines[1..])
      case Some(st) =>
        match ParseInt(st.digits)
        case None => Merged(m, false)
        case Some(v) => MergeLines(m[st.name := v], lines[1..])
  }

  /** fetchStats: read the reply, fail if reading failed, else merge its lines. */
  function FetchInto(m: Counters, results: seq<ReadResult>): Merged
  {
    var r := SlurpOf(results);
    if !r.ok then Merged(m, false) else MergeLines(m, Split(r.buf, '\n'))
  }

  /** Merging two runs of lines one after the other is merging their concatenation. */
  lemma {:induction false} MergeLinesAppend(m: Counters, a: seq<string>, b: seq<string>)
    ensures MergeLines(m, a + b) ==
      (var r := MergeLines(m, a); if r.ok then MergeLines(r.entries, b) else r)
    decreases |a|
  {
    if a != [] {
      assert (a + b)[0] == a[0] && (a + b)[1..] == a[1..] + b;
      match MatchStat(a[0])
      case None => MergeLinesAppend(m, a[1..], b);
      case Some(st) =>
        match ParseInt(st.digits)
        case None =>
        case Some(v) => MergeLinesAppend(m[st.name := v], a[1..], b);
    } else {
      assert a + b == b;
    }
  }

  /** A line that does not match (END, ERROR, an empty line, STAT evictions on) changes nothing. */
  lemma NonMatchingLine(m: Counters, a: seq<string>, line: string, b: seq<string>)
    requires MatchStat(line) == None
    ensures MergeLines(m, a + [line] + b) == MergeLines(m, a + b)
  {
    MergeLinesAppend(m, a, [line] + b);
    MergeLinesAppend(m, a, b);
    assert a + [line] + b == a + ([line] + b);
    assert ([line] + b)[1..] == b;
  }

  /** The name a line stores into, if it matches. */
  ghost predicate Names(line: string, key: string)
  {
    MatchStat(line).Some? && MatchStat(line).value.name == key
  }

  /** Merging leaves a key that no line names as it was: present with its value, or absent. */
  lemma {:induction false} MergeKeepsOthers(m: Counters, lines: seq<string>, key: string)
    requires forall i :: 0 <= i < |lines| ==> !Names(lines[i], key)
    ensures key in MergeLines(m, lines).entries <==> key in m
    ensures key in m ==> MergeLines(m, lines).entries[key] == m[key]
    decreases |lines|
  {
    if lines != [] {
      assert !Names(lines[0], key);
      assert forall i :: 0 <= i < |lines[1..]| ==> !Names(lines[1..][i], key) by {
        forall i | 0 <= i < |lines[1..]| ensures !Names(lines[1..][i], key) {
          assert lines[1..][i] == lines[i + 1];
        }
      }
      match MatchStat(lines[0])
      case None => MergeKeepsOthers(m, lines[1..], key);
      case Some(st) =>
        match ParseInt(st.digits)
        case None =>
        case Some(v) => MergeKeepsOthers(m[st.name := v], lines[1..], key);
    }
  }

  /** Keys are never removed, and every key a merge adds is a stat name with a non-negative value. */
  lemma {:induction false} MergeGrows(m: Counters, lines: seq<string>)
    ensures m.Keys <= MergeLines(m, lines).entries.Keys
    ensures forall k :: k in MergeLines(m, lines).entries && k !in m ==> IsName(k)
    ensures (forall k :: k in m ==> m[k] >= 0) ==>
              forall k :: k in MergeLines(m, lines).entries ==> MergeLines(m, lines).entries[k] >= 0
    decreases |lines|
  {
    if lines != [] {
      match MatchStat(lines[0])
      case None => MergeGrows(m, lines[1..]);
      case Some(st) =>
        match ParseInt(st.digits)
        case None =>
        case Some(v) =>
          MatchStatSound(lines[0]);
          MergeGrows(m[st.name := v], lines[1..]);
    }
  }

  /**
   * The last line that names a key decides its value: after a successful merge the key holds
   * what that line's digits parse to.
   */
  lemma {:induction false} MergeLastWins(m: Counters, lines: seq<string>, i: nat)
    requires i < |lines| && MatchStat(lines[i]).Some?
    requires forall j :: i < j < |lines| ==> !Names(lines[j], MatchStat(lines[i]).value.name)
    requires MergeLines(m, lines).ok
    ensures var st := MatchStat(lines[i]).value;
      ParseInt(st.digits).Some? && st.name in MergeLines(m, lines).entries &&
      MergeLines(m, lines).entries[st.name] == ParseInt(st.digits).value
  {
    var st := MatchStat(lines[i]).value;
    MergeLinesAppend(m, lines[..i], lines[i..]);
    assert lines[..i] + lines[i..] == lines;
    var r := MergeLines(m, lines[..i]);
    assert r.ok;
    var tail := lines[i..];
    assert tail[0] == lines[i];
    assert ParseInt(st.digits).Some?;
    var v := ParseInt(st.digits).value;
    assert MergeLines(r.entries, tail) == MergeLines(r.entries[st.name := v], tail[1..]);
    forall j | 0 <= j < |tail[1..]| ensures !Names(tail[1..][j], st.name) {
      assert tail[1..][j] == lines[i + 1 + j];
    }
    MergeKeepsOthers(r.entries[st.name := v], tail[1..], st.name);
  }

  /** A merge succeeds exactly when every matching line's value parses. */
  lemma {:induction false} MergeOk(m: Counters, lines: seq<string>)
    ensures MergeLines(m, lines).ok <==>
      forall i :: 0 <= i < |lines| && MatchStat(lines[i]).Some? ==> ParseInt(MatchStat(lines[i]).value.digits).Some?
    decreases |lines|
  {
    if lines != [] {
      assert forall i :: 0 < i < |lines| ==> lines[i] == lines[1..][i - 1];
      match MatchStat(lines[0])
      case None => MergeOk(m, lines[1..]);
      case Some(st) =>
        match ParseInt(st.digits)
        case None =>
        case Some(v) => MergeOk(m[st.name := v], lines[1..]);
    }
  }

  /** One matching line whose value parses stores it and goes on with the rest. */
  lemma MergeStep(m: Counters, line: string, rest: seq<string>, name: string, digits: string, v: int64)
    requires Matches(line, name, digits) && ParseInt(digits) == Some(v)
    ensures MergeLines(m, [line] + rest) == MergeLines(m[name := v], rest)
  {
    MatchStatComplete(line, name, digits);
    assert ([line] + rest)[1..] == rest;
  }

  /** The reply lines with keys foo and bar store foo = 123 and bar = 0 and nothing else. */
  lemma ParseExample()
    ensures MergeLines(map[], ["STAT foo 123\r", "STAT bar 0\r", "END\r", ""]) == Merged(map["foo" := 123, "bar" := 0], true)
  {
    ParseExampleSteps("STAT foo 123\r", "STAT bar 0\r");
  }

  /**
   * The first sample line has name foo and digits 123. The line is a parameter fixed by the
   * requires so that the solver does not unfold the literal in every step of the example.
   */
  lemma FooLine(foo: string)
    requires foo == "STAT foo 123\r"
    ensures Matches(foo, "foo", "123")
  {
    assert foo[..12] == "STAT " + "foo" + " " + "123";
  }

  /** The second sample line has name bar and digits 0 (a parameter for the same reason). */
  lemma BarLine(bar: string)
    requires bar == "STAT bar 0\r"
    ensures Matches(bar, "bar", "0")
  {
    assert bar[..10] == "STAT " + "bar" + " " + "0";
  }

  /** The steps of ParseExample, with the two stat lines held in variables. */
  lemma ParseExampleSteps(foo: string, bar: string)
    requires foo == "STAT foo 123\r" && bar == "STAT bar 0\r"
    ensures MergeLines(map[], [foo, bar, "END\r", ""]) == Merged(map["foo" := 123, "bar" := 0], true)
  {
    var tail := ["END\r", ""];
    FooLine(foo);
    BarLine(bar);
    PlainDecimal();
    Zero();
    MergeStep(map[], foo, [bar] + tail, "foo", "123", 123);
    MergeStep(map["foo" := 123], bar, tail, "bar", "0", 0);
    EndLineExample();
    assert tail[1..] == [""];
    assert [foo, bar, "END\r", ""] == [foo] + ([bar] + tail);
    assert map["foo" := 123]["bar" := 0] == map["foo" := 123, "bar" := 0];
  }
}
