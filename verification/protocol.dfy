/**
 * The reading side of the text protocol (slurp, mackerel-plugin-memcached-lite.go:32-52).
 * The socket is replaced by the list of results its successive reads give;
 * once that list is exhausted the stream reports end of stream.
 */
module Protocol {

  /** slurp reads into 32 KiB chunks. */
  const ReadLimit: nat := 32 * 1024

  /** How one read ended besides the bytes it delivered. */
  datatype ReadStatus = Clean | EndOfStream | Failed

  /** What one read can deliver: at most a chunk. */
  type Chunk = s: string | |s| <= ReadLimit

  datatype ReadResult = ReadResult(data: Chunk, status: ReadStatus)

  /** The bytes gathered, and whether slurp reported success. */
  datatype Slurped = Slurped(buf: string, ok: bool)

  /** A read after which slurp returns: end of stream, or fewer bytes than a chunk. */
  predicate Stops(r: ReadResult)
  {
    r.status == EndOfStream || |r.data| < ReadLimit
  }

  /** What slurp returns for the given results. */
  function SlurpOf(results: seq<ReadResult>): Slurped
  {
    if results == [] then Slurped([], true)
    else if Stops(results[0]) then Slurped(results[0].data, true)
    else if results[0].status == Failed then Slurped(results[0].data, false)
    else
      var rest := SlurpOf(results[1..]);
      Slurped(results[0].data + rest.buf, rest.ok)
  }

  /**
   * The read loop: append what each read delivered, return on end of stream or a short read
   * (reporting success even when that read also failed), and fail only on a full read that failed.
   */
  method Slurp(results: seq<ReadResult>) returns (buf: string, ok: bool)
    ensures Slurped(buf, ok) == SlurpOf(results)
  {
    buf := [];
    var i := 0;
    while i < |results|
      invariant 0 <= i <= |results|
      invariant SlurpOf(results) == Slurped(buf + SlurpOf(results[i..]).buf, SlurpOf(results[i..]).ok)
    {
      var r := results[i];
      assert results[i..][0] == r && results[i..][1..] == results[i + 1..];
      if |r.data| > 0 {
        buf := buf + r.data;
      }
      if r.status == EndOfStream || |r.data| < ReadLimit {
        return buf, true;
      }
      if r.status == Failed {
        return buf, false;
      }
      i := i + 1;
    }
    assert results[i..] == [];
    return buf, true;
  }

  /** A full chunk delivered without error: slurp reads again. */
  predicate Continues(r: ReadResult)
  {
    r.status == Clean && |r.data| == ReadLimit
  }

  /**
   * slurp fails exactly when some read delivers a full chunk and fails, after full clean chunks only;
   * a short read ends the loop successfully whatever error came with it.
   */
  lemma {:induction false} SlurpFails(results: seq<ReadResult>)
    ensures !SlurpOf(results).ok <==>
      exists i :: 0 <= i < |results| && results[i].status == Failed && |results[i].data| == ReadLimit &&
        forall j :: 0 <= j < i ==> Continues(results[j])
  {
    if results != [] {
      SlurpFails(results[1..]);
      if !Stops(results[0]) && results[0].status != Failed {
        assert Continues(results[0]);
        if !SlurpOf(results).ok {
          var i :| 0 <= i < |results[1..]| && results[1..][i].status == Failed && |results[1..][i].data| == ReadLimit &&
            forall j :: 0 <= j < i ==> Continues(results[1..][j]);
          assert forall j :: 0 <= j < i + 1 ==> Continues(results[j]) by {
            forall j | 0 <= j < i + 1 ensures Continues(results[j]) {
              if j > 0 { assert results[j] == results[1..][j - 1]; }
            }
          }
          assert results[i + 1].status == Failed && |results[i + 1].data| == ReadLimit;
        }
        if exists i :: 0 <= i < |results| && results[i].status == Failed && |results[i].data| == ReadLimit &&
             forall j :: 0 <= j < i ==> Continues(results[j]) {
          var i :| 0 <= i < |results| && results[i].status == Failed && |results[i].data| == ReadLimit &&
            forall j :: 0 <= j < i ==> Continues(results[j]);
          assert i > 0;
          assert forall j :: 0 <= j < i - 1 ==> Continues(results[1..][j]) by {
            forall j | 0 <= j < i - 1 ensures Continues(results[1..][j]) {
              assert results[1..][j] == results[j + 1];
            }
          }
          assert results[1..][i - 1] == results[i];
        }
      } else {
        if exists i :: 0 <= i < |results| && results[i].status == Failed && |results[i].data| == ReadLimit &&
             forall j :: 0 <= j < i ==> Continues(results[j]) {
          var i :| 0 <= i < |results| && results[i].status == Failed && |results[i].data| == ReadLimit &&
            forall j :: 0 <= j < i ==> Continues(results[j]);
          assert !Continues(results[0]);
        }
      }
    }
  }

  /** Reads after the one that stops the loop are never consumed. */
  lemma {:induction false} SlurpStopsAt(before: seq<ReadResult>, last: ReadResult, after: seq<ReadResult>)
    requires forall j :: 0 <= j < |before| ==> Continues(before[j])
    requires Stops(last)
    ensures SlurpOf(before + [last] + after) == SlurpOf(before + [last])
    ensures SlurpOf(before + [last]).ok
  {
    if before == [] {
      assert (before + [last] + after)[0] == last;
      assert (before + [last])[0] == last;
    } else {
      assert Continues(before[0]);
      SlurpStopsAt(before[1..], last, after);
      assert (before + [last] + after)[1..] == before[1..] + [last] + after;
      assert (before + [last])[1..] == before[1..] + [last];
    }
  }
}
