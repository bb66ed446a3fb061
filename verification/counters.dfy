/** The plugin's stats map (Go's map[string]int64) and the result of merging lines into it. */
module Counters {
  import opened GoInt

  type Counters = map<string, int64>

  /** The map after a merge, and whether the merge ran to the end without an error. */
  datatype Merged = Merged(entries: Counters, ok: bool)

  /** stats[key] in Go: the zero value for a missing key. */
  function Get(m: Counters, key: string): (v: int64)
    ensures key !in m ==> v == 0
    ensures key in m ==> v == m[key]
  {
    if key in m then m[key] else 0
  }
}
