/** Python's `collections.Counter` over strings, as a map whose missing keys count 0. */
module Counters {
  /** A Counter lookup: a missing key counts 0. */
  function Get(counter: map<string, nat>, key: string): nat
  {
    if key in counter then counter[key] else 0
  }

  /** `counter[key] += n` */
  function Add(counter: map<string, nat>, key: string, n: nat): (r: map<string, nat>)
    ensures Get(r, key) == Get(counter, key) + n
    ensures forall k :: k != key ==> Get(r, k) == Get(counter, k)
  {
    counter[key := Get(counter, key) + n]
  }
}
