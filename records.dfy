/**
 * The records the resolver reads: a feature's instructions, a recorded gene and the
 * corpus of earlier decisions that genes are paired from.
 */
module Records {
  import opened JsValues

  /** The `buckets` property of an instruction: an array of variant names, or anything else. */
  datatype BucketList = NotAnArray | Array(items: seq<string>)

  /**
   * One feature's instructions. `toggle` and `throttle` keep whatever value the
   * instruction holds (`Undefined` when the property is missing).
   */
  datatype Instructions = Instructions(toggle: Value, throttle: Value, buckets: BucketList)

  /**
   * A gene: an earlier decision for one feature. `Empty` stands for `{}` and for a
   * missing gene; a recorded gene has a `type` and the recorded `toggle` value.
   */
  datatype Gene = Empty | Recorded(kind: string, toggle: Value)

  /**
   * The earlier decisions genes are paired from: the resolved `toggles` by key, and
   * the keys that were decided by buckets and by throttles.
   */
  datatype Corpus = Corpus(toggles: map<string, bool>, buckets: seq<string>, throttles: seq<string>)
}
