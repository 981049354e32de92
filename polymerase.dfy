/**
 * The polymerase enzyme: proof-reads a feature's instructions and assembles the
 * resolved feature toggles, with the bucket the feature mutates to when it is on and
 * declares a bucket list.
 */
module Polymerase {
  import opened Wrappers
  import opened JsValues
  import opened Records
  import Bucket

  /**
   * The collaborators whose rules are not part of this model: proof-reading of the
   * instructions, and the throttle mutator's validity check and random decision.
   */
  datatype Collaborators = Collaborators(
    areInstructionsValid: Instructions -> bool,
    isThrottleValid: Value -> bool,
    mutateThrottle: Value -> bool)

  /** The resolved features object, filled in place while a feature is assembled. */
  class Features {
    var entries: map<string, bool>

    constructor ()
      ensures entries == map[]
    {
      entries := map[];
    }
  }

  /** Sets the entry of `featureName`, leaving every other entry as it was. */
  method AddToFeatures(features: Features, featureName: string, toggle: bool)
    modifies features
    ensures features.entries == old(features.entries)[featureName := toggle]
  {
    features.entries := features.entries[featureName := toggle];
  }

  /**
   * The resolved state of valid instructions: `toggle: false` forces it off; otherwise
   * a valid throttle decides; otherwise it is on only for `toggle: true`.
   */
  function Decision(c: Collaborators, featureProperties: Instructions): bool
  {
    featureProperties.toggle != Bool(false) &&
    if c.isThrottleValid(featureProperties.throttle) then c.mutateThrottle(featureProperties.throttle)
    else featureProperties.toggle == Bool(true)
  }

  /** Computes the resolved state of valid instructions, starting from off. */
  method ProcessFeatureInstructions(c: Collaborators, featureProperties: Instructions) returns (toggle: bool)
    ensures toggle == Decision(c, featureProperties)
    ensures featureProperties.toggle == Bool(false) ==> !toggle
    ensures featureProperties.toggle != Bool(false) && c.isThrottleValid(featureProperties.throttle) ==>
              toggle == c.mutateThrottle(featureProperties.throttle)
    ensures featureProperties.toggle != Bool(false) && !c.isThrottleValid(featureProperties.throttle) ==>
              (toggle <==> featureProperties.toggle == Bool(true))
  {
    toggle := false;
    if featureProperties.toggle != Bool(false) {
      if c.isThrottleValid(featureProperties.throttle) {
        toggle := c.mutateThrottle(featureProperties.throttle);
      } else if featureProperties.toggle == Bool(true) {
        toggle := true;
      }
    }
  }

  /** The feature is on and declares a bucket list (an empty array counts). */
  function ContainsBuckets(toggle: bool, featureInstructions: Instructions): (r: bool)
    ensures r <==> toggle && featureInstructions.buckets.Array?
  {
    toggle && Bucket.ContainsMultivariant(featureInstructions)
  }

  /** The key `featureName + "." + bucketName`, with JavaScript's conversion of the bucket value to text. */
  function BucketKey(featureName: string, bucketName: Value): (key: string)
    ensures featureName <= key && |key| > |featureName| && key[|featureName|] == '.'
    ensures bucketName.Str? ==> key[|featureName| + 1..] == bucketName.s
    ensures bucketName.Undefined? ==> key == featureName + ".undefined"
  {
    featureName + "." + ToText(bucketName)
  }

  /**
   * Adds the entry of the bucket the feature mutates to, picked at `index` from the
   * instruction's own list (no gene is passed, so the pick is never sticky). A list
   * that is not an array throws and adds nothing.
   */
  method AddBucketToFeatures(features: Features, featureName: string, featureInstructions: Instructions, toggle: bool, index: nat)
    returns (r: Result<()>)
    modifies features
    ensures r.Thrown? <==> featureInstructions.buckets.NotAnArray?
    ensures r.Thrown? ==> features.entries == old(features.entries)
    ensures r.Ok? ==>
              features.entries == old(features.entries)[BucketKey(featureName, Bucket.Mutate(featureInstructions, Empty, index).value) := toggle]
  {
    var bucketName := Bucket.Mutate(featureInstructions, Empty, index);
    if bucketName.Thrown? {
      return Thrown(bucketName.message);
    }
    AddToFeatures(features, BucketKey(featureName, bucketName.value), toggle);
    r := Ok(());
  }

  /**
   * Assembles the resolved toggles of one feature. Invalid instructions give exactly
   * `{featureName: false}`. Valid ones give `featureName` its decision and, when the
   * feature is on and declares a bucket list, a second key for the picked bucket.
   */
  method AssembleFeatures(c: Collaborators, featureName: string, primerInstructions: Instructions, index: nat)
    returns (resolved: map<string, bool>)
    ensures !c.areInstructionsValid(primerInstructions) ==> resolved == map[featureName := false]
    ensures c.areInstructionsValid(primerInstructions) ==>
              featureName in resolved && resolved[featureName] == Decision(c, primerInstructions)
    ensures c.areInstructionsValid(primerInstructions) && !(Decision(c, primerInstructions) && primerInstructions.buckets.Array?) ==>
              resolved == map[featureName := Decision(c, primerInstructions)]
    ensures c.areInstructionsValid(primerInstructions) && Decision(c, primerInstructions) && primerInstructions.buckets.Array? ==>
              resolved == map[featureName := true, BucketKey(featureName, Bucket.Mutate(primerInstructions, Empty, index).value) := true] &&
              |resolved| == 2
    ensures primerInstructions.toggle == Bool(false) ==> resolved == map[featureName := false]
    ensures c.areInstructionsValid(primerInstructions) && Decision(c, primerInstructions) &&
            primerInstructions.buckets.Array? && primerInstructions.buckets.items != [] &&
            Bucket.IsDraw(|primerInstructions.buckets.items|, index) ==>
              featureName + "." + primerInstructions.buckets.items[index] in resolved
    ensures c.areInstructionsValid(primerInstructions) && Decision(c, primerInstructions) && primerInstructions.buckets == Array([]) ==>
              resolved.Keys == {featureName, featureName + ".undefined"}
  {
    var features := new Features();
    if c.areInstructionsValid(primerInstructions) {
      var toggle := ProcessFeatureInstructions(c, primerInstructions);
      AddToFeatures(features, featureName, toggle);
      if ContainsBuckets(toggle, primerInstructions) {
        var added := AddBucketToFeatures(features, featureName, primerInstructions, toggle, index);
        assert added.Ok?;  // `ContainsBuckets` established an array, so the bucket mutator cannot throw here
        var key := BucketKey(featureName, Bucket.Mutate(primerInstructions, Empty, index).value);
        assert |key| > |featureName|;
        if primerInstructions.buckets.items == [] {
          assert key == featureName + ".undefined";
        }
      }
    } else {
      AddToFeatures(features, featureName, false);
    }
    resolved := features.entries;
  }
}
