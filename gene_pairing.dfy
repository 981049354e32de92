/**
 * Gene pairing: rebuilds the gene of a feature from a corpus of earlier decisions, by
 * matching the feature name as a prefix of the recorded keys.
 */
module GenePairing {
  import opened Wrappers
  import opened JsValues
  import opened Records

  /** Some name in `featureNames` starts with `partialName`. */
  predicate AnyStartsWith(featureNames: seq<string>, partialName: string)
  {
    exists i :: 0 <= i < |featureNames| && partialName <= featureNames[i]
  }

  /** The `toggles` entry of `key` is truthy: present and `true`. */
  predicate IsTruthy(toggles: map<string, bool>, key: string)
  {
    key in toggles && toggles[key]
  }

  /** `toggles[key]`: the recorded value, or `undefined` when the key is missing. */
  function Lookup(toggles: map<string, bool>, key: string): (v: Value)
    ensures v.Undefined? <==> key !in toggles
    ensures v.Bool? ==> key in toggles && v.b == toggles[key]
    ensures !v.Str?
  {
    if key in toggles then Bool(toggles[key]) else Undefined
  }

  /**
   * The names that `indexOf(partialName) === 0` keeps: exactly those that start with
   * `partialName`, in their original order.
   */
  function FindWithPartialName(featureNames: seq<string>, partialName: string): (r: seq<string>)
    ensures forall k :: k in r ==> k in featureNames && partialName <= k
    ensures forall i :: 0 <= i < |featureNames| && partialName <= featureNames[i] ==> featureNames[i] in r
  {
    if featureNames == [] then []
    else
      var rest := FindWithPartialName(featureNames[1..], partialName);
      assert forall i :: 1 <= i < |featureNames| ==> featureNames[i] == featureNames[1..][i - 1];
      if IndexOf(featureNames[0], partialName) == 0 then [featureNames[0]] + rest else rest
  }

  /** Some name starts with `partialName`. */
  function HasPartialName(featureNames: seq<string>, partialName: string): (r: bool)
    ensures r <==> AnyStartsWith(featureNames, partialName)
  {
    var found := FindWithPartialName(featureNames, partialName);
    assert |found| > 0 ==> found[0] in found;
    |found| > 0
  }

  /** Some key of `toggles` starts with the feature name (the order of `_.keys` plays no part). */
  function ContainTogglesPair(genes: Corpus, featureName: string): (r: bool)
    ensures r <==> exists k :: k in genes.toggles && featureName <= k
  {
    exists k :: k in genes.toggles && IndexOf(k, featureName) == 0
  }

  /** Some bucketed key starts with the feature name. */
  function ContainBucketsPair(genes: Corpus, featureName: string): (r: bool)
    ensures r <==> AnyStartsWith(genes.buckets, featureName)
  {
    HasPartialName(genes.buckets, featureName)
  }

  /** Some throttled key starts with the feature name. */
  function ContainThrottlesPair(genes: Corpus, featureName: string): (r: bool)
    ensures r <==> AnyStartsWith(genes.throttles, featureName)
  {
    HasPartialName(genes.throttles, featureName)
  }

  /** `_.find(keys, key => toggles[key])`: the first key whose entry is truthy. */
  function FindTruthy(keys: seq<string>, toggles: map<string, bool>): (r: Option<string>)
    ensures r.None? <==> forall i :: 0 <= i < |keys| ==> !IsTruthy(toggles, keys[i])
    ensures r.Some? ==> r.value in keys && IsTruthy(toggles, r.value)
    ensures r.Some? ==> exists i :: 0 <= i < |keys| && keys[i] == r.value && forall j :: 0 <= j < i ==> !IsTruthy(toggles, keys[j])
  {
    if keys == [] then None
    else if IsTruthy(toggles, keys[0]) then Some(keys[0])
    else
      assert forall i :: 1 <= i < |keys| ==> keys[i] == keys[1..][i - 1];
      var r := FindTruthy(keys[1..], toggles);
      assert r.Some? ==> exists i :: 0 <= i < |keys| && keys[i] == r.value && forall j :: 0 <= j < i ==> !IsTruthy(toggles, keys[j]) by {
        if r.Some? {
          var i :| 0 <= i < |keys[1..]| && keys[1..][i] == r.value && forall j :: 0 <= j < i ==> !IsTruthy(toggles, keys[1..][j]);
          assert forall j :: 1 <= j < i + 1 ==> keys[j] == keys[1..][j - 1];
        }
      }
      r
  }

  /**
   * Reference definition, in one scan: the first of `featureNames` that starts with
   * `partialName` and whose `toggles` entry is truthy.
   */
  function FirstTruthyMatch(featureNames: seq<string>, partialName: string, toggles: map<string, bool>): (r: Option<string>)
    ensures r.Some? ==> r.value in featureNames && partialName <= r.value && IsTruthy(toggles, r.value)
    ensures r.Some? ==> exists i :: 0 <= i < |featureNames| && featureNames[i] == r.value &&
                          forall j :: 0 <= j < i && partialName <= featureNames[j] ==> !IsTruthy(toggles, featureNames[j])
    ensures r.None? <==> forall i :: 0 <= i < |featureNames| && partialName <= featureNames[i] ==> !IsTruthy(toggles, featureNames[i])
  {
    if featureNames == [] then None
    else if partialName <= featureNames[0] && IsTruthy(toggles, featureNames[0]) then Some(featureNames[0])
    else
      assert forall i :: 1 <= i < |featureNames| ==> featureNames[i] == featureNames[1..][i - 1];
      var r := FirstTruthyMatch(featureNames[1..], partialName, toggles);
      assert r.Some? ==> exists i :: 0 <= i < |featureNames| && featureNames[i] == r.value &&
                           forall j :: 0 <= j < i && partialName <= featureNames[j] ==> !IsTruthy(toggles, featureNames[j]) by {
        if r.Some? {
          var i :| 0 <= i < |featureNames[1..]| && featureNames[1..][i] == r.value &&
                   forall j :: 0 <= j < i && partialName <= featureNames[1..][j] ==> !IsTruthy(toggles, featureNames[1..][j]);
          assert forall j :: 1 <= j < i + 1 ==> featureNames[j] == featureNames[1..][j - 1];
        }
      }
      r
  }

  /** The text after the first `.` of a key, or `''` when it has none. */
  function GetBucketNameFromFeatureName(featureName: string): (r: string)
    ensures '.' !in featureName ==> r == ""
    ensures '.' in featureName ==> |r| < |featureName| && r == featureName[|featureName| - |r|..]
  {
    var dotIndex := IndexOf(featureName, ".");
    assert '.' !in featureName ==> dotIndex == -1 by {
      if '.' !in featureName { IndexOfMissingChar(featureName, '.'); }
    }
    if dotIndex >= 0 then featureName[dotIndex + 1..] else ""
  }

  /** The bucket name is the text after the first dot of the key. */
  lemma {:induction false} BucketNameAfterFirstDot(featureName: string, i: nat)
    requires i < |featureName| && featureName[i] == '.' && '.' !in featureName[..i]
    ensures GetBucketNameFromFeatureName(featureName) == featureName[i + 1..]
  {
    IndexOfChar(featureName, '.', i);
  }

  /**
   * The bucket name of the first bucketed key that starts with the feature name and
   * whose `toggles` entry is truthy, or `''` when there is none.
   */
  function GetMatchingBucket(genes: Corpus, featureName: string): (r: string)
    ensures FirstTruthyMatch(genes.buckets, featureName, genes.toggles).None? ==> r == ""
    ensures FirstTruthyMatch(genes.buckets, featureName, genes.toggles).Some? ==>
              r == GetBucketNameFromFeatureName(FirstTruthyMatch(genes.buckets, featureName, genes.toggles).value)
  {
    FindAfterFilter(genes.buckets, featureName, genes.toggles);
    var matched := FindTruthy(FindWithPartialName(genes.buckets, featureName), genes.toggles);
    if matched.Some? then GetBucketNameFromFeatureName(matched.value) else ""
  }

  /**
   * Rebuilds the gene of `featureName`. Without a toggles key that starts with the
   * name the gene is empty; otherwise its type is `'bucket'` when a bucketed key
   * matches, else `'throttle'` when a throttled key matches, else `'toggle'`.
   */
  method PairGene(genes: Corpus, featureName: string) returns (gene: Gene)
    ensures gene.Empty? <==> forall k :: k in genes.toggles ==> !(featureName <= k)
    ensures gene.Recorded? ==> gene.kind == "toggle" || gene.kind == "bucket" || gene.kind == "throttle"
    ensures gene.Recorded? ==> (gene.kind == "bucket" <==> AnyStartsWith(genes.buckets, featureName))
    ensures gene.Recorded? ==>
              (gene.kind == "throttle" <==> !AnyStartsWith(genes.buckets, featureName) && AnyStartsWith(genes.throttles, featureName))
    ensures gene.Recorded? && gene.kind != "bucket" ==> gene.toggle == Lookup(genes.toggles, featureName)
    ensures gene.Recorded? && gene.kind == "bucket" ==>
              gene.toggle == Str(match FirstTruthyMatch(genes.buckets, featureName, genes.toggles)
                                 case Some(key) => GetBucketNameFromFeatureName(key)
                                 case None => "")
  {
    gene := Empty;
    if ContainTogglesPair(genes, featureName) {
      var kind := "toggle";
      var name := Lookup(genes.toggles, featureName);
      if ContainBucketsPair(genes, featureName) {
        kind := "bucket";
        name := Str(GetMatchingBucket(genes, featureName));
      } else if ContainThrottlesPair(genes, featureName) {
        kind := "throttle";
      }
      gene := Recorded(kind, name);
    }
  }

  /** Filtering keeps the original order: it distributes over concatenation. */
  lemma {:induction false} FindWithPartialNameAppend(a: seq<string>, b: seq<string>, partialName: string)
    ensures FindWithPartialName(a + b, partialName) == FindWithPartialName(a, partialName) + FindWithPartialName(b, partialName)
  {
    if a == [] {
      assert a + b == b;
    } else {
      assert (a + b)[1..] == a[1..] + b;
      FindWithPartialNameAppend(a[1..], b, partialName);
    }
  }

  /** Filtering by prefix and then finding the first truthy key finds the first truthy match. */
  lemma {:induction false} FindAfterFilter(featureNames: seq<string>, partialName: string, toggles: map<string, bool>)
    ensures FindTruthy(FindWithPartialName(featureNames, partialName), toggles) == FirstTruthyMatch(featureNames, partialName, toggles)
  {
    if featureNames != [] {
      FindAfterFilter(featureNames[1..], partialName, toggles);
    }
  }

  /** The bucket name round-trips: a dot-free feature name joined to a bucket name gives that bucket name back. */
  lemma {:induction false} BucketNameRoundTrip(featureName: string, bucketName: string)
    requires '.' !in featureName
    ensures GetBucketNameFromFeatureName(featureName + "." + bucketName) == bucketName
  {
    var key := featureName + "." + bucketName;
    assert key[|featureName|] == '.';
    assert key[..|featureName|] == featureName;
    assert key[|featureName| + 1..] == bucketName;
    BucketNameAfterFirstDot(key, |featureName|);
  }

  /**
   * Stickiness closes the loop: when the first truthy bucketed key that starts with
   * `featureName` is the recorded decision `featureName.bucketName`, pairing the
   * feature name finds that same bucket name, whatever else the corpus holds.
   */
  lemma {:induction false} RecordedBucketIsPaired(featureName: string, bucketName: string, genes: Corpus, i: nat)
    requires '.' !in featureName
    requires i < |genes.buckets| && genes.buckets[i] == featureName + "." + bucketName
    requires IsTruthy(genes.toggles, genes.buckets[i])
    requires forall j :: 0 <= j < i && featureName <= genes.buckets[j] ==> !IsTruthy(genes.toggles, genes.buckets[j])
    ensures GetMatchingBucket(genes, featureName) == bucketName
  {
    var key := featureName + "." + bucketName;
    assert featureName <= key by { assert key[..|featureName|] == featureName; }
    var found := FirstTruthyMatch(genes.buckets, featureName, genes.toggles);
    assert found.Some?;
    var k :| 0 <= k < |genes.buckets| && genes.buckets[k] == found.value &&
             forall j :: 0 <= j < k && featureName <= genes.buckets[j] ==> !IsTruthy(genes.toggles, genes.buckets[j]);
    assert found == Some(key);
    BucketNameRoundTrip(featureName, bucketName);
  }

  /**
   * Prefix matching crosses feature boundaries: a key of feature `fx`, listed first,
   * is paired with feature `f`, whose own recorded bucket `b` is then not found.
   */
  lemma PrefixMatchCrossesFeatures()
    ensures GetMatchingBucket(Corpus(map["f" := true, "fx.c" := true, "f.b" := true], ["fx.c", "f.b"], []), "f") == "c"
  {
    var genes := Corpus(map["f" := true, "fx.c" := true, "f.b" := true], ["fx.c", "f.b"], []);
    assert "f" <= "fx.c";
    assert FirstTruthyMatch(genes.buckets, "f", genes.toggles) == Some("fx.c");
    BucketNameAfterFirstDot("fx.c", 2);
  }
}
