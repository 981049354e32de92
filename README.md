# muton feature-toggle resolver, modelled in Dafny

This project models the decision logic of muton, a resolver that turns a feature's
declarative toggle instructions into resolved on/off decisions. It covers three units:

- the **bucket mutator** (`src/mutators/bucket.js`). It picks one variant ("bucket") of a
  multivariant feature. A recorded bucket gene overrides the random pick and makes it sticky.
- **gene pairing** (`src/mutators/gene-pairing.js`). It rebuilds a gene (a record of an
  earlier decision) for a feature name from a corpus of earlier decisions, by prefix
  matching on the recorded keys.
- the **polymerase** assembler (`src/enzymes/polymerase.js`). It proof-reads one feature's
  instructions, decides the toggle and, when the feature is on and declares a bucket list,
  adds a `featureName.bucketName` entry.

Files, one module each:

- `wrappers.dfy` (`Wrappers`): `Option`, and `Result` whose `Thrown(message)` stands for a JavaScript `throw`.
- `js_values.dfy` (`JsValues`): the JavaScript values the code handles (`undefined`, booleans, strings), `String(v)` as used by `+`, and `String.prototype.indexOf`.
- `records.dfy` (`Records`): the instructions, the gene and the corpus.
- `bucket.dfy` (`Bucket`), `gene_pairing.dfy` (`GenePairing`), `polymerase.dfy` (`Polymerase`): the three units.

Modelling choices:

- `Math.floor(Math.random() * length)` becomes an injected `index: nat`. `IsDraw(n, index)` states the range that draw can take: below `n`, and 0 when `n` is 0. Indexing follows JavaScript: past the end of the array the result is `undefined`.
- A gene is `Empty` (for `{}` or a missing gene) or `Recorded(kind, toggle)`. `kind` is a string, so a caller-supplied gene of any type can be represented.
- The corpus's `toggles` is a map to booleans. `buckets` and `throttles` are sequences of keys. A missing `buckets` or `throttles` list filters like an empty one.
- `assembleFeatures` creates the `features` object and fills it in place through `addToFeatures`. Here that object is a `Features` class whose `entries` map the methods update. `AssembleFeatures` returns the final entries.
- Proof-reading and the throttle mutator are not part of this model. They are the oracle functions in `Polymerase.Collaborators`: `areInstructionsValid`, `isThrottleValid` and `mutateThrottle`. The random throttle decision is whatever `mutateThrottle` answers for the instruction's throttle value. It is consulted at most once per assembly.

The model follows the code as written. In particular:

- `assembleFeatures` takes no gene. It calls the bucket mutator without one (`src/enzymes/polymerase.js:72`). A caller therefore cannot get a sticky bucket from `assembleFeatures`.
- `isBucketListValid` holds for every array, empty ones included. When the feature is on with an empty bucket list, the picked bucket is `undefined`, and string concatenation makes the second key `featureName + ".undefined"`. `Polymerase.AssembleFeatures` states this outcome.
- Prefix matching crosses feature boundaries: the feature `f` matches the keys of a feature `fx` too. When `fx.c` comes first among the bucketed keys, the gene paired for `f` records bucket `c` (`GenePairing.PrefixMatchCrossesFeatures`).
- The default value of a paired gene is the exact lookup `genes.toggles[featureName]`. The toggles key that matched by prefix is not used, so the value may be `undefined` (`GenePairing.Lookup`).

## Model

| member | source | states |
|---|---|---|
| `JsValues.IndexOf` | src/mutators/gene-pairing.js:30 | the result is the first position where the text occurs, or -1 when it does not occur; it is 0 exactly when the text is a prefix |
| `JsValues.IndexOfChar` | src/mutators/gene-pairing.js:43 | a character's first occurrence is the position `indexOf` reports |
| `JsValues.IndexOfMissingChar` | src/mutators/gene-pairing.js:43-44 | a character absent from the string is reported as -1 |
| `Bucket.PickOneElement` | src/mutators/bucket.js:16-23 | throws 'Not an array!' exactly for a non-array; otherwise the result is an element of the array, and `undefined` exactly when the draw is past the end |
| `Bucket.Mutate` | src/mutators/bucket.js:30-36 | a bucket gene's recorded value is returned whatever the list holds; otherwise it throws exactly for a non-array, returns only elements of the list, and for a draw in range gives `undefined` exactly on an empty list |
| `Bucket.IsBucketGene` | src/mutators/bucket.js:25-27 | a gene is a bucket gene exactly when it is recorded (non-empty) and its type is 'bucket' |
| `Bucket.NonBucketGeneNotSticky` | src/mutators/bucket.js:25-35 | with an empty gene, or a gene whose type is not 'bucket', `mutate` picks exactly as with no gene: the gene plays no part |
| `Bucket.PickedIsElement` | src/mutators/bucket.js:21-22 | without a bucket gene, a non-empty list and a draw in range yield the element at that index |
| `Bucket.ContainsMultivariant` | src/mutators/bucket.js:38-40 | an instruction counts as bucketed exactly when its bucket list is an array, an empty one included |
| `Bucket.IsBucketListValid` | src/mutators/bucket.js:42-45 | true exactly for arrays; the length conjunct excludes nothing |
| `GenePairing.Lookup` | src/mutators/gene-pairing.js:52 | the exact-key lookup is `undefined` exactly when the key is missing, and otherwise the recorded boolean |
| `GenePairing.FindWithPartialName` | src/mutators/gene-pairing.js:28-32 | the result holds only names that start with the partial name and every such name of the input |
| `GenePairing.FindWithPartialNameAppend` | src/mutators/gene-pairing.js:28-32 | the filter keeps the original order: it distributes over concatenation |
| `GenePairing.HasPartialName` | src/mutators/gene-pairing.js:24-26 | true exactly when some name starts with the partial name |
| `GenePairing.ContainTogglesPair` | src/mutators/gene-pairing.js:12-14 | true exactly when some toggles key starts with the feature name |
| `GenePairing.ContainBucketsPair` | src/mutators/gene-pairing.js:16-18 | true exactly when some bucketed key starts with the feature name |
| `GenePairing.ContainThrottlesPair` | src/mutators/gene-pairing.js:20-22 | true exactly when some throttled key starts with the feature name |
| `GenePairing.FindTruthy` | src/mutators/gene-pairing.js:36-38 | finds the first key whose toggles entry is truthy, and finds none exactly when no key has one |
| `GenePairing.FirstTruthyMatch` | src/mutators/gene-pairing.js:34-38 | the single-scan reference: the found key is the first that starts with the feature name and is truthy; none is found exactly when no prefixed key is truthy |
| `GenePairing.FindAfterFilter` | src/mutators/gene-pairing.js:35-38 | filtering by prefix and then finding the first truthy key equals the single-scan reference |
| `GenePairing.GetBucketNameFromFeatureName` | src/mutators/gene-pairing.js:42-45 | '' when the key has no dot; otherwise a proper suffix of the key (shorter than it, and ending it) |
| `GenePairing.BucketNameAfterFirstDot` | src/mutators/gene-pairing.js:42-45 | the bucket name is the text after the first dot of the key |
| `GenePairing.BucketNameRoundTrip` | src/mutators/gene-pairing.js:42-45 | for a dot-free feature name, the bucket name of `feature + "." + bucket` is `bucket` |
| `GenePairing.GetMatchingBucket` | src/mutators/gene-pairing.js:34-40 | the bucket name of the first prefix-matching bucketed key whose toggles entry is truthy, or '' when there is none |
| `GenePairing.PairGene` | src/mutators/gene-pairing.js:48-64 | the gene is empty exactly when no toggles key starts with the name; otherwise its type is one of the three; 'bucket' exactly when a bucketed key matches, 'throttle' exactly when none does and a throttled key does; the value is the matching bucket's name for 'bucket' and the exact toggles lookup otherwise |
| `GenePairing.RecordedBucketIsPaired` | src/mutators/gene-pairing.js:34-45 | in any corpus, when the first truthy bucketed key that starts with a dot-free feature name is `feature.bucket`, pairing finds `bucket` |
| `GenePairing.PrefixMatchCrossesFeatures` | src/mutators/gene-pairing.js:28-40 | with bucketed keys `fx.c` then `f.b`, both on, the bucket matched for `f` is `c`: another feature's key wins by prefix |
| `Polymerase.Features.constructor` | src/enzymes/polymerase.js:32 | the features object starts empty |
| `Polymerase.AddToFeatures` | src/enzymes/polymerase.js:49-51 | sets the entry of the key and leaves every other entry unchanged |
| `Polymerase.ProcessFeatureInstructions` | src/enzymes/polymerase.js:53-65 | `toggle: false` forces off; otherwise a valid throttle decides, overriding `toggle: true`; otherwise on exactly for `toggle: true` |
| `Polymerase.ContainsBuckets` | src/enzymes/polymerase.js:67-69 | true exactly when the feature is on and its bucket list is an array |
| `Polymerase.BucketKey` | src/enzymes/polymerase.js:73 | the key starts with the feature name followed by a dot, so it differs from the feature name; after the dot comes the bucket name, or the text `undefined` for an undefined bucket |
| `Polymerase.AddBucketToFeatures` | src/enzymes/polymerase.js:71-74 | adds `featureName.bucket` for the gene-less pick from the instruction's own list; a non-array list throws and adds nothing |
| `Polymerase.AssembleFeatures` | src/enzymes/polymerase.js:31-46 | invalid instructions give exactly `{featureName: false}`; valid ones map `featureName` to the decision; a second key with value true appears exactly when the feature is on and bucketed, then exactly two keys; `toggle: false` gives only `{featureName: false}`; an empty bucket list gives the key `featureName.undefined` |

## Left out

- The console diagnostic for invalid instructions (`src/enzymes/polymerase.js:42`) is output only and is not modelled.
- `areInstructionsValid`, `isThrottleValid` and the throttle mutator's `mutate` are not part of this model. Their rules are not shown, so they are oracle parameters.
- `Math.random` and the floating-point index arithmetic are replaced by the injected index. No distribution (uniform choice, throttle percentage) is modelled.
- JavaScript truthiness in general: the corpus's recorded toggles are booleans, the resolved toggle is a boolean, and a gene's value is `undefined`, a boolean or a string. Numbers, objects and arrays as values are not represented. A throttle value is represented as a string, `undefined` or a boolean, since only the oracles read it.
- Array elements of a bucket list are strings. A non-array `buckets` of any kind is one case, `NotAnArray`.
- The module loading through `define`/`amdefine` and the lodash internals are not modelled. `_.filter`, `_.find`, `_.keys` and `_.isArray` become sequence and map operations.
- Lookups and assignments on keys that name members of `Object.prototype` (such as `toString` or `__proto__`) are not modelled. JavaScript objects used as maps see these inherited members, so `genes.toggles["toString"]` is a function and `features["__proto__"] = false` sets nothing. Here the corpus and the features are plain maps holding only their own keys.
- The order of `_.keys(genes.toggles)` is not modelled; only whether some key matches is used.
- `Gruntfile.js` is build tooling with no decision logic.
