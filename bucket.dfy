/**
 * The bucket mutator: picks one variant of a multivariant feature, at random or, when
 * a bucket gene is given, the variant that gene recorded.
 */
module Bucket {
  import opened Wrappers
  import opened JsValues
  import opened Records

  /** The message thrown for a bucket list that is not an array. */
  const NotAnArrayMessage: string := "Not an array!"

  /**
   * `Math.floor(Math.random() * n)` can yield `index`: an index below `n`, and 0
   * when `n` is 0.
   */
  predicate IsDraw(n: nat, index: nat)
  {
    if n == 0 then index == 0 else index < n
  }

  /**
   * Picks the element at the random `index` of an array; JavaScript indexing gives
   * `undefined` past the end, which is what an empty array yields.
   */
  function PickOneElement(list: BucketList, index: nat): (r: Result<Value>)
    ensures r.Thrown? <==> list.NotAnArray?
    ensures r.Thrown? ==> r.message == NotAnArrayMessage
    ensures r.Ok? && r.value.Str? ==> r.value.s in list.items
    ensures r.Ok? ==> (r.value.Undefined? <==> |list.items| <= index)
    ensures r.Ok? ==> !r.value.Bool?
  {
    match list
    case NotAnArray => Thrown(NotAnArrayMessage)
    case Array(items) => Ok(if index < |items| then Str(items[index]) else Undefined)
  }

  /** The gene is non-empty and its type is `'bucket'`. */
  predicate IsBucketGene(gene: Gene)
    ensures IsBucketGene(gene) <==> gene.Recorded? && gene.kind == "bucket"
  {
    gene != Empty && gene.kind == "bucket"
  }

  /**
   * The bucket a feature mutates to: the value a bucket gene recorded, whatever the
   * instruction's list holds; otherwise an element of the list picked at `index`.
   */
  function Mutate(featureProperties: Instructions, gene: Gene, index: nat): (r: Result<Value>)
    ensures IsBucketGene(gene) ==> r == Ok(gene.toggle)
    ensures !IsBucketGene(gene) ==> (r.Thrown? <==> featureProperties.buckets.NotAnArray?)
    ensures !IsBucketGene(gene) && r.Ok? && r.value.Str? ==> r.value.s in featureProperties.buckets.items
    ensures !IsBucketGene(gene) && r.Ok? ==> (r.value.Undefined? <==> |featureProperties.buckets.items| <= index)
    ensures !IsBucketGene(gene) && r.Ok? && IsDraw(|featureProperties.buckets.items|, index) ==>
              (r.value.Undefined? <==> featureProperties.buckets.items == [])
  {
    if IsBucketGene(gene) then Ok(gene.toggle) else PickOneElement(featureProperties.buckets, index)
  }

  /** The instruction declares a bucket list: any array, an empty one included. */
  function ContainsMultivariant(featureProperties: Instructions): (r: bool)
    ensures r <==> featureProperties.buckets.Array?
  {
    IsBucketListValid(featureProperties.buckets)
  }

  /** The list is an array; its length condition `>= 0` holds of every array. */
  function IsBucketListValid(bucketList: BucketList): (r: bool)
    ensures r <==> bucketList.Array?
  {
    bucketList.Array? && |bucketList.items| >= 0
  }

  /**
   * Only a non-empty gene of type `'bucket'` is sticky: with an empty gene or one of
   * any other type, the gene plays no part in the bucket picked.
   */
  lemma NonBucketGeneNotSticky(featureProperties: Instructions, gene: Gene, index: nat)
    requires gene.Empty? || gene.kind != "bucket"
    ensures Mutate(featureProperties, gene, index) == Mutate(featureProperties, Empty, index)
  {
  }

  /** Without a bucket gene, a non-empty list and a draw in range give that list's element. */
  lemma PickedIsElement(featureProperties: Instructions, gene: Gene, index: nat)
    requires !IsBucketGene(gene) && featureProperties.buckets.Array?
    requires featureProperties.buckets.items != [] && IsDraw(|featureProperties.buckets.items|, index)
    ensures Mutate(featureProperties, gene, index) == Ok(Str(featureProperties.buckets.items[index]))
  {
  }
}
