/** The filters object `{ surfaces, modes, riskLevels, languages, categories }`
    as a JavaScript object: an ordered list of distinct keys, each mapped to a
    list of accepted values or to `null`. */
module FilterSets {
  import opened Wrappers
  import opened Seqs

  const Surfaces := "surfaces"
  const Modes := "modes"
  const RiskLevels := "riskLevels"
  const Languages := "languages"
  const Categories := "categories"

  datatype Entry = Entry(key: string, values: Option<seq<string>>)

  type FilterSet = seq<Entry>

  /** `Object.keys(f)`. */
  function Keys(f: FilterSet): (ks: seq<string>)
    ensures |ks| == |f|
  {
    if f == [] then [] else [f[0].key] + Keys(f[1..])
  }

  /** An object has each key once. */
  predicate WellFormed(f: FilterSet) {
    Distinct(Keys(f))
  }

  predicate HasKey(f: FilterSet, k: string) {
    k in Keys(f)
  }

  /** `f[k] || []`: the accepted values of a dimension, where a missing key
      and a `null` value both mean "no values". */
  function Values(f: FilterSet, k: string): (vs: seq<string>)
    ensures !HasKey(f, k) ==> vs == []
  {
    if f == [] then []
    else if f[0].key == k then (if f[0].values.Some? then f[0].values.value else [])
    else Values(f[1..], k)
  }

  /** `{ ...f, [k]: vs }`: an existing key keeps its place, a new one is
      appended. */
  function Put(f: FilterSet, k: string, vs: seq<string>): (r: FilterSet)
    ensures Values(r, k) == vs
    ensures forall k' :: k' != k ==> Values(r, k') == Values(f, k')
  {
    if f == [] then [Entry(k, Some(vs))]
    else if f[0].key == k then [Entry(k, Some(vs))] + f[1..]
    else [f[0]] + Put(f[1..], k, vs)
  }

  /** `Put` appends a new key and leaves an existing one in its place. */
  lemma {:induction false} PutKeys(f: FilterSet, k: string, vs: seq<string>)
    ensures Keys(Put(f, k, vs)) == if k in Keys(f) then Keys(f) else Keys(f) + [k]
  {
    if f != [] && f[0].key != k {
      PutKeys(f[1..], k, vs);
      assert Keys(Put(f, k, vs)) == [f[0].key] + Keys(Put(f[1..], k, vs));
    }
  }

  /** Setting a key keeps the keys distinct. */
  lemma PutWellFormed(f: FilterSet, k: string, vs: seq<string>)
    requires WellFormed(f)
    ensures WellFormed(Put(f, k, vs))
  {
    PutKeys(f, k, vs);
  }
}
