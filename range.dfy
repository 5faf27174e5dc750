/** Half-open key ranges `[start, end)` used for size estimates. */
module Ranges {
  import opened ByteStrings

  datatype Range = Range(startKey: Bytes, endKey: Bytes)

  /** The ranges `Range::new` can build: the start is not above the end
      (the fields are private, so no other range exists). */
  type OrderedRange = r: Range | LexLe(r.startKey, r.endKey) witness Range([], [])

  /** The key `k` lies in the range: the start is included, the end is not. */
  predicate Contains(r: Range, k: Bytes)
  {
    LexLe(r.startKey, k) && LexLt(k, r.endKey)
  }

  /** `Range::new`, which asserts that the start is not above the end. */
  function NewRange(startKey: Bytes, endKey: Bytes): (r: OrderedRange)
    requires LexLe(startKey, endKey)
    ensures r.startKey == startKey && r.endKey == endKey
    ensures Contains(r, startKey) <==> startKey != endKey
  {
    LexLtIrreflexive(startKey);
    Range(startKey, endKey)
  }

  /** A range built by `Range::new` holds some key exactly when its bounds
      differ; `[k, k)` is empty. */
  lemma NonEmptyIffBoundsDiffer(r: Range)
    requires LexLe(r.startKey, r.endKey)
    ensures (exists k :: Contains(r, k)) <==> r.startKey != r.endKey
  {
    if r.startKey != r.endKey {
      assert Contains(r, r.startKey);
    } else {
      forall k ensures !Contains(r, k) {
        if LexLe(r.startKey, k) && LexLt(k, r.endKey) {
          if k != r.startKey {
            LexLtAsymmetric(r.startKey, k);
          } else {
            LexLtIrreflexive(k);
          }
        }
      }
    }
  }
}
