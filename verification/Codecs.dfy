/** codec.go: what the helpers need of a pluggable codec. */
module Codecs {
  import opened Base

  /** The values that loaders return: any type that its codec can carry. */
  type Value(==, !new)

  /** A pluggable codec. Marshal may reject a value; Unmarshal may reject bytes. */
  datatype Codec = Codec(marshal: Value -> Option<Bytes>, unmarshal: Bytes -> Option<Value>)
  {
    /** Decoding undoes encoding, and encoded values never start with NUL (as for JSON texts,
        RFC 8259 sections 2 and 7). */
    ghost predicate Faithful() {
      forall v :: marshal(v).Some? ==>
        && unmarshal(marshal(v).value) == Some(v)
        && !StartsWithNul(marshal(v).value)
    }
  }

  predicate StartsWithNul(b: Bytes) {
    |b| > 0 && b[0] == 0
  }

  /** A codec that knows one value. */
  function OneValue(v: Value): Codec {
    Codec(x => if x == v then Some([1]) else None, b => if b == [1] then Some(v) else None)
  }

  lemma OneValueIsFaithful(v: Value)
    ensures OneValue(v).Faithful() && OneValue(v).marshal(v) == Some([1])
  {
  }
}
