/** Keys of the storage engine.

    A user key is a byte string ordered lexicographically (src/types.rs).  Apart from
    their length, which only enters size estimates, keys are only ever compared, so the
    rest of the model represents a key by its rank: an order-preserving, injective
    embedding of byte strings into the reals.  `RankOrder` and `RankInjective` are what
    licenses this: a statement about all reals is a statement about all byte strings. */
module Keys {
  type Byte = n: int | 0 <= n < 256
  type Key = real
  type Value = string
  type Ts = nat

  datatype Option<+T> = None | Some(value: T)

  /** `Key::cmp`: byte-wise lexicographic order. */
  predicate BytesLess(a: seq<Byte>, b: seq<Byte>) {
    if b == [] then false
    else if a == [] then true
    else a[0] < b[0] || (a[0] == b[0] && BytesLess(a[1..], b[1..]))
  }

  function Rank(k: seq<Byte>): (r: Key)
    ensures 0.0 <= r < 1.0
    ensures k != [] ==> r > 0.0
  {
    if k == [] then 0.0 else (k[0] as real + 1.0 + Rank(k[1..])) / 257.0
  }

  lemma {:induction false} RankOrder(a: seq<Byte>, b: seq<Byte>)
    ensures BytesLess(a, b) <==> Rank(a) < Rank(b)
  {
    if a != [] && b != [] {
      RankOrder(a[1..], b[1..]);
    }
  }

  lemma {:induction false} BytesTotal(a: seq<Byte>, b: seq<Byte>)
    ensures BytesLess(a, b) || BytesLess(b, a) || a == b
  {
    if a != [] && b != [] {
      BytesTotal(a[1..], b[1..]);
      assert a == [a[0]] + a[1..] && b == [b[0]] + b[1..];
    }
  }

  lemma RankInjective(a: seq<Byte>, b: seq<Byte>)
    ensures Rank(a) == Rank(b) <==> a == b
  {
    RankOrder(a, b);
    RankOrder(b, a);
    BytesTotal(a, b);
  }
}
