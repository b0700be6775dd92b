/** Types shared by the models: bytes, 256-bit hashes, options and results. */
module Primitives {
  newtype byte = x: int | 0 <= x < 256

  type Bytes = seq<byte>

  /** A block hash or a trie-node key. A value that can be written to disk has 32 bytes
      (see Codec.H256Codec); nothing else in the models depends on the length. */
  datatype H256 = H256(bytes: Bytes)

  datatype Option<+T> = None | Some(value: T)

  datatype Result<+T, +E> = Ok(value: T) | Err(error: E)

  /** The elements of a list, its order and repetitions forgotten. */
  function Elems<T>(s: seq<T>): (r: set<T>)
  {
    set x | x in s
  }

  lemma SubsetSize<T>(a: set<T>, b: set<T>)
    requires a <= b
    ensures |a| <= |b|
  {
    assert b == a + (b - a);
  }
}
