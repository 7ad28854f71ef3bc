/** Small shared vocabulary: optional values, bytes and the hash function SHA-256 is modelled by. */
module Common {
  datatype Option<+T> = None | Some(value: T)

  type Byte = bv8
  type Bytes = seq<Byte>

  /** A SHA-256 digest in lower-case hexadecimal. */
  type Hash = string

  /** SHA-256 itself is a parameter of the model. */
  type HashFn = Bytes -> Hash

  /** All that is assumed of SHA-256: no two inputs collide, and a digest is
      long enough for the two-level directory layout. */
  ghost predicate CollisionFree(sha: HashFn) {
    && (forall a, b :: NoCollision(sha, a, b))
    && (forall a :: LongDigest(sha, a))
  }

  ghost predicate NoCollision(sha: HashFn, a: Bytes, b: Bytes) {
    sha(a) == sha(b) ==> a == b
  }

  ghost predicate LongDigest(sha: HashFn, a: Bytes) {
    |sha(a)| >= 4
  }
}
