/** Keccak-256 as the core uses it: a fixed function from byte strings to
    32-byte digests, reached through an incremental hasher. The function
    itself is a parameter of every operation that hashes; nothing is
    assumed about it. */
module Hashing {
  import opened Text

  /** A 32-byte digest (`risc0_zkp::core::digest::Digest`). `Digest::from_bytes`
      and `as_bytes` are the identity on this view. */
  type Digest = d: seq<Byte> | |d| == 32 witness ZeroBytes

  /** `[0; 32]`. */
  const ZeroBytes: seq<Byte> :=
    [0, 0, 0, 0, 0, 0, 0, 0, 0, 0, 0, 0, 0, 0, 0, 0,
     0, 0, 0, 0, 0, 0, 0, 0, 0, 0, 0, 0, 0, 0, 0, 0]

  /** `Digest::from_bytes([0; 32])`. */
  const ZeroDigest: Digest := ZeroBytes

  /** Keccak-256 over a whole byte string. */
  type Keccak = seq<Byte> -> Digest

  /** A `tiny_keccak::Keccak` sponge, seen through the bytes it has absorbed
      so far. Cloning a hasher copies this value. */
  datatype Hasher = Hasher(absorbed: seq<Byte>)

  /** `Keccak::v256()`: a hasher that has absorbed nothing. */
  const V256: Hasher := Hasher([])

  /** `hasher.update(bytes)`. */
  function Update(h: Hasher, bytes: seq<Byte>): Hasher
  {
    Hasher(h.absorbed + bytes)
  }

  /** `hasher.finalize(&mut output)`: the digest of everything absorbed. */
  function Finalize(k: Keccak, h: Hasher): Digest
  {
    k(h.absorbed)
  }

  /** Streaming agrees with one-shot hashing: feeding a hasher the pieces
      one after another finalizes to the hash of their concatenation. */
  lemma StreamingIsOneShot(k: Keccak, a: seq<Byte>, b: seq<Byte>, c: seq<Byte>)
    ensures Finalize(k, Update(Update(Update(V256, a), b), c)) == k(a + b + c)
  {
    assert [] + a + b + c == a + b + c;
  }
}
