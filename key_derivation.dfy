/**
 * `derive_pkh`: the 20-byte public-key hash an address encodes is the first
 * 20 bytes of the SHA-256 digest of the serialized public key.
 */
module KeyDerivation {
  import opened Bytes

  /** Length of the public-key hash carried by an address. */
  const PkhLength: nat := 20

  /**
   * SHA-256 (`Sha256::new`, `input`, `result`), whose code is not part of
   * this model: any total function from byte strings to 32-byte digests.
   */
  type Hash = seq<byte> -> Bytes32

  /** The public-key hash, as a value: what `derive_pkh` is meant to compute. */
  function Pkh(hash: Hash, publicKey: seq<byte>): seq<byte> {
    hash(publicKey)[..PkhLength]
  }

  /**
   * `derive_pkh`: hash the key, then copy the digest's first 20 bytes into
   * a zeroed 20-byte array. The result is exactly the digest's prefix, so
   * equal keys give equal hashes.
   */
  method DerivePkh(hash: Hash, publicKey: seq<byte>) returns (pkh: seq<byte>)
    ensures |pkh| == PkhLength
    ensures forall i :: 0 <= i < PkhLength ==> pkh[i] == hash(publicKey)[i]
    ensures pkh == Pkh(hash, publicKey)
  {
    var digest := hash(publicKey);
    var buffer := new byte[PkhLength](_ => 0);
    CopyFromSlice(buffer, 0, digest[..PkhLength]);
    pkh := buffer[..];
  }
}
