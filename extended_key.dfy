/**
 * The 66-byte extended-private-key record assembled for the winning key:
 * depth 0, the chain code, a zero pad, the secret key.
 */
module ExtendedKey {
  import opened Bytes

  /** `capacity`: 1 byte of depth, 32 of chain code, 33 of `0x00 || secret key`. */
  const RecordLength: nat := 1 + 32 + 33

  /** The human-readable part the record is Bech32-encoded with. */
  const XprvHrp: string := "xprv"

  /** The record as a value. */
  function Layout(chaincode: Bytes32, secretKey: Bytes32): seq<byte> {
    [0] + chaincode + [0] + secretKey
  }

  /** The depth byte of a record (0: a master key, no derivation path). */
  function Depth(record: seq<byte>): byte
    requires |record| == RecordLength
  {
    record[0]
  }

  /** The chain code stored in a record. */
  function ChainCode(record: seq<byte>): Bytes32
    requires |record| == RecordLength
  {
    record[1..33]
  }

  /** The secret key stored in a record. */
  function SecretKey(record: seq<byte>): Bytes32
    requires |record| == RecordLength
  {
    record[34..]
  }

  /** Reading the fields back from a laid-out record gives what was put in. */
  lemma LayoutRoundTrip(chaincode: Bytes32, secretKey: Bytes32)
    ensures |Layout(chaincode, secretKey)| == RecordLength
    ensures Depth(Layout(chaincode, secretKey)) == 0
    ensures ChainCode(Layout(chaincode, secretKey)) == chaincode
    ensures SecretKey(Layout(chaincode, secretKey)) == secretKey
  {
  }

  /** A record is determined by its fields: the layout is lossless. */
  lemma LayoutInjective(c1: Bytes32, k1: Bytes32, c2: Bytes32, k2: Bytes32)
    requires Layout(c1, k1) == Layout(c2, k2)
    ensures c1 == c2 && k1 == k2
  {
    LayoutRoundTrip(c1, k1);
    LayoutRoundTrip(c2, k2);
  }

  /**
   * Lines 125-136 of `run`: a zeroed buffer of `capacity` bytes, the chain
   * code copied into bytes 1..33 and the secret key into bytes 34..66.
   */
  method Assemble(chaincode: Bytes32, secretKey: Bytes32) returns (record: seq<byte>)
    ensures |record| == RecordLength
    ensures record[0] == 0 && record[1..33] == chaincode
    ensures record[33] == 0 && record[34..] == secretKey
    ensures record == Layout(chaincode, secretKey)
  {
    var bytes := new byte[RecordLength](_ => 0);
    ghost var zeros := bytes[..];
    CopyFromSlice(bytes, 1, chaincode);
    ghost var withChainCode := bytes[..];
    assert withChainCode == [0] + chaincode + zeros[33..];
    assert withChainCode[..34] == [0] + chaincode + [0];
    CopyFromSlice(bytes, 34, secretKey);
    record := bytes[..];
    assert record == withChainCode[..34] + secretKey;
  }
}
