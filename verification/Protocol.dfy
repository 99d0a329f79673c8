/** What the controller, the enclave and the ledger exchange.

    Hashes are symbolic: a digest is the constructor that names its hash function applied to what
    was hashed. That makes every hash injective, never zero, and distinct from the others. */
module Protocol {
  import opened Bytes

  // A 20-byte Flare address; 0 is the zero address.
  type Address = nat

  datatype Policy = Policy(maxPerPaymentDrops: nat, maxTotalDrops: nat, requestTtlSeconds: uint64)

  datatype Preimage =
    | PolicyEncoding(policy: Policy)
    | MemoEncoding(chainId: nat, controller: Address, treasuryId: nat, requestId: nat, nonce: uint64)
    | Text(text: string)
    | Data(data: seq<byte>)

  datatype Bytes32 =
    | Zero
    | Ascii(name: string)
    | Keccak(preimage: Preimage)
    | Sha512Half(hashed: seq<byte>)
    | Raw(word: nat)

  function PolicyCommitment(p: Policy): Bytes32 {
    Keccak(PolicyEncoding(p))
  }

  function MemoRef(chainId: nat, controller: Address, treasuryId: nat, requestId: nat, nonce: uint64): Bytes32 {
    Keccak(MemoEncoding(chainId, controller, treasuryId, requestId, nonce))
  }

  function HashText(s: string): Bytes32 {
    Keccak(Text(s))
  }

  function HashData(d: seq<byte>): Bytes32 {
    Keccak(Data(d))
  }

  const MEMO_PREFIX: seq<byte> := [0x42, 0x53, 0x46, 0x31]  // "BSF1"

  /** The 36 memo bytes of a reference: the prefix, then the reference as 32 raw bytes. `word` says
      which 32 bytes a digest is. */
  function EncodeMemo(word: Bytes32 -> Word32, memoRef: Bytes32): (memo: seq<byte>)
    ensures |memo| == 36
  {
    MEMO_PREFIX + word(memoRef)
  }

  /** The header the controller puts in front of every instruction. */
  datatype Header = Header(
    chainId: nat, controller: Address, treasuryId: nat, requestId: nat,
    nonce: uint64, expiresAt: uint64, memoRef: Bytes32, policyCommitment: Bytes32)

  datatype Command =
    | CreateTreasuryKey(policy: Policy)
    | RegisterPolicy(policy: Policy)
    | AuthorizePayment(ciphertext: seq<byte>)
    | SignXrplPayment

  /** An instruction as the registry accepts it; `claimBack` is the caller the controller names. */
  datatype Instruction = Instruction(header: Header, command: Command, claimBack: Address)

  /** Decoded result data. The enclave signs one of these; the handler that consumes it is fixed by
      the constructor. */
  datatype ResultBody =
    | Bind(chainId: nat, controller: Address, treasuryId: nat, xrplAddress: string, policyCommitment: Bytes32)
    | Confirm(chainId: nat, controller: Address, treasuryId: nat, policy: Policy, commitment: Bytes32)
    | Authorization(chainId: nat, controller: Address, requestId: nat, memoRef: Bytes32,
                    amountDrops: nat, destinationHash: Bytes32, payloadHash: Bytes32)
    | SignedPayment(chainId: nat, controller: Address, requestId: nat, memoRef: Bytes32,
                    expectedTxId: Bytes32, signedTxBlob: seq<byte>)
    | Failure(chainId: nat, controller: Address, requestId: nat, reason: string)

  /** A submitted result: its body, its status byte and the address its signature recovers to. */
  datatype TeeResult = TeeResult(body: ResultBody, status: nat, signer: Address)
}
