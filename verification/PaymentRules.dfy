/** What the enclave's Payment is on the wire and when it can be written and signed, with every byte and
    limit written out. */
module PaymentRules {
  import opened Wrappers
  import opened Guards
  import opened Bytes
  import opened Protocol
  import opened XrplFields
  import opened XrplFormat
  import opened Payments

  type Rules = seq<Guard<XrplError>>

  /** Twenty-byte accounts; 1 to 10^17 drops for amount and fee; a memo of at most 64 bytes; a compressed
      public key; a ledger bound. */
  function PaymentGuards(p: PaymentData): Rules {
    [Guard(|p.account| == 20, XrplError.BadAccountId),
     Guard(|p.destination| == 20, XrplError.BadAccountId),
     Guard(p.amountDrops > 0, AmountZero),
     Guard(p.amountDrops <= 100_000_000_000_000_000, AmountTooLarge),
     Guard(0 < p.feeDrops <= 100_000_000_000_000_000, FeeOutOfRange),
     Guard(|p.memo| <= 64, MemoTooLong),
     Guard(|p.signingPubKey| == 33, BadPublicKey),
     Guard(p.lastLedgerSequence != 0, NoLastLedger)]
  }

  lemma ValidateDecided(p: PaymentData)
    ensures Validate(p) == Verdict(PaymentGuards(p))
  {
    Unfold(PaymentGuards(p));
  }

  /** A payment is written exactly when it is valid and its signature, if there is one, has at most 192
      bytes. */
  lemma SerializeDecided(p: PaymentData, signature: Option<seq<byte>>)
    ensures
      var failure := Verdict(PaymentGuards(p) + [Guard(signature.Some? ==> |signature.value| <= 192, FieldTooLong)]);
      match Serialized(p, signature)
      case Ok(_) => failure == None
      case Err(e) => failure == Some(e)
  {
    hide PaymentGuards, Validate, FieldsOf;
    var last := [Guard(signature.Some? ==> |signature.value| <= 192, FieldTooLong)];
    ValidateDecided(p);
    Concat(PaymentGuards(p), last, 0);
    Unfold(last);
  }

  /** Type, flags, sequence, tag and ledger bound. */
  function IntegerLayout(p: PaymentData): seq<byte> {
    var kind, flags, number, last: seq<byte> := [0x12, 0x00, 0x00], [0x22, 0x00, 0x00, 0x00, 0x00], [0x24], [0x20, 0x1B];
    kind + flags + number + BigEndian(p.sequence, 4) + TagLayout(p) + last + BigEndian(p.lastLedgerSequence, 4)
  }

  function TagLayout(p: PaymentData): seq<byte> {
    if p.hasDestinationTag then [0x2E] + BigEndian(p.destinationTag, 4) else []
  }

  /** Amount and fee, with bit 62 set. */
  function AmountLayout(p: PaymentData): seq<byte> {
    var amount, fee: seq<byte> := [0x61], [0x68];
    amount + BigEndian(p.amountDrops + 0x4000_0000_0000_0000, 8) + fee + BigEndian(p.feeDrops + 0x4000_0000_0000_0000, 8)
  }

  /** The public key and the signature. */
  function KeyLayout(key: seq<byte>, signature: Option<seq<byte>>): seq<byte>
    requires signature.Some? ==> |signature.value| <= 192
  {
    var head: seq<byte> := [0x73, 33];
    head + key + (if signature.Some? then [0x74, |signature.value|] + signature.value else [])
  }

  function AccountLayout(p: PaymentData): seq<byte> {
    var source, target: seq<byte> := [0x81, 20], [0x83, 20];
    source + p.account + target + p.destination
  }

  /** The bytes: field by field, in the ledger's canonical order. */
  function Layout(p: PaymentData, signature: Option<seq<byte>>): seq<byte>
    requires |p.memo| <= 64 && (signature.Some? ==> |signature.value| <= 192)
  {
    IntegerLayout(p) + AmountLayout(p) + KeyLayout(p.signingPubKey, signature) + AccountLayout(p) + MemoLayout(p.memo)
  }

  /** One memo of type "BridgeSafe". */
  function MemoLayout(memo: seq<byte>): seq<byte>
    requires |memo| <= 64
  {
    if memo == [] then []
    else [0xF9, 0xEA, 0x7C, 10, 0x42, 0x72, 0x69, 0x64, 0x67, 0x65, 0x53, 0x61, 0x66, 0x65, 0x7D, |memo|] + memo + [0xE1, 0xF1]
  }

  lemma ZeroWords()
    ensures BigEndian(0, 2) == [0, 0] && BigEndian(0, 4) == [0, 0, 0, 0]
  {
    assert BigEndian(0, 1) == [0];
    assert BigEndian(0, 3) == [0, 0, 0];
  }

  lemma MemoLaidOut(memo: seq<byte>)
    requires |memo| <= 64
    ensures MemoBytes(memo) == MemoLayout(memo)
  {
  }

  lemma HeadBytes()
    ensures FIELD_TRANSACTION_TYPE + BigEndian(TX_TYPE_PAYMENT, 2) == [0x12, 0x00, 0x00]
    ensures FIELD_FLAGS + BigEndian(0, 4) == [0x22, 0x00, 0x00, 0x00, 0x00]
  {
    hide BigEndian;
    ZeroWords();
  }

  lemma RegroupHead(a: seq<byte>, b: seq<byte>, c: seq<byte>, d: seq<byte>, e: seq<byte>, f: seq<byte>)
    ensures a + b + c + d + e + f == (a + b) + (c + d) + e + f
  {
  }

  lemma TagLaidOut(p: PaymentData)
    ensures TagBytes(p) == TagLayout(p)
  {
    hide BigEndian;
  }

  lemma FrontLaidOut(p: PaymentData)
    ensures AllWellFormed(IntegerFields(p)) && PrintFields(IntegerFields(p)) == IntegerLayout(p)
  {
    hide BigEndian, PrintFields, IntegerFields, TagBytes, TagLayout, AllWellFormed;
    PrintedIntegers(p);
    HeadBytes();
    TagLaidOut(p);
    RegroupHead(FIELD_TRANSACTION_TYPE, BigEndian(TX_TYPE_PAYMENT, 2), FIELD_FLAGS, BigEndian(0, 4), FIELD_SEQUENCE,
                BigEndian(p.sequence, 4));
  }

  lemma MiddleLaidOut(p: PaymentData, signature: Option<seq<byte>>)
    requires Serializable(p, signature)
    ensures AllWellFormed(AmountFields(p)) && PrintFields(AmountFields(p)) == AmountLayout(p)
    ensures FIELD_SIGNING_PUB_KEY + [33] + p.signingPubKey + SignatureBytes(signature) == KeyLayout(p.signingPubKey, signature)
    ensures AllWellFormed(AccountFields(p)) && PrintFields(AccountFields(p)) == AccountLayout(p)
  {
    hide BigEndian, PrintFields, AmountFields, AccountFields;
    PrintedAmounts(p);
    PrintedAccounts(p);
  }

  lemma SerializedParts(p: PaymentData, signature: Option<seq<byte>>)
    requires Serialized(p, signature).Ok?
    ensures Serializable(p, signature) && |p.memo| <= 64
  {
    hide FieldsOf, PrintFields;
  }

  /** A payment that can be written is written as these bytes. */
  lemma SerializedLayout(p: PaymentData, signature: Option<seq<byte>>)
    requires Serialized(p, signature).Ok?
    ensures |p.memo| <= 64 && (signature.Some? ==> |signature.value| <= 192)
    ensures Serialized(p, signature).value == Layout(p, signature)
  {
    hide BigEndian, PrintFields, IntegerFields, AmountFields, AccountFields, MemoFields, FieldsOf, MemoBytes, MemoLayout,
         IntegerLayout, AmountLayout, KeyLayout, AccountLayout, SignatureBytes, AllWellFormed, Validate;
    SerializedParts(p, signature);
    FrontLaidOut(p);
    MiddleLaidOut(p, signature);
    PrintedMemo(p);
    MemoLaidOut(p.memo);
    PrintedParts(p, signature);
    Regroup(PrintFields(IntegerFields(p)), PrintFields(AmountFields(p)), FIELD_SIGNING_PUB_KEY, [33], p.signingPubKey,
            SignatureBytes(signature));
  }

  lemma Regroup(a: seq<byte>, b: seq<byte>, c: seq<byte>, d: seq<byte>, e: seq<byte>, f: seq<byte>)
    ensures a + b + c + d + e + f == a + b + (c + d + e + f)
  {
  }

  /** Signing needs a key, and a public key in the payment that is absent or the key's own. */
  function SigningGuards(p: PaymentData, key: Option<SigningKey>): Rules {
    [Guard(key.Some?, NoSigningKey),
     Guard(key.Some? && (p.signingPubKey == [] || p.signingPubKey == key.value.publicKey), ForeignPublicKey)]
    + (if key.Some? then PaymentGuards(p.(signingPubKey := key.value.publicKey)) else [])
  }

  /** What is signed is "STX", a zero byte and the bytes without a signature; the id is the hash of "TXN", a
      zero byte and the bytes with it. */
  lemma SignDecided(p: PaymentData, key: Option<SigningKey>, ecdsa: Ecdsa)
    ensures match SignedPaymentOf(p, key, ecdsa)
            case Ok(signed) =>
              && Verdict(SigningGuards(p, key)) == None && key.Some?
              && var q := p.(signingPubKey := key.value.publicKey);
                 && |q.memo| <= 64
                 && signed.signature == ecdsa(key.value, [0x53, 0x54, 0x58, 0x00] + Layout(q, None))
                 && signed.txBlob == Layout(q, Some(signed.signature))
                 && signed.txId == Sha512Half([0x54, 0x58, 0x4E, 0x00] + signed.txBlob)
            case Err(e) => Verdict(SigningGuards(p, key)) == Some(e)
  {
    hide PaymentGuards, Validate, Layout, FieldsOf;
    var first := [Guard(key.Some?, NoSigningKey),
                  Guard(key.Some? && (p.signingPubKey == [] || p.signingPubKey == key.value.publicKey), ForeignPublicKey)];
    Unfold(first);
    if key.Some? {
      var q := p.(signingPubKey := key.value.publicKey);
      Concat(first, PaymentGuards(q), 0);
      ValidateDecided(q);
      if SignedPaymentOf(p, key, ecdsa).Ok? {
        SerializedLayout(q, None);
        SerializedLayout(q, Some(SignedPaymentOf(p, key, ecdsa).value.signature));
      }
    } else {
      assert SigningGuards(p, key) == first;
    }
  }
}
