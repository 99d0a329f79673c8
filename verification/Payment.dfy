/** The one transaction the enclave can express (extension/go/internal/xrpl/payment.go): a native
    XRP Payment with one memo. What `serialize` writes is specified as the canonical XRPL object
    with the payment's fields, so everything about the bytes follows from the format. */
module Payments {
  import opened Wrappers
  import opened Bytes
  import opened Protocol
  import opened XrplFields
  import opened XrplFormat

  datatype PaymentData = PaymentData(
    account: seq<byte>, destination: seq<byte>,
    amountDrops: uint64, feeDrops: uint64, sequence: uint32, lastLedgerSequence: uint32,
    destinationTag: uint32, hasDestinationTag: bool,
    memo: seq<byte>, signingPubKey: seq<byte>)

  /** The first check that fails, in the source's order. */
  function Validate(p: PaymentData): Option<XrplError> {
    if |p.account| != 20 then Some(BadAccountId)
    else if |p.destination| != 20 then Some(BadAccountId)
    else if p.amountDrops == 0 then Some(AmountZero)
    else if p.amountDrops > MAX_DROPS then Some(AmountTooLarge)
    else if p.feeDrops == 0 || p.feeDrops > MAX_DROPS then Some(FeeOutOfRange)
    else if |p.memo| > MAX_MEMO_LENGTH then Some(MemoTooLong)
    else if |p.signingPubKey| != 33 then Some(BadPublicKey)
    else if p.lastLedgerSequence == 0 then Some(NoLastLedger)
    else None
  }

  predicate Serializable(p: PaymentData, signature: Option<seq<byte>>) {
    Validate(p).None? && (signature.Some? ==> |signature.value| <= MAX_WRITTEN_VL)
  }

  // "BridgeSafe"
  const MEMO_TYPE: seq<byte> := [0x42, 0x72, 0x69, 0x64, 0x67, 0x65, 0x53, 0x61, 0x66, 0x65]

  function TagFields(p: PaymentData): seq<Field> {
    if p.hasDestinationTag then [Field(T_UINT32, 14, UInt32(p.destinationTag))] else []
  }

  function SignatureFields(signature: Option<seq<byte>>): seq<Field> {
    if signature.Some? then [Field(T_BLOB, 4, Blob(signature.value))] else []
  }

  function MemoObject(memo: seq<byte>): seq<Field> {
    [Field(T_BLOB, 12, Blob(MEMO_TYPE)), Field(T_BLOB, 13, Blob(memo))]
  }

  function MemoFields(p: PaymentData): seq<Field> {
    if p.memo == [] then []
    else [Field(T_ARRAY, 9, Array([MemoItem(p.memo)]))]
  }

  /** A payment as an XRPL object. */
  function FieldsOf(p: PaymentData, signature: Option<seq<byte>>): seq<Field>
    requires Serializable(p, signature)
  {
    IntegerFields(p) + AmountFields(p) + KeyFields(p) + SignatureFields(signature) + AccountFields(p) + MemoFields(p)
  }

  function IntegerFields(p: PaymentData): seq<Field> {
    [Field(T_UINT16, 2, UInt16(TX_TYPE_PAYMENT)),
     Field(T_UINT32, 2, UInt32(0)),
     Field(T_UINT32, 4, UInt32(p.sequence))]
    + TagFields(p)
    + [Field(T_UINT32, 27, UInt32(p.lastLedgerSequence))]
  }

  function AmountFields(p: PaymentData): seq<Field>
    requires Validate(p).None?
  {
    [Field(T_AMOUNT, 1, NativeAmount(p.amountDrops + BIT62)),
     Field(T_AMOUNT, 8, NativeAmount(p.feeDrops + BIT62))]
  }

  function KeyFields(p: PaymentData): seq<Field> {
    [Field(T_BLOB, 3, Blob(p.signingPubKey))]
  }

  function AccountFields(p: PaymentData): seq<Field> {
    [Field(T_ACCOUNT, 1, Account(p.account)), Field(T_ACCOUNT, 3, Account(p.destination))]
  }

  function MemoItem(memo: seq<byte>): Field {
    Field(T_OBJECT, 10, Object(MemoObject(memo)))
  }

  lemma MemoFieldsWellFormed(p: PaymentData)
    requires |p.memo| <= MAX_MEMO_LENGTH
    ensures AllWellFormed(MemoObject(p.memo)) && WellFormed(MemoItem(p.memo)) && AllWellFormed(MemoFields(p))
  {
    assert AllWellFormed(MemoObject(p.memo));
    assert !IsEnd(MemoItem(p.memo));
    assert WellFormed(MemoItem(p.memo));
    assert forall f :: f in [MemoItem(p.memo)] ==> WellFormed(f) && f.typ == T_OBJECT;
    var memos := Field(T_ARRAY, 9, Array([MemoItem(p.memo)]));
    assert !IsEnd(memos);
    assert WellFormed(memos);
  }

  lemma FieldsWellFormed(p: PaymentData, signature: Option<seq<byte>>)
    requires Serializable(p, signature)
    ensures AllWellFormed(FieldsOf(p, signature))
  {
    assert AllWellFormed(IntegerFields(p));
    assert AllWellFormed(AmountFields(p));
    assert AllWellFormed(KeyFields(p));
    assert AllWellFormed(SignatureFields(signature));
    assert AllWellFormed(AccountFields(p));
    MemoFieldsWellFormed(p);
  }

  /** The serialized form: the payment's fields, printed. */
  ghost function Serialized(p: PaymentData, signature: Option<seq<byte>>): Result<seq<byte>, XrplError> {
    if Validate(p).Some? then Err(Validate(p).value)
    else if signature.Some? && |signature.value| > MAX_WRITTEN_VL then Err(FieldTooLong)
    else
      FieldsWellFormed(p, signature);
      Ok(PrintFields(FieldsOf(p, signature)))
  }

  /** The parts of a serialized payment, one after the other. */
  lemma PrintedParts(p: PaymentData, signature: Option<seq<byte>>)
    requires Serializable(p, signature)
    requires AllWellFormed(IntegerFields(p)) && AllWellFormed(AmountFields(p))
    requires AllWellFormed(AccountFields(p)) && AllWellFormed(MemoFields(p))
    ensures Serialized(p, signature) == Ok(
      PrintFields(IntegerFields(p)) + PrintFields(AmountFields(p))
      + FIELD_SIGNING_PUB_KEY + [33] + p.signingPubKey + SignatureBytes(signature)
      + PrintFields(AccountFields(p)) + PrintFields(MemoFields(p)))
  {
    hide PrintFields;
    PrintedBlobs(p, signature);
    var a, b, c, d, e, f := IntegerFields(p), AmountFields(p), KeyFields(p), SignatureFields(signature),
                            AccountFields(p), MemoFields(p);
    PrintAppend(a, b);
    PrintAppend(a + b, c);
    PrintAppend(a + b + c, d);
    PrintAppend(a + b + c + d, e);
    PrintAppend(a + b + c + d + e, f);
    var front := PrintFields(a) + PrintFields(b);
    assert front + PrintFields(c) == front + FIELD_SIGNING_PUB_KEY + [33] + p.signingPubKey;
  }

  // ---- The serializer ----

  function WordOf(v: Value): seq<byte>
    requires v.UInt16? || v.UInt32? || v.NativeAmount?
  {
    match v
    case UInt16(n) => BigEndian(n, 2)
    case UInt32(n) => BigEndian(n, 4)
    case NativeAmount(w) => BigEndian(w, 8)
  }

  function PayloadOf(v: Value): seq<byte>
    requires v.Blob? || v.Account?
  {
    if v.Blob? then v.blob else v.account
  }

  lemma PrintedWord(field: seq<byte>, f: Field)
    requires WellFormed(f) && (f.value.UInt16? || f.value.UInt32? || f.value.NativeAmount?)
    requires field == PrintFieldId(f.typ, f.code)
    ensures PrintField(f) == field + WordOf(f.value)
  {
  }

  lemma PrintedBytes(field: seq<byte>, f: Field)
    requires WellFormed(f) && (f.value.Blob? || f.value.Account?)
    requires field == PrintFieldId(f.typ, f.code)
    requires |PayloadOf(f.value)| <= MAX_WRITTEN_VL
    ensures PrintField(f) == field + [|PayloadOf(f.value)|] + PayloadOf(f.value)
  {
    assert PrintLength(|PayloadOf(f.value)|) == [|PayloadOf(f.value)|];
  }

  lemma PrintSingleWord(field: seq<byte>, f: Field)
    requires WellFormed(f) && (f.value.UInt16? || f.value.UInt32? || f.value.NativeAmount?)
    requires field == PrintFieldId(f.typ, f.code)
    ensures AllWellFormed([f]) && PrintFields([f]) == field + WordOf(f.value)
  {
    PrintedWord(field, f);
    PrintOne(f);
  }

  lemma PrintSingleBytes(field: seq<byte>, f: Field)
    requires WellFormed(f) && (f.value.Blob? || f.value.Account?)
    requires field == PrintFieldId(f.typ, f.code)
    requires |PayloadOf(f.value)| <= MAX_WRITTEN_VL
    ensures AllWellFormed([f]) && PrintFields([f]) == field + [|PayloadOf(f.value)|] + PayloadOf(f.value)
  {
    PrintedBytes(field, f);
    PrintOne(f);
  }

  function TagBytes(p: PaymentData): seq<byte> {
    if p.hasDestinationTag then FIELD_DESTINATION_TAG + BigEndian(p.destinationTag, 4) else []
  }

  lemma PrintedTag(p: PaymentData)
    ensures AllWellFormed(TagFields(p)) && PrintFields(TagFields(p)) == TagBytes(p)
  {
    if p.hasDestinationTag {
      PrintSingleWord(FIELD_DESTINATION_TAG, Field(T_UINT32, 14, UInt32(p.destinationTag)));
    }
  }

  lemma PrintedIntegers(p: PaymentData)
    ensures AllWellFormed(IntegerFields(p))
    ensures PrintFields(IntegerFields(p)) ==
      FIELD_TRANSACTION_TYPE + BigEndian(TX_TYPE_PAYMENT, 2) + FIELD_FLAGS + BigEndian(0, 4)
      + FIELD_SEQUENCE + BigEndian(p.sequence, 4) + TagBytes(p)
      + FIELD_LAST_LEDGER_SEQ + BigEndian(p.lastLedgerSequence, 4)
  {
    hide BigEndian, PrintFields;
    var kind, flags := Field(T_UINT16, 2, UInt16(TX_TYPE_PAYMENT)), Field(T_UINT32, 2, UInt32(0));
    var number, last := Field(T_UINT32, 4, UInt32(p.sequence)), Field(T_UINT32, 27, UInt32(p.lastLedgerSequence));
    PrintSingleWord(FIELD_TRANSACTION_TYPE, kind);
    PrintSingleWord(FIELD_FLAGS, flags);
    PrintSingleWord(FIELD_SEQUENCE, number);
    PrintedTag(p);
    PrintSingleWord(FIELD_LAST_LEDGER_SEQ, last);
    PrintAppend([kind], [flags]);
    PrintAppend([kind] + [flags], [number]);
    PrintAppend([kind] + [flags] + [number], TagFields(p));
    PrintAppend([kind] + [flags] + [number] + TagFields(p), [last]);
    assert IntegerFields(p) == [kind] + [flags] + [number] + TagFields(p) + [last];
  }

  lemma PrintedAmounts(p: PaymentData)
    requires Validate(p).None?
    ensures AllWellFormed(AmountFields(p))
    ensures PrintFields(AmountFields(p)) ==
      FIELD_AMOUNT + BigEndian(p.amountDrops + BIT62, 8) + FIELD_FEE + BigEndian(p.feeDrops + BIT62, 8)
  {
    hide BigEndian, PrintFields;
    var amount := Field(T_AMOUNT, 1, NativeAmount(p.amountDrops + BIT62));
    var fee := Field(T_AMOUNT, 8, NativeAmount(p.feeDrops + BIT62));
    PrintSingleWord(FIELD_AMOUNT, amount);
    PrintSingleWord(FIELD_FEE, fee);
    PrintAppend([amount], [fee]);
    assert AmountFields(p) == [amount] + [fee];
  }

  function SignatureBytes(signature: Option<seq<byte>>): seq<byte>
    requires signature.Some? ==> |signature.value| <= MAX_WRITTEN_VL
  {
    if signature.Some? then FIELD_TXN_SIGNATURE + [|signature.value|] + signature.value else []
  }

  lemma PrintedBlobs(p: PaymentData, signature: Option<seq<byte>>)
    requires Serializable(p, signature)
    ensures AllWellFormed(KeyFields(p)) && AllWellFormed(SignatureFields(signature))
    ensures PrintFields(KeyFields(p)) == FIELD_SIGNING_PUB_KEY + [33] + p.signingPubKey
    ensures PrintFields(SignatureFields(signature)) == SignatureBytes(signature)
  {
    PrintSingleBytes(FIELD_SIGNING_PUB_KEY, Field(T_BLOB, 3, Blob(p.signingPubKey)));
    if signature.Some? {
      PrintSingleBytes(FIELD_TXN_SIGNATURE, Field(T_BLOB, 4, Blob(signature.value)));
    }
  }

  lemma PrintedAccounts(p: PaymentData)
    requires Validate(p).None?
    ensures AllWellFormed(AccountFields(p))
    ensures PrintFields(AccountFields(p)) ==
      FIELD_ACCOUNT + [20] + p.account + FIELD_DESTINATION + [20] + p.destination
  {
    var from, to := Field(T_ACCOUNT, 1, Account(p.account)), Field(T_ACCOUNT, 3, Account(p.destination));
    PrintSingleBytes(FIELD_ACCOUNT, from);
    PrintSingleBytes(FIELD_DESTINATION, to);
    PrintAppend([from], [to]);
    assert AccountFields(p) == [from] + [to];
  }

  /** The memo wrapper as the source writes it, by hand. */
  function MemoBytes(memo: seq<byte>): seq<byte>
    requires |memo| <= MAX_MEMO_LENGTH
  {
    if memo == [] then []
    else FIELD_MEMOS + FIELD_MEMO + FIELD_MEMO_TYPE + [10] + MEMO_TYPE
         + FIELD_MEMO_DATA + [|memo|] + memo + FIELD_OBJECT_END + FIELD_ARRAY_END
  }

  lemma PrintedMemoObject(memo: seq<byte>)
    requires |memo| <= MAX_MEMO_LENGTH
    ensures AllWellFormed(MemoObject(memo))
    ensures PrintFields(MemoObject(memo)) == FIELD_MEMO_TYPE + [10] + MEMO_TYPE + FIELD_MEMO_DATA + [|memo|] + memo
  {
    hide PrintFields;
    var kind, data := MemoObject(memo)[0], MemoObject(memo)[1];
    PrintSingleBytes(FIELD_MEMO_TYPE, kind);
    PrintSingleBytes(FIELD_MEMO_DATA, data);
    PrintAppend([kind], [data]);
    assert MemoObject(memo) == [kind] + [data];
  }

  lemma PrintedMemoItem(memo: seq<byte>)
    requires |memo| <= MAX_MEMO_LENGTH
    ensures AllWellFormed(MemoObject(memo)) && WellFormed(MemoItem(memo)) && AllWellFormed([MemoItem(memo)])
    ensures PrintFields([MemoItem(memo)]) == FIELD_MEMO + (PrintFields(MemoObject(memo)) + FIELD_OBJECT_END)
  {
    hide PrintFields, MemoObject;
    PrintedMemoObject(memo);
    assert !IsEnd(MemoItem(memo));
    PrintOne(MemoItem(memo));
    assert PrintValue(MemoItem(memo).value) == PrintFields(MemoObject(memo)) + FIELD_OBJECT_END;
  }

  lemma PrintedMemoArray(memo: seq<byte>)
    requires |memo| <= MAX_MEMO_LENGTH && WellFormed(MemoItem(memo)) && AllWellFormed([MemoItem(memo)])
    ensures
      var memos := Field(T_ARRAY, 9, Array([MemoItem(memo)]));
      AllWellFormed([memos]) && PrintFields([memos]) == FIELD_MEMOS + (PrintFields([MemoItem(memo)]) + FIELD_ARRAY_END)
  {
    hide PrintFields, MemoObject;
    var memos := Field(T_ARRAY, 9, Array([MemoItem(memo)]));
    assert MemoItem(memo).typ == T_OBJECT;
    assert !IsEnd(memos) && WellFormed(memos);
    PrintOne(memos);
    assert PrintValue(memos.value) == PrintFields([MemoItem(memo)]) + FIELD_ARRAY_END;
  }

  /** It is the array of one object of two blobs. */
  lemma PrintedMemo(p: PaymentData)
    requires |p.memo| <= MAX_MEMO_LENGTH
    ensures AllWellFormed(MemoFields(p)) && PrintFields(MemoFields(p)) == MemoBytes(p.memo)
  {
    if p.memo != [] {
      hide PrintFields, MemoObject, WellFormed, MemoItem;
      PrintedMemoObject(p.memo);
      PrintedMemoItem(p.memo);
      PrintedMemoArray(p.memo);
    }
  }

  type PublicKey = s: seq<byte> | |s| == 33 witness seq(33, _ => 0)

  /** A DER signature: eight to seventy-two bytes. */
  type Der = s: seq<byte> | 8 <= |s| <= 72 witness seq(8, _ => 0)

  datatype SigningKey = SigningKey(secret: nat, publicKey: PublicKey)

  /** ECDSA over the half-SHA-512 of a payload, as a deterministic function of key and payload. */
  type Ecdsa = (SigningKey, seq<byte>) -> Der

  datatype Signed = Signed(txBlob: seq<byte>, txId: Bytes32, signature: Der)

  function TransactionId(blob: seq<byte>): Bytes32 {
    Sha512Half(PREFIX_TRANSACTION_ID + blob)
  }

  /** What signing a payment yields. */
  ghost function SignedPaymentOf(p: PaymentData, key: Option<SigningKey>, ecdsa: Ecdsa): Result<Signed, XrplError> {
    if key.None? then Err(NoSigningKey)
    else if p.signingPubKey != [] && p.signingPubKey != key.value.publicKey then Err(ForeignPublicKey)
    else
      var q := p.(signingPubKey := key.value.publicKey);
      if Validate(q).Some? then Err(Validate(q).value)
      else
        var der := ecdsa(key.value, PREFIX_TRANSACTION_SIG + Serialized(q, None).value);
        var blob := Serialized(q, Some(der)).value;
        Ok(Signed(blob, TransactionId(blob), der))
  }

  class Payment {
    var account: seq<byte>
    var destination: seq<byte>
    var amountDrops: uint64
    var feeDrops: uint64
    var sequence: uint32
    var lastLedgerSequence: uint32
    var destinationTag: uint32
    var hasDestinationTag: bool
    var memo: seq<byte>
    var signingPubKey: seq<byte>

    function Data(): PaymentData
      reads this
    {
      PaymentData(account, destination, amountDrops, feeDrops, sequence, lastLedgerSequence,
                  destinationTag, hasDestinationTag, memo, signingPubKey)
    }

    constructor (p: PaymentData)
      ensures Data() == p
    {
      account, destination, amountDrops, feeDrops := p.account, p.destination, p.amountDrops, p.feeDrops;
      sequence, lastLedgerSequence := p.sequence, p.lastLedgerSequence;
      destinationTag, hasDestinationTag := p.destinationTag, p.hasDestinationTag;
      memo, signingPubKey := p.memo, p.signingPubKey;
    }

    /** The integer fields, ending with the ledger bound. */
    method WriteIntegers() returns (buf: seq<byte>)
      ensures AllWellFormed(IntegerFields(Data())) && buf == PrintFields(IntegerFields(Data()))
    {
      hide BigEndian, PrintFields;
      PrintedIntegers(Data());
      buf := [];
      buf := WriteUint16(buf, FIELD_TRANSACTION_TYPE, TX_TYPE_PAYMENT);
      buf := WriteUint32(buf, FIELD_FLAGS, 0);
      buf := WriteUint32(buf, FIELD_SEQUENCE, sequence);
      if hasDestinationTag {
        buf := WriteUint32(buf, FIELD_DESTINATION_TAG, destinationTag);
      }
      buf := WriteUint32(buf, FIELD_LAST_LEDGER_SEQ, lastLedgerSequence);
    }

    method WriteMemos(buf: seq<byte>) returns (out: seq<byte>)
      requires |memo| <= MAX_MEMO_LENGTH
      ensures out == buf + MemoBytes(memo)
    {
      out := buf;
      if |memo| > 0 {
        out := out + FIELD_MEMOS;
        out := out + FIELD_MEMO;
        var kind := WriteBlob(out, FIELD_MEMO_TYPE, MEMO_TYPE);
        out := kind.value;
        var data := WriteBlob(out, FIELD_MEMO_DATA, memo);
        out := data.value;
        out := out + FIELD_OBJECT_END;
        out := out + FIELD_ARRAY_END;
      }
    }

    method WriteAmounts(buf: seq<byte>) returns (out: seq<byte>)
      requires Validate(Data()).None?
      ensures AllWellFormed(AmountFields(Data())) && out == buf + PrintFields(AmountFields(Data()))
    {
      hide BigEndian, PrintFields;
      PrintedAmounts(Data());
      var amount := WriteXRPAmount(buf, FIELD_AMOUNT, amountDrops);
      var fee := WriteXRPAmount(amount.value, FIELD_FEE, feeDrops);
      out := fee.value;
    }

    /** The public key, and the signature if there is one. */
    method WriteBlobs(buf: seq<byte>, signature: Option<seq<byte>>) returns (r: Result<seq<byte>, XrplError>)
      requires Validate(Data()).None?
      ensures r == if signature.Some? && |signature.value| > MAX_WRITTEN_VL then Err(FieldTooLong)
                   else Ok(buf + FIELD_SIGNING_PUB_KEY + [33] + signingPubKey + SignatureBytes(signature))
    {
      var key := WriteBlob(buf, FIELD_SIGNING_PUB_KEY, signingPubKey);
      var out := key.value;
      if signature.Some? {
        var sig := WriteBlob(out, FIELD_TXN_SIGNATURE, signature.value);
        if sig.Err? {
          return Err(sig.error);
        }
        out := sig.value;
      }
      assert out == key.value + SignatureBytes(signature);
      r := Ok(out);
    }

    method WriteAccounts(buf: seq<byte>) returns (out: seq<byte>)
      requires Validate(Data()).None?
      ensures AllWellFormed(AccountFields(Data())) && out == buf + PrintFields(AccountFields(Data()))
    {
      hide PrintFields;
      PrintedAccounts(Data());
      var from := WriteAccountID(buf, FIELD_ACCOUNT, account);
      var to := WriteAccountID(from.value, FIELD_DESTINATION, destination);
      out := to.value;
    }

    /** Writes the fields in ascending (type, field) order. Once the payment is validated, only an
        over-long signature can still fail, so the other writers' results are taken as successes. */
    method Serialize(signature: Option<seq<byte>>) returns (r: Result<seq<byte>, XrplError>)
      ensures r == Serialized(Data(), signature)
    {
      var invalid := Validate(Data());
      if invalid.Some? {
        return Err(invalid.value);
      }
      hide PrintFields;
      var buf := WriteIntegers();
      buf := WriteAmounts(buf);
      var blobs := WriteBlobs(buf, signature);
      if blobs.Err? {
        return Err(blobs.error);
      }
      buf := WriteAccounts(blobs.value);
      buf := WriteMemos(buf);
      PrintedMemo(Data());
      PrintedParts(Data(), signature);
      r := Ok(buf);
    }

    /** Sign with a key. An absent public key is filled in even when signing then fails. */
    method Sign(key: Option<SigningKey>, ecdsa: Ecdsa) returns (r: Result<Signed, XrplError>)
      modifies this`signingPubKey
      ensures r == SignedPaymentOf(old(Data()), key, ecdsa)
      ensures Data() == old(Data()).(signingPubKey :=
        if key.Some? && old(signingPubKey) == [] then key.value.publicKey else old(signingPubKey))
    {
      if key.None? {
        return Err(NoSigningKey);
      }
      var got: seq<byte> := key.value.publicKey;
      if |signingPubKey| == 0 {
        signingPubKey := got;
      } else if got != signingPubKey {
        return Err(ForeignPublicKey);
      }
      var body := Serialize(None);
      if body.Err? {
        return Err(body.error);
      }
      var der := ecdsa(key.value, PREFIX_TRANSACTION_SIG + body.value);
      var blob := Serialize(Some(der));
      r := Ok(Signed(blob.value, TransactionId(blob.value), der));
    }
  }
}
