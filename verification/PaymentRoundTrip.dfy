/** What a reader of the bytes learns: the serialized form parses, completely and in canonical
    order, back to the payment and the signature it was made from. */
module PaymentRoundTrip {
  import opened Wrappers
  import opened Bytes
  import opened XrplFields
  import opened XrplFormat
  import opened Payments

  /** The value of a field, found by its (type, field) pair. */
  ghost function Lookup(fs: seq<Field>, typ: nat, code: nat): Option<Value> {
    if exists f :: f in fs && f.typ == typ && f.code == code then
      var f :| f in fs && f.typ == typ && f.code == code;
      Some(f.value)
    else None
  }

  lemma LookupPresent(fs: seq<Field>, f: Field)
    requires Canonical(fs) && f in fs
    ensures Lookup(fs, f.typ, f.code) == Some(f.value)
  {
    var i :| 0 <= i < |fs| && fs[i] == f;
    forall g | g in fs && g.typ == f.typ && g.code == f.code ensures g == f {
      var j :| 0 <= j < |fs| && fs[j] == g;
    }
  }

  datatype Reading = Reading(payment: PaymentData, signature: Option<seq<byte>>)

  /** A native amount word: bit 63 clear, bit 62 set, the drops below. */
  function ReadDrops(v: Option<Value>): Option<uint64> {
    if v.Some? && v.value.NativeAmount? && BIT62 <= v.value.word < BIT63 then Some(v.value.word - BIT62) else None
  }

  function ReadU32(v: Option<Value>): Option<uint32> {
    if v.Some? && v.value.UInt32? then Some(v.value.u32) else None
  }

  function ReadBlob(v: Option<Value>): Option<seq<byte>> {
    if v.Some? && v.value.Blob? then Some(v.value.blob) else None
  }

  function ReadAccount(v: Option<Value>): Option<seq<byte>> {
    if v.Some? && v.value.Account? then Some(v.value.account) else None
  }

  /** MemoData of the first memo; an absent Memos array reads as an empty memo. */
  ghost function ReadMemo(v: Option<Value>): Option<seq<byte>> {
    if v.None? then Some([])
    else if v.value.Array? && |v.value.items| > 0 && v.value.items[0].value.Object? then
      ReadBlob(Lookup(v.value.items[0].value.fields, T_BLOB, 13))
    else None
  }

  /** Read an arbitrary XRPL object as a Payment, by field name and not by position. */
  ghost function ReadPayment(fs: seq<Field>): Option<Reading> {
    var sequence := ReadU32(Lookup(fs, T_UINT32, 4));
    var tag := ReadU32(Lookup(fs, T_UINT32, 14));
    var last := ReadU32(Lookup(fs, T_UINT32, 27));
    var amount := ReadDrops(Lookup(fs, T_AMOUNT, 1));
    var fee := ReadDrops(Lookup(fs, T_AMOUNT, 8));
    var key := ReadBlob(Lookup(fs, T_BLOB, 3));
    var account := ReadAccount(Lookup(fs, T_ACCOUNT, 1));
    var destination := ReadAccount(Lookup(fs, T_ACCOUNT, 3));
    var memo := ReadMemo(Lookup(fs, T_ARRAY, 9));
    if Lookup(fs, T_UINT16, 2) != Some(UInt16(TX_TYPE_PAYMENT)) || sequence.None? || last.None? || amount.None?
       || fee.None? || key.None? || account.None? || destination.None? || memo.None?
    then None
    else Some(Reading(
      PaymentData(account.value, destination.value, amount.value, fee.value, sequence.value, last.value,
                  if tag.Some? then tag.value else 0, tag.Some?, memo.value, key.value),
      ReadBlob(Lookup(fs, T_BLOB, 4))))
  }

  /** A tag that is not to be written does not matter. */
  function Normal(p: PaymentData): PaymentData {
    if p.hasDestinationTag then p else p.(destinationTag := 0)
  }

  // ---- Canonical order ----

  ghost predicate TypesWithin(fs: seq<Field>, lo: nat, hi: nat) {
    forall f :: f in fs ==> lo <= f.typ <= hi
  }

  lemma CanonicalAppend(fs: seq<Field>, gs: seq<Field>, a: nat, b: nat, c: nat, d: nat)
    requires Canonical(fs) && Canonical(gs)
    requires TypesWithin(fs, a, b) && TypesWithin(gs, c, d) && a <= b < c <= d
    ensures Canonical(fs + gs) && TypesWithin(fs + gs, a, d)
  {
    forall i, j | 0 <= i < j < |fs + gs| ensures Before((fs + gs)[i], (fs + gs)[j]) {
      if i < |fs| <= j {
        assert fs[i] in fs && gs[j - |fs|] in gs;
      }
    }
  }

  /** `part` is what `fs` holds of the types from lo to hi. */
  ghost predicate Holds(fs: seq<Field>, part: seq<Field>, lo: nat, hi: nat) {
    forall f :: f in part <==> f in fs && lo <= f.typ <= hi
  }

  lemma PartsCanonical(a: seq<Field>, b: seq<Field>, c: seq<Field>, d: seq<Field>, e: seq<Field>)
    requires Canonical(a) && Canonical(b) && Canonical(c) && Canonical(d) && Canonical(e)
    requires TypesWithin(a, 1, 2) && TypesWithin(b, 6, 6) && TypesWithin(c, 7, 7)
    requires TypesWithin(d, 8, 8) && TypesWithin(e, 15, 15)
    ensures Canonical(a + b + c + d + e)
    ensures Holds(a + b + c + d + e, a, 1, 2) && Holds(a + b + c + d + e, b, 6, 6)
    ensures Holds(a + b + c + d + e, c, 7, 7) && Holds(a + b + c + d + e, d, 8, 8)
    ensures Holds(a + b + c + d + e, e, 15, 15)
  {
    CanonicalAppend(a, b, 1, 2, 6, 6);
    CanonicalAppend(a + b, c, 1, 6, 7, 7);
    CanonicalAppend(a + b + c, d, 1, 7, 8, 8);
    CanonicalAppend(a + b + c + d, e, 1, 8, 15, 15);
  }

  function BlobFields(p: PaymentData, signature: Option<seq<byte>>): seq<Field> {
    KeyFields(p) + SignatureFields(signature)
  }

  lemma EachPartCanonical(p: PaymentData, signature: Option<seq<byte>>)
    requires Serializable(p, signature)
    ensures Canonical(IntegerFields(p)) && TypesWithin(IntegerFields(p), 1, 2)
    ensures Canonical(AmountFields(p)) && TypesWithin(AmountFields(p), 6, 6)
    ensures Canonical(BlobFields(p, signature)) && TypesWithin(BlobFields(p, signature), 7, 7)
    ensures Canonical(AccountFields(p)) && TypesWithin(AccountFields(p), 8, 8)
    ensures Canonical(MemoFields(p)) && TypesWithin(MemoFields(p), 15, 15)
  {
    IntegersCanonical(p);
  }

  lemma FieldsCanonical(p: PaymentData, signature: Option<seq<byte>>)
    requires Serializable(p, signature)
    ensures Canonical(FieldsOf(p, signature))
    ensures Holds(FieldsOf(p, signature), IntegerFields(p), 1, 2)
    ensures Holds(FieldsOf(p, signature), AmountFields(p), 6, 6)
    ensures Holds(FieldsOf(p, signature), BlobFields(p, signature), 7, 7)
    ensures Holds(FieldsOf(p, signature), AccountFields(p), 8, 8)
    ensures Holds(FieldsOf(p, signature), MemoFields(p), 15, 15)
  {
    hide IntegerFields, AmountFields, KeyFields, SignatureFields, AccountFields, MemoFields;
    hide Canonical, TypesWithin, Holds;
    EachPartCanonical(p, signature);
    PartsCanonical(IntegerFields(p), AmountFields(p), BlobFields(p, signature), AccountFields(p), MemoFields(p));
    assert FieldsOf(p, signature) ==
      IntegerFields(p) + AmountFields(p) + BlobFields(p, signature) + AccountFields(p) + MemoFields(p);
  }

  lemma IntegersCanonical(p: PaymentData)
    ensures Canonical(IntegerFields(p)) && TypesWithin(IntegerFields(p), 1, 2)
  {
    if p.hasDestinationTag {
      assert TagFields(p) == [Field(T_UINT32, 14, UInt32(p.destinationTag))];
    } else {
      assert TagFields(p) == [];
    }
  }

  /** The parser reads every byte the serializer writes, finds the fields in strictly ascending
      order at both levels, and the fields are those of the payment. */
  lemma SerializedParses(p: PaymentData, signature: Option<seq<byte>>)
    requires Serialized(p, signature).Ok?
    ensures ParseObject(Serialized(p, signature).value) == Some(FieldsOf(p, signature))
    ensures Canonical(FieldsOf(p, signature)) && Canonical(MemoObject(p.memo))
  {
    FieldsWellFormed(p, signature);
    ParsePrintObject(FieldsOf(p, signature));
    FieldsCanonical(p, signature);
  }

  lemma LookupAbsent(fs: seq<Field>, typ: nat, code: nat)
    requires forall f :: f in fs ==> !(f.typ == typ && f.code == code)
    ensures Lookup(fs, typ, code) == None
  {
  }

  lemma ReadsIntegers(p: PaymentData, fs: seq<Field>)
    requires Canonical(fs) && Holds(fs, IntegerFields(p), 1, 2)
    ensures Lookup(fs, T_UINT16, 2) == Some(UInt16(TX_TYPE_PAYMENT))
    ensures ReadU32(Lookup(fs, T_UINT32, 4)) == Some(p.sequence)
    ensures ReadU32(Lookup(fs, T_UINT32, 27)) == Some(p.lastLedgerSequence)
    ensures ReadU32(Lookup(fs, T_UINT32, 14)) == if p.hasDestinationTag then Some(p.destinationTag) else None
  {
    LookupPresent(fs, IntegerFields(p)[0]);
    LookupPresent(fs, IntegerFields(p)[2]);
    LookupPresent(fs, IntegerFields(p)[|IntegerFields(p)| - 1]);
    if p.hasDestinationTag {
      LookupPresent(fs, IntegerFields(p)[3]);
    } else {
      LookupAbsent(fs, T_UINT32, 14);
    }
  }

  lemma ReadsAmounts(p: PaymentData, fs: seq<Field>)
    requires Validate(p).None? && Canonical(fs) && Holds(fs, AmountFields(p), 6, 6)
    ensures ReadDrops(Lookup(fs, T_AMOUNT, 1)) == Some(p.amountDrops)
    ensures ReadDrops(Lookup(fs, T_AMOUNT, 8)) == Some(p.feeDrops)
  {
    LookupPresent(fs, AmountFields(p)[0]);
    LookupPresent(fs, AmountFields(p)[1]);
  }

  lemma ReadsBlobs(p: PaymentData, signature: Option<seq<byte>>, fs: seq<Field>)
    requires Canonical(fs) && Holds(fs, BlobFields(p, signature), 7, 7)
    ensures ReadBlob(Lookup(fs, T_BLOB, 3)) == Some(p.signingPubKey)
    ensures ReadBlob(Lookup(fs, T_BLOB, 4)) == signature
  {
    LookupPresent(fs, BlobFields(p, signature)[0]);
    if signature.Some? {
      LookupPresent(fs, BlobFields(p, signature)[1]);
    } else {
      LookupAbsent(fs, T_BLOB, 4);
    }
  }

  lemma ReadsAccounts(p: PaymentData, fs: seq<Field>)
    requires Canonical(fs) && Holds(fs, AccountFields(p), 8, 8)
    ensures ReadAccount(Lookup(fs, T_ACCOUNT, 1)) == Some(p.account)
    ensures ReadAccount(Lookup(fs, T_ACCOUNT, 3)) == Some(p.destination)
  {
    LookupPresent(fs, AccountFields(p)[0]);
    LookupPresent(fs, AccountFields(p)[1]);
  }

  lemma ReadsMemo(p: PaymentData, fs: seq<Field>)
    requires Canonical(fs) && Holds(fs, MemoFields(p), 15, 15)
    ensures ReadMemo(Lookup(fs, T_ARRAY, 9)) == Some(p.memo)
  {
    if p.memo == [] {
      LookupAbsent(fs, T_ARRAY, 9);
    } else {
      LookupPresent(fs, MemoFields(p)[0]);
      var blobs := MemoObject(p.memo);
      assert Canonical(blobs);
      LookupPresent(blobs, blobs[1]);
    }
  }

  /** Reading the fields of a payment gives the payment and its signature. */
  lemma ReadsFields(p: PaymentData, signature: Option<seq<byte>>)
    requires Serializable(p, signature)
    ensures ReadPayment(FieldsOf(p, signature)) == Some(Reading(Normal(p), signature))
  {
    var fs := FieldsOf(p, signature);
    hide FieldsOf, Lookup, Canonical, Holds, Validate, ReadU32, ReadDrops, ReadBlob, ReadAccount, ReadMemo;
    hide IntegerFields, AmountFields, BlobFields, AccountFields, MemoFields;
    FieldsCanonical(p, signature);
    ReadsIntegers(p, fs);
    ReadsAmounts(p, fs);
    ReadsBlobs(p, signature, fs);
    ReadsAccounts(p, fs);
    ReadsMemo(p, fs);
  }

  ghost function ReadBlobAsPayment(blob: seq<byte>): Option<Reading> {
    if ParseObject(blob).None? then None else ReadPayment(ParseObject(blob).value)
  }

  /** Codec round trip. The two amounts are native (bit 63 clear, bit 62 set) because ReadDrops
      accepts nothing else. */
  lemma PaymentCodecRoundTrip(p: PaymentData, signature: Option<seq<byte>>)
    requires Serialized(p, signature).Ok?
    ensures ReadBlobAsPayment(Serialized(p, signature).value) == Some(Reading(Normal(p), signature))
  {
    SerializedParses(p, signature);
    ReadsFields(p, signature);
  }

  /** The blob holds the fields of the payment read from it and no others: zero flags, no partial
      payment, nothing besides. */
  ghost predicate Exact(blob: seq<byte>) {
    && ReadBlobAsPayment(blob).Some?
    && var r := ReadBlobAsPayment(blob).value;
       Serializable(r.payment, r.signature) && ParseObject(blob) == Some(FieldsOf(r.payment, r.signature))
  }

  lemma SerializedIsExact(p: PaymentData, signature: Option<seq<byte>>)
    requires Serialized(p, signature).Ok?
    ensures Exact(Serialized(p, signature).value)
  {
    hide ReadPayment, PrintFields, ParseObject, ReadBlobAsPayment;
    SerializedParses(p, signature);
    PaymentCodecRoundTrip(p, signature);
    assert FieldsOf(Normal(p), signature) == FieldsOf(p, signature);
  }

  lemma ExactHasZeroFlags(blob: seq<byte>)
    requires Exact(blob)
    ensures Field(T_UINT32, 2, UInt32(0)) in ParseObject(blob).value
    ensures forall f :: f in ParseObject(blob).value && f.typ == T_UINT32 && f.code == 2 ==> f.value == UInt32(0)
  {
    hide ReadPayment, ParseObject, ReadBlobAsPayment, MemoObject;
  }

  /** Equal blobs carry equal payments and equal signatures. */
  lemma BlobDeterminesPayment(p: PaymentData, q: PaymentData, s: Option<seq<byte>>, t: Option<seq<byte>>)
    requires Serialized(p, s).Ok? && Serialized(p, s) == Serialized(q, t)
    ensures Normal(p) == Normal(q) && s == t
  {
    PaymentCodecRoundTrip(p, s);
    PaymentCodecRoundTrip(q, t);
  }

  // ---- What is broadcast is what was signed ----

  ghost function WithoutSignature(fs: seq<Field>): seq<Field> {
    if fs == [] then []
    else if fs[0].typ == T_BLOB && fs[0].code == 4 then WithoutSignature(fs[1..])
    else [fs[0]] + WithoutSignature(fs[1..])
  }

  lemma {:induction false} WithoutSignatureAppend(fs: seq<Field>, gs: seq<Field>)
    ensures WithoutSignature(fs + gs) == WithoutSignature(fs) + WithoutSignature(gs)
  {
    if fs == [] {
      assert fs + gs == gs;
    } else {
      var more := fs[1..];
      WithoutSignatureAppend(more, gs);
      assert (fs + gs)[0] == fs[0] && (fs + gs)[1..] == more + gs;
    }
  }

  lemma {:induction false} WithoutSignatureAbsent(fs: seq<Field>)
    requires forall f :: f in fs ==> !(f.typ == T_BLOB && f.code == 4)
    ensures WithoutSignature(fs) == fs
  {
    if fs != [] {
      assert fs[0] in fs;
      WithoutSignatureAbsent(fs[1..]);
    }
  }

  /** Removing the TxnSignature field from the final blob leaves exactly the signed body. */
  lemma SignedBodyIsBlobWithoutSignature(p: PaymentData, signature: seq<byte>)
    requires Serialized(p, Some(signature)).Ok?
    ensures ParseObject(Serialized(p, Some(signature)).value).Some?
    ensures
      var fs := WithoutSignature(ParseObject(Serialized(p, Some(signature)).value).value);
      AllWellFormed(fs) && Serialized(p, None) == Ok(PrintFields(fs))
  {
    SerializedParses(p, Some(signature));
    var front, sig, back := IntegerFields(p) + AmountFields(p) + KeyFields(p), SignatureFields(Some(signature)),
                            AccountFields(p) + MemoFields(p);
    assert FieldsOf(p, Some(signature)) == front + (sig + back);
    assert FieldsOf(p, None) == front + back;
    WithoutSignatureAppend(front, sig + back);
    WithoutSignatureAppend(sig, back);
    WithoutSignatureAbsent(front);
    WithoutSignatureAbsent(back);
    assert WithoutSignature(sig) == [];
    FieldsWellFormed(p, None);
  }

  /** The transaction id fixes every term of the payment and its signature. */
  lemma TransactionIdCommits(p: PaymentData, q: PaymentData, s: seq<byte>, t: seq<byte>)
    requires Serialized(p, Some(s)).Ok? && Serialized(q, Some(t)).Ok?
    requires TransactionId(Serialized(p, Some(s)).value) == TransactionId(Serialized(q, Some(t)).value)
    ensures Normal(p) == Normal(q) && s == t
  {
    var b, c := Serialized(p, Some(s)).value, Serialized(q, Some(t)).value;
    assert (PREFIX_TRANSACTION_ID + b)[4..] == b && (PREFIX_TRANSACTION_ID + c)[4..] == c;
    BlobDeterminesPayment(p, q, Some(s), Some(t));
  }
}
