/** The field writers of extension/go/internal/xrpl/fields.go. Each appends a field id, a length
    where the type has one, and big-endian bytes to the buffer it is given. */
module XrplFields {
  import opened Wrappers
  import opened Bytes

  // Field ids as written on the wire.
  const FIELD_TRANSACTION_TYPE: seq<byte> := [0x12]
  const FIELD_FLAGS: seq<byte> := [0x22]
  const FIELD_SEQUENCE: seq<byte> := [0x24]
  const FIELD_DESTINATION_TAG: seq<byte> := [0x2E]
  const FIELD_LAST_LEDGER_SEQ: seq<byte> := [0x20, 0x1B]
  const FIELD_AMOUNT: seq<byte> := [0x61]
  const FIELD_FEE: seq<byte> := [0x68]
  const FIELD_SIGNING_PUB_KEY: seq<byte> := [0x73]
  const FIELD_TXN_SIGNATURE: seq<byte> := [0x74]
  const FIELD_MEMO_TYPE: seq<byte> := [0x7C]
  const FIELD_MEMO_DATA: seq<byte> := [0x7D]
  const FIELD_ACCOUNT: seq<byte> := [0x81]
  const FIELD_DESTINATION: seq<byte> := [0x83]
  const FIELD_MEMOS: seq<byte> := [0xF9]
  const FIELD_MEMO: seq<byte> := [0xEA]
  const FIELD_OBJECT_END: seq<byte> := [0xE1]
  const FIELD_ARRAY_END: seq<byte> := [0xF1]

  const TX_TYPE_PAYMENT: uint16 := 0
  const PREFIX_TRANSACTION_SIG: seq<byte> := [0x53, 0x54, 0x58, 0x00]
  const PREFIX_TRANSACTION_ID: seq<byte> := [0x54, 0x58, 0x4E, 0x00]

  const MAX_MEMO_LENGTH: nat := 64
  const MAX_DROPS: uint64 := 100_000_000_000_000_000
  const MAX_WRITTEN_VL: nat := 192
  const BIT62: uint64 := 0x4000_0000_0000_0000

  datatype XrplError =
    | BadAccountId | AmountZero | AmountTooLarge | FeeOutOfRange | MemoTooLong | BadPublicKey
    | NoLastLedger | FieldTooLong | NoSigningKey | ForeignPublicKey

  /** `word | 1 << 62`, written arithmetically: set the bit unless it is already there. */
  function SetBit62(word: uint64): uint64 {
    if word / BIT62 % 2 == 1 then word else word + BIT62
  }

  lemma SetBit62Adds(word: uint64)
    requires word < BIT62
    ensures SetBit62(word) == word + BIT62
  {
  }

  method WriteVL(buf: seq<byte>, payload: seq<byte>) returns (r: Result<seq<byte>, XrplError>)
    ensures r == if |payload| <= MAX_WRITTEN_VL then Ok(buf + [|payload|] + payload) else Err(FieldTooLong)
  {
    var n := |payload|;
    if n > MAX_WRITTEN_VL {
      return Err(FieldTooLong);
    }
    var out := buf + [n];
    r := Ok(out + payload);
  }

  method WriteUint16(buf: seq<byte>, field: seq<byte>, v: uint16) returns (out: seq<byte>)
    ensures out == buf + field + BigEndian(v, 2)
  {
    out := buf + field;
    var b := new byte[2];
    PutBigEndian(b, v);
    out := out + b[..];
  }

  method WriteUint32(buf: seq<byte>, field: seq<byte>, v: uint32) returns (out: seq<byte>)
    ensures out == buf + field + BigEndian(v, 4)
  {
    out := buf + field;
    var b := new byte[4];
    PutBigEndian(b, v);
    out := out + b[..];
  }

  method WriteXRPAmount(buf: seq<byte>, field: seq<byte>, drops: uint64)
    returns (r: Result<seq<byte>, XrplError>)
    ensures r == if drops == 0 then Err(AmountZero)
                 else if drops > MAX_DROPS then Err(AmountTooLarge)
                 else Ok(buf + field + BigEndian(drops + BIT62, 8))
  {
    if drops == 0 {
      return Err(AmountZero);
    }
    if drops > MAX_DROPS {
      return Err(AmountTooLarge);
    }
    hide BigEndian;
    SetBit62Adds(drops);
    var out := buf + field;
    var b := new byte[8];
    PutBigEndian(b, SetBit62(drops));
    r := Ok(out + b[..]);
  }

  method WriteAccountID(buf: seq<byte>, field: seq<byte>, id: seq<byte>)
    returns (r: Result<seq<byte>, XrplError>)
    ensures r == if |id| == 20 then Ok(buf + field + [20] + id) else Err(BadAccountId)
  {
    if |id| != 20 {
      return Err(BadAccountId);
    }
    var out := buf + field;
    r := WriteVL(out, id);
  }

  method WriteBlob(buf: seq<byte>, field: seq<byte>, v: seq<byte>)
    returns (r: Result<seq<byte>, XrplError>)
    ensures r == if |v| <= MAX_WRITTEN_VL then Ok(buf + field + [|v|] + v) else Err(FieldTooLong)
  {
    var out := buf + field;
    r := WriteVL(out, v);
  }
}
