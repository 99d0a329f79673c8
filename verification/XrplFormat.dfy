/** The XRP Ledger's binary object format (https://xrpl.org/serialization.html), independent of any
    transaction: a printer and a field-by-field parser for arbitrary objects, and the proof that
    the parser inverts the printer. "Field IDs", "Length Prefixing" and "Amount Fields" are the
    sections followed. */
module XrplFormat {
  import opened Wrappers
  import opened Digits
  import opened Bytes

  // Type codes.
  const T_UINT16: nat := 1
  const T_UINT32: nat := 2
  const T_AMOUNT: nat := 6
  const T_BLOB: nat := 7
  const T_ACCOUNT: nat := 8
  const T_OBJECT: nat := 14
  const T_ARRAY: nat := 15

  datatype Value =
    | UInt16(u16: uint16)
    | UInt32(u32: uint32)
    | NativeAmount(word: uint64)
    | IssuedAmount(raw: seq<byte>)
    | Blob(blob: seq<byte>)
    | Account(account: seq<byte>)
    | Object(fields: seq<Field>)
    | Array(items: seq<Field>)

  datatype Field = Field(typ: nat, code: nat, value: Value)

  const OBJECT_END := 0xE1
  const ARRAY_END := 0xF1
  const BIT63: nat := 0x8000_0000_0000_0000
  const MAX_VL: nat := 918744

  function TypeOf(v: Value): nat {
    match v
    case UInt16(_) => T_UINT16
    case UInt32(_) => T_UINT32
    case NativeAmount(_) => T_AMOUNT
    case IssuedAmount(_) => T_AMOUNT
    case Blob(_) => T_BLOB
    case Account(_) => T_ACCOUNT
    case Object(_) => T_OBJECT
    case Array(_) => T_ARRAY
  }

  // ---- Printing ----

  function PrintFieldId(typ: nat, code: nat): (bs: seq<byte>)
    requires 0 < typ < 256 && 0 < code < 256
    ensures 1 <= |bs| <= 3
  {
    if typ < 16 && code < 16 then [typ * 16 + code]
    else if typ < 16 then [typ * 16, code]
    else if code < 16 then [code, typ]
    else [0, typ, code]
  }

  function PrintLength(n: nat): (bs: seq<byte>)
    requires n <= MAX_VL
    ensures 1 <= |bs| <= 3
  {
    if n <= 192 then [n]
    else if n <= 12480 then
      var m := n - 193;
      [193 + m / 256, m % 256]
    else
      var m := n - 12481;
      [241 + m / 65536, m / 256 % 256, m % 256]
  }

  ghost predicate WellFormed(f: Field)
    decreases f, 1
  {
    && f.typ == TypeOf(f.value)
    && 0 < f.code < 256
    && WellFormedValue(f.value)
    && !IsEnd(f)
  }

  /** Field code 1 of an object or array is the end marker, never a field. */
  ghost predicate IsEnd(f: Field) {
    f.code == 1 && (f.typ == T_OBJECT || f.typ == T_ARRAY)
  }

  ghost predicate WellFormedValue(v: Value)
    decreases v, 0
  {
    match v
    case UInt16(_) => true
    case UInt32(_) => true
    case NativeAmount(w) => w < BIT63
    case IssuedAmount(raw) => |raw| == 48 && raw[0] >= 128
    case Blob(b) => |b| <= MAX_VL
    case Account(a) => |a| <= MAX_VL
    case Object(fs) => forall f :: f in fs ==> WellFormed(f)
    case Array(items) => forall f :: f in items ==> WellFormed(f) && f.typ == T_OBJECT
  }

  ghost predicate AllWellFormed(fs: seq<Field>) {
    forall f :: f in fs ==> WellFormed(f)
  }

  ghost function PrintValue(v: Value): seq<byte>
    requires WellFormedValue(v)
    decreases v, 0
  {
    match v
    case UInt16(n) => BigEndian(n, 2)
    case UInt32(n) => BigEndian(n, 4)
    case NativeAmount(w) => BigEndian(w, 8)
    case IssuedAmount(raw) => raw
    case Blob(b) => PrintLength(|b|) + b
    case Account(a) => PrintLength(|a|) + a
    case Object(fs) => PrintFields(fs) + [OBJECT_END]
    case Array(items) => PrintFields(items) + [ARRAY_END]
  }

  ghost function PrintField(f: Field): (bs: seq<byte>)
    requires WellFormed(f)
    ensures |bs| > 0
    decreases f, 1
  {
    PrintFieldId(f.typ, f.code) + PrintValue(f.value)
  }

  ghost function PrintFields(fs: seq<Field>): seq<byte>
    requires AllWellFormed(fs)
    decreases fs
  {
    if fs == [] then [] else PrintField(fs[0]) + PrintFields(fs[1..])
  }

  lemma {:induction false} PrintAppend(fs: seq<Field>, gs: seq<Field>)
    requires AllWellFormed(fs) && AllWellFormed(gs)
    ensures AllWellFormed(fs + gs)
    ensures PrintFields(fs + gs) == PrintFields(fs) + PrintFields(gs)
    decreases fs
  {
    if fs == [] {
      assert fs + gs == gs;
    } else {
      PrintAppend(fs[1..], gs);
      assert (fs + gs)[0] == fs[0] && (fs + gs)[1..] == fs[1..] + gs;
    }
  }

  lemma PrintOne(f: Field)
    requires WellFormed(f)
    ensures AllWellFormed([f]) && PrintFields([f]) == PrintField(f)
  {
    assert PrintFields([f][1..]) == [];
  }

  // ---- Parsing ----

  /** What was read, and what is left; None when the input is not in the format. */
  type Parsed<T> = Option<(T, seq<byte>)>

  function Take(s: seq<byte>, n: nat): (r: Parsed<seq<byte>>) {
    if |s| < n then None else Some((s[..n], s[n..]))
  }

  function ParseFieldId(s: seq<byte>): (r: Parsed<(nat, nat)>)
    ensures r.Some? ==> |r.value.1| < |s|
  {
    if s == [] then None
    else
      var hi, lo := s[0] / 16, s[0] % 16;
      if hi != 0 && lo != 0 then Some(((hi, lo), s[1..]))
      else if hi != 0 then
        if |s| < 2 || s[1] < 16 then None else Some(((hi, s[1]), s[2..]))
      else if lo != 0 then
        if |s| < 2 || s[1] < 16 then None else Some(((s[1], lo), s[2..]))
      else if |s| < 3 || s[1] < 16 || s[2] < 16 then None
      else Some(((s[1], s[2]), s[3..]))
  }

  function ParseLength(s: seq<byte>): (r: Parsed<nat>)
    ensures r.Some? ==> |r.value.1| < |s|
  {
    if s == [] then None
    else if s[0] <= 192 then Some((s[0], s[1..]))
    else if s[0] <= 240 then
      if |s| < 2 then None
      else
        var b0: int, b1: int := s[0], s[1];
        Some((193 + (b0 - 193) * 256 + b1, s[2..]))
    else if s[0] <= 254 then
      if |s| < 3 then None
      else
        var b0: int, b1: int, b2: int := s[0], s[1], s[2];
        Some((12481 + (b0 - 241) * 65536 + b1 * 256 + b2, s[3..]))
    else None
  }

  function ParseVL(s: seq<byte>): (r: Parsed<seq<byte>>)
    ensures r.Some? ==> |r.value.1| < |s|
  {
    match ParseLength(s)
    case None => None
    case Some((n, rest)) => Take(rest, n)
  }

  datatype End = EndOfInput | EndOfObject | EndOfArray

  function ParseValue(typ: nat, s: seq<byte>): (r: Parsed<Value>)
    ensures r.Some? ==> |r.value.1| < |s|
    decreases |s|, 2
  {
    if typ == T_UINT16 then
      if |s| < 2 then None else (PowersOf256(); Some((UInt16(ReadWord(s[..2])), s[2..])))
    else if typ == T_UINT32 then
      if |s| < 4 then None else (PowersOf256(); Some((UInt32(ReadWord(s[..4])), s[4..])))
    else if typ == T_AMOUNT then
      if s == [] then None
      else if s[0] < 128 then
        if |s| < 8 then None else (PowersOf256(); Some((NativeAmount(ReadWord(s[..8])), s[8..])))
      else if |s| < 48 then None
      else Some((IssuedAmount(s[..48]), s[48..]))
    else if typ == T_BLOB then
      match ParseVL(s)
      case None => None
      case Some((b, rest)) => Some((Blob(b), rest))
    else if typ == T_ACCOUNT then
      match ParseVL(s)
      case None => None
      case Some((a, rest)) => Some((Account(a), rest))
    else if typ == T_OBJECT then
      match ParseFields(s, EndOfObject)
      case None => None
      case Some((fs, rest)) => Some((Object(fs), rest))
    else if typ == T_ARRAY then
      match ParseFields(s, EndOfArray)
      case None => None
      case Some((items, rest)) => Some((Array(items), rest))
    else None
  }

  function ReadWord(s: seq<byte>): (n: nat)
    ensures n < Power(256, |s|)
  {
    WordBelow(s);
    FromBigEndian(s)
  }

  lemma {:induction false} WordBelow(s: seq<byte>)
    ensures FromBigEndian(s) < Power(256, |s|)
  {
    if s != [] {
      WordBelow(s[..|s| - 1]);
    }
  }

  /** Read fields until the closing marker; at top level, until the input is used up. */
  function ParseFields(s: seq<byte>, end: End): (r: Parsed<seq<Field>>)
    ensures r.Some? ==> |r.value.1| <= |s|
    ensures r.Some? && !end.EndOfInput? ==> |r.value.1| < |s|
    decreases |s|, 1
  {
    if s == [] then
      if end.EndOfInput? then Some(([], [])) else None
    else
      match ParseFieldId(s)
      case None => None
      case Some(((typ, code), body)) =>
        if code == 1 && typ == T_OBJECT then
          if end.EndOfObject? then Some(([], body)) else None
        else if code == 1 && typ == T_ARRAY then
          if end.EndOfArray? then Some(([], body)) else None
        else if end.EndOfArray? && typ != T_OBJECT then None
        else
          match ParseValue(typ, body)
          case None => None
          case Some((value, rest)) =>
            match ParseFields(rest, end)
            case None => None
            case Some((fs, tail)) => Some(([Field(typ, code, value)] + fs, tail))
  }

  /** Read a whole serialized object. */
  function ParseObject(s: seq<byte>): Option<seq<Field>> {
    match ParseFields(s, EndOfInput)
    case None => None
    case Some((fs, rest)) => Some(fs)
  }

  // ---- The parser inverts the printer ----

  function EndMark(end: End): seq<byte> {
    match end
    case EndOfInput => []
    case EndOfObject => [OBJECT_END]
    case EndOfArray => [ARRAY_END]
  }

  lemma ParsePrintFieldId(typ: nat, code: nat, rest: seq<byte>)
    requires 0 < typ < 256 && 0 < code < 256
    ensures ParseFieldId(PrintFieldId(typ, code) + rest) == Some(((typ, code), rest))
  {
    var s := PrintFieldId(typ, code) + rest;
    assert s[|PrintFieldId(typ, code)|..] == rest;
  }

  lemma ParsePrintLength(n: nat, rest: seq<byte>)
    requires n <= MAX_VL
    ensures ParseLength(PrintLength(n) + rest) == Some((n, rest))
  {
    var s := PrintLength(n) + rest;
    assert s[|PrintLength(n)|..] == rest;
    if 12480 < n {
      ThreeByteLength(n - 12481);
    }
  }

  lemma ThreeByteLength(m: nat)
    requires m <= MAX_VL - 12481
    ensures m / 65536 <= 13
    ensures m / 65536 * 65536 + m / 256 % 256 * 256 + m % 256 == m
  {
  }

  lemma ParsePrintVL(b: seq<byte>, rest: seq<byte>)
    requires |b| <= MAX_VL
    ensures ParseVL(PrintLength(|b|) + b + rest) == Some((b, rest))
  {
    hide PrintLength, ParseLength;
    ParsePrintLength(|b|, b + rest);
    assert PrintLength(|b|) + b + rest == PrintLength(|b|) + (b + rest);
    assert (b + rest)[..|b|] == b && (b + rest)[|b|..] == rest;
  }

  lemma ReadBigEndian(n: nat, width: nat, rest: seq<byte>)
    requires n < Power(256, width)
    ensures (BigEndian(n, width) + rest)[..width] == BigEndian(n, width)
    ensures (BigEndian(n, width) + rest)[width..] == rest
    ensures ReadWord(BigEndian(n, width)) == n
  {
    BigEndianRoundTrip(n, width);
  }

  /** Bit 63 of a native amount is clear, so its first byte is below 128. */
  lemma NativeFirstByte(w: uint64)
    requires w < BIT63
    ensures BigEndian(w, 8)[0] < 128
  {
    var bs := BigEndian(w, 8);
    PowersOf256();
    BigEndianRoundTrip(w, 8);
    FirstDigitBound(bs);
  }

  lemma FirstDigitBound(bs: seq<byte>)
    requires |bs| == 8
    ensures FromBigEndian(bs) >= 0x100_0000_0000_0000 * (bs[0] as int)
  {
    FirstDigitWeighs(bs);
    assert Power(256, 7) == 0x100_0000_0000_0000 by { PowersOf256(); }
  }

  lemma {:induction false} FirstDigitWeighs(bs: seq<byte>)
    requires bs != []
    ensures FromBigEndian(bs) >= bs[0] * Power(256, |bs| - 1)
  {
    if |bs| > 1 {
      FirstDigitWeighs(bs[..|bs| - 1]);
      assert bs[0] * Power(256, |bs| - 1) == bs[0] * Power(256, |bs| - 2) * 256;
    } else {
      assert FromBigEndian(bs[..0]) == 0;
    }
  }

  lemma ParsePrintWord(v: Value, rest: seq<byte>)
    requires WellFormedValue(v) && (v.UInt16? || v.UInt32?)
    ensures ParseValue(TypeOf(v), PrintValue(v) + rest) == Some((v, rest))
  {
    hide BigEndian, FromBigEndian, ReadWord, ParseFields, ParseVL, PrintFields, Power;
    PowersOf256();
    match v
    case UInt16(n) => ReadBigEndian(n, 2, rest);
    case UInt32(n) => ReadBigEndian(n, 4, rest);
  }

  lemma ParsePrintAmount(v: Value, rest: seq<byte>)
    requires WellFormedValue(v) && (v.NativeAmount? || v.IssuedAmount?)
    ensures ParseValue(TypeOf(v), PrintValue(v) + rest) == Some((v, rest))
  {
    hide BigEndian, FromBigEndian, ReadWord, ParseFields, ParseVL, PrintFields, Power;
    PowersOf256();
    match v
    case NativeAmount(w) =>
      ReadBigEndian(w, 8, rest);
      NativeFirstByte(w);
    case IssuedAmount(raw) =>
      assert (raw + rest)[..48] == raw && (raw + rest)[48..] == rest;
  }

  lemma ParsePrintBytes(v: Value, rest: seq<byte>)
    requires WellFormedValue(v) && (v.Blob? || v.Account?)
    ensures ParseValue(TypeOf(v), PrintValue(v) + rest) == Some((v, rest))
  {
    hide BigEndian, FromBigEndian, ReadWord, ParseFields, ParseVL, PrintFields, PrintLength;
    match v
    case Blob(b) => ParsePrintVL(b, rest);
    case Account(a) => ParsePrintVL(a, rest);
  }

  lemma {:induction false} ParsePrintValue(v: Value, rest: seq<byte>)
    requires WellFormedValue(v)
    ensures ParseValue(TypeOf(v), PrintValue(v) + rest) == Some((v, rest))
    decreases v, 0
  {
    hide BigEndian, FromBigEndian, ReadWord, ParseFields, ParseVL, PrintFields, PrintLength;
    match v
    case Object(fs) =>
      ParsePrintFields(fs, EndOfObject, rest);
      assert PrintFields(fs) + [OBJECT_END] + rest == PrintFields(fs) + EndMark(EndOfObject) + rest;
    case Array(items) =>
      ParsePrintFields(items, EndOfArray, rest);
      assert PrintFields(items) + [ARRAY_END] + rest == PrintFields(items) + EndMark(EndOfArray) + rest;
    case UInt16(_) => ParsePrintWord(v, rest);
    case UInt32(_) => ParsePrintWord(v, rest);
    case NativeAmount(_) => ParsePrintAmount(v, rest);
    case IssuedAmount(_) => ParsePrintAmount(v, rest);
    case Blob(_) => ParsePrintBytes(v, rest);
    case Account(_) => ParsePrintBytes(v, rest);
  }

  lemma {:induction false} ParsePrintField(f: Field, rest: seq<byte>)
    requires WellFormed(f)
    ensures ParseFieldId(PrintField(f) + rest) == Some(((f.typ, f.code), PrintValue(f.value) + rest))
    ensures ParseValue(f.typ, PrintValue(f.value) + rest) == Some((f.value, rest))
    decreases f, 1
  {
    ParsePrintFieldId(f.typ, f.code, PrintValue(f.value) + rest);
    assert PrintField(f) + rest == PrintFieldId(f.typ, f.code) + (PrintValue(f.value) + rest);
    ParsePrintValue(f.value, rest);
  }

  lemma {:induction false} ParsePrintFields(fs: seq<Field>, end: End, rest: seq<byte>)
    requires AllWellFormed(fs)
    requires end.EndOfArray? ==> forall f :: f in fs ==> f.typ == T_OBJECT
    requires end.EndOfInput? ==> rest == []
    ensures ParseFields(PrintFields(fs) + EndMark(end) + rest, end) == Some((fs, rest))
    decreases fs
  {
    if fs == [] {
      var s := PrintFields(fs) + EndMark(end) + rest;
      if !end.EndOfInput? {
        assert s[1..] == rest;
      }
    } else {
      var more := PrintFields(fs[1..]) + EndMark(end) + rest;
      assert fs[0] in fs && WellFormed(fs[0]);
      assert PrintFields(fs) + EndMark(end) + rest == PrintField(fs[0]) + more;
      ParsePrintField(fs[0], more);
      ParsePrintFields(fs[1..], end, rest);
      assert Field(fs[0].typ, fs[0].code, fs[0].value) == fs[0];
      assert fs == [fs[0]] + fs[1..];
    }
  }

  /** Parsing a printed object gives back the object and uses every byte. */
  lemma ParsePrintObject(fs: seq<Field>)
    requires AllWellFormed(fs)
    ensures ParseObject(PrintFields(fs)) == Some(fs)
  {
    ParsePrintFields(fs, EndOfInput, []);
    assert PrintFields(fs) + EndMark(EndOfInput) + [] == PrintFields(fs);
  }

  // ---- Canonical order ----

  ghost predicate Before(f: Field, g: Field) {
    f.typ < g.typ || (f.typ == g.typ && f.code < g.code)
  }

  /** Strictly ascending (type, field) order, which also rules out a repeated field. */
  ghost predicate Canonical(fs: seq<Field>) {
    forall i, j :: 0 <= i < j < |fs| ==> Before(fs[i], fs[j])
  }
}
