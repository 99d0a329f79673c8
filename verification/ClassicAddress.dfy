/** Classic r-addresses: version byte, 20-byte account id, 4-byte checksum, in base58.
    The double SHA-256 checksum is any function to four bytes. */
module ClassicAddress {
  import opened Wrappers
  import opened Bytes
  import opened Base58

  type Quad = s: seq<byte> | |s| == 4 witness [0, 0, 0, 0]
  type Checksum = seq<byte> -> Quad

  const ACCOUNT_ID_VERSION: byte := 0

  function EncodeAddress(checksum: Checksum, accountId: seq<byte>): Result<string, AddressError> {
    if |accountId| != 20 then Err(BadAccountId)
    else
      var payload := [ACCOUNT_ID_VERSION] + accountId;
      Ok(Encode(payload + checksum(payload)))
  }

  function DecodeAddress(checksum: Checksum, address: string): (r: Result<seq<byte>, AddressError>)
    ensures r.Ok? ==> |r.value| == 20
  {
    var decoded := Decode(address);
    if decoded.Err? then Err(decoded.error)
    else
      var raw := decoded.value;
      if |raw| != 25 || raw[0] != ACCOUNT_ID_VERSION then Err(InvalidAddress)
      else if checksum(raw[..21]) != raw[21..] then Err(BadChecksum)
      else Ok(raw[1..21])
  }

  method EncodeClassicAddress(checksum: Checksum, accountId: seq<byte>)
    returns (r: Result<string, AddressError>)
    ensures r == EncodeAddress(checksum, accountId)
  {
    if |accountId| != 20 {
      return Err(BadAccountId);
    }
    var payload: seq<byte> := [];
    payload := payload + [ACCOUNT_ID_VERSION];
    payload := payload + accountId;
    assert payload == [ACCOUNT_ID_VERSION] + accountId;
    payload := payload + checksum(payload);
    var text := Base58Encode(payload);
    r := Ok(text);
  }

  method DecodeClassicAddress(checksum: Checksum, address: string)
    returns (r: Result<seq<byte>, AddressError>)
    ensures r == DecodeAddress(checksum, address)
  {
    var raw := Base58Decode(address);
    if raw.Err? {
      return Err(raw.error);
    }
    if |raw.value| != 25 || raw.value[0] != ACCOUNT_ID_VERSION {
      return Err(InvalidAddress);
    }
    if checksum(raw.value[..21]) != raw.value[21..] {
      return Err(BadChecksum);
    }
    r := Ok(raw.value[1..21]);
  }

  lemma DecodesItsEncoding(checksum: Checksum, accountId: seq<byte>)
    requires |accountId| == 20
    ensures EncodeAddress(checksum, accountId).Ok?
    ensures DecodeAddress(checksum, EncodeAddress(checksum, accountId).value) == Ok(accountId)
  {
    var payload := [ACCOUNT_ID_VERSION] + accountId;
    var raw := payload + checksum(payload);
    DecodeEncode(raw);
    assert raw[..21] == payload && raw[21..] == checksum(payload) && raw[1..21] == accountId;
  }

  lemma EncodesItsDecoding(checksum: Checksum, address: string)
    requires DecodeAddress(checksum, address).Ok?
    ensures EncodeAddress(checksum, DecodeAddress(checksum, address).value) == Ok(address)
  {
    var raw := Decode(address).value;
    EncodeDecode(address);
    assert raw[..21] == [ACCOUNT_ID_VERSION] + raw[1..21];
    assert raw == raw[..21] + raw[21..];
  }

  /** Each account id has exactly one accepted address, so comparing addresses (or their hashes)
      is comparing accounts. */
  lemma AddressCanonicity(checksum: Checksum, address: string, accountId: seq<byte>)
    ensures DecodeAddress(checksum, address) == Ok(accountId)
       <==> EncodeAddress(checksum, accountId) == Ok(address)
  {
    if DecodeAddress(checksum, address) == Ok(accountId) {
      EncodesItsDecoding(checksum, address);
    }
    if EncodeAddress(checksum, accountId) == Ok(address) {
      DecodesItsEncoding(checksum, accountId);
    }
  }
}
