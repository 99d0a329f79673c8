/** What a classic address is, without the routines: the alphabet written out, the number the text
    denotes, and which texts are refused with which error. */
module AddressRules {
  import opened Wrappers
  import opened Guards
  import opened Bytes
  import opened Digits
  import opened Base58
  import opened ClassicAddress

  /** The ledger's alphabet. */
  function LedgerAlphabet(): string {
    "rpshnaf39wBUDNEGHJKLM4PQRST7V" + "WXYZ2bcdeCg65jkm8oFqi1tuvAxyz"
  }

  lemma LedgerRow0(i: nat)
    requires 0 <= i < 10
    ensures |LedgerAlphabet()| == 58 && IndexOf(LedgerAlphabet()[i]) == i
  {
  }

  lemma LedgerRow1(i: nat)
    requires 10 <= i < 20
    ensures |LedgerAlphabet()| == 58 && IndexOf(LedgerAlphabet()[i]) == i
  {
  }

  lemma LedgerRow2(i: nat)
    requires 20 <= i < 30
    ensures |LedgerAlphabet()| == 58 && IndexOf(LedgerAlphabet()[i]) == i
  {
  }

  lemma LedgerRow3(i: nat)
    requires 30 <= i < 40
    ensures |LedgerAlphabet()| == 58 && IndexOf(LedgerAlphabet()[i]) == i
  {
  }

  lemma LedgerRow4(i: nat)
    requires 40 <= i < 50
    ensures |LedgerAlphabet()| == 58 && IndexOf(LedgerAlphabet()[i]) == i
  {
  }

  lemma LedgerRow5(i: nat)
    requires 50 <= i < 58
    ensures |LedgerAlphabet()| == 58 && IndexOf(LedgerAlphabet()[i]) == i
  {
  }

  lemma LedgerRank(i: Rank)
    ensures |LedgerAlphabet()| == 58 && IndexOf(LedgerAlphabet()[i]) == i
  {
    hide LedgerAlphabet, IndexOf;
    if i < 10 { LedgerRow0(i); }
    else if i < 20 { LedgerRow1(i); }
    else if i < 30 { LedgerRow2(i); }
    else if i < 40 { LedgerRow3(i); }
    else if i < 50 { LedgerRow4(i); }
    else { LedgerRow5(i); }
  }

  lemma AlphabetIs()
    ensures ALPHABET == LedgerAlphabet()
  {
    hide LedgerAlphabet, IndexOf, Letter;
    LedgerRank(0);
    LetterAt(0);
    forall i: nat | i < 58 ensures ALPHABET[i] == LedgerAlphabet()[i] {
      LedgerRank(i);
      LetterAt(i);
      LetterOfRank(LedgerAlphabet()[i]);
    }
  }

  lemma LetterAt(i: Rank)
    ensures |ALPHABET| == 58 && Letter(i) == ALPHABET[i]
  {
    RankOfLetter(i);
  }

  /** Digit i is written as letter i of the alphabet, and a character is read exactly when it is in it. */
  lemma AlphabetExactly(i: Rank, c: char)
    ensures |LedgerAlphabet()| == 58 && Letter(i) == LedgerAlphabet()[i]
    ensures IndexOf(c) >= 0 <==> c in LedgerAlphabet()
  {
    hide IndexOf, Letter, LedgerAlphabet;
    AlphabetIs();
    LetterAt(i);
    if IndexOf(c) >= 0 {
      LetterOfRank(c);
      LetterAt(IndexOf(c));
    }
    if c in ALPHABET {
      var k: nat :| k < |ALPHABET| && ALPHABET[k] == c;
      RankOfLetter(k);
    }
  }

  /** The text of some bytes denotes the same number in base 58, with one leading 'r' for each leading zero
      byte. */
  lemma EncodeMeans(input: seq<byte>)
    ensures
      var text := Encode(input);
      && InAlphabet(text) && FromDigits(Ranks(text), 58) == FromDigits(input, 256)
      && LeadingZeros(Ranks(text)) == LeadingZeros(input)
  {
    hide Letters, Ranks;
    var n, k := FromDigits(input, 256), LeadingZeros(input);
    RanksOfLetters(Convert(input, 256, 58));
    LeadingZerosOf(k, ToDigits(n, 58));
    LeadingZerosAreWorthless(k, ToDigits(n, 58), 58);
    FromToDigits(n, 58);
  }

  /** A text is an address exactly when it is not empty, all its characters are in the alphabet, it denotes
      25 bytes of which the first is 0, and the last four are the checksum of the rest. */
  function AddressGuards(checksum: Checksum, address: string): seq<Guard<AddressError>> {
    var raw := if Decode(address).Ok? then Decode(address).value else [];
    [Guard(|address| > 0, InvalidAddress),
     Guard(forall i :: 0 <= i < |address| ==> address[i] in LedgerAlphabet(), AlphabetInvalid),
     Guard(|raw| == 25 && raw[0] == 0, InvalidAddress),
     Guard(|raw| == 25 && checksum(raw[..21]) == raw[21..], AddressError.BadChecksum)]
  }

  lemma AddressDecided(checksum: Checksum, address: string)
    ensures match DecodeAddress(checksum, address)
            case Ok(_) => Verdict(AddressGuards(checksum, address)) == None
            case Err(e) => Verdict(AddressGuards(checksum, address)) == Some(e)
  {
    hide LedgerAlphabet, IndexOf, Ranks, Convert;
    Unfold(AddressGuards(checksum, address));
    forall i | 0 <= i < |address| ensures address[i] in LedgerAlphabet() <==> IndexOf(address[i]) >= 0 {
      AlphabetExactly(0, address[i]);
    }
  }

  /** The account id is bytes 1 to 20 of what the text denotes. */
  lemma AccountIs(checksum: Checksum, address: string)
    requires DecodeAddress(checksum, address).Ok?
    ensures InAlphabet(address)
    ensures
      var id := DecodeAddress(checksum, address).value;
      Decode(address) == Ok([0] + id + checksum([0] + id))
  {
    var raw := Decode(address).value;
    hide Decode;
    assert raw[..21] == [0] + raw[1..21];
    assert raw == raw[..21] + raw[21..];
  }

  /** Every classic address starts with 'r'. */
  lemma StartsWithR(checksum: Checksum, accountId: seq<byte>)
    requires |accountId| == 20
    ensures
      var address := EncodeAddress(checksum, accountId);
      address.Ok? && address.value != "" && address.value[0] == 'r'
  {
    var bytes := [ACCOUNT_ID_VERSION] + accountId + checksum([ACCOUNT_ID_VERSION] + accountId);
    EncodeMeans(bytes);
    var text := Encode(bytes);
    FirstIsZero(bytes, text);
  }

  lemma FirstIsZero(bytes: seq<byte>, text: string)
    requires bytes != [] && bytes[0] == 0 && InAlphabet(text) && LeadingZeros(Ranks(text)) == LeadingZeros(bytes)
    ensures text != "" && text[0] == 'r'
  {
    assert LeadingZeros(bytes) > 0;
    assert Ranks(text)[0] == 0;
    LetterOfRank(text[0]);
  }
}
