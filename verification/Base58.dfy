/** XRPL base58 (extension/go/internal/xrpl/address.go): the two conversion routines and the
    proof that they undo each other. */
module Base58 {
  import opened Wrappers
  import opened Bytes
  import opened Digits

  // The XRPL alphabet, which is not Bitcoin's ordering.
  const ALPHABET: string := "rpshnaf39w" + "BUDNEGHJKL" + "M4PQRST7VW" + "XYZ2bcdeCg" + "65jkm8oFqi" + "1tuvAxyz"

  type Rank = n: nat | n < 58

  // ---- The alphabet as a bijection ----

  function IndexOfDigit(c: char): int {
    match c
    case '1' => 50 case '2' => 33 case '3' => 7 case '4' => 21 case '5' => 41
    case '6' => 40 case '7' => 27 case '8' => 45 case '9' => 8
    case _ => -1
  }

  function IndexOfUpper(c: char): int {
    match c
    case 'A' => 54 case 'B' => 10 case 'C' => 38 case 'D' => 12 case 'E' => 14 case 'F' => 47
    case 'G' => 15 case 'H' => 16 case 'J' => 17 case 'K' => 18 case 'L' => 19 case 'M' => 20
    case 'N' => 13 case 'P' => 22 case 'Q' => 23 case 'R' => 24 case 'S' => 25 case 'T' => 26
    case 'U' => 11 case 'V' => 28 case 'W' => 29 case 'X' => 30 case 'Y' => 31 case 'Z' => 32
    case _ => -1
  }

  function IndexOfLower(c: char): int {
    match c
    case 'a' => 5 case 'b' => 34 case 'c' => 35 case 'd' => 36 case 'e' => 37 case 'f' => 6
    case 'g' => 39 case 'h' => 3 case 'i' => 49 case 'j' => 42 case 'k' => 43 case 'm' => 44
    case 'n' => 4 case 'o' => 46 case 'p' => 1 case 'q' => 48 case 'r' => 0 case 's' => 2
    case 't' => 51 case 'u' => 52 case 'v' => 53 case 'w' => 9 case 'x' => 55 case 'y' => 56
    case 'z' => 57
    case _ => -1
  }

  /** The reverse lookup table, with -1 for a character outside the alphabet. */
  function IndexOf(c: char): (i: int)
    ensures -1 <= i < 58
  {
    if c <= '9' then IndexOfDigit(c) else if c <= 'Z' then IndexOfUpper(c) else IndexOfLower(c)
  }

  function Letter(i: Rank): (c: char)
    ensures IndexOf(c) == i
  {
    RankOfLetter(i);
    ALPHABET[i]
  }

  lemma RankInRow0(i: nat)
    requires i < 10
    ensures IndexOf("rpshnaf39w"[i]) == i
  {
  }

  lemma RankInRow1(i: nat)
    requires i < 10
    ensures IndexOf("BUDNEGHJKL"[i]) == 10 + i
  {
  }

  lemma RankInRow2(i: nat)
    requires i < 10
    ensures IndexOf("M4PQRST7VW"[i]) == 20 + i
  {
  }

  lemma RankInRow3(i: nat)
    requires i < 10
    ensures IndexOf("XYZ2bcdeCg"[i]) == 30 + i
  {
  }

  lemma RankInRow4(i: nat)
    requires i < 10
    ensures IndexOf("65jkm8oFqi"[i]) == 40 + i
  {
  }

  lemma RankInRow5(i: nat)
    requires i < 8
    ensures IndexOf("1tuvAxyz"[i]) == 50 + i
  {
  }

  lemma RankOfLetter(i: Rank)
    ensures |ALPHABET| == 58 && IndexOf(ALPHABET[i]) == i
  {
    if i < 10 { RankInRow0(i); }
    else if i < 20 { RankInRow1(i - 10); }
    else if i < 30 { RankInRow2(i - 20); }
    else if i < 40 { RankInRow3(i - 30); }
    else if i < 50 { RankInRow4(i - 40); }
    else { RankInRow5(i - 50); }
  }

  lemma LetterOfDigit(c: char)
    requires IndexOfDigit(c) >= 0
    ensures ALPHABET[IndexOfDigit(c)] == c
  {
  }

  lemma LetterOfUpper(c: char)
    requires IndexOfUpper(c) >= 0
    ensures ALPHABET[IndexOfUpper(c)] == c
  {
  }

  lemma LetterOfLower(c: char)
    requires IndexOfLower(c) >= 0
    ensures ALPHABET[IndexOfLower(c)] == c
  {
  }

  lemma LetterOfRank(c: char)
    requires IndexOf(c) >= 0
    ensures Letter(IndexOf(c)) == c
  {
    if c <= '9' { LetterOfDigit(c); } else if c <= 'Z' { LetterOfUpper(c); } else { LetterOfLower(c); }
  }

  // ---- Specification ----

  datatype AddressError = InvalidAddress | BadChecksum | AlphabetInvalid | BadAccountId

  function Letters(ranks: seq<nat>): (s: string)
    requires AllBelow(ranks, 58)
    ensures |s| == |ranks|
  {
    seq(|ranks|, i requires 0 <= i < |ranks| => Letter(ranks[i]))
  }

  predicate InAlphabet(s: string) {
    forall i :: 0 <= i < |s| ==> IndexOf(s[i]) >= 0
  }

  function Ranks(s: string): (ranks: seq<nat>)
    requires InAlphabet(s)
    ensures |ranks| == |s| && AllBelow(ranks, 58)
  {
    seq(|s|, i requires 0 <= i < |s| => IndexOf(s[i]))
  }

  /** What base58 encoding means: change of base, then the alphabet. */
  function Encode(input: seq<byte>): string {
    Letters(Convert(input, 256, 58))
  }

  function Decode(text: string): Result<seq<byte>, AddressError> {
    if text == "" then Err(InvalidAddress)
    else if !InAlphabet(text) then Err(AlphabetInvalid)
    else Ok(Convert(Ranks(text), 58, 256))
  }

  lemma RanksOfLetters(ranks: seq<nat>)
    requires AllBelow(ranks, 58)
    ensures InAlphabet(Letters(ranks)) && Ranks(Letters(ranks)) == ranks
  {
  }

  lemma LettersOfRanks(s: string)
    requires InAlphabet(s)
    ensures Letters(Ranks(s)) == s
  {
    forall i | 0 <= i < |s| ensures Letters(Ranks(s))[i] == s[i] {
      LetterOfRank(s[i]);
    }
  }

  /** Decoding undoes encoding for every byte string, leading zero bytes included. The empty string
      is the only input without a decodable image. */
  lemma DecodeEncode(input: seq<byte>)
    ensures Decode(Encode(input)) == if input == [] then Err(InvalidAddress) else Ok(input)
  {
    RanksOfLetters(Convert(input, 256, 58));
    ConvertRoundTrip(input, 256, 58);
    assert Convert([], 256, 58) == [];
    assert Convert([], 58, 256) == [];
  }

  /** Encoding undoes decoding: no two accepted texts denote the same bytes. */
  lemma EncodeDecode(text: string)
    requires Decode(text).Ok?
    ensures Encode(Decode(text).value) == text
  {
    ConvertRoundTrip(Ranks(text), 58, 256);
    LettersOfRanks(text);
  }

  // ---- The routines ----

  function Reversed(s: string): (r: string)
    ensures |r| == |s|
  {
    seq(|s|, i requires 0 <= i < |s| => s[|s| - 1 - i])
  }

  lemma LettersAppend(xs: seq<nat>, ys: seq<nat>)
    requires AllBelow(xs, 58) && AllBelow(ys, 58)
    ensures Letters(xs + ys) == Letters(xs) + Letters(ys)
  {
  }

  lemma LastLetter(num: nat)
    requires num > 0
    ensures Letters(ToDigits(num, 58)) == Letters(ToDigits(num / 58, 58)) + [Letter(num % 58)]
  {
    LettersAppend(ToDigits(num / 58, 58), [num % 58]);
  }

  lemma ReversedSnoc(s: string, c: char)
    ensures Reversed(s + [c]) == [c] + Reversed(s)
  {
  }

  method ReverseInPlace(a: array<char>)
    modifies a
    ensures a[..] == Reversed(old(a[..]))
  {
    var i, j := 0, a.Length - 1;
    while i < j
      invariant 0 <= i <= a.Length && j == a.Length - 1 - i && i <= j + 1
      invariant forall k :: 0 <= k < i ==> a[k] == old(a[a.Length - 1 - k]) && a[a.Length - 1 - k] == old(a[k])
      invariant forall k :: i <= k <= j ==> a[k] == old(a[k])
    {
      a[i], a[j] := a[j], a[i];
      i, j := i + 1, j - 1;
    }
  }

  lemma NoLetters()
    ensures Letters(ToDigits(0, 58)) == "" && Reversed("") == "" && Letters(Zeros(0)) == ""
  {
  }

  lemma OneMoreZero(zeros: nat)
    ensures Letters(Zeros(zeros + 1)) == [Letter(0)] + Letters(Zeros(zeros))
  {
  }

  lemma ZerosThenDigits(input: seq<byte>, zeros: nat)
    requires zeros <= |input| && forall i :: 0 <= i < zeros ==> input[i] == 0
    requires zeros < |input| ==> input[zeros] != 0
    ensures Encode(input) == Letters(Zeros(zeros)) + Letters(ToDigits(FromDigits(input, 256), 58))
  {
    hide ToDigits, FromDigits;
    CountedLeadingZeros(input, zeros);
    LettersAppend(Zeros(zeros), ToDigits(FromDigits(input, 256), 58));
  }

  method Base58Encode(input: seq<byte>) returns (text: string)
    ensures text == Encode(input)
  {
    hide ToDigits, FromDigits, Letters, Reversed, Encode, LeadingZeros;
    var num := FromDigits(input, 256);
    ghost var value := num;
    NoLetters();

    var out: string := [];
    while num > 0
      invariant Letters(ToDigits(value, 58)) == Letters(ToDigits(num, 58)) + Reversed(out)
    {
      LastLetter(num);
      ReversedSnoc(out, Letter(num % 58));
      out := out + [Letter(num % 58)];
      num := num / 58;
    }

    var zeros := 0;
    while zeros < |input| && input[zeros] == 0
      invariant zeros <= |input| && forall i :: 0 <= i < zeros ==> input[i] == 0
      invariant Reversed(out) == Letters(Zeros(zeros)) + Letters(ToDigits(value, 58))
    {
      OneMoreZero(zeros);
      ReversedSnoc(out, Letter(0));
      out := out + [Letter(0)];
      zeros := zeros + 1;
    }
    ZerosThenDigits(input, zeros);

    var chars := new char[|out|](i requires 0 <= i < |out| => out[i]);
    assert chars[..] == out;
    ReverseInPlace(chars);
    text := chars[..];
  }

  lemma NextRank(input: string, i: nat)
    requires i < |input| && InAlphabet(input[..i]) && IndexOf(input[i]) >= 0
    ensures InAlphabet(input[..i + 1])
    ensures FromDigits(Ranks(input[..i + 1]), 58) == FromDigits(Ranks(input[..i]), 58) * 58 + IndexOf(input[i])
  {
    assert Ranks(input[..i + 1]) == Ranks(input[..i]) + [IndexOf(input[i])];
    FromSnoc(Ranks(input[..i]), IndexOf(input[i]), 58);
  }

  lemma LeadingFirstLetters(input: string, leading: nat)
    requires InAlphabet(input)
    requires leading <= |input| && forall k :: 0 <= k < leading ==> input[k] == Letter(0)
    requires leading < |input| ==> input[leading] != Letter(0)
    ensures LeadingZeros(Ranks(input)) == leading
  {
    if leading < |input| {
      LetterOfRank(input[leading]);
    }
    CountedLeadingZeros(Ranks(input), leading);
  }

  /** A zeroed buffer with the decoded bytes copied in after the leading zeros. */
  method CopyAfter(leading: nat, decoded: seq<byte>) returns (bytes: seq<byte>)
    ensures bytes == Zeros(leading) + decoded
  {
    var out := new byte[leading + |decoded|](_ => 0);
    forall k | 0 <= k < |decoded| {
      out[leading + k] := decoded[k];
    }
    bytes := out[..];
  }

  method Base58Decode(input: string) returns (r: Result<seq<byte>, AddressError>)
    ensures r == Decode(input)
  {
    if input == "" {
      return Err(InvalidAddress);
    }
    var num, i := 0, 0;
    while i < |input|
      invariant i <= |input| && InAlphabet(input[..i])
      invariant num == FromDigits(Ranks(input[..i]), 58)
    {
      var idx := IndexOf(input[i]);
      if idx < 0 {
        return Err(AlphabetInvalid);
      }
      NextRank(input, i);
      num := num * 58 + idx;
      i := i + 1;
    }
    assert input[..i] == input;

    var decoded: seq<byte> := ToDigits(num, 256);
    var leading := 0;
    while leading < |input| && input[leading] == Letter(0)
      invariant leading <= |input| && forall k :: 0 <= k < leading ==> input[k] == Letter(0)
    {
      leading := leading + 1;
    }
    LeadingFirstLetters(input, leading);

    var out := CopyAfter(leading, decoded);
    r := Ok(out);
  }
}
