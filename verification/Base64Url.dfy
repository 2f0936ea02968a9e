/**
 * Unpadded base64url (section 5 of RFC 4648) as packages/security/tokens.py prints and
 * reads it. Reading is the lenient standard-library decoder: characters outside the
 * alphabet are passed over, and padding is added for the length of the text as it came.
 */
module Base64Url {
  import opened Outcomes

  type Byte = n: int | 0 <= n < 256 witness 0
  type Sextet = n: int | 0 <= n < 64 witness 0

  function Letter(i: Sextet): char {
    if i < 26 then ('A' as int + i) as char
    else if i < 52 then ('a' as int + (i - 26)) as char
    else if i < 62 then ('0' as int + (i - 52)) as char
    else if i == 62 then '-' else '_'
  }

  predicate IsLetter(c: char) {
    'A' <= c <= 'Z' || 'a' <= c <= 'z' || '0' <= c <= '9' || c == '-' || c == '_'
  }

  function Index(c: char): Sextet
    requires IsLetter(c)
  {
    if 'A' <= c <= 'Z' then c as int - 'A' as int
    else if 'a' <= c <= 'z' then c as int - 'a' as int + 26
    else if '0' <= c <= '9' then c as int - '0' as int + 52
    else if c == '-' then 62 else 63
  }

  lemma IndexOfLetter(i: Sextet)
    ensures IsLetter(Letter(i)) && Index(Letter(i)) == i
  {}

  const ALPHABET := "ABCDEFGHIJKLMNOPQRSTUVWXYZ" + "abcdefghijklmnopqrstuvwxyz" + "0123456789" + "-_"

  /** The letters are those of the URL-safe alphabet, in its order. */
  lemma LettersOfAlphabet(i: Sextet)
    ensures Letter(i) == ALPHABET[i]
  {
    if i < 26 {
      CapitalAt(i);
      assert ALPHABET[i] == "ABCDEFGHIJKLMNOPQRSTUVWXYZ"[i];
    } else if i < 52 {
      SmallAt(i - 26);
      assert ALPHABET[i] == "abcdefghijklmnopqrstuvwxyz"[i - 26];
    } else if i < 62 {
      assert ALPHABET[i] == "0123456789"[i - 52];
    }
  }

  lemma CapitalAt(i: nat)
    requires i < 26
    ensures "ABCDEFGHIJKLMNOPQRSTUVWXYZ"[i] as int == 'A' as int + i
  {
    assert i in {0, 1, 2, 3, 4, 5, 6, 7, 8, 9, 10, 11, 12, 13, 14, 15, 16, 17, 18, 19, 20, 21, 22, 23, 24, 25};
  }

  lemma SmallAt(i: nat)
    requires i < 26
    ensures "abcdefghijklmnopqrstuvwxyz"[i] as int == 'a' as int + i
  {
    assert i in {0, 1, 2, 3, 4, 5, 6, 7, 8, 9, 10, 11, 12, 13, 14, 15, 16, 17, 18, 19, 20, 21, 22, 23, 24, 25};
  }

  // ----- Groups of bits -----------------------------------------------------

  /** The four sextets of three bytes. */
  function S0(a: Byte): Sextet { a / 4 }
  function S1(a: Byte, b: Byte): Sextet { a % 4 * 16 + b / 16 }
  function S2(b: Byte, c: Byte): Sextet { b % 16 * 4 + c / 64 }
  function S3(c: Byte): Sextet { c % 64 }

  /** The three bytes of four sextets. */
  function B0(p: Sextet, q: Sextet): Byte { p * 4 + q / 16 }
  function B1(q: Sextet, r: Sextet): Byte { q % 16 * 16 + r / 4 }
  function B2(r: Sextet, s: Sextet): Byte { r % 4 * 64 + s }

  lemma GroupReads(a: Byte, b: Byte, c: Byte)
    ensures B0(S0(a), S1(a, b)) == a
    ensures B1(S1(a, b), S2(b, c)) == b
    ensures B2(S2(b, c), S3(c)) == c
  {}

  /** A last group of one or two bytes is filled up with zero bits. */
  function Sextets(bytes: seq<Byte>): seq<Sextet> {
    if bytes == [] then []
    else if |bytes| == 1 then [S0(bytes[0]), S1(bytes[0], 0)]
    else if |bytes| == 2 then [S0(bytes[0]), S1(bytes[0], bytes[1]), S2(bytes[1], 0)]
    else
      [S0(bytes[0]), S1(bytes[0], bytes[1]), S2(bytes[1], bytes[2]), S3(bytes[2])] + Sextets(bytes[3..])
  }

  /** Bits left over after the last whole byte are dropped. */
  function Bytes(sextets: seq<Sextet>): seq<Byte> {
    if |sextets| < 2 then []
    else if |sextets| == 2 then [B0(sextets[0], sextets[1])]
    else if |sextets| == 3 then [B0(sextets[0], sextets[1]), B1(sextets[1], sextets[2])]
    else
      [B0(sextets[0], sextets[1]), B1(sextets[1], sextets[2]), B2(sextets[2], sextets[3])]
        + Bytes(sextets[4..])
  }

  lemma {:induction false} BytesOfSextets(bytes: seq<Byte>)
    ensures Bytes(Sextets(bytes)) == bytes
    ensures |Sextets(bytes)| % 4 != 1
  {
    hide S0, S1, S2, S3, B0, B1, B2;
    if |bytes| == 1 {
      GroupReads(bytes[0], 0, 0);
    } else if |bytes| == 2 {
      GroupReads(bytes[0], bytes[1], 0);
    } else if |bytes| > 2 {
      GroupReads(bytes[0], bytes[1], bytes[2]);
      BytesOfSextets(bytes[3..]);
      assert Sextets(bytes)[4..] == Sextets(bytes[3..]);
    }
  }

  // ----- Text ---------------------------------------------------------------

  function Encode(bytes: seq<Byte>): string {
    Letters(Sextets(bytes))
  }

  function Letters(sextets: seq<Sextet>): string {
    seq(|sextets|, i requires 0 <= i < |sextets| => Letter(sextets[i]))
  }

  /** The values of the characters that are in the alphabet. */
  function Indices(text: string): seq<Sextet> {
    if text == "" then []
    else if IsLetter(text[0]) then [Index(text[0])] + Indices(text[1..])
    else Indices(text[1..])
  }

  /** Fails when one character is left over, or when the padding does not fill the last group. */
  function Decode(text: string): Option<seq<Byte>> {
    var sextets := Indices(text);
    var left, padding := |sextets| % 4, (4 - |text| % 4) % 4;
    if left == 0 || (left >= 2 && left + padding >= 4) then Some(Bytes(sextets)) else None
  }

  lemma {:induction false} IndicesOfLetters(sextets: seq<Sextet>)
    ensures Indices(Letters(sextets)) == sextets
  {
    if sextets != [] {
      IndexOfLetter(sextets[0]);
      IndicesOfLetters(sextets[1..]);
      assert Letters(sextets)[1..] == Letters(sextets[1..]);
    }
  }

  predicate InAlphabet(text: string) {
    forall i :: 0 <= i < |text| ==> IsLetter(text[i])
  }

  lemma LettersAreLetters(sextets: seq<Sextet>)
    ensures InAlphabet(Letters(sextets))
  {}

  /** Reading back what was printed is the identity on all byte strings. */
  lemma DecodeEncode(bytes: seq<Byte>)
    ensures Decode(Encode(bytes)) == Some(bytes)
    ensures InAlphabet(Encode(bytes))
  {
    BytesOfSextets(bytes);
    IndicesOfLetters(Sextets(bytes));
    LettersAreLetters(Sextets(bytes));
    hide Sextets, Bytes;
  }

  lemma {:induction false} IndicesOfText(text: string)
    requires InAlphabet(text)
    ensures |Indices(text)| == |text|
  {
    if text != "" {
      IndicesOfText(text[1..]);
    }
  }

  /** Text over the alphabet reads as bytes exactly when its length can be that of an encoding. */
  lemma DecodesIffLengthFits(text: string)
    requires InAlphabet(text)
    ensures Decode(text).Some? <==> |text| % 4 != 1
  {
    IndicesOfText(text);
  }

  function Spelled(sextets: seq<Sextet>): string {
    seq(|sextets|, i requires 0 <= i < |sextets| => ALPHABET[sextets[i]])
  }

  /** Three bytes are printed as the four digits of the number they make, in base 64. */
  lemma ThreeBytesAreFourDigits(a: Byte, b: Byte, c: Byte)
    returns (p: Sextet, q: Sextet, r: Sextet, s: Sextet)
    ensures Encode([a, b, c]) == Spelled([p, q, r, s])
    ensures p * 0x4_0000 + q * 0x1000 + r * 0x40 + s == a * 0x1_0000 + b * 0x100 + c
  {
    p, q, r, s := S0(a), S1(a, b), S2(b, c), S3(c);
    LettersAreSpelled([p, q, r, s]);
    assert [a, b, c][3..] == [];
    assert Sextets([a, b, c]) == [p, q, r, s];
  }

  /** One or two bytes are printed as the first two or three digits when zeros follow them. */
  lemma ShortGroupsDropZeros(a: Byte, b: Byte)
    ensures Encode([a]) == Encode([a, 0, 0])[..2] && Encode([a, b]) == Encode([a, b, 0])[..3]
  {
    assert [a, 0, 0][3..] == [] && [a, b, 0][3..] == [];
    hide S0, S1, S2, S3, Letter;
  }

  /** Longer texts are printed three bytes at a time. */
  lemma EncodesByThrees(bytes: seq<Byte>)
    requires |bytes| >= 3
    ensures Encode(bytes) == Encode(bytes[..3]) + Encode(bytes[3..])
  {
    hide S0, S1, S2, S3, Letter;
    assert bytes[..3][3..] == [];
    assert Sextets(bytes) == Sextets(bytes[..3]) + Sextets(bytes[3..]);
  }

  lemma LettersAreSpelled(sextets: seq<Sextet>)
    ensures Letters(sextets) == Spelled(sextets)
  {
    hide Letter;
    forall i | 0 <= i < |sextets| ensures Letter(sextets[i]) == ALPHABET[sextets[i]] {
      LettersOfAlphabet(sextets[i]);
    }
  }
}
