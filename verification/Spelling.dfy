/** Digits, letters and names as they are written down: tables that the arithmetic on byte codes is
    held to. */
module Spelling {
  import opened ByteStrings
  import opened ChunkedCoding
  import opened Headers

  // ---------- numbers ----------

  const LOWER_HEX := Ascii("0123456789abcdef")
  const UPPER_HEX := Ascii("0123456789ABCDEF")

  /** b is the digit for d, in either case of letters. */
  predicate SpellsDigit(b: byte, d: nat) {
    d < 16 && (b == LOWER_HEX[d] || b == UPPER_HEX[d])
  }

  /** s writes n in the given base, with any leading zeros. */
  predicate Spells(s: Bytes, n: nat, base: nat)
    requires 2 <= base <= 16
    decreases |s|
  {
    && s != []
    && SpellsDigit(s[|s| - 1], n % base)
    && if |s| == 1 then n < base else Spells(s[..|s| - 1], n / base, base)
  }

  lemma DigitSpelling(b: byte, d: nat)
    ensures SpellsDigit(b, d) <==> IsHexDigit(b) && HexDigitValue(b) == d
    ensures d < 10 ==> (SpellsDigit(b, d) <==> IsDigit(b) && DigitValue(b) == d)
  {
    assert forall i :: 0 <= i < 10 ==> LOWER_HEX[i] as int == 48 + i && UPPER_HEX[i] as int == 48 + i;
    assert forall i :: 10 <= i < 16 ==> LOWER_HEX[i] as int == 87 + i && UPPER_HEX[i] as int == 55 + i;
  }

  /** The size of a chunk is what its digits spell, whatever the case of its letters. */
  lemma {:induction false} HexSpelling(s: Bytes, n: nat)
    ensures Spells(s, n, 16) <==> s != [] && AllHex(s) && HexValue(s) == n
    decreases |s|
  {
    hide SpellsDigit, IsHexDigit, HexDigitValue;
    if s != [] {
      var init, b := s[..|s| - 1], s[|s| - 1];
      DigitSpelling(b, n % 16);
      HexDigitBound(b);
      assert AllHex(s) <==> AllHex(init) && IsHexDigit(b);
      if |s| == 1 {
        assert init == [];
      } else {
        HexSpelling(init, n / 16);
      }
    }
  }

  lemma HexDigitBound(b: byte)
    ensures IsHexDigit(b) ==> HexDigitValue(b) < 16
  {
  }

  predicate DigitsOnly(s: Bytes) { forall i :: 0 <= i < |s| ==> IsDigit(s[i]) }

  /** A length is what its digits spell. */
  lemma {:induction false} DecimalSpelling(s: Bytes, n: nat)
    ensures Spells(s, n, 10) <==> s != [] && DigitsOnly(s) && DecimalValue(s) == n
    decreases |s|
  {
    hide SpellsDigit, IsDigit, DigitValue;
    if s != [] {
      var init, b := s[..|s| - 1], s[|s| - 1];
      DigitSpelling(b, n % 10);
      DigitBound(b);
      assert DigitsOnly(s) <==> DigitsOnly(init) && IsDigit(b);
      if |s| == 1 {
        assert init == [];
      } else {
        DecimalSpelling(init, n / 10);
      }
    }
  }

  lemma DigitBound(b: byte)
    ensures IsDigit(b) ==> DigitValue(b) < 10
  {
  }

  // ---------- letters ----------

  const LOWER_LETTERS := Ascii("abcdefghijklmnopqrstuvwxyz")
  const UPPER_LETTERS := Ascii("ABCDEFGHIJKLMNOPQRSTUVWXYZ")

  /** a and b are the same letter, or equal. */
  predicate SameLetter(a: byte, b: byte) {
    || a == b
    || exists i :: 0 <= i < 26 && LOWER_LETTERS[i] in {a, b} && UPPER_LETTERS[i] in {a, b}
  }

  /** Equal but for the case of letters. */
  predicate SameText(s: Bytes, t: Bytes) {
    |s| == |t| && forall i :: 0 <= i < |s| ==> SameLetter(s[i], t[i])
  }

  lemma Alphabet()
    ensures forall i :: 0 <= i < 26 ==> LOWER_LETTERS[i] as int == 97 + i && UPPER_LETTERS[i] as int == 65 + i
  {
  }

  lemma LetterCase(a: byte, b: byte)
    ensures SameLetter(a, b) <==> UpperByte(a) == UpperByte(b)
    ensures SameLetter(a, b) <==> LowerByte(a) == LowerByte(b)
  {
    Alphabet();
    if a != b && UpperByte(a) == UpperByte(b) {
      var i := UpperByte(a) as int - 65;
      assert LOWER_LETTERS[i] in {a, b} && UPPER_LETTERS[i] in {a, b};
    }
  }

  lemma TextCase(s: Bytes, t: Bytes)
    ensures SameText(s, t) <==> Upper(s) == Upper(t)
    ensures SameText(s, t) <==> Lower(s) == Lower(t)
  {
    hide SameLetter, UpperByte, LowerByte;
    forall i | 0 <= i < |s| && i < |t|
      ensures SameLetter(s[i], t[i]) <==> Upper(s)[i] == Upper(t)[i]
      ensures SameLetter(s[i], t[i]) <==> Lower(s)[i] == Lower(t)[i]
    {
      LetterCase(s[i], t[i]);
    }
  }

  predicate IsLowerLetter(b: byte) { b in LOWER_LETTERS }

  lemma LowerLetters(b: byte)
    ensures IsLowerLetter(b) <==> UpperByte(b) != b
    ensures !IsLowerLetter(UpperByte(b))
  {
    Alphabet();
    if 97 <= b <= 122 {
      assert LOWER_LETTERS[b as int - 97] == b;
    }
  }

  predicate IsDecimalDigit(b: byte) { b in LOWER_HEX[..10] }

  lemma DecimalDigits(b: byte)
    ensures IsDecimalDigit(b) <==> IsDigit(b)
  {
    assert forall i :: 0 <= i < 10 ==> LOWER_HEX[i] as int == 48 + i;
    if IsDigit(b) {
      assert LOWER_HEX[..10][b as int - 48] == b;
    }
  }

  // ---------- characters ----------

  const TOKEN_MARKS := Ascii("!#$%&'*+-.^_`|~")

  /** section 5.6.2 of RFC 9110, spelled out */
  predicate IsTokenChar(b: byte) {
    b in TOKEN_MARKS || b in LOWER_LETTERS || b in UPPER_LETTERS || IsDecimalDigit(b)
  }

  lemma TokenChars(b: byte)
    ensures IsTokenChar(b) <==> IsTchar(b)
  {
    Alphabet();
    assert forall i :: 0 <= i < 10 ==> LOWER_HEX[i] as int == 48 + i;
    if 97 <= b <= 122 {
      assert LOWER_LETTERS[b as int - 97] == b;
    } else if 65 <= b <= 90 {
      assert UPPER_LETTERS[b as int - 65] == b;
    } else if IsDigit(b) {
      assert LOWER_HEX[..10][b as int - 48] == b;
    } else {
      TokenMarks(b);
    }
  }

  lemma TokenMarks(b: byte)
    ensures b in TOKEN_MARKS <==> IsTchar(b) && !IsDigit(b) && !(65 <= b <= 90) && !(97 <= b <= 122)
  {
    assert TOKEN_MARKS == [33, 35, 36, 37, 38, 39, 42, 43, 45, 46, 94, 95, 96, 124, 126];
  }

  /** Anything that prints, blanks, and bytes outside of ASCII. */
  predicate IsText(b: byte) { b == 9 || (b >= 32 && b != 127) }

  const BLANKS := Ascii(" \t")
  const WHITESPACE := Ascii(" \t\n\r") + [11, 12]

  predicate IsPad(b: byte) { b in BLANKS }

  predicate IsWhite(b: byte) { b in WHITESPACE }

  lemma Blanks(b: byte)
    ensures IsPad(b) <==> IsBlank(b)
    ensures IsWhite(b) <==> IsSpace(b)
  {
    assert BLANKS == [32, 9] && WHITESPACE == [32, 9, 10, 13, 11, 12];
  }

  lemma TextChars(b: byte)
    ensures IsText(b) <==> IsFieldByte(b)
    ensures IsText(b) <==> IsQuotable(b)
    ensures IsText(b) && b != 34 && b != 92 <==> IsQdText(b)
    ensures IsPad(b) ==> IsText(b)
  {
    Blanks(b);
  }
}
