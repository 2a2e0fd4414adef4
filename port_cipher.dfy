/** The port obfuscation of two proxy-list sites: a port is written as a class
    name, one letter per decimal digit, and the number so spelled is eight times
    the port. */
module PortCipher {
  import opened Wrappers
  import opened Decimal

  /** The letters standing for the digits 0 to 9, in order. */
  const Alphabet: string := "ABCDEFGHIZ"

  /** `str.find` of one character: its first index, or -1 when it does not occur. */
  function Find(s: string, c: char): (i: int)
    ensures -1 <= i < |s|
    ensures i >= 0 ==> s[i] == c && forall j :: 0 <= j < i ==> s[j] != c
    ensures i == -1 ==> c !in s
  {
    if s == [] then -1
    else
      var k := Find(s[..|s| - 1], c);
      if k != -1 then k else if s[|s| - 1] == c then |s| - 1 else -1
  }

  /** The digit a letter stands for, -1 for any other character. */
  function LetterDigit(c: char): (d: int)
    ensures -1 <= d < 10
  {
    if c == 'A' then 0 else if c == 'B' then 1 else if c == 'C' then 2 else if c == 'D' then 3
    else if c == 'E' then 4 else if c == 'F' then 5 else if c == 'G' then 6 else if c == 'H' then 7
    else if c == 'I' then 8 else if c == 'Z' then 9 else -1
  }

  predicate IsLetter(c: char) {
    LetterDigit(c) >= 0
  }

  /** Looking a character up in the alphabet gives its digit: A to H stand for 0 to
      7, I for 8 and Z for 9, and every other character is not found. */
  lemma FindInAlphabet(c: char)
    ensures Find(Alphabet, c) == LetterDigit(c)
    ensures IsLetter(c) <==> c in Alphabet
  {
    if IsLetter(c) {
      FindFirstLetters();
      FindLastLetters();
    } else {
      assert c !in Alphabet;
    }
  }

  /** `find` over the alphabet for each of its letters. */
  lemma FindFirstLetters()
    ensures Find(Alphabet, 'A') == 0 && Find(Alphabet, 'B') == 1 && Find(Alphabet, 'C') == 2
    ensures Find(Alphabet, 'D') == 3 && Find(Alphabet, 'E') == 4
  {
  }

  lemma FindLastLetters()
    ensures Find(Alphabet, 'F') == 5 && Find(Alphabet, 'G') == 6 && Find(Alphabet, 'H') == 7
    ensures Find(Alphabet, 'I') == 8 && Find(Alphabet, 'Z') == 9
  {
  }

  /** What one letter contributes to the digit string, `str(s.find(c))` (see
      `FindInAlphabet`). */
  function Piece(c: char): string {
    IntToString(LetterDigit(c))
  }

  /** The digit string after the loop: the pieces of all letters, in order. */
  function Spelled(src: string): string {
    if src == [] then "" else Spelled(src[..|src| - 1]) + Piece(src[|src| - 1])
  }

  /** `_decrypt(src)`: None for None; otherwise `int(dst) >> 3`, where `int` raises
      ValueError unless `dst` is a well-formed integer. Python's `>> 3` rounds toward
      negative infinity, as Dafny's division by 8 does. */
  function Decrypted(src: Option<string>): Result<Option<int>> {
    match src
    case None => Ok(None)
    case Some(s) =>
      match ParseInt(Spelled(s))
      case None => Raised(ValueError)
      case Some(v) => Ok(Some(v / 8))
  }

  /** `_decrypt`, building the digit string in a loop. */
  method Decrypt(src: Option<string>) returns (r: Result<Option<int>>)
    ensures src.None? ==> r == Ok(None)
    ensures r == Decrypted(src)
  {
    if src.None? {
      return Ok(None);
    }
    var s := src.value;
    var dst := "";
    var i := 0;
    while i < |s|
      invariant 0 <= i <= |s|
      invariant dst == Spelled(s[..i])
    {
      assert s[..i + 1][..i] == s[..i];
      FindInAlphabet(s[i]);
      dst := dst + IntToString(Find(Alphabet, s[i]));
      i := i + 1;
    }
    assert s[..i] == s;
    var n := ParseInt(dst);
    if n.None? {
      return Raised(ValueError);
    }
    r := Ok(Some(n.value / 8));
  }

  /** The number a string of alphabet letters spells. */
  function LettersValue(s: string): nat
    requires forall i :: 0 <= i < |s| ==> IsLetter(s[i])
  {
    if s == [] then 0
    else
      assert IsLetter(s[|s| - 1]);
      LettersValue(s[..|s| - 1]) * 10 + LetterDigit(s[|s| - 1])
  }

  lemma PieceOfLetter(c: char)
    requires IsLetter(c)
    ensures Piece(c) == [DigitChar(LetterDigit(c))]
  {
  }

  /** For letters only, the digit string is the letters' digits. */
  lemma {:induction false} SpelledLetterDigits(s: string)
    requires forall i :: 0 <= i < |s| ==> IsLetter(s[i])
    ensures |Spelled(s)| == |s| && AllDigits(Spelled(s))
  {
    if s != [] {
      var init := s[..|s| - 1];
      SpelledLetterDigits(init);
      PieceOfLetter(s[|s| - 1]);
      assert Spelled(s) == Spelled(init) + [DigitChar(LetterDigit(s[|s| - 1]))];
    }
  }

  lemma {:induction false} SpelledLetters(s: string)
    requires forall i :: 0 <= i < |s| ==> IsLetter(s[i])
    ensures |Spelled(s)| == |s| && AllDigits(Spelled(s)) && DigitsValue(Spelled(s)) == LettersValue(s)
  {
    SpelledLetterDigits(s);
    if s != [] {
      var init := s[..|s| - 1];
      SpelledLetters(init);
      PieceOfLetter(s[|s| - 1]);
      var d := Spelled(s);
      assert d == Spelled(init) + [DigitChar(LetterDigit(s[|s| - 1]))];
      assert d[..|d| - 1] == Spelled(init);
    }
  }

  /** A non-empty string of alphabet letters decodes to the number it spells,
      divided by 8 and rounded down. */
  lemma DecryptLetters(s: string)
    requires s != [] && forall i :: 0 <= i < |s| ==> IsLetter(s[i])
    ensures Decrypted(Some(s)) == Ok(Some(LettersValue(s) / 8))
  {
    SpelledLetters(s);
    var d := Spelled(s);
    assert IsDigit(d[0]);
    assert ParseInt(d) == Some(DigitsValue(d));
  }

  /** "GEA" spells 640, the port 80. */
  lemma DecryptExample()
    ensures Decrypted(Some("GEA")) == Ok(Some(80))
  {
    var g, ge, gea := "G", "GE", "GEA";
    assert gea[..2] == ge && ge[..1] == g && g[..0] == "";
    assert LetterDigit('G') == 6 && LetterDigit('E') == 4 && LetterDigit('A') == 0;
    assert forall i :: 0 <= i < |gea| ==> IsLetter(gea[i]) by {
      assert gea[0] == 'G' && gea[1] == 'E' && gea[2] == 'A';
    }
    assert LettersValue(g) == 6;
    assert LettersValue(ge) == 64;
    assert LettersValue(gea) == 640;
    DecryptLetters(gea);
  }

  lemma PieceOfNonLetter(c: char)
    requires !IsLetter(c)
    ensures Piece(c) == "-1"
  {
    assert NatToString(1) == [DigitChar(1)];
  }

  /** Decoding raises ValueError exactly when the string is empty or a letter after
      the first is outside the alphabet (its "-1" then sits inside the number). An
      unknown first letter only makes the number negative. */
  lemma DecryptRaises(s: string)
    ensures Decrypted(Some(s)).Raised? <==> s == [] || exists i :: 0 < i < |s| && !IsLetter(s[i])
    ensures Decrypted(Some(s)).Raised? ==> Decrypted(Some(s)).error == ValueError
  {
    if s != [] {
      if exists i :: 0 < i < |s| && !IsLetter(s[i]) {
        var i :| 0 < i < |s| && !IsLetter(s[i]);
        MissDoesNotParse(s, i);
      } else {
        assert forall i :: 0 <= i < |s[1..]| ==> IsLetter(s[1..][i]) by {
          assert forall i :: 0 <= i < |s[1..]| ==> s[1..][i] == s[i + 1];
        }
        SpelledFront(s);
        TailLettersParse(s[0], s[1..]);
      }
    }
  }

  lemma MissDoesNotParse(s: string, i: nat)
    requires 0 < i < |s| && !IsLetter(s[i])
    ensures ParseInt(Spelled(s)) == None
  {
    var tail := s[1..];
    assert tail[i - 1] == s[i];
    var k := MinusAfterFirst(tail, i - 1);
    var p, t := Piece(s[0]), Spelled(tail);
    SpelledFront(s);
    assert Spelled(s) == p + t;
    MinusInside(p, t, k);
  }

  /** A minus sign inside the second part of a digit string with a non-empty
      first part is not at its front. */
  lemma MinusInside(p: string, t: string, k: nat)
    requires |p| >= 1 && k < |t| && t[k] == '-'
    ensures ParseInt(p + t) == None
  {
    assert (p + t)[|p| + k] == '-';
    MinusBlocksParse(p + t, |p| + k);
  }

  /** A minus sign after the first character makes `int` fail. */
  lemma MinusBlocksParse(d: string, k: nat)
    requires 1 <= k < |d| && d[k] == '-'
    ensures ParseInt(d) == None
  {
    assert !IsDigit(d[k]);
    assert !IsDigit(d[1..][k - 1]);
  }

  lemma TailLettersParse(c: char, tail: string)
    requires forall i :: 0 <= i < |tail| ==> IsLetter(tail[i])
    ensures ParseInt(Piece(c) + Spelled(tail)).Some?
  {
    SpelledLetterDigits(tail);
    if IsLetter(c) {
      LetterThenDigitsParse(c, Spelled(tail));
    } else {
      MissThenDigitsParse(c, Spelled(tail));
    }
  }

  lemma LetterThenDigitsParse(c: char, t: string)
    requires AllDigits(t) && IsLetter(c)
    ensures ParseInt(Piece(c) + t).Some?
  {
    PieceOfLetter(c);
    DigitsParse([DigitChar(LetterDigit(c))] + t);
  }

  lemma MissThenDigitsParse(c: char, t: string)
    requires AllDigits(t) && !IsLetter(c)
    ensures ParseInt(Piece(c) + t).Some?
  {
    PieceOfNonLetter(c);
    NegativeParses("1" + t);
    assert "-" + ("1" + t) == "-1" + t;
  }

  /** A first letter outside the alphabet, followed by letters only, decodes to a
      negative number: its piece "-1" becomes the sign. */
  lemma LeadingMissNegative(s: string)
    requires s != [] && !IsLetter(s[0]) && forall i :: 0 < i < |s| ==> IsLetter(s[i])
    ensures Decrypted(Some(s)).Ok? && Decrypted(Some(s)).value.Some? && Decrypted(Some(s)).value.value < 0
  {
    var tail := s[1..];
    assert forall i :: 0 <= i < |tail| ==> IsLetter(tail[i]) by {
      assert forall i :: 0 <= i < |tail| ==> tail[i] == s[i + 1];
    }
    SpelledFront(s);
    SpelledLetterDigits(tail);
    NegativeValue(s[0], Spelled(tail));
  }

  lemma NegativeValue(c: char, t: string)
    requires AllDigits(t) && !IsLetter(c)
    ensures ParseInt(Piece(c) + t).Some? && ParseInt(Piece(c) + t).value < 0
  {
    PieceOfNonLetter(c);
    var d := "1" + t;
    assert "-" + d == "-1" + t;
    assert ("-" + d)[1..] == d;
    LeadingOneValue(d);
  }

  lemma {:induction false} LeadingOneValue(d: string)
    requires d != [] && AllDigits(d) && d[0] == '1'
    ensures DigitsValue(d) >= 1
  {
    if |d| > 1 {
      LeadingOneValue(d[..|d| - 1]);
    } else {
      assert d[..0] == [];
    }
  }

  lemma DigitsParse(d: string)
    requires d != [] && AllDigits(d)
    ensures ParseInt(d).Some?
  {
    assert IsDigit(d[0]);
  }

  lemma NegativeParses(d: string)
    requires d != [] && AllDigits(d)
    ensures ParseInt("-" + d).Some?
  {
    assert ("-" + d)[1..] == d;
  }

  lemma {:induction false} SpelledFront(s: string)
    requires s != []
    ensures Spelled(s) == Piece(s[0]) + Spelled(s[1..])
    decreases |s|
  {
    if |s| == 1 {
      assert s[1..] == [] && s[..0] == [];
    } else {
      var init := s[..|s| - 1];
      assert init[0] == s[0] && init[1..] == s[1..][..|s| - 2];
      SpelledFront(init);
    }
  }

  /** An alphabet miss at position `i` puts a minus sign into the digit string. */
  lemma {:induction false} MinusAfterFirst(s: string, i: nat) returns (k: nat)
    requires i < |s| && !IsLetter(s[i])
    ensures k < |Spelled(s)| && Spelled(s)[k] == '-'
    decreases |s|
  {
    var init := s[..|s| - 1];
    assert Spelled(s) == Spelled(init) + Piece(s[|s| - 1]);
    if i == |s| - 1 {
      PieceOfNonLetter(s[i]);
      k := |Spelled(init)|;
    } else {
      assert init[i] == s[i];
      k := MinusAfterFirst(init, i);
    }
  }
}
