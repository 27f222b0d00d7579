/** The letters and digits of ASCII, as tables. */
module Alphabet {
  const UPPER: string := "ABCDEFGHIJKLMNOPQRSTUVWXYZ"
  const LOWER: string := "abcdefghijklmnopqrstuvwxyz"
  const DIGITS: string := "0123456789"

  lemma UpperAt(i: nat)
    requires i < 26
    ensures UPPER[i] == 'A' + i as char
  {
    var t := "ABCDEFGHIJKLMNOPQRSTUVWXYZ";
    assert t[i] == 'A' + i as char;
  }

  lemma LowerAt(i: nat)
    requires i < 26
    ensures LOWER[i] == 'a' + i as char
  {
    var t := "abcdefghijklmnopqrstuvwxyz";
    assert t[i] == 'a' + i as char;
  }

  lemma DigitAt(i: nat)
    requires i < 10
    ensures DIGITS[i] == '0' + i as char
  {
    var t := "0123456789";
    assert t[i] == '0' + i as char;
  }

  lemma Lengths()
    ensures |DIGITS| == 10 && |UPPER| == 26 && |LOWER| == 26
  {
  }

  lemma InUpper(c: char)
    ensures c in UPPER <==> 'A' <= c <= 'Z'
  {
    if 'A' <= c <= 'Z' {
      UpperAt((c - 'A') as int);
    }
  }

  lemma InLower(c: char)
    ensures c in LOWER <==> 'a' <= c <= 'z'
  {
    if 'a' <= c <= 'z' {
      LowerAt((c - 'a') as int);
    }
  }

  lemma InDigits(c: char)
    ensures c in DIGITS <==> '0' <= c <= '9'
  {
  }
}
