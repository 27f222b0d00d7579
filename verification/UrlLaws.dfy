/**
 * What library/util.cpp's urlencode, urldecode and form parser do, byte by byte and pair by pair, told
 * by tables of characters.
 */
module UrlLaws {
  import opened Bytes
  import opened DataBuffers
  import opened UrlCodec
  import opened Alphabet

  const SPACE: Byte := ' ' as int
  const MARKS: string := "-_.!~*'()"

  // ----- tables -----

  /** A digit or a letter of either case, told by its place: 'A' and 'a' are ten. */
  ghost predicate Stands(b: Byte, x: nat) {
    || (x < 10 && b == DIGITS[x] as int)
    || (10 <= x < 36 && (b == UPPER[x - 10] as int || b == LOWER[x - 10] as int))
  }

  lemma ValueIsItsPlace(b: Byte, x: nat)
    requires Stands(b, x)
    ensures DigitValue(b) == x
    ensures b != PERCENT && b != PLUS && b != AMP && b != EQUALS
  {
    hide UPPER, LOWER, DIGITS;
    assert |DIGITS| == 10 && |UPPER| == 26 && |LOWER| == 26 by { Lengths(); }
    if x < 10 {
      DigitAt(x);
    } else {
      UpperAt(x - 10);
      LowerAt(x - 10);
    }
  }

  /** The digits urlencode writes are those of the tables, in upper case. */
  lemma HexDigitStands(x: nat)
    requires x < 16
    ensures HexDigit(x) == (if x < 10 then DIGITS[x] else UPPER[x - 10]) as int
    ensures Stands(HexDigit(x), x)
  {
    if x < 10 {
      DigitAt(x);
    } else {
      UpperAt(x - 10);
    }
    hide UPPER, LOWER, DIGITS;
  }

  ghost predicate Unreserved(b: Byte) {
    b < 128 && var c := b as char; c in UPPER || c in LOWER || c in DIGITS || c in MARKS
  }

  /** What urlencode writes for a byte: the byte itself exactly when the tables have it. */
  lemma EncodedByte(b: Byte)
    ensures Unreserved(b) ==> Encode([b]) == [b]
    ensures !Unreserved(b) ==>
              exists h: Byte, l: Byte ::
                && Stands(h, b / 16) && Stands(l, b % 16)
                && IsUpperDigit(h) && IsUpperDigit(l)
                && Encode([b]) == [PERCENT, h, l]
  {
    assert Encode([b]) == EncodeByte(b) by { EncodeOne(b); }
    hide Encode;
    UnreservedTable(b);
    if !Unreserved(b) {
      HexDigitStands(b / 16);
      HexDigitStands(b % 16);
      assert Encode([b]) == [PERCENT, HexDigit(b / 16), HexDigit(b % 16)];
    }
    hide Unreserved, Stands, HexDigit;
  }

  ghost predicate IsUpperDigit(b: Byte) {
    '0' as int <= b <= '9' as int || 'A' as int <= b <= 'F' as int
  }

  lemma EncodeOne(b: Byte)
    ensures Encode([b]) == EncodeByte(b)
  {
    assert [b][1..] == [];
    assert Encode([b]) == EncodeByte(b) + Encode([]);
  }

  /** And byte by byte. */
  lemma {:induction false} EncodeConcat(a: Bytes, b: Bytes)
    ensures Encode(a + b) == Encode(a) + Encode(b)
  {
    hide EncodeByte;
    if a == [] {
      assert a + b == b;
    } else {
      assert (a + b)[1..] == a[1..] + b;
      EncodeConcat(a[1..], b);
      Associates(EncodeByte(a[0]), Encode(a[1..]), Encode(b));
    }
  }

  lemma UnreservedTable(b: Byte)
    ensures IsAlnum(b) || IsMark(b) <==> Unreserved(b)
  {
    hide UPPER, LOWER;
    if b < 128 {
      InUpper(b as char);
      InLower(b as char);
    }
  }

  // ----- decoding -----

  /** Behind text whose escapes are complete, what one token decodes to stands alone. */
  lemma DecodeToken(a: Bytes, t: Bytes, v: Byte, b: Bytes)
    requires Complete(a)
    requires t != [] && Token(t + b) == (v, |t|)
    ensures Decode(a + t + b) == Decode(a) + [v] + Decode(b)
  {
    hide Complete, Token;
    Associates(a, t, b);
    DecodeConcat(a, t + b);
    assert (t + b)[|t|..] == b;
    assert Decode(t + b) == [v] + Decode(b);
    Associates(Decode(a), [v], Decode(b));
  }

  /** A plus sign is a space. */
  lemma DecodePlus(a: Bytes, b: Bytes)
    requires Complete(a)
    ensures Decode(a + [PLUS] + b) == Decode(a) + [SPACE] + Decode(b)
  {
    DecodeToken(a, [PLUS], SPACE, b);
  }

  /** Any byte but a plus or a percent sign is itself. */
  lemma DecodePlain(a: Bytes, d: Byte, b: Bytes)
    requires Complete(a) && d != PLUS && d != PERCENT
    ensures Decode(a + [d] + b) == Decode(a) + [d] + Decode(b)
  {
    DecodeToken(a, [d], d, b);
  }

  /** A percent sign and two digits of either case are the byte of that value; letters behind 'F'
      count on, and what does not fit a byte wraps. */
  lemma DecodeHex(a: Bytes, h: Byte, x: nat, l: Byte, y: nat, b: Bytes)
    requires Complete(a) && Stands(h, x) && Stands(l, y)
    ensures Decode(a + [PERCENT, h, l] + b) == Decode(a) + [(16 * x + y) % 256] + Decode(b)
    ensures x < 16 && y < 16 ==> (16 * x + y) % 256 == 16 * x + y
  {
    hide Stands, Decode, DecodeEscape, Complete;
    EscapeValue(h, x, l, y);
    assert Token([PERCENT, h, l] + b) == (DecodeEscape(h, l), 3);
    DecodeToken(a, [PERCENT, h, l], (16 * x + y) % 256, b);
  }

  lemma EscapeValue(h: Byte, x: nat, l: Byte, y: nat)
    requires Stands(h, x) && Stands(l, y)
    ensures DecodeEscape(h, l) == (16 * x + y) % 256
  {
    ValueIsItsPlace(h, x);
    ValueIsItsPlace(l, y);
    hide Stands, DigitValue;
  }

  /** A percent sign with fewer than two bytes behind it stays. */
  lemma DecodeShort(a: Bytes, t: Bytes)
    requires Complete(a) && |t| < 2
    ensures Decode(a + [PERCENT] + t) == Decode(a) + [PERCENT] + Decode(t)
  {
    DecodeToken(a, [PERCENT], PERCENT, t);
  }

  // ----- whatever a client writes -----

  /** The ways to write a byte in a form: itself, unless it means something there, '+' for a space,
      or an escape in digits of either case. */
  ghost predicate Writes(t: Bytes, b: Byte) {
    || (t == [b] && b != PERCENT && b != PLUS && b != AMP && b != EQUALS)
    || (t == [PLUS] && b == SPACE)
    || (|t| == 3 && t[0] == PERCENT && Stands(t[1], b / 16) && Stands(t[2], b % 16))
  }

  /** A text that writes s, each byte in any of the ways. */
  ghost predicate Spells(t: Bytes, s: Bytes)
    decreases |s|
  {
    if s == [] then t == []
    else exists n | 1 <= n <= |t| :: Writes(t[..n], s[0]) && Spells(t[n..], s[1..])
  }

  /** What urlencode writes is one such text. */
  lemma {:induction false} EncodeSpells(s: Bytes)
    ensures Spells(Encode(s), s)
  {
    hide EncodeByte, Writes;
    if s != [] {
      var e, t := EncodeByte(s[0]), Encode(s);
      EncodeByteWrites(s[0]);
      EncodeSpells(s[1..]);
      assert t[..|e|] == e && t[|e|..] == Encode(s[1..]);
      assert e != [] by { assert !Writes([], s[0]) by { NothingWrites(s[0]); } }
    }
  }

  lemma NothingWrites(b: Byte)
    ensures !Writes([], b)
  {
    hide Stands;
  }

  lemma EncodeByteWrites(b: Byte)
    ensures Writes(EncodeByte(b), b)
  {
    HexDigitStands(b / 16);
    HexDigitStands(b % 16);
    hide Stands, HexDigit;
  }

  lemma WrittenToken(t: Bytes, b: Byte, rest: Bytes)
    requires Writes(t, b)
    ensures t != [] && Decode(t + rest) == [b] + Decode(rest)
    ensures AMP !in t && EQUALS !in t
  {
    hide Stands;
    assert Complete([]) by { NothingIsComplete(); }
    assert Decode([]) == [];
    assert [] + t + rest == t + rest && [] + [b] + Decode(rest) == [b] + Decode(rest);
    if t == [b] && b != PERCENT && b != PLUS {
      DecodePlain([], b, rest);
    } else if t == [PLUS] && b == SPACE {
      DecodePlus([], rest);
    } else {
      assert t == [PERCENT, t[1], t[2]];
      ValueIsItsPlace(t[1], b / 16);
      ValueIsItsPlace(t[2], b % 16);
      DecodeHex([], t[1], b / 16, t[2], b % 16, rest);
    }
  }

  /** urldecode gives back what was written, whichever ways the client chose. */
  lemma {:induction false} SpelledIsRead(t: Bytes, s: Bytes)
    requires Spells(t, s)
    ensures Decode(t) == s
    ensures AMP !in t && EQUALS !in t
    ensures t == [] <==> s == []
    decreases |s|
  {
    hide Writes, Decode;
    if s == [] {
      assert Decode([]) == [] by { UrlRoundTrip([]); }
    } else {
      var n :| 1 <= n <= |t| && Writes(t[..n], s[0]) && Spells(t[n..], s[1..]);
      assert t == t[..n] + t[n..];
      WrittenToken(t[..n], s[0], t[n..]);
      SpelledIsRead(t[n..], s[1..]);
    }
  }

  // ----- forms -----

  /** A separator cuts a form in two, wherever it stands. */
  lemma {:induction false} FormConcat(a: Bytes, b: Bytes)
    ensures ParseForm(a + [AMP] + b) == ParseForm(a) + ParseForm(b)
    decreases |a|
  {
    hide Cut, ParsePair;
    var s := a + [AMP] + b;
    if AMP !in a {
      CutAtFirst(a, AMP, b);
      assert a == [] ==> ParsePair(a) == [] by { ParseNothing(); }
      assert ParseForm([]) == [];
    } else {
      var i: nat := Search(a, [AMP]);
      FoundAt(a, AMP);
      var x, y := a[..i], a[i + 1..];
      assert a == x + [AMP] + y && s == x + [AMP] + (y + [AMP] + b);
      CutAtFirst(x, AMP, y);
      CutAtFirst(x, AMP, y + [AMP] + b);
      FormConcat(y, b);
      Associates(ParsePair(x), ParseForm(y), ParseForm(b));
    }
  }

  lemma FoundAt(s: Bytes, d: Byte)
    requires d in s
    ensures var i := Search(s, [d]); i < |s| && s[i] == d && d !in s[..i]
  {
    hide Search;
    var j :| 0 <= j < |s| && s[j] == d;
    assert OccursAt(s, [d], j) by { assert s[j..j + 1] == [d]; }
    var i := Search(s, [d]);
    assert s[i] == d by { assert OccursAt(s, [d], i); assert s[i..i + 1][0] == s[i]; }
    forall k | 0 <= k < i
      ensures s[..i][k] != d
    {
      assert !OccursAt(s, [d], k);
      assert s[k..k + 1] == [s[k]];
    }
  }

  lemma ParseNothing()
    ensures ParsePair([]) == []
  {
    CutAtFirst([], EQUALS, []);
  }

  /** Between separators a text is one pair, cut at its first equals sign, unless its name is empty;
      without one its value is empty. */
  lemma OnePair(k: Bytes, v: Bytes)
    requires AMP !in k && AMP !in v && EQUALS !in k
    ensures ParseForm(k + [EQUALS] + v) == if k == [] then [] else [(Decode(k), Decode(v))]
    ensures ParseForm(k) == if k == [] then [] else [(Decode(k), [])]
  {
    hide Cut, Decode;
    var s := k + [EQUALS] + v;
    CutAtFirst(s, AMP, []);
    CutAtFirst(k, AMP, []);
    CutAtFirst(k, EQUALS, v);
    assert Decode([]) == [] by { UrlRoundTrip([]); }
    assert ParseForm([]) == [];
  }

  /** A form as any client may write it: each pair is two texts that spell its name and value. */
  ghost predicate SpellsPair(t: Bytes, p: Pair) {
    exists n | 0 <= n < |t| :: t[n] == EQUALS && Spells(t[..n], p.0) && Spells(t[n + 1..], p.1)
  }

  function Joined(texts: seq<Bytes>): Bytes {
    if texts == [] then [] else if |texts| == 1 then texts[0] else texts[0] + [AMP] + Joined(texts[1..])
  }

  lemma SpelledPair(t: Bytes, p: Pair)
    requires SpellsPair(t, p)
    ensures ParseForm(t) == if p.0 == [] then [] else [p]
  {
    hide Spells, Decode, ParseForm;
    var n :| 0 <= n < |t| && t[n] == EQUALS && Spells(t[..n], p.0) && Spells(t[n + 1..], p.1);
    SpelledIsRead(t[..n], p.0);
    SpelledIsRead(t[n + 1..], p.1);
    assert t == t[..n] + [EQUALS] + t[n + 1..];
    OnePair(t[..n], t[n + 1..]);
  }

  /** Whatever ways a client chose to write its pairs, those with a name are read, in order. */
  lemma {:induction false} FormIsRead(texts: seq<Bytes>, pairs: seq<Pair>)
    requires |texts| == |pairs|
    requires forall i | 0 <= i < |texts| :: SpellsPair(texts[i], pairs[i])
    ensures ParseForm(Joined(texts)) == KeepNamed(pairs)
  {
    hide SpellsPair, ParseForm;
    if texts == [] {
      assert ParseForm([]) == [] by { OnePair([], []); }
    } else {
      assert SpellsPair(texts[0], pairs[0]);
      SpelledPair(texts[0], pairs[0]);
      if |texts| == 1 {
        assert KeepNamed(pairs[1..]) == [];
      } else {
        assert forall i | 0 <= i < |texts[1..]| :: SpellsPair(texts[1..][i], pairs[1..][i]);
        FormIsRead(texts[1..], pairs[1..]);
        FormConcat(texts[0], Joined(texts[1..]));
      }
    }
  }
}
