/**
 * library/util.cpp: percent-encoding over the unreserved marks of section 2.3 of RFC 2396, its
 * decoder on flat and on segmented text, and name/value pairs as section 17.13.4.1 of HTML 4.01
 * writes them.
 */
module UrlCodec {
  import opened Bytes
  import opened MMapFiles
  import opened DataBuffers

  const PERCENT: Byte := '%' as int
  const PLUS: Byte := '+' as int
  const AMP: Byte := '&' as int
  const EQUALS: Byte := '=' as int

  // ----- encoding -----

  predicate IsAlnum(b: Byte) {
    '0' as int <= b <= '9' as int || 'A' as int <= b <= 'Z' as int || 'a' as int <= b <= 'z' as int
  }

  predicate IsMark(b: Byte) {
    || b == '-' as int || b == '_' as int || b == '.' as int || b == '!' as int || b == '~' as int
    || b == '*' as int || b == '(' as int || b == ')' as int || b == '\'' as int
  }

  /** A hexadecimal digit in upper case. */
  function HexDigit(n: nat): (b: Byte)
    requires n < 16
    ensures '0' as int <= b <= '9' as int || 'A' as int <= b <= 'F' as int
  {
    if n > 9 then n + ('A' as int - 10) else n + '0' as int
  }

  function EncodeByte(b: Byte): Bytes {
    if IsAlnum(b) || IsMark(b) then [b] else [PERCENT, HexDigit(b / 16), HexDigit(b % 16)]
  }

  function Encode(s: Bytes): Bytes {
    if s == [] then [] else EncodeByte(s[0]) + Encode(s[1..])
  }

  method UrlEncode(range: Bytes) returns (result: Bytes)
    ensures result == Encode(range)
  {
    hide IsAlnum, IsMark, Encode, HexDigit;
    result := [];
    EncodeStep(range, 0);
    for i := 0 to |range|
      invariant result + Encode(range[i..]) == Encode(range)
    {
      var symbol := range[i];
      ghost var before, rest := result, Encode(range[i + 1..]);
      EncodeStep(range, i);
      if IsAlnum(symbol) {
        result := result + [symbol];
      } else if IsMark(symbol) {
        result := result + [symbol];
      } else {
        result := result + [PERCENT, HexDigit(symbol / 16), HexDigit(symbol % 16)];
      }
      assert result == before + EncodeByte(symbol);
      Associates(before, EncodeByte(symbol), rest);
    }
    EncodeStep(range, |range|);
  }

  lemma EncodeStep(s: Bytes, i: nat)
    requires i <= |s|
    ensures i < |s| ==> Encode(s[i..]) == EncodeByte(s[i]) + Encode(s[i + 1..])
    ensures i == |s| ==> Encode(s[i..]) == []
    ensures i == 0 ==> s[i..] == s
  {
    if i < |s| {
      assert s[i..][1..] == s[i + 1..];
    }
  }

  // ----- decoding -----

  /** A byte as a signed char. */
  function SignedChar(b: Byte): int {
    if b < 128 then b else b - 256
  }

  /** What one character contributes as a hexadecimal digit; any character contributes something.
      From 'A' on, bit 0x20 is cleared, which turns lower case into upper case. */
  function DigitValue(b: Byte): int {
    var c := SignedChar(b);
    if c >= 'A' as int then (if c >= 96 then c - 32 else c) - 'A' as int + 10 else c - '0' as int
  }

  function DecodeEscape(f: Byte, s: Byte): Byte {
    (DigitValue(f) * 16 + DigitValue(s)) % 256
  }

  /** What the next token decodes to, and how long it is: an escape needs two bytes behind it. */
  function Token(s: Bytes): (r: (Byte, nat))
    requires s != []
    ensures 1 <= r.1 <= |s|
  {
    if s[0] == PERCENT && |s| > 2 then (DecodeEscape(s[1], s[2]), 3)
    else (if s[0] == PLUS then ' ' as int else s[0], 1)
  }

  function Decode(s: Bytes): Bytes {
    if s == [] then [] else [Token(s).0] + Decode(s[Token(s).1..])
  }

  lemma DecodeStep(s: Bytes, i: nat)
    requires i <= |s|
    ensures i < |s| ==> var (b, n) := Token(s[i..]); i + n <= |s| && Decode(s[i..]) == [b] + Decode(s[i + n..])
    ensures i == |s| ==> Decode(s[i..]) == []
    ensures i == 0 ==> s[i..] == s
  {
    if i < |s| {
      assert s[i..][Token(s[i..]).1..] == s[i + Token(s[i..]).1..];
    }
  }

  /** urldecode(range, result): appends what the range decodes to. */
  method UrlDecode(range: Bytes, before: Bytes) returns (result: Bytes)
    ensures result == before + Decode(range)
  {
    hide Decode, DecodeEscape;
    result := before;
    var i := 0;
    DecodeStep(range, 0);
    while i < |range|
      invariant i <= |range|
      invariant result + Decode(range[i..]) == before + Decode(range)
    {
      DecodeStep(range, i);
      ghost var sofar := result;
      ghost var (b, n) := Token(range[i..]);
      Associates(sofar, [b], Decode(range[i + n..]));
      if range[i] == PLUS {
        result := result + [' ' as int];
      } else if range[i] == PERCENT && |range| - i > 2 {
        result := result + [DecodeEscape(range[i + 1], range[i + 2])];
        i := i + 2;
      } else {
        result := result + [range[i]];
      }
      i := i + 1;
      assert result == sofar + [b];
    }
    DecodeStep(range, |range|);
  }

  lemma DecodeEncodedByte(b: Byte, rest: Bytes)
    ensures Decode(EncodeByte(b) + rest) == [b] + Decode(rest)
  {
    var e := EncodeByte(b) + rest;
    if IsAlnum(b) || IsMark(b) {
      assert e[1..] == rest;
    } else {
      EscapeIsExact(b);
      assert Token(e) == (b, 3);
      assert e[3..] == rest;
    }
  }

  /** The round trip, with anything behind. */
  lemma {:induction false} DecodeEncode(s: Bytes, t: Bytes)
    ensures Decode(Encode(s) + t) == s + Decode(t)
  {
    hide EncodeByte, Decode;
    if s == [] {
      assert Encode(s) + t == t;
      assert s + Decode(t) == Decode(t);
    } else {
      var rest := Encode(s[1..]);
      Associates(EncodeByte(s[0]), rest, t);
      DecodeEncodedByte(s[0], rest + t);
      DecodeEncode(s[1..], t);
      Associates([s[0]], s[1..], Decode(t));
      assert [s[0]] + s[1..] == s;
    }
  }

  lemma EscapeIsExact(b: Byte)
    ensures DecodeEscape(HexDigit(b / 16), HexDigit(b % 16)) == b
  {
    assert DigitValue(HexDigit(b / 16)) == b / 16;
    assert DigitValue(HexDigit(b % 16)) == b % 16;
  }

  /** urldecode undoes urlencode on every byte string. */
  lemma UrlRoundTrip(s: Bytes)
    ensures Decode(Encode(s)) == s
  {
    DecodeEncode(s, []);
    assert Encode(s) + [] == Encode(s);
    assert s + Decode([]) == s;
  }

  /** Encoded text has no separator in it, and is empty only for the empty string. */
  lemma {:induction false} EncodedHasNoSeparators(s: Bytes)
    ensures AMP !in Encode(s) && EQUALS !in Encode(s)
    ensures Encode(s) == [] <==> s == []
  {
    if s != [] {
      EncodedHasNoSeparators(s[1..]);
      assert AMP !in EncodeByte(s[0]) && EQUALS !in EncodeByte(s[0]);
    }
  }

  // ----- decoding segment by segment -----

  /** Each piece decoded on its own. */
  function DecodePieces(pieces: seq<Bytes>): Bytes {
    if pieces == [] then [] else Decode(pieces[0]) + DecodePieces(pieces[1..])
  }

  /** Every percent sign has the two bytes behind it that an escape takes. */
  ghost predicate Complete(s: Bytes) {
    forall i | 0 <= i < |s| && s[i] == PERCENT :: i + 2 < |s|
  }

  /** Only the last piece may end in the middle of an escape. */
  ghost predicate CutsCleanly(pieces: seq<Bytes>) {
    forall k | 0 <= k < |pieces| - 1 :: Complete(pieces[k])
  }

  lemma {:induction false} DecodeConcat(a: Bytes, b: Bytes)
    requires Complete(a)
    ensures Decode(a + b) == Decode(a) + Decode(b)
  {
    hide DecodeEscape;
    if a == [] {
      assert a + b == b;
    } else {
      var (x, n) := Token(a);
      assert Token(a + b) == (x, n);
      assert (a + b)[n..] == a[n..] + b;
      CompleteSuffix(a, n);
      DecodeConcat(a[n..], b);
      Associates([x], Decode(a[n..]), Decode(b));
    }
  }

  lemma CompleteSuffix(s: Bytes, n: nat)
    requires Complete(s) && n <= |s|
    ensures Complete(s[n..])
  {
    forall i | 0 <= i < |s[n..]| && s[n..][i] == PERCENT
      ensures i + 2 < |s[n..]|
    {
      assert s[n + i] == PERCENT;
    }
  }

  /** Clean cuts do not show. */
  lemma {:induction false} CleanCutsDecodeFlat(pieces: seq<Bytes>)
    requires CutsCleanly(pieces)
    ensures DecodePieces(pieces) == Decode(Concat(pieces))
  {
    if |pieces| == 1 {
      assert DecodePieces(pieces[1..]) == [] && pieces[0] + Concat(pieces[1..]) == pieces[0];
    } else if |pieces| > 1 {
      assert Complete(pieces[0]);
      assert forall k | 0 <= k < |pieces[1..]| - 1 :: pieces[1..][k] == pieces[k + 1];
      CleanCutsDecodeFlat(pieces[1..]);
      DecodeConcat(pieces[0], Concat(pieces[1..]));
    }
  }

  /** Text in which every percent sign begins an escape, and escapes do not overlap. */
  ghost predicate Escaped(s: Bytes) {
    Complete(s) && Spaced(s)
  }

  ghost predicate Spaced(s: Bytes) {
    forall i, j | 0 <= i < j < |s| && j < i + 3 :: !(s[i] == PERCENT && s[j] == PERCENT)
  }

  lemma EscapedConcat(a: Bytes, b: Bytes)
    requires Escaped(a) && Escaped(b)
    ensures Escaped(a + b)
  {
    var s := a + b;
    forall i | 0 <= i < |s| && s[i] == PERCENT
      ensures i + 2 < |s|
    {
      assert i >= |a| ==> b[i - |a|] == PERCENT;
    }
    forall i, j | 0 <= i < j < |s| && j < i + 3
      ensures !(s[i] == PERCENT && s[j] == PERCENT)
    {
      assert i >= |a| ==> b[i - |a|] == s[i] && b[j - |a|] == s[j];
      assert j < |a| ==> a[i] == s[i] && a[j] == s[j];
    }
  }

  /** urlencode writes escaped text. */
  lemma {:induction false} EncodeIsEscaped(s: Bytes)
    ensures Escaped(Encode(s))
  {
    if s != [] {
      assert Escaped(EncodeByte(s[0]));
      EncodeIsEscaped(s[1..]);
      EscapedConcat(EncodeByte(s[0]), Encode(s[1..]));
    }
  }

  /** How many percent signs, and how many of them an escape's length before the end. */
  function Percents(s: Bytes): nat {
    if s == [] then 0 else (if s[0] == PERCENT then 1 else 0) + Percents(s[1..])
  }

  function Escapes(s: Bytes): nat {
    if s == [] then 0 else (if s[0] == PERCENT && |s| > 2 then 1 else 0) + Escapes(s[1..])
  }

  /** Each escape decoded is two bytes fewer. */
  lemma {:induction false} DecodedLength(s: Bytes)
    requires Spaced(s)
    ensures |Decode(s)| + 2 * Escapes(s) == |s|
  {
    if s != [] {
      if s[0] == PERCENT && |s| > 2 {
        assert s[1] != PERCENT && s[2] != PERCENT;
        assert s[1..][1..] == s[2..] && s[2..][1..] == s[3..];
        assert Escapes(s[1..]) == Escapes(s[2..]) == Escapes(s[3..]);
        SpacedSuffix(s, 3);
        DecodedLength(s[3..]);
      } else {
        SpacedSuffix(s, 1);
        DecodedLength(s[1..]);
      }
    }
  }

  lemma SpacedSuffix(s: Bytes, n: nat)
    requires Spaced(s) && n <= |s|
    ensures Spaced(s[n..])
  {
    forall i, j | 0 <= i < j < |s[n..]| && j < i + 3
      ensures !(s[n..][i] == PERCENT && s[n..][j] == PERCENT)
    {
      assert s[n..][i] == s[n + i] && s[n..][j] == s[n + j];
    }
  }

  lemma {:induction false} EscapesCountPercents(s: Bytes)
    ensures Escapes(s) <= Percents(s)
    ensures Escapes(s) == Percents(s) <==> Complete(s)
  {
    if s != [] {
      EscapesCountPercents(s[1..]);
      if Complete(s) {
        assert forall i | 0 <= i < |s[1..]| && s[1..][i] == PERCENT :: s[i + 1] == PERCENT;
      } else if !(s[0] == PERCENT && |s| <= 2) {
        var i :| 0 <= i < |s| && s[i] == PERCENT && i + 2 >= |s|;
        assert s[1..][i - 1] == PERCENT;
      }
    }
  }

  lemma {:induction false} PercentsConcat(a: Bytes, b: Bytes)
    ensures Percents(a + b) == Percents(a) + Percents(b)
  {
    if a == [] {
      assert a + b == b;
    } else {
      assert (a + b)[1..] == a[1..] + b;
      PercentsConcat(a[1..], b);
    }
  }

  /** Decoded piecewise, the text is longer by two for every escape that a cut goes through. */
  lemma {:induction false} PiecewiseLength(pieces: seq<Bytes>)
    requires Spaced(Concat(pieces))
    ensures |DecodePieces(pieces)| + 2 * Percents(Concat(pieces)) >= |Concat(pieces)|
    ensures |DecodePieces(pieces)| + 2 * Percents(Concat(pieces)) == |Concat(pieces)|
            <==> forall k | 0 <= k < |pieces| :: Complete(pieces[k])
  {
    if pieces != [] {
      var a, b := pieces[0], Concat(pieces[1..]);
      SpacedParts(a, b);
      PiecewiseLength(pieces[1..]);
      DecodedLength(a);
      EscapesCountPercents(a);
      PercentsConcat(a, b);
      assert forall k | 0 <= k < |pieces| :: k == 0 || pieces[k] == pieces[1..][k - 1];
      assert forall k | 0 <= k < |pieces[1..]| :: pieces[1..][k] == pieces[k + 1];
    }
  }

  lemma SpacedParts(a: Bytes, b: Bytes)
    requires Spaced(a + b)
    ensures Spaced(a) && Spaced(b)
  {
    SpacedSuffix(a + b, |a|);
    assert (a + b)[|a|..] == b;
    forall i, j | 0 <= i < j < |a| && j < i + 3
      ensures !(a[i] == PERCENT && a[j] == PERCENT)
    {
      assert (a + b)[i] == a[i] && (a + b)[j] == a[j];
    }
  }

  /** On escaped text, decoding piece by piece is flat decoding exactly when no cut goes through
      an escape. */
  lemma PiecewiseIsFlatIff(pieces: seq<Bytes>)
    requires Escaped(Concat(pieces))
    ensures DecodePieces(pieces) == Decode(Concat(pieces)) <==> CutsCleanly(pieces)
  {
    var s := Concat(pieces);
    PiecewiseLength(pieces);
    DecodedLength(s);
    EscapesCountPercents(s);
    if CutsCleanly(pieces) {
      CleanCutsDecodeFlat(pieces);
    }
  }

  /** No percent sign has a window boundary among the two bytes behind it, inside the view. */
  ghost predicate NoEscapeAcross(text: Bytes, w: nat, lo: nat, hi: nat)
    requires 0 < w && hi <= |text|
  {
    forall i | lo <= i < hi && text[i] == PERCENT ::
      i + 2 < FloorTo(i, w) + w || hi <= FloorTo(i, w) + w
  }

  /** The pieces of a view in a store, each segment decoded by itself: urldecode(DataBuffer). */
  function DecodeView(text: Bytes, c: Cutting, lo: nat, hi: nat): Bytes
    requires (c.Every? ==> 0 < c.window) && lo <= hi <= |text|
  {
    DecodePieces(Pieces(text, c, lo, hi))
  }

  /** Positions of one window round down to the same boundary. */
  lemma SameWindow(i: nat, lo: nat, w: nat)
    requires 0 < w && lo <= i < FloorTo(lo, w) + w
    ensures FloorTo(i, w) == FloorTo(lo, w)
  {
    DivModUnique(i, w, lo / w, i - lo / w * w);
  }

  lemma CutsCleanlyCons(a: Bytes, rest: seq<Bytes>)
    ensures CutsCleanly([a] + rest) <==> rest == [] || (Complete(a) && CutsCleanly(rest))
  {
    hide Complete;
    var all := [a] + rest;
    if CutsCleanly(all) && rest != [] {
      assert Complete(all[0]);
      forall k | 0 <= k < |rest| - 1
        ensures Complete(rest[k])
      {
        assert rest[k] == all[k + 1];
      }
    }
    if rest != [] && Complete(a) && CutsCleanly(rest) {
      forall k | 0 <= k < |all| - 1
        ensures Complete(all[k])
      {
        assert k > 0 ==> all[k] == rest[k - 1];
      }
    }
  }

  /** The window boundaries cut the text cleanly exactly when no escape reaches over one. */
  lemma {:induction false} WindowsCutCleanlyIff(text: Bytes, w: nat, lo: nat, hi: nat)
    requires 0 < w && lo <= hi <= |text|
    ensures CutsCleanly(Pieces(text, Every(w), lo, hi)) <==> NoEscapeAcross(text, w, lo, hi)
    decreases hi - lo
  {
    hide CutsCleanly, Complete, FloorTo, NoEscapeAcross;
    if lo == hi {
      NothingAcross(text, w, lo, hi);
    } else {
      var mid := CutEnd(Every(w), lo, hi);
      var rest := Pieces(text, Every(w), mid, hi);
      CutsCleanlyCons(text[lo..mid], rest);
      if mid == hi {
        NothingAcross(text, w, lo, hi);
      } else {
        WindowsCutCleanlyIff(text, w, mid, hi);
        FirstPieceComplete(text, w, lo, mid, hi);
      }
    }
  }

  /** A view inside one window is not cut at all. */
  lemma NothingAcross(text: Bytes, w: nat, lo: nat, hi: nat)
    requires 0 < w && lo <= hi <= |text| && (hi == lo || hi <= FloorTo(lo, w) + w)
    ensures NoEscapeAcross(text, w, lo, hi)
    ensures CutsCleanly([])
  {
    forall i | lo <= i < hi
      ensures FloorTo(i, w) == FloorTo(lo, w)
    {
      SameWindow(i, lo, w);
    }
  }

  lemma FirstPieceComplete(text: Bytes, w: nat, lo: nat, mid: nat, hi: nat)
    requires 0 < w && lo < mid < hi <= |text| && mid == FloorTo(lo, w) + w
    ensures NoEscapeAcross(text, w, lo, hi) <==> Complete(text[lo..mid]) && NoEscapeAcross(text, w, mid, hi)
  {
    forall i | lo <= i < mid
      ensures FloorTo(i, w) == FloorTo(lo, w)
    {
      SameWindow(i, lo, w);
    }
    if NoEscapeAcross(text, w, lo, hi) {
      forall i | 0 <= i < mid - lo && text[lo..mid][i] == PERCENT
        ensures i + 2 < mid - lo
      {
        assert text[lo + i] == PERCENT;
      }
    }
    if Complete(text[lo..mid]) && NoEscapeAcross(text, w, mid, hi) {
      forall i | lo <= i < hi && text[i] == PERCENT
        ensures i + 2 < FloorTo(i, w) + w || hi <= FloorTo(i, w) + w
      {
        assert i < mid ==> text[lo..mid][i - lo] == PERCENT;
      }
    }
  }

  /** Segmented decoding of a file's text agrees with flat decoding when no escape reaches over a
      window boundary; on escaped text, exactly then. */
  lemma SegmentedDecodeIsFlat(text: Bytes, w: nat, lo: nat, hi: nat)
    requires 0 < w && lo <= hi <= |text|
    ensures NoEscapeAcross(text, w, lo, hi) ==> DecodeView(text, Every(w), lo, hi) == Decode(text[lo..hi])
    ensures Escaped(text[lo..hi]) ==>
              (DecodeView(text, Every(w), lo, hi) == Decode(text[lo..hi]) <==> NoEscapeAcross(text, w, lo, hi))
  {
    var pieces := Pieces(text, Every(w), lo, hi);
    PiecesAreTheView(text, Every(w), lo, hi);
    WindowsCutCleanlyIff(text, w, lo, hi);
    if CutsCleanly(pieces) {
      CleanCutsDecodeFlat(pieces);
    }
    if Escaped(text[lo..hi]) {
      PiecewiseIsFlatIff(pieces);
    }
  }

  /** On what urlencode wrote, then, segmented decoding is right exactly then. */
  lemma EncodedDecodesIff(text: Bytes, w: nat, lo: nat, hi: nat, s: Bytes)
    requires 0 < w && lo <= hi <= |text| && text[lo..hi] == Encode(s)
    ensures DecodeView(text, Every(w), lo, hi) == s <==> NoEscapeAcross(text, w, lo, hi)
  {
    hide Encode, Decode, DecodeView, NoEscapeAcross, Escaped;
    EncodeIsEscaped(s);
    UrlRoundTrip(s);
    SegmentedDecodeIsFlat(text, w, lo, hi);
  }

  /** For every window: an escaped letter A whose percent sign is the last byte of a window stays
      undecoded. */
  lemma StraddledEscape(text: Bytes, w: nat)
    requires 0 < w && w + 2 <= |text| && text[w - 1..w + 2] == Ascii("%41")
    ensures Decode(text[w - 1..w + 2]) == Ascii("A")
    ensures DecodeView(text, Every(w), w - 1, w + 2) != Decode(text[w - 1..w + 2])
  {
    hide DecodeView;
    var s := text[w - 1..w + 2];
    assert Ascii("%41") == [37, 52, 49] && Ascii("A") == [65];
    assert Decode([37, 52, 49]) == [65];
    assert Escaped(s);
    assert text[w - 1] == s[0] == PERCENT;
    DivModUnique(w - 1, w, 0, w - 1);
    assert FloorTo(w - 1, w) == 0;
    SegmentedDecodeIsFlat(text, w, w - 1, w + 2);
  }

  /** urldecode(DataBuffer): segment by segment. */
  method UrlDecodeBuffer(data: DataBuffer) returns (result: Bytes)
    requires data.Valid() && (data.impl.OnDisk? ==> 0 < data.impl.f.window)
    ensures result == DecodeView(data.impl.Contents(), data.impl.Cutting(), data.begin, data.end)
  {
    hide Decode, CutEnd, Segments, DecodePieces;
    ghost var text, c := data.impl.Contents(), data.impl.Cutting();
    result := [];
    var it := new SegmentIterator(data);
    ghost var walked, pos := it.buffer, data.begin;
    ghost var all := DecodePieces(Pieces(text, c, data.begin, data.end));
    while !it.ended
      invariant it.Valid() && it.buffer == walked
      invariant !it.ended ==> walked.impl.Contents() == text && walked.end == data.end && walked.impl.Cutting() == c
      invariant !it.ended && walked.impl.OnDisk? ==> fresh(walked.impl.f.file)
      invariant pos <= data.end && (if it.ended then pos == data.end else pos == it.posBegin)
      invariant result + DecodePieces(Pieces(text, c, pos, data.end)) == all
      decreases !it.ended, data.end - it.posBegin
    {
      ghost var sofar, end := result, it.posEnd;
      var chunk := it.Current();
      result := UrlDecode(chunk, result);
      DecodeFirstPiece(text, c, pos, data.end);
      Associates(sofar, Decode(chunk), DecodePieces(Pieces(text, c, end, data.end)));
      pos := end;
      it.Next();
    }
    assert DecodePieces([]) == [] by { DecodeNoPieces(); }
  }

  lemma DecodeNoPieces()
    ensures DecodePieces([]) == []
  {
  }

  lemma DecodeFirstPiece(text: Bytes, c: Cutting, lo: nat, hi: nat)
    requires (c.Every? ==> 0 < c.window) && lo < hi <= |text|
    ensures DecodePieces(Pieces(text, c, lo, hi)) ==
            Decode(text[lo..CutEnd(c, lo, hi)]) + DecodePieces(Pieces(text, c, CutEnd(c, lo, hi), hi))
  {
    hide Decode, CutEnd;
    assert Pieces(text, c, lo, hi)[1..] == Pieces(text, c, CutEnd(c, lo, hi), hi);
  }

  // ----- name/value pairs -----

  type Pair = (Bytes, Bytes)

  function ParsePair(head: Bytes): seq<Pair> {
    var (key, value) := Cut(head, EQUALS);
    if key == [] then [] else [(Decode(key), Decode(value))]
  }

  function ParseForm(s: Bytes): seq<Pair>
    decreases |s|
  {
    if s == [] then [] else ParsePair(Cut(s, AMP).0) + ParseForm(Cut(s, AMP).1)
  }

  /** StringUtils::parse on a flat range: appends the pairs to v. */
  method ParseRange(range: Bytes, v: seq<Pair>) returns (r: seq<Pair>)
    ensures r == v + ParseForm(range)
  {
    hide Search, Decode, ParsePair;
    r := v;
    var tmp := range;
    while tmp != []
      invariant r + ParseForm(tmp) == v + ParseForm(range)
      decreases |tmp|
    {
      var (head, tail) := Cut(tmp, AMP);
      Associates(r, ParsePair(head), ParseForm(tail));
      var pair := DecodePair(head);
      r := r + pair;
      tmp := tail;
    }
    assert r + [] == r;
  }

  /** One turn of the loop: a pair without a name is dropped. */
  method DecodePair(head: Bytes) returns (r: seq<Pair>)
    ensures r == ParsePair(head)
  {
    hide Search, Decode;
    var (key, value) := Cut(head, EQUALS);
    if key == [] {
      return [];
    }
    var k := UrlDecode(key, []);
    var x := UrlDecode(value, []);
    assert [] + Decode(key) == Decode(key) && [] + Decode(value) == Decode(value);
    return [(k, x)];
  }

  /** Pairs as a client writes them. */
  function Render(pairs: seq<Pair>): Bytes {
    if pairs == [] then []
    else if |pairs| == 1 then RenderPair(pairs[0])
    else RenderPair(pairs[0]) + [AMP] + Render(pairs[1..])
  }

  function RenderPair(p: Pair): Bytes {
    Encode(p.0) + [EQUALS] + Encode(p.1)
  }

  function KeepNamed(pairs: seq<Pair>): seq<Pair> {
    if pairs == [] then [] else (if pairs[0].0 == [] then [] else [pairs[0]]) + KeepNamed(pairs[1..])
  }

  lemma ParseRenderedPair(p: Pair)
    ensures ParsePair(RenderPair(p)) == if p.0 == [] then [] else [p]
    ensures AMP !in RenderPair(p) && RenderPair(p) != []
  {
    hide Encode, Decode;
    EncodedHasNoSeparators(p.0);
    EncodedHasNoSeparators(p.1);
    CutAtFirst(Encode(p.0), EQUALS, Encode(p.1));
    UrlRoundTrip(p.0);
    UrlRoundTrip(p.1);
  }

  /** The round trip of pairs: what is rendered is parsed back, less the pairs without a name. */
  lemma {:induction false} FormRoundTrip(pairs: seq<Pair>)
    ensures ParseForm(Render(pairs)) == KeepNamed(pairs)
  {
    hide Encode, Decode, Cut, RenderPair, ParsePair;
    if pairs != [] {
      var p := RenderPair(pairs[0]);
      ParseRenderedPair(pairs[0]);
      CutAtFirst(p, AMP, Render(pairs[1..]));
      if |pairs| == 1 {
        assert pairs[1..] == [];
      } else {
        FormRoundTrip(pairs[1..]);
      }
    }
  }

  /** The same parser on a view of a store, each name and value decoded segment by segment. */
  function FormOfView(text: Bytes, c: Cutting, v: (nat, nat)): seq<Pair>
    requires (c.Every? ==> 0 < c.window) && v.0 <= v.1 <= |text|
    decreases v.1 - v.0
  {
    if v.0 == v.1 then []
    else
      var (_, head, tail) := SplitView(text, v, [AMP]);
      PairOfView(text, c, head) + FormOfView(text, c, tail)
  }

  function PairOfView(text: Bytes, c: Cutting, head: (nat, nat)): seq<Pair>
    requires (c.Every? ==> 0 < c.window) && head.0 <= head.1 <= |text|
  {
    var (_, key, value) := SplitView(text, head, [EQUALS]);
    if key.0 == key.1 then [] else [(DecodeView(text, c, key.0, key.1), DecodeView(text, c, value.0, value.1))]
  }

  lemma NoEscapeAcrossPart(text: Bytes, w: nat, v: (nat, nat), part: (nat, nat))
    requires 0 < w && v.1 <= |text| && NoEscapeAcross(text, w, v.0, v.1)
    requires part.0 == part.1 || (v.0 <= part.0 && part.1 <= v.1)
    requires part.1 <= |text|
    ensures NoEscapeAcross(text, w, part.0, part.1)
  {
  }

  /** Pairs read from a file are the pairs a flat reader finds, when no escape reaches over a
      window boundary; read from memory they always are. */
  lemma {:induction false} SegmentedFormIsFlat(text: Bytes, c: Cutting, v: (nat, nat))
    requires (c.Every? ==> 0 < c.window) && v.0 <= v.1 <= |text|
    requires c.Every? ==> NoEscapeAcross(text, c.window, v.0, v.1)
    ensures FormOfView(text, c, v) == ParseForm(text[v.0..v.1])
    decreases v.1 - v.0
  {
    hide Search, Decode, Cut, NoEscapeAcross, DecodeView;
    if v.0 < v.1 {
      var (_, head, tail) := SplitView(text, v, [AMP]);
      var (_, key, value) := SplitView(text, head, [EQUALS]);
      SplitViewIsCut(text, v, AMP);
      SplitViewIsCut(text, head, EQUALS);
      DecodeViewIsFlat(text, c, v, key);
      DecodeViewIsFlat(text, c, v, value);
      if c.Every? {
        NoEscapeAcrossPart(text, c.window, v, tail);
      }
      SegmentedFormIsFlat(text, c, tail);
    }
  }

  /** Where no percent sign stands, a text may be cut in two without harm to its escapes. */
  lemma AcrossParts(text: Bytes, w: nat, lo: nat, a: nat, hi: nat)
    requires 0 < w && lo <= a < hi <= |text| && text[a] != PERCENT
    requires Complete(text[lo..a]) && Complete(text[a + 1..hi])
    ensures NoEscapeAcross(text, w, lo, hi) <==> NoEscapeAcross(text, w, lo, a) && NoEscapeAcross(text, w, a + 1, hi)
  {
    hide FloorTo;
    forall i | lo <= i < a && text[i] == PERCENT
      ensures i + 2 < a
    {
      assert text[lo..a][i - lo] == PERCENT;
    }
  }

  ghost predicate Named(pairs: seq<Pair>) {
    forall p | p in pairs :: p.0 != []
  }

  /** The names and values of a rendered form, each where it lies. */
  lemma PairParts(text: Bytes, v: (nat, nat), p: Pair)
    requires v.0 <= v.1 <= |text| && text[v.0..v.1] == RenderPair(p)
    ensures var eq := v.0 + |Encode(p.0)|;
            && eq < v.1 && text[eq] == EQUALS
            && text[v.0..eq] == Encode(p.0) && text[eq + 1..v.1] == Encode(p.1)
            && SplitView(text, v, [EQUALS]) == (true, (v.0, eq), (eq + 1, v.1))
  {
    hide Encode;
    var k, x := Encode(p.0), Encode(p.1);
    EncodedHasNoSeparators(p.0);
    SplitParts(text, v, k, EQUALS, x);
  }

  lemma SplitParts(text: Bytes, v: (nat, nat), a: Bytes, d: Byte, b: Bytes)
    requires v.0 <= v.1 <= |text| && text[v.0..v.1] == a + [d] + b && d !in a
    ensures var at := v.0 + |a|;
            && at < v.1 && text[at] == d && text[v.0..at] == a && text[at + 1..v.1] == b
            && SplitView(text, v, [d]) == (true, (v.0, at), (at + 1, v.1))
  {
    var s := text[v.0..v.1];
    SliceOfSlice(text, v.0, v.1, 0, |a|);
    SliceOfSlice(text, v.0, v.1, |a| + 1, |s|);
    assert s[..|a|] == a && s[|a| + 1..] == b && s[|a|] == d;
    CutAtFirst(a, d, b);
    SplitViewIsCut(text, v, d);
    FirstAt(a, d, b);
  }

  lemma FirstAt(a: Bytes, d: Byte, b: Bytes)
    requires d !in a
    ensures Search(a + [d] + b, [d]) == |a|
  {
    hide Search;
    CutAtFirst(a, d, b);
  }

  /** A pair read from a file is the pair that was written exactly when no escape of its name or
      value reaches over a window boundary. */
  lemma PairIff(text: Bytes, w: nat, v: (nat, nat), p: Pair)
    requires 0 < w && v.0 <= v.1 <= |text| && text[v.0..v.1] == RenderPair(p) && p.0 != []
    ensures PairOfView(text, Every(w), v) == [p] <==> NoEscapeAcross(text, w, v.0, v.1)
    ensures |PairOfView(text, Every(w), v)| == 1
    ensures Complete(text[v.0..v.1])
  {
    hide Encode, DecodeView, NoEscapeAcross, Complete, SplitView;
    var eq := v.0 + |Encode(p.0)|;
    PairParts(text, v, p);
    EncodedHasNoSeparators(p.0);
    EncodedDecodesIff(text, w, v.0, eq, p.0);
    EncodedDecodesIff(text, w, eq + 1, v.1, p.1);
    EscapedIsComplete(Encode(p.0));
    EscapedIsComplete(Encode(p.1));
    EncodeIsEscaped(p.0);
    EncodeIsEscaped(p.1);
    CompleteJoined(Encode(p.0), EQUALS, Encode(p.1));
    AcrossParts(text, w, v.0, eq, v.1);
  }

  lemma EscapedIsComplete(s: Bytes)
    ensures Escaped(s) ==> Complete(s)
  {
  }

  lemma CompleteJoined(a: Bytes, d: Byte, b: Bytes)
    requires Complete(a) && d != PERCENT && Complete(b)
    ensures Complete(a + [d] + b)
  {
    var s := a + [d] + b;
    forall i | 0 <= i < |s| && s[i] == PERCENT
      ensures i + 2 < |s|
    {
      assert i > |a| ==> b[i - |a| - 1] == PERCENT;
    }
  }

  /** A rendered form read from a file is the form that was written exactly when none of its escapes
      reaches over a window boundary. */
  lemma {:induction false} RenderedFormIff(text: Bytes, w: nat, v: (nat, nat), pairs: seq<Pair>)
    requires 0 < w && v.0 <= v.1 <= |text| && text[v.0..v.1] == Render(pairs) && Named(pairs)
    ensures FormOfView(text, Every(w), v) == pairs <==> NoEscapeAcross(text, w, v.0, v.1)
    ensures Complete(text[v.0..v.1])
    decreases |pairs|
  {
    hide Encode, RenderPair, PairOfView, NoEscapeAcross, SplitView, Complete;
    if pairs == [] {
      NothingAcross(text, w, v.0, v.1);
      assert Complete([]) by { NothingIsComplete(); }
    } else {
      var p, rest := pairs[0], pairs[1..];
      assert p in pairs && Named(rest) by { assert forall q | q in rest :: q in pairs; }
      ParseRenderedPair(p);
      if rest == [] {
        WholeHead(text, v, RenderPair(p), AMP);
        PairIff(text, w, v, p);
        assert FormOfView(text, Every(w), v) == PairOfView(text, Every(w), v) + [];
      } else {
        var at := v.0 + |RenderPair(p)|;
        SplitParts(text, v, RenderPair(p), AMP, Render(rest));
        PairIff(text, w, (v.0, at), p);
        RenderedFormIff(text, w, (at + 1, v.1), rest);
        AcrossParts(text, w, v.0, at, v.1);
        CompleteJoined(RenderPair(p), AMP, Render(rest));
        OneMore(PairOfView(text, Every(w), (v.0, at)), FormOfView(text, Every(w), (at + 1, v.1)), pairs);
      }
    }
  }

  lemma NothingIsComplete()
    ensures Complete([])
  {
  }

  lemma OneMore(head: seq<Pair>, tail: seq<Pair>, pairs: seq<Pair>)
    requires |head| == 1 && pairs != []
    ensures head + tail == pairs <==> head == [pairs[0]] && tail == pairs[1..]
  {
    assert pairs == [pairs[0]] + pairs[1..];
    if head + tail == pairs {
      assert tail == (head + tail)[1..];
      assert head[0] == (head + tail)[0];
    }
  }

  lemma WholeHead(text: Bytes, v: (nat, nat), s: Bytes, d: Byte)
    requires v.0 <= v.1 <= |text| && text[v.0..v.1] == s && d !in s
    ensures SplitView(text, v, [d]) == (false, v, (0, 0))
  {
    hide Search;
    CutAtFirst(s, d, []);
    forall i | 0 <= i < |s|
      ensures !OccursAt(s, [d], i)
    {
      assert s[i..i + 1] == [s[i]];
    }
    LeftmostIsSearch(s, [d], |s|);
  }

  /** From memory it always is. */
  lemma FormFromMemory(text: Bytes, v: (nat, nat), pairs: seq<Pair>)
    requires v.0 <= v.1 <= |text| && text[v.0..v.1] == Render(pairs)
    ensures FormOfView(text, Whole, v) == KeepNamed(pairs)
  {
    SegmentedFormIsFlat(text, Whole, v);
    FormRoundTrip(pairs);
  }

  lemma DecodeViewIsFlat(text: Bytes, c: Cutting, v: (nat, nat), part: (nat, nat))
    requires (c.Every? ==> 0 < c.window) && v.1 <= |text| && part.0 <= part.1 <= |text|
    requires c.Every? ==> NoEscapeAcross(text, c.window, v.0, v.1)
    requires part.0 == part.1 || (v.0 <= part.0 && part.1 <= v.1)
    ensures DecodeView(text, c, part.0, part.1) == Decode(text[part.0..part.1])
  {
    hide Decode, NoEscapeAcross;
    match c
    case Every(w) =>
      NoEscapeAcrossPart(text, w, v, part);
      SegmentedDecodeIsFlat(text, w, part.0, part.1);
    case Whole =>
      PiecesAreTheView(text, c, part.0, part.1);
      CleanCutsDecodeFlat(Pieces(text, c, part.0, part.1));
  }

  /** StringUtils::parse on a buffer: appends the pairs to v. */
  method ParseBuffer(data: DataBuffer, v: seq<Pair>) returns (r: seq<Pair>)
    requires data.Valid() && (data.impl.OnDisk? ==> 0 < data.impl.f.window)
    modifies if data.impl.OnDisk? then {data.impl.f.file} else {}
    ensures data.Valid() && data.impl.Contents() == old(data.impl.Contents())
    ensures r == v + FormOfView(data.impl.Contents(), data.impl.Cutting(), (data.begin, data.end))
  {
    hide PairOfView, DecodeView;
    ghost var text, c := data.impl.Contents(), data.impl.Cutting();
    ghost var all := v + FormOfView(text, c, (data.begin, data.end));
    r := v;
    var tmp := data;
    while tmp.begin != tmp.end
      invariant tmp.Valid() && tmp.impl == data.impl && data.impl.Contents() == text
      invariant r + FormOfView(text, c, (tmp.begin, tmp.end)) == all
      decreases tmp.end - tmp.begin
    {
      var _, head, tail := tmp.Split([AMP]);
      Associates(r, PairOfView(text, c, (head.begin, head.end)), FormOfView(text, c, (tail.begin, tail.end)));
      var pair := DecodePairOfBuffer(head);
      r := r + pair;
      tmp := tail;
    }
    assert r + [] == r;
  }

  method DecodePairOfBuffer(head: DataBuffer) returns (r: seq<Pair>)
    requires head.Valid() && (head.impl.OnDisk? ==> 0 < head.impl.f.window)
    modifies if head.impl.OnDisk? then {head.impl.f.file} else {}
    ensures head.Valid() && head.impl.Contents() == old(head.impl.Contents())
    ensures r == PairOfView(head.impl.Contents(), head.impl.Cutting(), (head.begin, head.end))
  {
    hide SplitView, DecodeView;
    var _, key, value := head.Split([EQUALS]);
    if key.begin == key.end {
      return [];
    }
    var k := UrlDecodeBuffer(key);
    var x := UrlDecodeBuffer(value);
    return [(k, x)];
  }
}
