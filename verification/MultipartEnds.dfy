/**
 * When library/parser.cpp's parseMultipart does not return, and when it refuses a body, told by the
 * bytes alone.
 */
module MultipartEnds {
  import opened Bytes
  import opened Buffers
  import opened DataBuffers
  import opened Multipart
  import opened MultipartHeaders
  import opened MultipartRoundTrip

  // ----- what stands between boundaries -----

  predicate EndsLine(x: Bytes) {
    x != [] && x[|x| - 1] == LF
  }

  /** x without its last line end. */
  function Inner(x: Bytes): Bytes
    requires EndsLine(x)
  {
    if |x| >= 2 && x[|x| - 2] == CR then x[..|x| - 2] else x[..|x| - 1]
  }

  /** x begins with a line end, and after that ends with another. */
  predicate IsFramed(x: Bytes) {
    EndsLine(x) && (CRLF <= Inner(x) || [LF] <= Inner(x))
  }

  predicate IsClosing(x: Bytes) {
    x == DASHES + CRLF || x == DASHES + [LF]
  }

  /** The parser goes on behind x. */
  predicate Passes(x: Bytes) {
    x == [] || IsFramed(x)
  }

  lemma InnerIsDashes(x: Bytes)
    requires EndsLine(x)
    ensures Inner(x) == DASHES <==> IsClosing(x)
  {
    assert x == x[..|x| - 1] + [LF];
    if |x| >= 2 {
      assert x == x[..|x| - 2] + [x[|x| - 2], LF];
    }
  }

  /** A closing stretch is two dashes and a line end, nothing else. */
  lemma ClosingIff(text: Bytes, head: View)
    requires InText(text, head)
    ensures Classify(text, head).Closing? <==> IsClosing(Shows(text, head))
  {
    var x := Shows(text, head);
    assert IsClosing(x) ==> EndsLine(x);
    if x != [] {
      LineEnd(text, head);
      if EndsLine(x) {
        InnerIsDashes(x);
        InnerShows(text, head);
        BeginsWith(text, TrimN(head, 0, |x| - |Inner(x)|), DASHES);
      }
    }
  }

  lemma ClosingDoesNotPass(x: Bytes)
    ensures IsClosing(x) ==> !Passes(x)
  {
    if IsClosing(x) {
      assert EndsLine(x);
      InnerIsDashes(x);
      assert DASHES[0] != CR && DASHES[0] != LF;
    }
  }

  /** What stands in front of a boundary, by its bytes. */
  lemma ClassifyByBytes(text: Bytes, head: View)
    requires InText(text, head)
    ensures var c, x := Classify(text, head), Shows(text, head);
            && (c.Skip? || c.PartAt? <==> Passes(x))
            && (c.Closing? <==> IsClosing(x))
  {
    hide IsClosing;
    var x := Shows(text, head);
    ClosingIff(text, head);
    ClosingDoesNotPass(x);
    if x != [] {
      LineEnd(text, head);
      if EndsLine(x) && !Classify(text, head).Closing? {
        FramedByBytes(text, head);
      }
    }
  }

  lemma FramedByBytes(text: Bytes, head: View)
    requires InText(text, head) && EndsLine(Shows(text, head)) && !Classify(text, head).Closing?
    ensures Classify(text, head).Broken? <==> !IsFramed(Shows(text, head))
  {
    hide Inner;
    var x := Shows(text, head);
    var e := |x| - |Inner(x)|;
    LineEnd(text, head);
    InnerShows(text, head);
    var h := TrimN(head, 0, e);
    BeginsWith(text, h, CRLF);
    BeginsWith(text, h, [LF]);
  }

  lemma InnerShows(text: Bytes, head: View)
    requires InText(text, head) && EndsLine(Shows(text, head))
    ensures var x := Shows(text, head);
            var e := |x| - |Inner(x)|;
            var h := TrimN(head, 0, e);
            (e == 1 || e == 2) && Shows(text, h) == Inner(x)
  {
    var x := Shows(text, head);
    var e := |x| - |Inner(x)|;
    assert TrimN(head, 0, e) == (head.0, head.1 - e);
    SliceOfSlice(text, head.0, head.1, 0, |x| - e);
  }

  lemma LineEnd(text: Bytes, head: View)
    requires InText(text, head) && head.0 < head.1
    ensures var x := Shows(text, head);
            && (EndsWith(text, head, CRLF) || EndsWith(text, head, [LF]) <==> EndsLine(x))
            && (EndsLine(x) ==> (EndsWith(text, head, CRLF) <==> |x| - |Inner(x)| == 2))
  {
  }

  lemma BeginsWith(text: Bytes, v: View, p: Bytes)
    requires InText(text, v)
    ensures StartsWith(text, v, p) <==> p <= Shows(text, v)
  {
    if |p| <= v.1 - v.0 {
      SliceOfSlice(text, v.0, v.1, 0, |p|);
    }
  }

  // ----- the whole body -----

  /** The boundary is not met before the end of x. */
  predicate Before(x: Bytes, boundary: Bytes) {
    Search(x + boundary, boundary) == |x|
  }

  /** Each text with a boundary behind it. */
  function Joined(xs: seq<Bytes>, boundary: Bytes): Bytes {
    if xs == [] then [] else xs[0] + boundary + Joined(xs[1..], boundary)
  }

  /** Cut at its boundaries s is xs, x and rest, and the parser comes to x. */
  ghost predicate ComesTo(s: Bytes, boundary: Bytes, xs: seq<Bytes>, x: Bytes, rest: Bytes) {
    && s == Joined(xs, boundary) + (x + boundary + rest)
    && (forall y | y in xs :: Before(y, boundary) && Passes(y))
    && Before(x, boundary)
  }

  /** The parser comes to something in front of a boundary behind which it does not go on: to a
      closing delimiter, or to what it refuses. */
  ghost predicate StopsAt(s: Bytes, boundary: Bytes, closing: bool) {
    exists xs, x, rest :: ComesTo(s, boundary, xs, x, rest) && !Passes(x) && IsClosing(x) == closing
  }

  lemma FoundBehind(x: Bytes, boundary: Bytes, rest: Bytes)
    requires boundary != []
    ensures Before(x, boundary) <==> Search(x + boundary + rest, boundary) == |x|
  {
    hide Search;
    var s, t := x + boundary + rest, x + boundary;
    assert s[..|t|] == t && s[0..|t|] == t;
    assert s[|x|..|x| + |boundary|] == boundary == t[|x|..|x| + |boundary|];
    forall i | 0 <= i < |x|
      ensures OccursAt(s, boundary, i) <==> OccursAt(t, boundary, i)
    {
      OccursInSlice(s, 0, |t|, boundary, i);
    }
    if Before(x, boundary) {
      LeftmostIsSearch(s, boundary, |x|);
    }
    if Search(s, boundary) == |x| {
      LeftmostIsSearch(t, boundary, |x|);
    }
  }

  /** Where the parser comes to, one boundary on. */
  lemma StopsBehind(a: Bytes, boundary: Bytes, r: Bytes, closing: bool)
    requires boundary != [] && Before(a, boundary)
    ensures StopsAt(a + boundary + r, boundary, closing) <==>
            if Passes(a) then StopsAt(r, boundary, closing) else IsClosing(a) == closing
  {
    hide Search, Passes, IsClosing;
    var s := a + boundary + r;
    FoundBehind(a, boundary, r);
    if StopsAt(s, boundary, closing) {
      var xs, x, rest :| ComesTo(s, boundary, xs, x, rest) && !Passes(x) && IsClosing(x) == closing;
      FirstCut(a, boundary, r, xs, x, rest);
    }
    if Passes(a) && StopsAt(r, boundary, closing) {
      var xs, x, rest :| ComesTo(r, boundary, xs, x, rest) && !Passes(x) && IsClosing(x) == closing;
      Prepend(a, boundary, r, xs, x, rest);
    }
    if !Passes(a) {
      assert ComesTo(s, boundary, [], a, r);
    }
  }

  lemma FirstCut(a: Bytes, boundary: Bytes, r: Bytes, xs: seq<Bytes>, x: Bytes, rest: Bytes)
    requires boundary != [] && Before(a, boundary) && ComesTo(a + boundary + r, boundary, xs, x, rest)
    ensures if xs == [] then x == a else xs[0] == a && ComesTo(r, boundary, xs[1..], x, rest)
  {
    hide Search, Passes, Before;
    var s := a + boundary + r;
    FoundBehind(a, boundary, r);
    if xs == [] {
      assert s == x + boundary + rest;
      FoundBehind(x, boundary, rest);
      assert a == s[..|a|] == x;
    } else {
      var more := Joined(xs[1..], boundary) + (x + boundary + rest);
      assert s == xs[0] + boundary + more;
      FoundBehind(xs[0], boundary, more);
      assert a == s[..|a|] == xs[0];
      assert r == s[|a| + |boundary|..] == more;
      assert forall y | y in xs[1..] :: y in xs;
    }
  }

  lemma Prepend(a: Bytes, boundary: Bytes, r: Bytes, xs: seq<Bytes>, x: Bytes, rest: Bytes)
    requires Before(a, boundary) && Passes(a) && ComesTo(r, boundary, xs, x, rest)
    ensures ComesTo(a + boundary + r, boundary, [a] + xs, x, rest)
  {
    hide Before, Passes;
    assert ([a] + xs)[1..] == xs;
    assert a + boundary + (Joined(xs, boundary) + (x + boundary + rest)) ==
           (a + boundary + Joined(xs, boundary)) + (x + boundary + rest);
  }

  lemma OccursThere(a: Bytes, boundary: Bytes, r: Bytes)
    requires boundary != []
    ensures Search(a + boundary + r, boundary) < |a + boundary + r|
  {
    var s := a + boundary + r;
    assert s[|a|..|a| + |boundary|] == boundary;
    assert OccursAt(s, boundary, |a|);
  }

  /** Without a boundary there is nothing to stop at. */
  lemma NoBoundaryNoStop(s: Bytes, boundary: Bytes, closing: bool)
    requires boundary != [] && Search(s, boundary) == |s|
    ensures !StopsAt(s, boundary, closing)
  {
    hide Search, Passes, IsClosing, Before;
    if StopsAt(s, boundary, closing) {
      var xs, x, rest :| ComesTo(s, boundary, xs, x, rest) && !Passes(x) && IsClosing(x) == closing;
      assert s == Joined(xs, boundary) + x + boundary + rest;
      OccursThere(Joined(xs, boundary) + x, boundary, rest);
      assert false;
    }
  }

  /**
   * On any bytes: the parser hangs exactly when, cut at its boundaries, the body has nothing but
   * parts and empty texts up to a closing delimiter in front of a boundary; it refuses exactly when
   * they lead to something else.
   */
  lemma {:induction false} EndsUnlessClosedEarly(backing: Backing, text: Bytes, data: View, boundary: Bytes, found: Found)
    requires InText(text, data) && boundary != []
    ensures var s, r := Shows(text, data), Body(backing, text, data, boundary, found);
            (r.Diverges? <==> StopsAt(s, boundary, true)) && (r.Malformed? <==> StopsAt(s, boundary, false))
    decreases data.1 - data.0
  {
    hide Part, Classify, Search, StopsAt, Passes, IsClosing;
    var s := Shows(text, data);
    if Search(s, boundary) == |s| {
      NoBoundaryNoStop(s, boundary, true);
      NoBoundaryNoStop(s, boundary, false);
      SplitFails(text, data, boundary);
    } else {
      var at := Search(s, boundary);
      var a, r := s[..at], s[at + |boundary|..];
      assert s == a + boundary + r;
      SplitShows(text, data, a, boundary, r);
      FoundBehind(a, boundary, r);
      var (_, head, tail) := SplitView(text, data, boundary);
      ClassifyByBytes(text, head);
      StopsBehind(a, boundary, r, true);
      StopsBehind(a, boundary, r, false);
      var c := Classify(text, head);
      var found' := if c.PartAt? then Part(backing, text, c.v, found) else found;
      EndsUnlessClosedEarly(backing, text, tail, boundary, found');
    }
  }

  // ----- bodies that a client can send -----

  /** What stands in front of the boundaries of a rendered body that goes on. */
  function Texts(eol: Eol, parts: seq<FormPart>): seq<Bytes> {
    if parts == [] then [] else [Framed(eol, RenderPart(eol, parts[0]))] + Texts(eol, parts[1..])
  }

  lemma {:induction false} TextsPass(eol: Eol, backing: Backing, boundary: Bytes, parts: seq<FormPart>)
    requires BoundaryOk(boundary) && PartsOk(eol, backing, boundary, parts)
    ensures forall x | x in Texts(eol, parts) :: Before(x, boundary) && Passes(x)
  {
    hide Search, RenderPart, PartOk, Passes;
    if parts != [] {
      var r := RenderPart(eol, parts[0]);
      assert parts[0] in parts;
      BoundaryFound(eol, boundary, r, []);
      assert Framed(eol, r) + boundary + [] == Framed(eol, r) + boundary;
      FramedPasses(eol, r);
      assert PartsOk(eol, backing, boundary, parts[1..]) by { assert forall q | q in parts[1..] :: q in parts; }
      TextsPass(eol, backing, boundary, parts[1..]);
    }
  }

  lemma FramedPasses(eol: Eol, r: Bytes)
    ensures Passes(Framed(eol, r))
  {
    var x := Framed(eol, r);
    match eol
    case CrLf =>
      assert Inner(x) == CRLF + r;
    case Lf =>
      assert Inner(x)[0] == LF;
  }

  lemma DashesBefore(eol: Eol, boundary: Bytes)
    requires BoundaryOk(boundary)
    ensures Before(DASHES + eol.Text(), boundary)
  {
    hide Search;
    var x := DASHES + eol.Text();
    var s := x + boundary;
    assert s[|x| - 1] == LF && (s[2] == CR || s[2] == LF);
    forall i | 0 <= i < |x|
      ensures !OccursAt(s, boundary, i)
    {
      if OccursAt(s, boundary, i) {
        NotOverLineEnd(s, boundary, i, 2);
        NotOverLineEnd(s, boundary, i, |x| - 1);
        assert false;
      }
    }
    assert s[|x|..|x| + |boundary|] == boundary;
    LeftmostIsSearch(s, boundary, |x|);
  }

  /**
   * Any well-formed parts, the closing delimiter, and then one more boundary: the parser hangs,
   * whatever follows.
   */
  lemma ClosedEarlyHangs(
    eol: Eol, backing: Backing, text: Bytes, data: View, boundary: Bytes, parts: seq<FormPart>, rest: Bytes, found: Found)
    requires InText(text, data) && BoundaryOk(boundary) && PartsOk(eol, backing, boundary, parts)
    requires Shows(text, data) ==
             boundary + Joined(Texts(eol, parts), boundary) + (DASHES + eol.Text() + boundary + rest)
    ensures Body(backing, text, data, boundary, found).Diverges?
  {
    hide Search, Body, Passes, PartsOk, Joined, IsClosing, Before, RenderPart;
    var x := DASHES + eol.Text();
    EndsUnlessClosedEarly(backing, text, data, boundary, found);
    TextsPass(eol, backing, boundary, parts);
    DashesBefore(eol, boundary);
    assert IsClosing(x) by { IsClosingText(eol); }
    ClosingDoesNotPass(x);
    NothingBefore(boundary);
    FirstBoundary(boundary, Texts(eol, parts));
    assert ComesTo(Shows(text, data), boundary, [[]] + Texts(eol, parts), x, rest);
  }

  lemma IsClosingText(eol: Eol)
    ensures IsClosing(DASHES + eol.Text())
  {
  }

  lemma FirstBoundary(boundary: Bytes, xs: seq<Bytes>)
    ensures Joined([[]] + xs, boundary) == boundary + Joined(xs, boundary)
  {
    assert ([[]] + xs)[1..] == xs;
    assert [] + boundary == boundary;
  }

  lemma NothingBefore(boundary: Bytes)
    requires boundary != []
    ensures Before([], boundary) && Passes([])
  {
    hide Search;
    assert [] + boundary == boundary && boundary[0..|boundary|] == boundary;
    LeftmostIsSearch(boundary, boundary, 0);
  }

  /** The smallest such body. */
  lemma SmallestHang()
    ensures var text := Ascii("--b--") + CRLF + Ascii("--b");
            Body(Memory, text, (0, |text|), Ascii("--b"), Found([], [])).Diverges?
  {
    hide Body;
    var boundary := Ascii("--b");
    var text := Ascii("--b--") + CRLF + Ascii("--b");
    assert boundary == [45, 45, 98];
    assert Ascii("--b--") == [45, 45, 98, 45, 45];
    assert text == boundary + Joined(Texts(CrLf, []), boundary) + (DASHES + CRLF + boundary + []);
    assert Shows(text, (0, |text|)) == text;
    ClosedEarlyHangs(CrLf, Memory, text, (0, |text|), boundary, [], [], Found([], []));
  }
}
