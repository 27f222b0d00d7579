/**
 * The header lines of a part, as Multipart's parser reads them: what stands in views of the store and
 * what the lines say as bytes, for lines that end in CRLF or in LF and are folded as section 2.2.3 of
 * RFC 5322 folds them.
 */
module MultipartHeaders {
  import opened Bytes
  import opened Buffers
  import opened DataBuffers
  import opened Multipart

  // ----- lines -----

  datatype Eol = CrLf | Lf {
    function Text(): Bytes {
      if CrLf? then CRLF else [LF]
    }

    function Size(): nat {
      if CrLf? then 2 else 1
    }
  }

  predicate IsBlank(b: Byte) {
    b == SPACE || b == TAB
  }

  predicate NoLineEnd(s: Bytes) {
    CR !in s && LF !in s
  }

  /** Nothing of a line end stands at i, or all of one with a space or a tab behind it. */
  predicate FoldsAt(eol: Eol, s: Bytes, i: nat)
    requires i < |s|
  {
    && (s[i] == CR ==> eol.CrLf? && i + 1 < |s| && s[i + 1] == LF)
    && (s[i] == LF ==> (eol.CrLf? ==> i > 0 && s[i - 1] == CR) && i + 1 < |s| && IsBlank(s[i + 1]))
  }

  /** Line ends stand only where the line goes on. */
  ghost predicate Folds(eol: Eol, s: Bytes) {
    forall i | 0 <= i < |s| :: FoldsAt(eol, s, i)
  }

  /** A header line with its continuations: not empty, and no continuation of the line before. */
  ghost predicate HeaderLine(eol: Eol, s: Bytes) {
    s != [] && Starts(s[0]) && Folds(eol, s)
  }

  predicate Starts(b: Byte) {
    b != CR && b != LF && !IsBlank(b)
  }

  ghost predicate AllLines(eol: Eol, lines: seq<Bytes>) {
    forall l | l in lines :: HeaderLine(eol, l)
  }

  /** Lines with line ends between them. */
  function Join(eol: Eol, lines: seq<Bytes>): Bytes {
    if lines == [] then [] else if |lines| == 1 then lines[0] else lines[0] + eol.Text() + Join(eol, lines[1..])
  }

  lemma FoldsConcat(eol: Eol, a: Bytes, b: Bytes)
    requires Folds(eol, a) && Folds(eol, b)
    ensures Folds(eol, a + b)
  {
    var s := a + b;
    forall i | 0 <= i < |s|
      ensures FoldsAt(eol, s, i)
    {
      if i < |a| {
        assert FoldsAt(eol, a, i);
      } else {
        assert FoldsAt(eol, b, i - |a|);
      }
    }
  }

  lemma FoldsSuffix(eol: Eol, s: Bytes, n: nat)
    requires Folds(eol, s) && n <= |s| && (n < |s| ==> s[n] != LF)
    ensures Folds(eol, s[n..])
  {
    forall i | 0 <= i < |s[n..]|
      ensures FoldsAt(eol, s[n..], i)
    {
      assert FoldsAt(eol, s, n + i);
    }
  }

  lemma NoLineEndFolds(eol: Eol, s: Bytes)
    requires NoLineEnd(s)
    ensures Folds(eol, s)
  {
    forall i | 0 <= i < |s|
      ensures s[i] != CR && s[i] != LF
    {
      assert s[i] in s;
    }
  }

  lemma EolFolds(eol: Eol, s: Bytes)
    requires s != [] && IsBlank(s[0]) && Folds(eol, s)
    ensures Folds(eol, eol.Text() + s)
  {
    var t := eol.Text() + s;
    forall i | 0 <= i < |t|
      ensures FoldsAt(eol, t, i)
    {
      if i >= eol.Size() {
        assert FoldsAt(eol, s, i - eol.Size());
      }
    }
  }

  /** A first physical line and any number of continuations, each of which begins with a space or a
      tab, make a header line. */
  lemma ContinuedIsHeaderLine(eol: Eol, first: Bytes, more: seq<Bytes>)
    requires NoLineEnd(first) && first != [] && Starts(first[0])
    requires forall l | l in more :: NoLineEnd(l) && l != [] && IsBlank(l[0])
    ensures HeaderLine(eol, Join(eol, [first] + more))
  {
    hide Folds;
    var lines := [first] + more;
    NoLineEndFolds(eol, first);
    if more != [] {
      ContinuationsFold(eol, more);
      assert lines[1..] == more;
      FoldsConcat(eol, first, eol.Text() + Join(eol, more));
      assert first + (eol.Text() + Join(eol, more)) == Join(eol, lines);
    }
  }

  lemma {:induction false} ContinuationsFold(eol: Eol, more: seq<Bytes>)
    requires more != []
    requires forall l | l in more :: NoLineEnd(l) && l != [] && IsBlank(l[0])
    ensures Folds(eol, eol.Text() + Join(eol, more))
  {
    hide Folds, Eol.Text;
    var l := more[0];
    assert l in more;
    NoLineEndFolds(eol, l);
    if |more| == 1 {
      EolFolds(eol, l);
    } else {
      var rest := more[1..];
      assert forall x | x in rest :: x in more;
      ContinuationsFold(eol, rest);
      FoldsConcat(eol, l, eol.Text() + Join(eol, rest));
      EolFolds(eol, l + (eol.Text() + Join(eol, rest)));
      JoinMore(eol, more);
    }
  }

  lemma JoinMore(eol: Eol, lines: seq<Bytes>)
    requires |lines| > 1
    ensures Join(eol, lines) == lines[0] + (eol.Text() + Join(eol, lines[1..]))
  {
    hide Eol.Text;
    Associates(lines[0], eol.Text(), Join(eol, lines[1..]));
  }

  // ----- header lines as bytes -----

  function StripLeft(s: Bytes): Bytes {
    if s != [] && IsSpace(s[0]) then StripLeft(s[1..]) else s
  }

  function StripRight(s: Bytes): Bytes {
    if s != [] && IsSpace(s[|s| - 1]) then StripRight(s[..|s| - 1]) else s
  }

  /** What trimming shows, for a file behind position 32: only the left side is trimmed. */
  function Strip(backing: Backing, s: Bytes): (r: Bytes)
    ensures |r| <= |s|
  {
    StripShrinks(s);
    if backing.Memory? then StripRight(StripLeft(s)) else StripLeft(s)
  }

  lemma {:induction false} StripShrinks(s: Bytes)
    ensures |StripLeft(s)| <= |s|
    ensures forall t | |t| <= |s| :: |StripRight(t)| <= |t|
  {
    StripLeftShrinks(s);
    forall t: Bytes | |t| <= |s|
      ensures |StripRight(t)| <= |t|
    {
      StripRightShrinks(t);
    }
  }

  lemma StripLeftShrinks(s: Bytes)
    ensures |StripLeft(s)| <= |s|
  {
  }

  lemma StripRightShrinks(s: Bytes)
    ensures |StripRight(s)| <= |s|
  {
  }

  function Unquote(value: Bytes): Bytes {
    if |value| <= 2 then [] else value[1..|value| - 1]
  }

  /** A name, a file name and a content type, as bytes. */
  type Labels = (Bytes, Bytes, Bytes)

  function ItemLabels(backing: Backing, head: Bytes, n: Labels): Labels {
    var (key, value) := Cut(head, EQUALS);
    if key == NAME then (Unquote(value), n.1, n.2)
    else if key == FILENAME then (n.0, Unquote(value), n.2)
    else if EqualIgnoringCase(key, CONTENT_TYPE) then (n.0, n.1, Strip(backing, value))
    else n
  }

  function LineLabels(backing: Backing, line: Bytes, n: Labels): Labels
    decreases |line|
  {
    if line == [] then n
    else
      var (head, tail) := Cut(line, SEMICOLON);
      LineLabels(backing, Strip(backing, tail), ItemLabels(backing, head, n))
  }

  /** No item of the line has one of the three keys. */
  predicate Inert(backing: Backing, line: Bytes)
    decreases |line|
  {
    line != [] ==>
      var (head, tail) := Cut(line, SEMICOLON);
      var key := Cut(head, EQUALS).0;
      && key != NAME && key != FILENAME && !EqualIgnoringCase(key, CONTENT_TYPE)
      && Inert(backing, Strip(backing, tail))
  }

  lemma {:induction false} InertSaysNothing(backing: Backing, line: Bytes, n: Labels)
    requires Inert(backing, line)
    ensures LineLabels(backing, line, n) == n
    decreases |line|
  {
    hide Cut, Strip, EqualIgnoringCase;
    if line != [] {
      InertSaysNothing(backing, Strip(backing, Cut(line, SEMICOLON).1), n);
    }
  }

  /** A view lies where the store's own trim differs from Strip in nothing. */
  predicate Placed(backing: Backing, v: View) {
    backing.File? ==> 33 <= v.0 || v.0 == v.1
  }

  lemma {:induction false} TrimLeftShows(text: Bytes, v: View)
    requires InText(text, v)
    ensures Shows(text, TrimLeft(text, v)) == StripLeft(Shows(text, v))
    decreases v.1 - v.0
  {
    if v.0 < v.1 {
      assert Shows(text, v)[1..] == Shows(text, (v.0 + 1, v.1));
      if IsSpace(text[v.0]) {
        TrimLeftShows(text, (v.0 + 1, v.1));
      }
    }
  }

  lemma {:induction false} TrimRightShows(text: Bytes, v: View)
    requires InText(text, v)
    ensures Shows(text, TrimRight(text, v)) == StripRight(Shows(text, v))
    decreases v.1 - v.0
  {
    if v.0 < v.1 {
      var s := Shows(text, v);
      assert s[..|s| - 1] == Shows(text, (v.0, v.1 - 1));
      if IsSpace(text[v.1 - 1]) {
        TrimRightShows(text, (v.0, v.1 - 1));
      }
    }
  }

  lemma TrimShows(backing: Backing, text: Bytes, v: View)
    requires InText(text, v) && Placed(backing, v)
    ensures Shows(text, Trim(backing, text, v)) == Strip(backing, Shows(text, v))
    ensures Placed(backing, Trim(backing, text, v))
  {
    TrimLeftShows(text, v);
    if backing.Memory? {
      TrimRightShows(text, TrimLeft(text, v));
    }
  }

  function LabelsOf(text: Bytes, n: Names): Labels
    requires NamesInText(text, n)
  {
    (Shows(text, n.name), Shows(text, n.filename), Shows(text, n.contentType))
  }

  lemma KeyIsShows(text: Bytes, key: View, p: Bytes)
    requires InText(text, key)
    ensures KeyIs(text, key, p) <==> Shows(text, key) == p
  {
    assert Size(key) == |p| ==> key.0 + |p| == key.1;
  }

  lemma UnquoteShows(text: Bytes, value: View)
    requires InText(text, value)
    ensures Shows(text, if value.0 == value.1 then value else TrimN(value, 1, 1)) == Unquote(Shows(text, value))
  {
    if value.0 < value.1 {
      var q := TrimN(value, 1, 1);
      SliceOfSlice(text, value.0, value.1, q.0 - value.0, q.1 - value.0);
    }
  }

  lemma TypeShows(backing: Backing, text: Bytes, value: View)
    requires InText(text, value) && Placed(backing, value)
    ensures Shows(text, if value.0 == value.1 then value else Trim(backing, text, value)) ==
            Strip(backing, Shows(text, value))
  {
    hide Trim, Strip;
    TrimShows(backing, text, value);
    StripNothing(backing);
  }

  lemma ItemShows(backing: Backing, text: Bytes, head: View, n: Names)
    requires InText(text, head) && NamesInText(text, n) && Placed(backing, head)
    ensures LabelsOf(text, Item(backing, text, head, n)) == ItemLabels(backing, Shows(text, head), LabelsOf(text, n))
  {
    hide Cut, SplitView, EqualIgnoringCase, Trim, Strip, KeyIs, Unquote, Ascii, TrimN;
    var (_, key, value) := SplitView(text, head, [EQUALS]);
    SplitViewIsCut(text, head, EQUALS);
    KeyIsShows(text, key, NAME);
    KeyIsShows(text, key, FILENAME);
    UnquoteShows(text, value);
    TypeShows(backing, text, value);
  }

  /** What a line says, seen as bytes. */
  lemma {:induction false} LineShows(backing: Backing, text: Bytes, line: View, n: Names)
    requires InText(text, line) && NamesInText(text, n) && Placed(backing, line)
    ensures LabelsOf(text, Line(backing, text, line, n)) ==
            LineLabels(backing, Shows(text, line), LabelsOf(text, n))
    decreases line.1 - line.0
  {
    hide Cut, Item, ItemLabels, Trim, Strip;
    if line.0 < line.1 {
      var (_, head, tail) := SplitView(text, line, [SEMICOLON]);
      SplitViewIsCut(text, line, SEMICOLON);
      ItemShows(backing, text, head, n);
      assert Placed(backing, tail);
      TrimShows(backing, text, tail);
      var next := if tail.0 == tail.1 then tail else Trim(backing, text, tail);
      StripNothing(backing);
      LineShows(backing, text, next, Item(backing, text, head, n));
    }
  }

  lemma StripNothing(backing: Backing)
    ensures Strip(backing, []) == []
  {
  }

  // ----- where delimiters are found -----

  /** A delimiter is not found in, or across the end of, text that lacks its first byte. */
  lemma SearchBehind(a: Bytes, d: Bytes, r: Bytes)
    requires d != [] && d[0] !in a
    ensures Search(a + d + r, d) == |a| && Search(a, d) == |a|
  {
    var s := a + d + r;
    forall i | 0 <= i < |a|
      ensures !OccursAt(s, d, i) && !OccursAt(a, d, i)
    {
      assert s[i] == a[i];
      assert i + |d| <= |s| ==> s[i..i + |d|][0] == s[i];
      assert i + |d| <= |a| ==> a[i..i + |d|][0] == a[i];
    }
    assert s[|a|..|a| + |d|] == d;
    LeftmostIsSearch(s, d, |a|);
    LeftmostIsSearch(a, d, |a|);
  }

  /** Splitting a view at the place where the search in its bytes ends. */
  lemma SplitShows(text: Bytes, v: View, a: Bytes, d: Bytes, r: Bytes)
    requires InText(text, v) && d != [] && Shows(text, v) == a + d + r && Search(a + d + r, d) == |a|
    ensures var (found, first, second) := SplitView(text, v, d);
            && found && first == (v.0, v.0 + |a|) && second == (v.0 + |a| + |d|, v.1)
            && Shows(text, first) == a && Shows(text, second) == r
  {
    SliceOfSlice(text, v.0, v.1, 0, |a|);
    SliceOfSlice(text, v.0, v.1, |a| + |d|, v.1 - v.0);
    assert (a + d + r)[..|a|] == a && (a + d + r)[|a| + |d|..] == r;
  }

  lemma SplitFails(text: Bytes, v: View, d: Bytes)
    requires InText(text, v) && d != [] && Search(Shows(text, v), d) == v.1 - v.0
    ensures SplitView(text, v, d) == (false, v, (0, 0))
  {
  }

  // ----- the header block -----

  /** What all the lines together say. */
  function FoldLabels(backing: Backing, lines: seq<Bytes>, n: Labels): Labels {
    if lines == [] then n else FoldLabels(backing, lines[1..], LineLabels(backing, lines[0], n))
  }

  /** How far it is to the first line end. */
  function LineLength(s: Bytes): (k: nat)
    ensures k <= |s| && NoLineEnd(s[..k])
    ensures k < |s| ==> s[k] == CR || s[k] == LF
  {
    if s == [] || s[0] == CR || s[0] == LF then 0
    else
      var k := LineLength(s[1..]);
      assert s[..k + 1] == [s[0]] + s[1..][..k];
      k + 1
  }

  /** What is left of a header block in the middle of a line. */
  function Left(eol: Eol, u: Bytes, more: seq<Bytes>): Bytes {
    if u == [] then Join(eol, more) else if more == [] then u else u + eol.Text() + Join(eol, more)
  }

  /** What is left of the line behind its first line end. */
  function Onward(eol: Eol, u: Bytes): Bytes {
    var k := LineLength(u);
    if k + eol.Size() <= |u| then u[k + eol.Size()..] else []
  }

  lemma EolAt(eol: Eol, u: Bytes, k: nat)
    requires Folds(eol, u) && k < |u| && (u[k] == CR || u[k] == LF) && (0 < k ==> u[k - 1] != CR) && u[0] != LF
    ensures k + eol.Size() < |u| && u[k..k + eol.Size()] == eol.Text() && IsBlank(u[k + eol.Size()])
    ensures u == u[..k] + eol.Text() + u[k + eol.Size()..]
  {
    assert FoldsAt(eol, u, k);
    assert eol.CrLf? ==> FoldsAt(eol, u, k + 1);
    assert u == u[..k] + u[k..k + eol.Size()] + u[k + eol.Size()..];
  }

  lemma OnwardGoesOn(eol: Eol, u: Bytes)
    requires Folds(eol, u) && u != [] && u[0] != LF
    ensures var k, v := LineLength(u), Onward(eol, u);
            && Folds(eol, v) && (v != [] ==> IsBlank(v[0]))
            && (if k == |u| then v == [] else v != [] && u == u[..k] + eol.Text() + v)
  {
    var k := LineLength(u);
    if k < |u| {
      EolAt(eol, u, k);
      FoldsSuffix(eol, u, k + eol.Size());
    } else {
      NoLineEndFolds(eol, []);
    }
  }

  lemma NoCr(s: Bytes)
    requires Folds(Lf, s)
    ensures CR !in s
  {
    forall i | 0 <= i < |s|
      ensures s[i] != CR
    {
      assert FoldsAt(Lf, s, i);
    }
  }

  lemma {:induction false} JoinHasNoCr(lines: seq<Bytes>)
    requires AllLines(Lf, lines)
    ensures CR !in Join(Lf, lines)
  {
    if lines != [] {
      var l, more := lines[0], lines[1..];
      assert HeaderLine(Lf, l);
      assert CR !in l by { NoCr(l); }
      assert forall x | x in more :: x in lines;
      JoinHasNoCr(more);
    }
  }

  lemma LeftHasNoCr(u: Bytes, more: seq<Bytes>)
    requires Folds(Lf, u) && AllLines(Lf, more)
    ensures CR !in Left(Lf, u, more)
  {
    JoinHasNoCr(more);
    NoCr(u);
  }

  lemma JoinNotEmpty(eol: Eol, lines: seq<Bytes>)
    requires AllLines(eol, lines) && lines != []
    ensures Join(eol, lines) != [] && lines[0] != [] && Join(eol, lines)[0] == lines[0][0] && Starts(lines[0][0])
  {
    assert HeaderLine(eol, lines[0]);
  }

  /** Cutting off a line at its line end, the first there is. */
  lemma SubLineCuts(eol: Eol, text: Bytes, tail: View, x: Bytes, r: Bytes)
    requires InText(text, tail) && NoLineEnd(x) && Shows(text, tail) == x + eol.Text() + r
    requires eol.Lf? ==> CR !in Shows(text, tail)
    ensures var (line, rest) := SubLine(text, tail);
            && line == (tail.0, tail.0 + |x|) && rest == (tail.0 + |x| + eol.Size(), tail.1)
            && Shows(text, line) == x && Shows(text, rest) == r
  {
    hide Search, SplitView;
    if eol.Lf? {
      NotThere(Shows(text, tail), CRLF);
      SplitFails(text, tail, CRLF);
    }
    SearchBehind(x, eol.Text(), r);
    SplitShows(text, tail, x, eol.Text(), r);
  }

  lemma SubLineIsLast(text: Bytes, tail: View)
    requires InText(text, tail) && NoLineEnd(Shows(text, tail))
    ensures SubLine(text, tail) == (tail, (0, 0))
  {
    hide Search, SplitView;
    NotThere(Shows(text, tail), CRLF);
    NotThere(Shows(text, tail), [LF]);
    SplitFails(text, tail, CRLF);
    SplitFails(text, tail, [LF]);
  }

  lemma NotThere(s: Bytes, d: Bytes)
    requires d != [] && d[0] !in s
    ensures Search(s, d) == |s|
  {
    SearchBehind(s, d, []);
  }

  /** The next physical line, in the middle of a header line. */
  lemma SubLineLeft(eol: Eol, text: Bytes, tail: View, u: Bytes, more: seq<Bytes>)
    requires InText(text, tail) && u != [] && u[0] != CR && u[0] != LF && Folds(eol, u)
    requires AllLines(eol, more) && Shows(text, tail) == Left(eol, u, more)
    ensures var ((line, rest), k) := (SubLine(text, tail), LineLength(u));
            && 0 < k && line == (tail.0, tail.0 + k) && text[line.0] == u[0]
            && Shows(text, rest) == Left(eol, Onward(eol, u), more)
            && (rest.0 < rest.1 ==> rest == (tail.0 + k + eol.Size(), tail.1))
  {
    hide Folds, SubLine, Join, Onward, Left, LineLength;
    var k := LineLength(u);
    LeftIs(eol, u, more);
    assert 0 < k && text[tail.0] == u[0] by { FirstByte(eol, text, tail, u, more); }
    if k == |u| && more == [] {
      SubLineIsLast(text, tail);
      assert |Shows(text, tail)| == k;
    } else {
      if eol.Lf? {
        LeftHasNoCr(u, more);
      }
      SubLineCuts(eol, text, tail, u[..k], Left(eol, Onward(eol, u), more));
    }
  }

  lemma FirstByte(eol: Eol, text: Bytes, tail: View, u: Bytes, more: seq<Bytes>)
    requires InText(text, tail) && u != [] && u[0] != CR && u[0] != LF && Shows(text, tail) == Left(eol, u, more)
    ensures 0 < LineLength(u) && text[tail.0] == u[0]
  {
    hide Join;
    assert Shows(text, tail)[0] == u[0];
  }

  /** What is left, cut at its first line end. */
  lemma LeftIs(eol: Eol, u: Bytes, more: seq<Bytes>)
    requires u != [] && u[0] != LF && Folds(eol, u)
    ensures var k, v := LineLength(u), Onward(eol, u);
            if k == |u| && more == [] then Left(eol, u, more) == u[..k] && Left(eol, v, more) == []
            else Left(eol, u, more) == u[..k] + eol.Text() + Left(eol, v, more)
  {
    hide Folds, Join, Onward, LineLength, Eol.Text;
    var k, v := LineLength(u), Onward(eol, u);
    OnwardGoesOn(eol, u);
    JoinNothing(eol);
    if k < |u| {
      LeftOfParts(eol, u[..k], v, more);
    } else {
      assert u[..k] == u;
    }
  }

  lemma LeftOfParts(eol: Eol, x: Bytes, v: Bytes, more: seq<Bytes>)
    requires v != []
    ensures Left(eol, x + eol.Text() + v, more) == x + eol.Text() + Left(eol, v, more)
  {
    hide Join, Eol.Text;
    var e := eol.Text();
    assert x + e + v != [];
    if more != [] {
      LongAssociates(x, e, v, Join(eol, more));
    }
  }

  lemma LongAssociates(a: Bytes, e: Bytes, b: Bytes, c: Bytes)
    ensures (a + e + b) + e + c == a + e + (b + e + c)
  {
  }

  lemma JoinNothing(eol: Eol)
    ensures Join(eol, []) == []
  {
  }

  lemma ContinuesIff(text: Bytes, v: View)
    requires InText(text, v) && v.0 < v.1
    ensures Continues(text, v) <==> IsBlank(text[v.0])
  {
    assert text[v.0..v.0 + 1] == [text[v.0]];
  }

  /** Physical lines are joined up to the end of the header line. */
  lemma {:induction false} UnfoldGoesOn(eol: Eol, text: Bytes, line: View, tail: View, u: Bytes, more: seq<Bytes>)
    requires InText(text, line) && InText(text, tail) && (tail.0 < tail.1 ==> line.0 <= tail.0)
    requires Folds(eol, u) && (u != [] ==> IsBlank(u[0]))
    requires AllLines(eol, more) && Shows(text, tail) == Left(eol, u, more)
    ensures var (l, r) := Unfold(text, line, tail, true);
            && l == (line.0, if u == [] then line.1 else tail.0 + |u|)
            && Shows(text, r) == Join(eol, more) && (r.0 < r.1 ==> tail.0 <= r.0)
    decreases |u|
  {
    hide SubLine, Continues, Folds, Join, LineLength, Onward, Eol.Text, Unfold;
    if u == [] {
      UnfoldStops(eol, text, line, tail, more);
    } else {
      hide Left, Shows;
      var (sub, rest) := SubLine(text, tail);
      JoinsOnce(eol, text, line, tail, u, more);
      UnfoldGoesOn(eol, text, (line.0, sub.1), rest, Onward(eol, u), more);
    }
  }

  /** One physical line on. */
  lemma JoinsOnce(eol: Eol, text: Bytes, line: View, tail: View, u: Bytes, more: seq<Bytes>)
    requires InText(text, line) && InText(text, tail) && (tail.0 < tail.1 ==> line.0 <= tail.0)
    requires u != [] && Folds(eol, u) && IsBlank(u[0])
    requires AllLines(eol, more) && Shows(text, tail) == Left(eol, u, more)
    ensures var ((sub, rest), v) := (SubLine(text, tail), Onward(eol, u));
            && line.0 <= sub.1 && (rest.0 < rest.1 ==> line.0 <= rest.0 && tail.0 <= rest.0)
            && Unfold(text, line, tail, true) == Unfold(text, (line.0, sub.1), rest, true)
            && |v| < |u| && Folds(eol, v) && (v != [] ==> IsBlank(v[0])) && Shows(text, rest) == Left(eol, v, more)
            && (if v == [] then sub.1 else rest.0 + |v|) == tail.0 + |u|
  {
    hide SubLine, Continues, Folds, Join, LineLength, Onward, Eol.Text, Unfold;
    var v := Onward(eol, u);
    OnwardEnds(eol, u);
    OnwardShrinks(eol, u);
    SubLineLeft(eol, text, tail, u, more);
    LeftNotEmpty(eol, u, more);
    LeftNotEmpty(eol, v, more);
    hide Left;
    ContinuesIff(text, SubLine(text, tail).0);
    UnfoldJoins(text, line, tail);
  }

  lemma OnwardEnds(eol: Eol, u: Bytes)
    requires Folds(eol, u) && u != [] && u[0] != LF
    ensures var v := Onward(eol, u);
            Folds(eol, v) && (v != [] ==> IsBlank(v[0])) && (v == [] ==> LineLength(u) == |u|)
  {
    hide Folds, Onward, LineLength;
    OnwardGoesOn(eol, u);
  }

  /** A physical line that continues the one before is joined to it. */
  lemma UnfoldJoins(text: Bytes, line: View, tail: View)
    requires InText(text, line) && InText(text, tail) && tail.0 < tail.1 && line.0 <= tail.0
    requires Continues(text, SubLine(text, tail).0)
    ensures var (sub, rest) := SubLine(text, tail);
            && line.0 <= sub.1 && (rest.0 < rest.1 ==> line.0 <= rest.0)
            && Unfold(text, line, tail, true) == Unfold(text, (line.0, sub.1), rest, true)
  {
    hide SubLine, Continues;
  }

  /** The next header line, or the end, is where a header line stops. */
  lemma UnfoldStops(eol: Eol, text: Bytes, line: View, tail: View, more: seq<Bytes>)
    requires InText(text, line) && InText(text, tail) && (tail.0 < tail.1 ==> line.0 <= tail.0)
    requires AllLines(eol, more) && Shows(text, tail) == Join(eol, more)
    ensures Unfold(text, line, tail, true) == (line, tail)
  {
    hide SubLine, Continues, Folds, Join, LineLength, Onward, Eol.Text;
    if more == [] {
      JoinNothing(eol);
    } else {
      JoinNotEmpty(eol, more);
      FirstOfMore(eol, more);
      SubLineLeft(eol, text, tail, more[0], more[1..]);
      hide Left;
      ContinuesIff(text, SubLine(text, tail).0);
    }
  }

  lemma OnwardShrinks(eol: Eol, u: Bytes)
    ensures u != [] ==> |Onward(eol, u)| < |u|
    ensures Onward(eol, u) != [] ==> LineLength(u) + eol.Size() + |Onward(eol, u)| == |u|
  {
  }

  /** The first of some lines, and what is left behind it. */
  lemma FirstOfMore(eol: Eol, lines: seq<Bytes>)
    requires AllLines(eol, lines) && lines != []
    ensures HeaderLine(eol, lines[0]) && AllLines(eol, lines[1..])
    ensures Join(eol, lines) == Left(eol, lines[0], lines[1..])
  {
    hide Folds;
    assert HeaderLine(eol, lines[0]);
    assert forall l | l in lines[1..] :: l in lines;
  }

  /** One header line is taken with all its continuations. */
  lemma UnfoldTakesLine(eol: Eol, text: Bytes, headers: View, lines: seq<Bytes>)
    requires InText(text, headers) && AllLines(eol, lines) && lines != []
    requires Shows(text, headers) == Join(eol, lines)
    ensures headers.0 < headers.1
    ensures var (line, rest) := Unfold(text, (0, 0), headers, false);
            && line.0 == headers.0 && Shows(text, line) == lines[0]
            && Shows(text, rest) == Join(eol, lines[1..]) && (rest.0 < rest.1 ==> headers.0 <= rest.0)
  {
    hide SubLine, Continues, Folds, Join, LineLength, Onward, Eol.Text;
    var l, more := lines[0], lines[1..];
    JoinNotEmpty(eol, lines);
    FirstOfMore(eol, lines);
    SubLineLeft(eol, text, headers, l, more);
    OnwardGoesOn(eol, l);
    OnwardShrinks(eol, l);
    var (sub, rest) := SubLine(text, headers);
    ContinuesIff(text, sub);
    var v := Onward(eol, l);
    LeftNotEmpty(eol, v, more);
    assert Shows(text, (headers.0, headers.0 + |l|)) == l by { ShowsFirst(eol, text, headers, l, more); }
    hide Left;
    UnfoldGoesOn(eol, text, sub, rest, v, more);
  }

  lemma LeftNotEmpty(eol: Eol, u: Bytes, more: seq<Bytes>)
    ensures u != [] ==> Left(eol, u, more) != []
  {
    hide Join;
  }

  lemma ShowsFirst(eol: Eol, text: Bytes, v: View, l: Bytes, more: seq<Bytes>)
    requires InText(text, v) && l != [] && Shows(text, v) == Left(eol, l, more)
    ensures v.0 + |l| <= v.1 && Shows(text, (v.0, v.0 + |l|)) == l
  {
    hide Join;
    assert Left(eol, l, more)[..|l|] == l;
    SliceOfSlice(text, v.0, v.1, 0, |l|);
  }

  /** What a header block says is what its lines say, each with its continuations, in order. */
  lemma {:induction false} HeadersShow(eol: Eol, backing: Backing, text: Bytes, headers: View, lines: seq<Bytes>, n: Names)
    requires InText(text, headers) && NamesInText(text, n) && Placed(backing, headers)
    requires AllLines(eol, lines) && Shows(text, headers) == Join(eol, lines)
    ensures LabelsOf(text, Headers(backing, text, headers, n)) == FoldLabels(backing, lines, LabelsOf(text, n))
    decreases |lines|
  {
    hide Folds, Line, LineLabels, Unfold;
    if lines == [] {
      JoinNothing(eol);
    } else {
      UnfoldTakesLine(eol, text, headers, lines);
      FirstOfMore(eol, lines);
      var (line, rest) := Unfold(text, (0, 0), headers, false);
      LineShows(backing, text, line, n);
      HeadersShow(eol, backing, text, rest, lines[1..], Line(backing, text, line, n));
    }
  }

}
