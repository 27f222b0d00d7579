/**
 * What Multipart's parser makes of a well-formed body: the arguments, in order, and for each file
 * name key the first file, with exactly the bytes that were sent. Lines may end in CRLF or in LF, and
 * header lines may be folded.
 */
module MultipartRoundTrip {
  import opened Bytes
  import opened Buffers
  import opened DataBuffers
  import opened Multipart
  import opened MultipartHeaders

  // ----- well-formed bodies -----

  const DISPOSITION: Bytes := Ascii("Content-Disposition: form-data")

  /** One part of a form; other header lines may stand before and after its disposition, and spaces,
      tabs and folds behind each of its semicolons. */
  datatype FormPart = FormPart(
    before: seq<Bytes>, gap: Bytes, name: Bytes, filename: Option<(Bytes, Bytes)>, after: seq<Bytes>, content: Bytes)

  /** key="value" */
  function Quoted(key: Bytes, value: Bytes): Bytes {
    key + [EQUALS] + ([QUOTE] + value + [QUOTE])
  }

  /** A file name comes with the gap in front of it. */
  function Disposition(p: FormPart): Bytes {
    DISPOSITION + [SEMICOLON] + (p.gap +
      match p.filename
      case None => Quoted(NAME, p.name)
      case Some((gap, f)) => Quoted(NAME, p.name) + [SEMICOLON] + (gap + Quoted(FILENAME, f)))
  }

  function HeaderLines(p: FormPart): seq<Bytes> {
    p.before + [Disposition(p)] + p.after
  }

  function RenderPart(eol: Eol, p: FormPart): Bytes {
    Join(eol, HeaderLines(p)) + (eol.Text() + eol.Text()) + p.content
  }

  /** What follows a boundary: more parts, or the dashes that close the body. */
  function Behind(eol: Eol, boundary: Bytes, parts: seq<FormPart>): Bytes {
    if parts == [] then DASHES + eol.Text()
    else Framed(eol, RenderPart(eol, parts[0])) + boundary + Behind(eol, boundary, parts[1..])
  }

  /** Between two line ends. */
  function Framed(eol: Eol, r: Bytes): Bytes {
    eol.Text() + r + eol.Text()
  }

  /** Every part behind a boundary, and a closing delimiter. */
  function Render(eol: Eol, boundary: Bytes, parts: seq<FormPart>): Bytes {
    boundary + Behind(eol, boundary, parts)
  }

  predicate NameOk(s: Bytes) {
    s != [] && SEMICOLON !in s && NoLineEnd(s)
  }

  /** What may stand behind a semicolon: spaces, tabs, and line ends that fold the line. */
  ghost predicate GapOk(eol: Eol, gap: Bytes) {
    (forall b | b in gap :: IsSpace(b)) && SEMICOLON !in gap && Folds(eol, gap)
  }

  /** In a body whose lines end in LF, a content must not hold CRLF CRLF nor end in CR. */
  ghost predicate ContentOk(eol: Eol, content: Bytes) {
    eol.Lf? ==> Absent(CRLFCRLF, content) && !EndsInCr(content)
  }

  predicate EndsInCr(s: Bytes) {
    s != [] && s[|s| - 1] == CR
  }

  ghost predicate Absent(boundary: Bytes, s: Bytes) {
    forall i | 0 <= i < |s| :: !OccursAt(s, boundary, i)
  }

  /** What a form may contain: names without separators, and other header lines that are inert. */
  ghost predicate PartOk(eol: Eol, backing: Backing, p: FormPart) {
    && DispositionOk(eol, p)
    && (forall l | l in p.before || l in p.after :: HeaderLine(eol, l) && Inert(backing, l))
    && ContentOk(eol, p.content)
  }

  ghost predicate DispositionOk(eol: Eol, p: FormPart) {
    && NameOk(p.name) && GapOk(eol, p.gap)
    && (p.filename.Some? ==> GapOk(eol, p.filename.value.0) && NameOk(p.filename.value.1))
  }

  // ----- the disposition line -----

  lemma {:induction false} StripGap(backing: Backing, gap: Bytes, u: Bytes)
    requires (forall b | b in gap :: IsSpace(b)) && u != [] && !IsSpace(u[0]) && !IsSpace(u[|u| - 1])
    ensures Strip(backing, gap + u) == u
  {
    hide StripRight;
    if gap == [] {
      assert gap + u == u;
      assert StripRight(u) == u by { StripRightStops(u); }
    } else {
      assert gap[0] in gap && (gap + u)[1..] == gap[1..] + u;
      StripGap(backing, gap[1..], u);
    }
  }

  lemma StripRightStops(u: Bytes)
    requires u != [] && !IsSpace(u[|u| - 1])
    ensures StripRight(u) == u
  {
  }

  lemma QuotedItem(backing: Backing, key: Bytes, value: Bytes, n: Labels)
    requires EQUALS !in key && value != []
    ensures key == NAME ==> ItemLabels(backing, Quoted(key, value), n) == (value, n.1, n.2)
    ensures key == FILENAME ==> ItemLabels(backing, Quoted(key, value), n) == (n.0, value, n.2)
  {
    hide Cut, Strip, EqualIgnoringCase, Ascii;
    Constants();
    var q := [QUOTE] + value + [QUOTE];
    CutAtFirst(key, EQUALS, q);
    assert q[1..|q| - 1] == value;
  }

  /** The constants, spelled out. */
  lemma Constants()
    ensures NAME == [110, 97, 109, 101]
    ensures FILENAME == [102, 105, 108, 101, 110, 97, 109, 101]
    ensures |DISPOSITION| == 30 && SEMICOLON !in DISPOSITION && EQUALS !in DISPOSITION && NoLineEnd(DISPOSITION)
    ensures DISPOSITION[0] == 'C' as int
  {
    hide Ascii;
    var literal := "Content-Disposition: form-data";
    forall i | 0 <= i < |DISPOSITION|
      ensures DISPOSITION[i] != SEMICOLON && DISPOSITION[i] != EQUALS && DISPOSITION[i] != CR && DISPOSITION[i] != LF
    {
      assert DISPOSITION[i] == literal[i] as int;
      assert literal[i] != ';' && literal[i] != '=' && literal[i] as int >= 32;
    }
  }

  lemma QuotedShape(key: Bytes, value: Bytes)
    requires key != []
    ensures var q := Quoted(key, value); q != [] && q[0] == key[0] && q[|q| - 1] == QUOTE
    ensures SEMICOLON !in key && SEMICOLON !in value ==> SEMICOLON !in Quoted(key, value)
    ensures NoLineEnd(key) && NoLineEnd(value) ==> NoLineEnd(Quoted(key, value))
  {
  }

  lemma LineOfOneItem(backing: Backing, item: Bytes, n: Labels)
    requires item != [] && SEMICOLON !in item
    ensures LineLabels(backing, item, n) == ItemLabels(backing, item, n)
  {
    hide Cut, ItemLabels;
    CutAtFirst(item, SEMICOLON, []);
    StripNothing(backing);
  }

  lemma LineOfMoreItems(backing: Backing, item: Bytes, gap: Bytes, u: Bytes, n: Labels)
    requires SEMICOLON !in item && u != [] && !IsSpace(u[0]) && !IsSpace(u[|u| - 1])
    requires forall b | b in gap :: IsSpace(b)
    ensures LineLabels(backing, item + [SEMICOLON] + (gap + u), n) == LineLabels(backing, u, ItemLabels(backing, item, n))
  {
    hide Cut, ItemLabels, Strip;
    CutAtFirst(item, SEMICOLON, gap + u);
    StripGap(backing, gap, u);
  }

  lemma FormDataSaysNothing(backing: Backing, n: Labels)
    ensures ItemLabels(backing, DISPOSITION, n) == n
  {
    hide Cut, Ascii, Strip;
    Constants();
    CutAtFirst(DISPOSITION, EQUALS, []);
    assert |CONTENT_TYPE| == 12;
  }

  /** What a part's disposition, folded or not, says of its name and file name. */
  function Said(p: FormPart, filename: Bytes): Labels {
    (p.name, if p.filename.Some? then p.filename.value.1 else filename, [])
  }

  /** A disposition line says the part's name and, if it is a file, the file's name, wherever behind
      its semicolons it is folded. */
  lemma DispositionLabels(eol: Eol, backing: Backing, p: FormPart, filename: Bytes)
    requires DispositionOk(eol, p)
    ensures LineLabels(backing, Disposition(p), ([], filename, [])) == Said(p, filename)
  {
    hide Ascii, Cut, Strip, Quoted, LineLabels, ItemLabels, Folds;
    var n := ([], filename, []);
    Constants();
    var a := Quoted(NAME, p.name);
    QuotedShape(NAME, p.name);
    QuotedItem(backing, NAME, p.name, n);
    FormDataSaysNothing(backing, n);
    match p.filename
    case None =>
      LineOfMoreItems(backing, DISPOSITION, p.gap, a, n);
      LineOfOneItem(backing, a, n);
    case Some((gap, f)) =>
      var b := Quoted(FILENAME, f);
      var ab := a + [SEMICOLON] + (gap + b);
      QuotedShape(FILENAME, f);
      QuotedItem(backing, FILENAME, f, (p.name, filename, []));
      LineOfMoreItems(backing, DISPOSITION, p.gap, ab, n);
      LineOfMoreItems(backing, a, gap, b, n);
      LineOfOneItem(backing, b, (p.name, filename, []));
  }

  /** A disposition line with a space behind it. */
  function SpacedDisposition(name: Bytes): Bytes {
    DISPOSITION + [SEMICOLON] + ([SPACE] + (Quoted(NAME, name) + [SPACE]))
  }

  /** What one header line says, to begin with. */
  function Says(backing: Backing, text: Bytes, line: View): Labels
    requires InText(text, line)
  {
    LabelsOf(text, Line(backing, text, line, Names((0, 0), (0, 0), (0, 0))))
  }

  /** Behind position 32 of a file a space at the end of a disposition line stays, and is taken for
      the closing quote: the name that was sent comes out with a quote. */
  lemma TrailingSpaceRuinsName(text: Bytes, line: View, name: Bytes)
    requires InText(text, line) && 33 <= line.0 && NameOk(name)
    requires Shows(text, line) == SpacedDisposition(name)
    ensures Says(Memory, text, line) == (name, [], [])
    ensures Says(File, text, line) == (name + [QUOTE], [], [])
  {
    hide Ascii, Cut, Line, LineLabels, ItemLabels, Strip, Quoted;
    var none := Names((0, 0), (0, 0), (0, 0));
    assert LabelsOf(text, none) == ([], [], []);
    LineShows(Memory, text, line, none);
    LineShows(File, text, line, none);
    var q := Quoted(NAME, name);
    Constants();
    QuotedShape(NAME, name);
    DispositionSaysNothing(Memory, q + [SPACE]);
    DispositionSaysNothing(File, q + [SPACE]);
    StripBothSpaces(q);
    LineOfOneItem(Memory, q, ([], [], []));
    LineOfOneItem(File, q + [SPACE], ([], [], []));
    QuotedItem(Memory, NAME, name, ([], [], []));
    LateQuote(name);
  }

  lemma DispositionSaysNothing(backing: Backing, u: Bytes)
    ensures LineLabels(backing, DISPOSITION + [SEMICOLON] + ([SPACE] + u), ([], [], [])) ==
            LineLabels(backing, Strip(backing, [SPACE] + u), ([], [], []))
  {
    hide Ascii, Cut, Strip, ItemLabels;
    Constants();
    CutAtFirst(DISPOSITION, SEMICOLON, [SPACE] + u);
    FormDataSaysNothing(backing, ([], [], []));
  }

  lemma StripBothSpaces(u: Bytes)
    requires u != [] && !IsSpace(u[0]) && !IsSpace(u[|u| - 1])
    ensures Strip(Memory, [SPACE] + (u + [SPACE])) == u
    ensures Strip(File, [SPACE] + (u + [SPACE])) == u + [SPACE]
  {
    var s := u + [SPACE];
    assert ([SPACE] + s)[1..] == s;
    assert StripLeft([SPACE] + s) == StripLeft(s) == s;
    assert s[..|s| - 1] == u;
    assert StripRight(s) == StripRight(u) == u;
  }

  /** The last byte of the value is cut off unseen, and here it is the space. */
  lemma LateQuote(name: Bytes)
    ensures ItemLabels(File, Quoted(NAME, name) + [SPACE], ([], [], [])) == (name + [QUOTE], [], [])
  {
    hide Ascii, Cut, EqualIgnoringCase, Strip;
    Constants();
    var value := [QUOTE] + name + [QUOTE] + [SPACE];
    assert Quoted(NAME, name) + [SPACE] == NAME + [EQUALS] + value;
    CutAtFirst(NAME, EQUALS, value);
    assert value[1..|value| - 1] == name + [QUOTE];
  }

  // ----- one part -----

  /** Where a line end stands in a header block, the next byte begins no other. */
  ghost predicate Flows(eol: Eol, s: Bytes) {
    forall i | 0 <= i < |s| :: FlowsAt(eol, s, i)
  }

  predicate FlowsAt(eol: Eol, s: Bytes, i: nat)
    requires i < |s|
  {
    match eol
    case CrLf => s[i] == CR ==> i + 2 < |s| && s[i + 2] != CR
    case Lf => s[i] != CR && (s[i] == LF ==> i + 1 < |s| && s[i + 1] != LF)
  }

  lemma FoldsFlows(eol: Eol, s: Bytes)
    requires Folds(eol, s)
    ensures Flows(eol, s)
  {
    forall i | 0 <= i < |s|
      ensures FlowsAt(eol, s, i)
    {
      assert FoldsAt(eol, s, i);
      assert i + 1 < |s| ==> FoldsAt(eol, s, i + 1);
    }
  }

  lemma FlowsOn(eol: Eol, a: Bytes, b: Bytes)
    requires Flows(eol, a) && Flows(eol, b) && b != [] && b[0] != CR && b[0] != LF
    ensures Flows(eol, a + eol.Text() + b)
  {
    var s := a + eol.Text() + b;
    forall i | 0 <= i < |s|
      ensures FlowsAt(eol, s, i)
    {
      if i < |a| {
        assert FlowsAt(eol, a, i);
      } else if i >= |a| + eol.Size() {
        assert FlowsAt(eol, b, i - |a| - eol.Size());
      }
    }
  }

  lemma {:induction false} JoinFlows(eol: Eol, lines: seq<Bytes>)
    requires AllLines(eol, lines)
    ensures Flows(eol, Join(eol, lines))
  {
    hide Folds, Flows, Eol.Text;
    if lines == [] {
      NoLineEndFolds(eol, []);
      FoldsFlows(eol, []);
    } else {
      FirstOfMore(eol, lines);
      FoldsFlows(eol, lines[0]);
      if |lines| > 1 {
        JoinFlows(eol, lines[1..]);
        JoinNotEmpty(eol, lines[1..]);
        FlowsOn(eol, lines[0], Join(eol, lines[1..]));
      }
    }
  }

  /** The first empty line is the one behind the header block. */
  lemma BlankLineFound(eol: Eol, h: Bytes, content: Bytes)
    requires Flows(eol, h)
    ensures var blank := eol.Text() + eol.Text(); Search(h + blank + content, blank) == |h|
  {
    var blank := eol.Text() + eol.Text();
    var s := h + blank + content;
    forall i | 0 <= i < |h|
      ensures !OccursAt(s, blank, i)
    {
      assert FlowsAt(eol, h, i);
      assert i + |blank| <= |s| ==>
          s[i..i + |blank|][0] == s[i] && s[i..i + |blank|][eol.Size()] == s[i + eol.Size()];
    }
    assert s[|h|..|h| + |blank|] == blank;
    LeftmostIsSearch(s, blank, |h|);
  }

  /** In a part whose lines end in LF, CRLF CRLF stands exactly where it stands in the content. */
  lemma OnlyInContent(h: Bytes, content: Bytes, i: nat)
    requires Flows(Lf, h)
    ensures OccursAt(h + LFLF + content, CRLFCRLF, i) <==>
            i >= |h| + 2 && OccursAt(content, CRLFCRLF, i - |h| - 2)
  {
    var a := h + LFLF;
    var s := a + content;
    if OccursAt(s, CRLFCRLF, i) {
      assert s[i] == s[i..i + 4][0];
      assert i < |h| ==> FlowsAt(Lf, h, i);
    }
    assert s[|a|..] == content;
    OccursInSlice(s, |a|, |s|, CRLFCRLF, i - |a|);
  }

  lemma AbsentIsNotFound(d: Bytes, s: Bytes)
    ensures Absent(d, s) <==> Search(s, d) == |s|
  {
    if Absent(d, s) {
      LeftmostIsSearch(s, d, |s|);
    }
  }

  lemma NoOtherBlankLine(h: Bytes, content: Bytes)
    requires Flows(Lf, h)
    ensures Absent(CRLFCRLF, h + LFLF + content) <==> Absent(CRLFCRLF, content)
  {
    hide OccursAt, Flows;
    var s := h + LFLF + content;
    if Absent(CRLFCRLF, content) {
      forall i | 0 <= i < |s|
        ensures !OccursAt(s, CRLFCRLF, i)
      {
        OnlyInContent(h, content, i);
      }
    }
    if Absent(CRLFCRLF, s) {
      forall i | 0 <= i < |content|
        ensures !OccursAt(content, CRLFCRLF, i)
      {
        OnlyInContent(h, content, |h| + 2 + i);
      }
    }
  }

  lemma {:induction false} FoldConcat(backing: Backing, a: seq<Bytes>, b: seq<Bytes>, n: Labels)
    ensures FoldLabels(backing, a + b, n) == FoldLabels(backing, b, FoldLabels(backing, a, n))
  {
    hide LineLabels;
    if a == [] {
      assert a + b == b;
    } else {
      assert (a + b)[1..] == a[1..] + b;
      FoldConcat(backing, a[1..], b, LineLabels(backing, a[0], n));
    }
  }

  lemma {:induction false} FoldInert(backing: Backing, lines: seq<Bytes>, n: Labels)
    requires forall l | l in lines :: Inert(backing, l)
    ensures FoldLabels(backing, lines, n) == n
  {
    hide LineLabels, Inert;
    if lines != [] {
      assert lines[0] in lines;
      InertSaysNothing(backing, lines[0], n);
      assert forall l | l in lines[1..] :: l in lines;
      FoldInert(backing, lines[1..], n);
    }
  }

  /** All the header lines of a part together say its name and file name, and no content type. */
  lemma HeaderLabels(eol: Eol, backing: Backing, p: FormPart)
    requires PartOk(eol, backing, p)
    ensures FoldLabels(backing, HeaderLines(p), ([], [], [])) == Said(p, [])
  {
    hide LineLabels, Inert, HeaderLine, DispositionOk, Disposition;
    var none: Labels, d := ([], [], []), [Disposition(p)];
    FoldConcat(backing, p.before + d, p.after, none);
    FoldConcat(backing, p.before, d, none);
    FoldInert(backing, p.before, none);
    DispositionLabels(eol, backing, p, []);
    var n := LineLabels(backing, d[0], none);
    assert d[1..] == [];
    assert FoldLabels(backing, d, none) == n;
    FoldInert(backing, p.after, n);
  }

  lemma ItemFolds(eol: Eol, item: Bytes, gap: Bytes, more: Bytes)
    requires NoLineEnd(item) && Folds(eol, gap) && Folds(eol, more)
    ensures Folds(eol, item + [SEMICOLON] + (gap + more))
  {
    hide Folds;
    NoLineEndFolds(eol, item + [SEMICOLON]);
    FoldsConcat(eol, gap, more);
    FoldsConcat(eol, item + [SEMICOLON], gap + more);
  }

  lemma DispositionIsHeaderLine(eol: Eol, p: FormPart)
    requires DispositionOk(eol, p)
    ensures HeaderLine(eol, Disposition(p))
  {
    hide Ascii, Quoted, Folds;
    Constants();
    var a := Quoted(NAME, p.name);
    QuotedShape(NAME, p.name);
    NoLineEndFolds(eol, a);
    match p.filename
    case None =>
      ItemFolds(eol, DISPOSITION, p.gap, a);
    case Some((gap, f)) =>
      QuotedShape(FILENAME, f);
      NoLineEndFolds(eol, Quoted(FILENAME, f));
      ItemFolds(eol, a, gap, Quoted(FILENAME, f));
      ItemFolds(eol, DISPOSITION, p.gap, a + [SEMICOLON] + (gap + Quoted(FILENAME, f)));
  }

  lemma HeaderLinesAreLines(eol: Eol, backing: Backing, p: FormPart)
    requires PartOk(eol, backing, p)
    ensures AllLines(eol, HeaderLines(p)) && HeaderLines(p) != []
  {
    hide Inert, HeaderLine, Disposition, DispositionOk;
    DispositionIsHeaderLine(eol, p);
  }

  /** An upload's key, file name, content type and content. */
  type Sent = (Bytes, Bytes, Bytes, Bytes)

  /** The files and the arguments. */
  datatype Form = Form(files: seq<Sent>, args: seq<(Bytes, Bytes)>)

  ghost predicate FoundInText(text: Bytes, f: Found) {
    forall u | u in f.files :: InText(text, u.content)
  }

  ghost function FormOf(text: Bytes, f: Found): (r: Form)
    requires FoundInText(text, f)
    ensures |r.files| == |f.files|
  {
    Form(seq(|f.files|, i requires 0 <= i < |f.files| =>
           assert f.files[i] in f.files;
           (f.files[i].key, f.files[i].filename, f.files[i].contentType, Shows(text, f.files[i].content))), f.args)
  }

  predicate HasKey(files: seq<Sent>, key: Bytes) {
    exists i | 0 <= i < |files| :: files[i].0 == key
  }

  /** A part as it was meant: an argument, or a file unless the key already has one. The parser finds
      no content type in any header line but one with an item of its own name for it. */
  function Add(form: Form, p: FormPart): Form {
    match p.filename
    case None => form.(args := form.args + [(p.name, p.content)])
    case Some((_, f)) =>
      if HasKey(form.files, p.name) then form else form.(files := form.files + [(p.name, f, [], p.content)])
  }

  function AddAll(form: Form, parts: seq<FormPart>): Form
    decreases |parts|
  {
    if parts == [] then form else AddAll(Add(form, parts[0]), parts[1..])
  }

  /** The views of a part's header block and content. */
  lemma PartSplits(eol: Eol, backing: Backing, text: Bytes, part: View, p: FormPart)
    requires InText(text, part) && PartOk(eol, backing, p) && Shows(text, part) == RenderPart(eol, p)
    ensures var (headers, content) := SplitPart(text, part);
            && headers.0 == part.0 && Shows(text, headers) == Join(eol, HeaderLines(p))
            && Shows(text, content) == p.content
  {
    hide SplitView, Search, PartOk, HeaderLines, Absent, Flows;
    var h := Join(eol, HeaderLines(p));
    HeaderLinesAreLines(eol, backing, p);
    JoinFlows(eol, HeaderLines(p));
    ContentIsOk(eol, backing, p);
    SplitAtBlankLine(eol, text, part, h, p.content);
  }

  lemma ContentIsOk(eol: Eol, backing: Backing, p: FormPart)
    requires PartOk(eol, backing, p)
    ensures ContentOk(eol, p.content)
  {
  }

  lemma SplitAtBlankLine(eol: Eol, text: Bytes, part: View, h: Bytes, content: Bytes)
    requires InText(text, part) && Flows(eol, h) && Shows(text, part) == h + (eol.Text() + eol.Text()) + content
    requires eol.Lf? ==> Absent(CRLFCRLF, content)
    ensures var (a, b) := SplitPart(text, part);
            a == (part.0, part.0 + |h|) && Shows(text, a) == h && Shows(text, b) == content
  {
    hide SplitView, Search, Absent, Flows;
    BlankLineFound(eol, h, content);
    if eol.Lf? {
      assert eol.Text() + eol.Text() == LFLF;
      NoOtherBlankLine(h, content);
      AbsentIsNotFound(CRLFCRLF, Shows(text, part));
      SplitFails(text, part, CRLFCRLF);
      SplitShows(text, part, h, LFLF, content);
    } else {
      assert eol.Text() + eol.Text() == CRLFCRLF;
      SplitShows(text, part, h, CRLFCRLF, content);
    }
  }

  /** With LF, the content is found whole exactly when CRLF CRLF is not in it. */
  lemma LfContentIff(text: Bytes, part: View, h: Bytes, content: Bytes)
    requires InText(text, part) && Flows(Lf, h) && Shows(text, part) == h + LFLF + content
    ensures Shows(text, SplitPart(text, part).1) == content <==> Absent(CRLFCRLF, content)
  {
    hide SplitView, Search, Absent, Flows;
    var s, at := Shows(text, part), Search(Shows(text, part), CRLFCRLF);
    if Absent(CRLFCRLF, content) {
      SplitAtBlankLine(Lf, text, part, h, content);
    } else {
      NoOtherBlankLine(h, content);
      AbsentIsNotFound(CRLFCRLF, s);
      assert OccursAt(s, CRLFCRLF, at);
      OnlyInContent(h, content, at);
      SplitShows(text, part, s[..at], CRLFCRLF, s[at + 4..]) by {
        assert s == s[..at] + CRLFCRLF + s[at + 4..];
      }
      assert |Shows(text, SplitPart(text, part).1)| < |content|;
    }
  }

  lemma PartShows(eol: Eol, backing: Backing, text: Bytes, part: View, p: FormPart, found: Found)
    requires InText(text, part) && PartOk(eol, backing, p) && Shows(text, part) == RenderPart(eol, p)
    requires Placed(backing, part) && FoundInText(text, found) && part.0 < part.1
    ensures var r := Part(backing, text, part, found);
            FoundInText(text, r) && FormOf(text, r) == Add(FormOf(text, found), p)
  {
    hide Headers, HeaderLines, Join, FoldLabels, SplitPart, RenderPart, AllLines;
    PartSplits(eol, backing, text, part, p);
    HeaderLinesAreLines(eol, backing, p);
    HeaderLabels(eol, backing, p);
    var (headers, content) := SplitPart(text, part);
    var none := Names((0, 0), (0, 0), (0, 0));
    assert LabelsOf(text, none) == ([], [], []);
    HeadersShow(eol, backing, text, headers, HeaderLines(p), none);
    AddPartShows(text, Headers(backing, text, headers, none), content, found, p);
  }

  lemma AddPartShows(text: Bytes, n: Names, content: View, found: Found, p: FormPart)
    requires NamesInText(text, n) && InText(text, content) && FoundInText(text, found)
    requires p.name != [] && (p.filename.Some? ==> p.filename.value.1 != [])
    requires LabelsOf(text, n) == Said(p, [])
    requires Shows(text, content) == p.content
    ensures var r := AddPart(text, n, content, found);
            FoundInText(text, r) && FormOf(text, r) == Add(FormOf(text, found), p)
  {
    var form := FormOf(text, found);
    assert HasUpload(found.files, p.name) <==> HasKey(form.files, p.name) by {
      assert forall i | 0 <= i < |form.files| :: form.files[i].0 == found.files[i].key;
    }
  }

  // ----- whole bodies -----

  /** Two dashes and more, and no line end: a boundary as the parser is given it. */
  ghost predicate BoundaryOk(boundary: Bytes) {
    |boundary| >= 3 && NoLineEnd(boundary)
  }

  /** A boundary cannot reach over a line end, so it is first found where it was put. */
  lemma BoundaryFound(eol: Eol, boundary: Bytes, r: Bytes, rest: Bytes)
    requires BoundaryOk(boundary) && Absent(boundary, r)
    ensures Search(Framed(eol, r) + boundary + rest, boundary) == |Framed(eol, r)|
  {
    var x, e := Framed(eol, r), eol.Size();
    var s := x + boundary + rest;
    forall i | 0 <= i < |x|
      ensures !OccursAt(s, boundary, i)
    {
      if OccursAt(s, boundary, i) {
        NotOverLineEnd(s, boundary, i, 0);
        NotOverLineEnd(s, boundary, i, e - 1);
        NotOverLineEnd(s, boundary, i, e + |r|);
        NotOverLineEnd(s, boundary, i, |x| - 1);
        assert s[e..e + |r|] == r;
        OccursInSlice(s, e, e + |r|, boundary, i - e);
        assert false;
      }
    }
    assert s[|x|..|x| + |boundary|] == boundary;
    LeftmostIsSearch(s, boundary, |x|);
  }

  lemma NotOverLineEnd(s: Bytes, boundary: Bytes, i: nat, at: nat)
    requires NoLineEnd(boundary) && OccursAt(s, boundary, i) && at < |s| && (s[at] == CR || s[at] == LF)
    ensures !(i <= at < i + |boundary|)
  {
    forall j | i <= j < i + |boundary|
      ensures s[j] in boundary
    {
      assert boundary[j - i] == s[i..i + |boundary|][j - i] == s[j];
    }
  }

  /** What stands between two line ends is found whole, unless a CR at its end and the LF behind it are
      taken for one line end. */
  lemma ClassifyShows(eol: Eol, text: Bytes, head: View, r: Bytes)
    requires InText(text, head) && r != [] && Shows(text, head) == Framed(eol, r)
    ensures var v := (head.0 + eol.Size(), head.1 - eol.Size());
            && Shows(text, v) == r
            && (Classify(text, head) == PartAt(v) <==> eol.CrLf? || !EndsInCr(r))
  {
    FramedBytes(eol, text, head, r);
    hide Framed, Eol.Text, Shows;
    ClassifyByEnds(text, head);
  }

  /** How a stretch that begins and ends with a line end is classified. */
  lemma ClassifyByEnds(text: Bytes, head: View)
    requires InText(text, head) && head.0 + 2 < head.1 && text[head.1 - 1] == LF
    requires text[head.0] == LF || (text[head.0] == CR && text[head.0 + 1] == LF && head.0 + 4 < head.1 && text[head.1 - 2] == CR)
    ensures var b, e := if text[head.0] == CR then 2 else 1, if text[head.1 - 2] == CR then 2 else 1;
            Classify(text, head) ==
            if head.0 + b == head.1 - e then Skip else PartAt((head.0 + b, head.1 - e))
  {
    hide EndsWith, StartsWith;
    EndsWithBytes(text, head);
    var e := if text[head.1 - 2] == CR then 2 else 1;
    assert TrimN(head, 0, e) == (head.0, head.1 - e);
    StartsWithBytes(text, (head.0, head.1 - e));
  }

  lemma FramedBytes(eol: Eol, text: Bytes, head: View, r: Bytes)
    requires InText(text, head) && r != [] && Shows(text, head) == Framed(eol, r)
    ensures var e := eol.Size();
            && head.0 + 2 * e < head.1 && Shows(text, (head.0 + e, head.1 - e)) == r
            && text[head.1 - 1] == LF && (text[head.1 - 2] == CR <==> eol.CrLf? || EndsInCr(r))
            && text[head.0] == (if eol.CrLf? then CR else LF) && (eol.CrLf? ==> text[head.0 + 1] == LF)
  {
    var x, e := Framed(eol, r), eol.Size();
    SliceOfSlice(text, head.0, head.1, e, |x| - e);
    assert x[e..|x| - e] == r;
    assert text[head.0] == x[0] && text[head.0 + 1] == x[1];
    assert text[head.1 - 1] == x[|x| - 1] && text[head.1 - 2] == x[|x| - 2];
  }

  lemma EndsWithBytes(text: Bytes, v: View)
    requires InText(text, v) && v.0 + 2 <= v.1
    ensures EndsWith(text, v, CRLF) <==> text[v.1 - 2] == CR && text[v.1 - 1] == LF
    ensures EndsWith(text, v, [LF]) <==> text[v.1 - 1] == LF
  {
    assert text[v.1 - 2..v.1] == [text[v.1 - 2], text[v.1 - 1]];
    assert text[v.1 - 1..v.1] == [text[v.1 - 1]];
  }

  lemma StartsWithBytes(text: Bytes, v: View)
    requires InText(text, v) && v.0 < v.1
    ensures StartsWith(text, v, CRLF) <==> v.0 + 1 < v.1 && text[v.0] == CR && text[v.0 + 1] == LF
    ensures StartsWith(text, v, [LF]) <==> text[v.0] == LF
    ensures StartsWith(text, v, DASHES) ==> text[v.0] != CR && text[v.0] != LF
  {
    assert text[v.0..v.0 + 1] == [text[v.0]];
    assert v.0 + 1 < v.1 ==> text[v.0..v.0 + 2] == [text[v.0], text[v.0 + 1]];
  }

  /** What stands behind the closing delimiter says nothing. */
  lemma ClosingLineSaysNothing(eol: Eol, backing: Backing, text: Bytes, data: View, found: Found)
    requires InText(text, data) && Placed(backing, data) && Shows(text, data) == DASHES + eol.Text()
    ensures Part(backing, text, data, found) == found
  {
    hide Search, Ascii, Line, LineLabels, SubLine;
    var none := Names((0, 0), (0, 0), (0, 0));
    ShortHasNoBlankLine(eol);
    SplitFails(text, data, CRLFCRLF);
    SplitFails(text, data, LFLF);
    assert DASHES + eol.Text() + [] == DASHES + eol.Text();
    SubLineCuts(eol, text, data, DASHES, []);
    var line: View := (data.0, data.0 + 2);
    assert text[data.0] == DASHES[0] by { assert text[data.0] == Shows(text, data)[0]; }
    assert Unfold(text, (0, 0), data, false) == (line, (data.1, data.1));
    LineShows(backing, text, line, none);
    DashesLabels(backing);
    assert LabelsOf(text, none) == ([], [], []);
    var n := Line(backing, text, line, none);
    assert LabelsOf(text, n) == ([], [], []);
    assert Headers(backing, text, (data.1, data.1), n) == n;
    assert Headers(backing, text, data, none) == n;
    assert |Shows(text, n.name)| == n.name.1 - n.name.0;
    assert SplitPart(text, data) == (data, (0, 0));
  }

  lemma DashesLabels(backing: Backing)
    ensures LineLabels(backing, DASHES, ([], [], [])) == ([], [], [])
  {
    hide Ascii, Cut, Strip;
    Constants();
    assert |CONTENT_TYPE| == 12;
    CutAtFirst(DASHES, SEMICOLON, []);
    CutAtFirst(DASHES, EQUALS, []);
    StripNothing(backing);
  }

  lemma ShortHasNoBlankLine(eol: Eol)
    ensures var s := DASHES + eol.Text(); Search(s, CRLFCRLF) == |s| && Search(s, LFLF) == |s|
  {
    var s := DASHES + eol.Text();
    assert |s| == 2 + eol.Size() && s[0] == s[1] == 45 && s[2] == eol.Text()[0];
    forall i | 0 <= i < |s|
      ensures !OccursAt(s, CRLFCRLF, i) && !OccursAt(s, LFLF, i)
    {
      assert i + 2 <= |s| ==> s[i..i + 2][0] == s[i] && s[i..i + 2][1] == s[i + 1];
      assert i + 4 <= |s| ==> s[i..i + 4][0] == s[i];
    }
    LeftmostIsSearch(s, CRLFCRLF, |s|);
    LeftmostIsSearch(s, LFLF, |s|);
  }

  lemma ClosingHasNoBoundary(eol: Eol, boundary: Bytes)
    requires BoundaryOk(boundary)
    ensures var s := DASHES + eol.Text(); Search(s, boundary) == |s|
  {
    var s := DASHES + eol.Text();
    forall i | 0 <= i < |s|
      ensures !OccursAt(s, boundary, i)
    {
      if OccursAt(s, boundary, i) {
        NotOverLineEnd(s, boundary, i, 2);
        assert false;
      }
    }
    LeftmostIsSearch(s, boundary, |s|);
  }

  /** Parts as a client may send them between boundaries. */
  ghost predicate PartsOk(eol: Eol, backing: Backing, boundary: Bytes, parts: seq<FormPart>) {
    forall p | p in parts :: PartOk(eol, backing, p) && Absent(boundary, RenderPart(eol, p))
  }

  lemma RenderedEnds(eol: Eol, backing: Backing, p: FormPart)
    requires PartOk(eol, backing, p)
    ensures RenderPart(eol, p) != [] && (eol.Lf? ==> !EndsInCr(RenderPart(eol, p)))
  {
    hide Join, HeaderLines, DispositionOk;
    var r := RenderPart(eol, p);
    assert p.content != [] ==> r[|r| - 1] == p.content[|p.content| - 1];
  }

  /** From behind one boundary to the end. */
  lemma {:induction false} BehindShows(
    eol: Eol, backing: Backing, text: Bytes, data: View, boundary: Bytes, parts: seq<FormPart>, found: Found)
    requires InText(text, data) && Placed(backing, data) && BoundaryOk(boundary)
    requires PartsOk(eol, backing, boundary, parts) && FoundInText(text, found)
    requires Shows(text, data) == Behind(eol, boundary, parts)
    ensures var r := Body(backing, text, data, boundary, found);
            && r.Done? && FoundInText(text, r.found)
            && FormOf(text, r.found) == AddAll(FormOf(text, found), parts)
    decreases |parts|
  {
    hide Part, Search, RenderPart, PartOk, Absent, Add, FormOf, FoundInText, SplitView, Classify, Framed;
    if parts == [] {
      ClosingHasNoBoundary(eol, boundary);
      SplitFails(text, data, boundary);
      ClosingLineSaysNothing(eol, backing, text, data, found);
    } else {
      hide Eol.Text;
      var p, rest := parts[0], Behind(eol, boundary, parts[1..]);
      var r := RenderPart(eol, p);
      assert p in parts;
      RenderedEnds(eol, backing, p);
      BoundaryFound(eol, boundary, r, rest);
      SplitShows(text, data, Framed(eol, r), boundary, rest);
      var (_, head, tail) := SplitView(text, data, boundary);
      ClassifyShows(eol, text, head, r);
      var v: View := (head.0 + eol.Size(), head.1 - eol.Size());
      PartShows(eol, backing, text, v, p, found);
      assert PartsOk(eol, backing, boundary, parts[1..]) by { assert forall q | q in parts[1..] :: q in parts; }
      BehindShows(eol, backing, text, tail, boundary, parts[1..], Part(backing, text, v, found));
    }
  }

  /**
   * The round trip of multipart bodies, wherever in its store the body lies: parsing ends and
   * yields exactly the arguments in order and, for each key, the first file with its bytes.
   */
  lemma MultipartRoundTrip(
    eol: Eol, backing: Backing, text: Bytes, data: View, boundary: Bytes, parts: seq<FormPart>)
    requires InText(text, data) && BoundaryOk(boundary) && PartsOk(eol, backing, boundary, parts)
    requires backing.File? ==> 33 <= data.0
    requires Shows(text, data) == Render(eol, boundary, parts)
    ensures var r := Body(backing, text, data, boundary, Found([], []));
            && r.Done? && FoundInText(text, r.found)
            && FormOf(text, r.found) == AddAll(Form([], []), parts)
  {
    hide Part, PartsOk, Behind, Search;
    var rest := Behind(eol, boundary, parts);
    assert [] + boundary + rest == Render(eol, boundary, parts);
    FoundAtOnce(boundary, rest);
    SplitShows(text, data, [], boundary, rest);
    var (_, head, tail) := SplitView(text, data, boundary);
    BehindShows(eol, backing, text, tail, boundary, parts, Found([], []));
    assert FormOf(text, Found([], [])) == Form([], []);
  }

  lemma FoundAtOnce(boundary: Bytes, rest: Bytes)
    requires boundary != []
    ensures Search([] + boundary + rest, boundary) == 0
  {
    var s := [] + boundary + rest;
    assert s[0..|boundary|] == boundary;
    LeftmostIsSearch(s, boundary, 0);
  }
}
