/**
 * library/parser.cpp: multipart/form-data bodies (section 5.1.1 of RFC 2046, section 4 of
 * RFC 7578). The parser works on views [lo, hi) of the body's store and never copies it, so that
 * an uploaded file's content is a view too.
 */
module Multipart {
  import opened Bytes
  import opened Buffers
  import opened DataBuffers

  const CR: Byte := 13
  const LF: Byte := 10
  const SPACE: Byte := 32
  const TAB: Byte := 9
  const SEMICOLON: Byte := ';' as int
  const EQUALS: Byte := '=' as int
  const QUOTE: Byte := '"' as int
  const CRLF: Bytes := [CR, LF]
  const CRLFCRLF: Bytes := [CR, LF, CR, LF]
  const LFLF: Bytes := [LF, LF]
  const DASHES: Bytes := ['-' as int, '-' as int]
  const NAME: Bytes := Ascii("name")
  const FILENAME: Bytes := Ascii("filename")
  const CONTENT_TYPE: Bytes := Ascii("CONTENT_TYPE")

  type View = (nat, nat)

  ghost predicate InText(text: Bytes, v: View) {
    v.0 <= v.1 <= |text|
  }

  function Shows(text: Bytes, v: View): Bytes
    requires v.0 <= v.1 <= |text|
  {
    text[v.0..v.1]
  }

  function Size(v: View): int {
    v.1 - v.0
  }

  // ----- views -----

  predicate StartsWith(text: Bytes, v: View, p: Bytes)
    requires v.0 <= v.1 <= |text|
  {
    |p| <= Size(v) && text[v.0..v.0 + |p|] == p
  }

  predicate EndsWith(text: Bytes, v: View, p: Bytes)
    requires v.0 <= v.1 <= |text|
  {
    |p| <= Size(v) && text[v.1 - |p|..v.1] == p
  }

  /** trimn: b bytes off the front and e off the back, as far as there are any. */
  function TrimN(v: View, b: nat, e: nat): (r: View)
    requires v.0 <= v.1 && e <= v.1
    ensures v.0 <= r.0 <= r.1 <= v.1
  {
    if v.0 == v.1 then v
    else if v.0 + b >= v.1 then (v.1, v.1)
    else (v.0 + b, if v.1 - e > v.0 + b then v.1 - e else v.0 + b)
  }

  predicate IsSpace(n: nat) {
    n == 32 || 9 <= n <= 13
  }

  function TrimLeft(text: Bytes, v: View): (r: View)
    requires v.0 <= v.1 <= |text|
    ensures v.0 <= r.0 <= r.1 == v.1
    decreases v.1 - v.0
  {
    if v.0 < v.1 && IsSpace(text[v.0]) then TrimLeft(text, (v.0 + 1, v.1)) else v
  }

  /** StringBuffer::trim's right side tests the last byte. */
  function TrimRight(text: Bytes, v: View): (r: View)
    requires v.0 <= v.1 <= |text|
    ensures v.0 == r.0 <= r.1 <= v.1
    decreases v.1 - v.0
  {
    if v.0 < v.1 && IsSpace(text[v.1 - 1]) then TrimRight(text, (v.0, v.1 - 1)) else v
  }

  /** FileBuffer::trim's right side tests the last byte's position instead. */
  function TrimRightOfFile(v: View): (r: View)
    requires v.0 <= v.1
    ensures v.0 == r.0 <= r.1 <= v.1
    decreases v.1 - v.0
  {
    if v.0 < v.1 && IsSpace(v.1 - 1) then TrimRightOfFile((v.0, v.1 - 1)) else v
  }

  datatype Backing = Memory | File

  function Trim(backing: Backing, text: Bytes, v: View): (r: View)
    requires v.0 <= v.1 <= |text|
    ensures v.0 <= r.0 <= r.1 <= v.1
  {
    var l := TrimLeft(text, v);
    if backing.Memory? then TrimRight(text, l) else TrimRightOfFile(l)
  }

  /** Where FileBuffer::trim's right side comes to from an end at e, given room: over position 32,
      or over what there is of 9 to 13. */
  function Edge(e: nat): (r: nat)
    ensures r <= e
  {
    if e == 33 then 32 else if 10 <= e <= 14 then 9 else e
  }

  lemma {:induction false} TrimRightOfFileStops(v: View)
    requires v.0 <= v.1
    ensures TrimRightOfFile(v) == (v.0, if Edge(v.1) < v.0 then v.0 else Edge(v.1))
    decreases v.1 - v.0
  {
    if v.0 < v.1 && IsSpace(v.1 - 1) {
      TrimRightOfFileStops((v.0, v.1 - 1));
    }
  }

  /** Where StringBuffer::trim's right side stops: behind the last byte that is no space. */
  lemma {:induction false} TrimRightStops(text: Bytes, v: View, e: nat)
    requires v.0 <= e <= v.1 <= |text|
    ensures TrimRight(text, v) == (v.0, e) <==>
            (forall i | e <= i < v.1 :: IsSpace(text[i])) && (e == v.0 || !IsSpace(text[e - 1]))
    decreases v.1 - v.0
  {
    if v.0 < v.1 && IsSpace(text[v.1 - 1]) {
      if e < v.1 {
        TrimRightStops(text, (v.0, v.1 - 1), e);
      }
    } else if e < v.1 {
      assert !IsSpace(text[v.1 - 1]);
    }
  }

  /** The two stores trim a view alike exactly when everything from the edge on is a space, and the
      byte in front of it is not. */
  lemma TrimsAgreeIff(text: Bytes, v: View)
    requires v.0 <= v.1 <= |text|
    ensures var lo := TrimLeft(text, v).0;
            var e := if Edge(v.1) < lo then lo else Edge(v.1);
            Trim(Memory, text, v) == Trim(File, text, v) <==>
            (forall i | e <= i < v.1 :: IsSpace(text[i])) && (e == lo || !IsSpace(text[e - 1]))
  {
    var l := TrimLeft(text, v);
    TrimRightOfFileStops(l);
    TrimRightStops(text, l, TrimRightOfFile(l).1);
  }

  /** Ending at position 10 even a byte that is no space goes: here the tenth letter. */
  lemma FileTrimLosesAByte()
    ensures var text := seq(10, i => 'x' as int);
            Trim(Memory, text, (0, 10)) == (0, 10) && Trim(File, text, (0, 10)) == (0, 9)
  {
    var text := seq(10, i => 'x' as int);
    assert TrimLeft(text, (0, 10)) == (0, 10);
    TrimRightOfFileStops((0, 10));
  }

  // ----- header lines -----

  /** What the header lines of a part have said so far; an empty view stands for nothing. */
  datatype Names = Names(name: View, filename: View, contentType: View)

  ghost predicate NamesInText(text: Bytes, n: Names) {
    InText(text, n.name) && InText(text, n.filename) && InText(text, n.contentType)
  }

  predicate KeyIs(text: Bytes, key: View, p: Bytes)
    requires key.0 <= key.1 <= |text|
  {
    Size(key) == |p| && StartsWith(text, key, p)
  }

  /** One item of a header line: key=value, the value in quotes that are cut off unseen. */
  function Item(backing: Backing, text: Bytes, head: View, n: Names): (r: Names)
    requires head.0 <= head.1 <= |text| && NamesInText(text, n)
    ensures NamesInText(text, r)
  {
    var (_, key, value) := SplitView(text, head, [EQUALS]);
    if KeyIs(text, key, NAME) then n.(name := if value.0 == value.1 then value else TrimN(value, 1, 1))
    else if KeyIs(text, key, FILENAME) then n.(filename := if value.0 == value.1 then value else TrimN(value, 1, 1))
    else if EqualIgnoringCase(Shows(text, key), CONTENT_TYPE) then
      n.(contentType := if value.0 == value.1 then value else Trim(backing, text, value))
    else n
  }

  /** Parser::parseLine. */
  function Line(backing: Backing, text: Bytes, line: View, n: Names): (r: Names)
    requires line.0 <= line.1 <= |text| && NamesInText(text, n)
    ensures NamesInText(text, r)
    decreases line.1 - line.0
  {
    if line.0 == line.1 then n
    else
      var (_, head, tail) := SplitView(text, line, [SEMICOLON]);
      Line(backing, text, if tail.0 == tail.1 then tail else Trim(backing, text, tail), Item(backing, text, head, n))
  }

  method ParseLine(backing: Backing, text: Bytes, line: View, n: Names) returns (r: Names)
    requires line.0 <= line.1 <= |text| && NamesInText(text, n)
    ensures r == Line(backing, text, line, n)
  {
    hide Item, FindIn;
    r := n;
    var rest: View := line;
    while rest.0 != rest.1
      invariant rest.0 <= rest.1 <= |text| && NamesInText(text, r)
      invariant Line(backing, text, rest, r) == Line(backing, text, line, n)
      decreases rest.1 - rest.0
    {
      var (_, head, tail) := SplitView(text, rest, [SEMICOLON]);
      r := Item(backing, text, head, r);
      rest := if tail.0 == tail.1 then tail else Trim(backing, text, tail);
    }
  }

  // ----- parts -----

  /** The next physical line and what follows it. */
  function SubLine(text: Bytes, tail: View): (r: (View, View))
    requires tail.0 <= tail.1 <= |text|
    ensures InText(text, r.0) && InText(text, r.1) && r.0.1 <= tail.1
    ensures tail.0 < tail.1 ==> Size(r.1) < Size(tail)
    ensures r.0.0 == tail.0 && (r.1.0 < r.1.1 ==> tail.0 <= r.1.0)
  {
    var (found, line, rest) := SplitView(text, tail, CRLF);
    if found then (line, rest)
    else var (_, line', rest') := SplitView(text, tail, [LF]); (line', rest')
  }

  predicate Continues(text: Bytes, line: View)
    requires line.0 <= line.1 <= |text|
  {
    StartsWith(text, line, [SPACE]) || StartsWith(text, line, [TAB])
  }

  /** The inner loop of parsePart: physical lines are joined while they are continued. */
  function Unfold(text: Bytes, line: View, tail: View, lineFound: bool): (r: (View, View))
    requires InText(text, line) && InText(text, tail)
    requires tail.0 < tail.1 ==> line.0 <= tail.0
    ensures InText(text, r.0)
    ensures InText(text, r.1)
    ensures !lineFound && tail.0 < tail.1 ==> Size(r.1) < Size(tail)
    ensures Size(r.1) <= Size(tail)
    decreases tail.1 - tail.0
  {
    if tail.0 == tail.1 then (line, tail)
    else
      var (sub, rest) := SubLine(text, tail);
      if Continues(text, sub) then Unfold(text, (line.0, sub.1), rest, true)
      else if lineFound then (line, tail)
      else Unfold(text, sub, rest, true)
  }

  /** All the header lines of a part. */
  function Headers(backing: Backing, text: Bytes, headers: View, n: Names): (r: Names)
    requires InText(text, headers) && NamesInText(text, n)
    ensures NamesInText(text, r)
    decreases headers.1 - headers.0
  {
    if headers.0 == headers.1 then n
    else
      var (line, tail) := Unfold(text, (0, 0), headers, false);
      Headers(backing, text, tail, Line(backing, text, line, n))
  }

  method ParseHeaders(backing: Backing, text: Bytes, headers: View) returns (r: Names)
    requires InText(text, headers)
    ensures r == Headers(backing, text, headers, Names((0, 0), (0, 0), (0, 0)))
  {
    hide Line, SubLine;
    r := Names((0, 0), (0, 0), (0, 0));
    var left: View := headers;
    while left.0 != left.1
      invariant InText(text, left) && NamesInText(text, r)
      invariant Headers(backing, text, left, r) == Headers(backing, text, headers, Names((0, 0), (0, 0), (0, 0)))
      decreases left.1 - left.0
    {
      var line: View, tail: View, lineFound := (0, 0), left, false;
      while tail.0 != tail.1
        invariant InText(text, line) && InText(text, tail)
        invariant tail.0 < tail.1 ==> line.0 <= tail.0
        invariant Unfold(text, line, tail, lineFound) == Unfold(text, (0, 0), left, false)
        decreases tail.1 - tail.0
      {
        var (sub, rest) := SubLine(text, tail);
        if Continues(text, sub) {
          line := (line.0, sub.1);
        } else {
          if lineFound {
            break;
          }
          line := sub;
        }
        tail := rest;
        lineFound := true;
      }
      assert (line, tail) == Unfold(text, (0, 0), left, false);
      r := ParseLine(backing, text, line, r);
      left := tail;
    }
  }

  /** An uploaded file: its content stays a view. */
  datatype Upload = Upload(key: Bytes, filename: Bytes, contentType: Bytes, content: View)

  datatype Found = Found(files: seq<Upload>, args: seq<(Bytes, Bytes)>)

  predicate HasUpload(files: seq<Upload>, key: Bytes) {
    exists i | 0 <= i < |files| :: files[i].key == key
  }

  /** A file is inserted into a map, so the first of a name stays; arguments are appended. */
  function AddPart(text: Bytes, n: Names, content: View, found: Found): Found
    requires NamesInText(text, n) && InText(text, content)
  {
    if n.name.0 == n.name.1 then found
    else
      var key := Shows(text, n.name);
      if n.filename.0 == n.filename.1 then found.(args := found.args + [(key, Shows(text, content))])
      else if HasUpload(found.files, key) then found
      else found.(files := found.files + [Upload(key, Shows(text, n.filename), Shows(text, n.contentType), content)])
  }

  /** Where the header block ends: at the first empty line, with CRLF or, failing that, with LF. */
  function SplitPart(text: Bytes, part: View): (r: (View, View))
    requires InText(text, part)
    ensures InText(text, r.0) && InText(text, r.1)
    ensures r.1 == (0, 0) || (part.0 <= r.1.0 && r.1.1 == part.1)
  {
    var (found, headers, content) := SplitView(text, part, CRLFCRLF);
    if found then (headers, content)
    else var (_, headers', content') := SplitView(text, part, LFLF); (headers', content')
  }

  function Part(backing: Backing, text: Bytes, part: View, found: Found): Found
    requires InText(text, part)
  {
    var (headers, content) := SplitPart(text, part);
    AddPart(text, Headers(backing, text, headers, Names((0, 0), (0, 0), (0, 0))), content, found)
  }

  method ParsePart(backing: Backing, text: Bytes, part: View, found: Found) returns (r: Found)
    requires InText(text, part)
    ensures r == Part(backing, text, part, found)
  {
    hide Headers;
    var (headers, content) := SplitPart(text, part);
    var n := ParseHeaders(backing, text, headers);
    if n.name.0 == n.name.1 {
      return found;
    }
    var key := Shows(text, n.name);
    if n.filename.0 != n.filename.1 {
      if !HasUpload(found.files, key) {
        return found.(files := found.files + [Upload(key, Shows(text, n.filename), Shows(text, n.contentType), content)]);
      }
      return found;
    }
    return found.(args := found.args + [(key, Shows(text, content))]);
  }

  // ----- bodies -----

  /** What lies between two boundaries, or before the first. */
  datatype Segment = Skip | PartAt(v: View) | Closing | Broken

  /** A segment must end and begin with a line end; two dashes between them close the body. */
  function Classify(text: Bytes, head: View): (r: Segment)
    requires InText(text, head)
    ensures r.PartAt? ==> InText(text, r.v)
  {
    if head.0 == head.1 then Skip
    else
      var e := if EndsWith(text, head, CRLF) then 2 else if EndsWith(text, head, [LF]) then 1 else 0;
      if e == 0 then Broken
      else
        var h := TrimN(head, 0, e);
        if Size(h) == 2 && StartsWith(text, h, DASHES) then Closing
        else
          var b := if StartsWith(text, h, CRLF) then 2 else if StartsWith(text, h, [LF]) then 1 else 0;
          if b == 0 then Broken
          else
            var p := TrimN(h, b, 0);
            if p.0 == p.1 then Skip else PartAt(p)
  }

  /** Diverges: the closing delimiter was followed by another boundary, which the code's `continue`
      looks at for ever. */
  datatype Outcome = Done(found: Found) | Malformed | Diverges

  /** Parser::parseMultipart; boundary is with its two dashes. */
  function Body(backing: Backing, text: Bytes, data: View, boundary: Bytes, found: Found): Outcome
    requires InText(text, data) && boundary != []
    decreases data.1 - data.0
  {
    if data.0 == data.1 then Done(found)
    else
      var (split, head, tail) := SplitView(text, data, boundary);
      if !split then Done(Part(backing, text, head, found))
      else
        match Classify(text, head)
        case Skip => Body(backing, text, tail, boundary, found)
        case PartAt(v) => Body(backing, text, tail, boundary, Part(backing, text, v, found))
        case Closing => Diverges
        case Broken => Malformed
  }

  method ParseMultipart(backing: Backing, text: Bytes, data: View, boundary: Bytes, found: Found) returns (r: Outcome)
    requires InText(text, data) && boundary != []
    ensures r == Body(backing, text, data, boundary, found)
  {
    hide Part, FindIn;
    var left: View, acc := data, found;
    while left.0 != left.1
      invariant InText(text, left)
      invariant Body(backing, text, left, boundary, acc) == Body(backing, text, data, boundary, found)
      decreases left.1 - left.0
    {
      var (split, head, tail) := SplitView(text, left, boundary);
      if split && head.0 != head.1 {
        if EndsWith(text, head, CRLF) {
          head := TrimN(head, 0, 2);
        } else if EndsWith(text, head, [LF]) {
          head := TrimN(head, 0, 1);
        } else {
          return Malformed;
        }
        if Size(head) == 2 && StartsWith(text, head, DASHES) {
          return Diverges;
        } else if StartsWith(text, head, CRLF) {
          head := TrimN(head, 2, 0);
        } else if StartsWith(text, head, [LF]) {
          head := TrimN(head, 1, 0);
        } else {
          return Malformed;
        }
      }
      if head.0 != head.1 {
        acc := ParsePart(backing, text, head, acc);
      }
      left := tail;
    }
    return Done(acc);
  }

  // ----- files are slices -----

  /** The part had no empty line, or its content lies in the body. */
  predicate IsSlice(data: View, u: Upload) {
    u.content == (0, 0) || data.0 <= u.content.0 <= u.content.1 <= data.1
  }

  lemma PartSlices(backing: Backing, text: Bytes, part: View, found: Found, whole: View)
    requires InText(text, part) && whole.0 <= part.0 && part.1 <= whole.1
    requires forall u | u in found.files :: IsSlice(whole, u)
    ensures forall u | u in Part(backing, text, part, found).files :: IsSlice(whole, u)
  {
    hide Headers;
  }

  /** Whatever the bytes, every uploaded file is a slice of the body that was parsed. */
  lemma {:induction false} FilesAreSlices(
    backing: Backing, text: Bytes, data: View, boundary: Bytes, found: Found, whole: View)
    requires InText(text, data) && boundary != [] && whole.0 <= data.0 && data.1 <= whole.1
    requires forall u | u in found.files :: IsSlice(whole, u)
    ensures var r := Body(backing, text, data, boundary, found);
            r.Done? ==> forall u | u in r.found.files :: IsSlice(whole, u)
    decreases data.1 - data.0
  {
    hide Part, IsSlice, Search;
    if data.0 < data.1 {
      var (split, head, tail) := SplitView(text, data, boundary);
      if !split {
        PartSlices(backing, text, head, found, whole);
      } else {
        match Classify(text, head)
        case Skip => FilesAreSlices(backing, text, tail, boundary, found, whole);
        case PartAt(v) =>
          PartSlices(backing, text, v, found, whole);
          FilesAreSlices(backing, text, tail, boundary, Part(backing, text, v, found), whole);
        case _ =>
      }
    }
  }
}
