/**
 * RequestImpl's storage side (library/requestimpl.cpp): the loops that write a request into a
 * buffer, the loops that read it back, and the staged writer inside attach.
 */
module Requests {
  import opened Bytes
  import opened Buffers
  import opened DataBuffers
  import opened StoredImage
  import opened MMapFiles

  datatype File = File(key: Bytes, remoteName: Bytes, contentType: Bytes, data: DataBuffer)

  /** RequestIOStream::read: as much as is asked for, until the input runs out. */
  class InputStream {
    var input: Bytes

    constructor (input: Bytes)
      ensures this.input == input
    {
      this.input := input;
    }

    method Read(n: nat) returns (data: Bytes)
      modifies this
      ensures data == old(input)[..Min(n, |old(input)|)] && input == old(input)[Min(n, |old(input)|)..]
    {
      data := input[..Min(n, |input|)];
      input := input[Min(n, |input|)..];
    }
  }

  /** What the request's own parsers make of a body: files as views of the store, and arguments. */
  datatype Entity = Entity(files: seq<ParsedFile>, args: seq<Field>)

  ghost predicate InBody(fs: seq<ParsedFile>, body: (nat, nat)) {
    forall f | f in fs :: Inside(f.begin, f.end, body)
  }

  // ----- writing into a buffer -----

  /** buffer.write where there is room: everything is placed. */
  method Put(buffer: DataBuffer, pos: nat, data: Bytes) returns (r: nat)
    requires buffer.Valid() && pos + |data| <= buffer.end - buffer.begin
    modifies buffer.impl.Repr()
    ensures buffer.Valid() && r == pos + |data|
    ensures buffer.Text() == Splice(old(buffer.Text()), pos, data)
    ensures |buffer.impl.Contents()| == |old(buffer.impl.Contents())|
  {
    SpliceNothing(buffer.Text(), pos);
    assert data[..|data|] == data;
    var n := buffer.Write(pos, data);
    r := pos + n;
  }

  method SerializeInt(buffer: DataBuffer, pos: nat, val: nat) returns (r: nat)
    requires buffer.Valid() && pos + 8 <= buffer.end - buffer.begin
    modifies buffer.impl.Repr()
    ensures buffer.Valid() && r == pos + 8
    ensures buffer.Text() == Splice(old(buffer.Text()), pos, EncInt(val))
    ensures buffer.Text()[..r] == old(buffer.Text())[..pos] + EncInt(val)
    ensures |buffer.impl.Contents()| == |old(buffer.impl.Contents())|
  {
    PrefixGrows(buffer.Text(), pos, EncInt(val));
    r := Put(buffer, pos, EncInt(val));
  }

  lemma StringSize(s: Bytes)
    ensures |EncString(s)| == 8 + |s|
  {
  }

  lemma SpliceNothing(s: Bytes, pos: nat)
    requires pos <= |s|
    ensures Splice(s, pos, []) == s
  {
  }

  method SerializeString(buffer: DataBuffer, pos: nat, val: Bytes) returns (r: nat)
    requires buffer.Valid() && pos + |EncString(val)| <= buffer.end - buffer.begin
    modifies buffer.impl.Repr()
    ensures buffer.Valid() && r == pos + |EncString(val)|
    ensures buffer.Text() == Splice(old(buffer.Text()), pos, EncString(val))
    ensures |buffer.impl.Contents()| == |old(buffer.impl.Contents())|
  {
    r := SerializeInt(buffer, pos, |val|);
    SpliceTwice(old(buffer.Text()), pos, EncInt(|val|), val);
    r := Put(buffer, r, val);
  }

  /** The loop that writes a table, entry by entry. */
  method SerializeFields(buffer: DataBuffer, pos: nat, fs: seq<Field>) returns (r: nat)
    requires buffer.Valid() && pos + |EncFields(fs)| <= buffer.end - buffer.begin
    modifies buffer.impl.Repr()
    ensures buffer.Valid() && r == pos + |EncFields(fs)|
    ensures buffer.Text() == Splice(old(buffer.Text()), pos, EncFields(fs))
    ensures |buffer.impl.Contents()| == |old(buffer.impl.Contents())|
  {
    hide EncFields, EncString, Splice;
    r := pos;
    ghost var text := buffer.Text();
    SpliceNothing(text, pos);
    FieldsUpToAll(fs);
    for i := 0 to |fs|
      invariant buffer.Valid() && r == pos + |EncFields(fs[..i])|
      invariant pos + |EncFields(fs[..i])| <= |text|
      invariant buffer.Text() == Splice(text, pos, EncFields(fs[..i]))
      invariant |buffer.impl.Contents()| == |old(buffer.impl.Contents())|
    {
      FieldsStep(fs, i);
      SpliceTwice(text, pos, EncFields(fs[..i]), EncString(fs[i].0));
      r := SerializeString(buffer, r, fs[i].0);
      SpliceTwice(text, pos, EncFields(fs[..i]) + EncString(fs[i].0), EncString(fs[i].1));
      r := SerializeString(buffer, r, fs[i].1);
      assert EncFields(fs[..i]) + EncString(fs[i].0) + EncString(fs[i].1) == EncFields(fs[..i + 1]);
    }
  }

  lemma {:induction false} EncFieldsConcat(a: seq<Field>, b: seq<Field>)
    ensures EncFields(a + b) == EncFields(a) + EncFields(b)
  {
    hide EncField;
    if a == [] {
      assert a + b == b;
    } else {
      EncFieldsConcat(a[1..], b);
      assert (a + b)[1..] == a[1..] + b;
      assert EncFields(a + b) == EncField(a[0]) + (EncFields(a[1..]) + EncFields(b));
    }
  }

  /** One more entry is one more entry's bytes, within the whole. */
  lemma FieldsStep(fs: seq<Field>, i: nat)
    requires i < |fs|
    ensures EncFields(fs[..i + 1]) == EncFields(fs[..i]) + EncField(fs[i])
    ensures |EncFields(fs[..i])| + |EncField(fs[i])| <= |EncFields(fs)|
  {
    hide EncField;
    assert fs[..i + 1] == fs[..i] + [fs[i]];
    assert EncFields([fs[i]]) == EncField(fs[i]);
    EncFieldsConcat(fs[..i], [fs[i]]);
    assert fs == fs[..i + 1] + fs[i + 1..];
    EncFieldsConcat(fs[..i + 1], fs[i + 1..]);
  }

  lemma FieldsUpToAll(fs: seq<Field>)
    ensures fs[..|fs|] == fs && EncFields(fs[..0]) == []
  {
  }

  /** A table with its length prefix, which is summed in a loop of its own. */
  method SerializeSection(buffer: DataBuffer, pos: nat, fs: seq<Field>) returns (r: nat)
    requires buffer.Valid() && pos + |EncSection(fs)| <= buffer.end - buffer.begin
    modifies buffer.impl.Repr()
    ensures buffer.Valid() && r == pos + |EncSection(fs)|
    ensures buffer.Text() == Splice(old(buffer.Text()), pos, EncSection(fs))
    ensures buffer.Text()[..r] == old(buffer.Text())[..pos] + EncSection(fs)
    ensures |buffer.impl.Contents()| == |old(buffer.impl.Contents())|
  {
    hide Splice, EncInt, EncFields, FieldsSize;
    var size := FieldsSerializedSize(fs);
    ghost var text := buffer.Text();
    PrefixGrows(text, pos, EncSection(fs));
    r := SerializeInt(buffer, pos, size);
    SpliceTwice(text, pos, EncInt(size), EncFields(fs));
    r := SerializeFields(buffer, r, fs);
  }

  /** argsSerializedSize and the three size loops of serializeEnv. */
  method FieldsSerializedSize(fs: seq<Field>) returns (size: nat)
    ensures size == FieldsSize(fs) == |EncFields(fs)|
  {
    size := 0;
    for i := 0 to |fs|
      invariant size == |EncFields(fs[..i])|
    {
      FieldsStep(fs, i);
      size := size + |fs[i].0|;
      size := size + |fs[i].1|;
      size := size + 2 * 8;
    }
    FieldsUpToAll(fs);
    FieldsSizeIsExact(fs);
  }

  // ----- files -----

  lemma {:induction false} EncFilesConcat(a: seq<FileEntry>, b: seq<FileEntry>)
    ensures EncFiles(a + b) == EncFiles(a) + EncFiles(b)
  {
    hide EncFile;
    if a == [] {
      assert a + b == b;
    } else {
      EncFilesConcat(a[1..], b);
      assert (a + b)[1..] == a[1..] + b;
      assert EncFiles(a + b) == EncFile(a[0]) + (EncFiles(a[1..]) + EncFiles(b));
    }
  }

  lemma FilesStep(fs: seq<FileEntry>, i: nat)
    requires i < |fs|
    ensures EncFiles(fs[..i + 1]) == EncFiles(fs[..i]) + EncFile(fs[i])
    ensures |EncFiles(fs[..i])| + |EncFile(fs[i])| <= |EncFiles(fs)|
  {
    hide EncFile;
    assert fs[..i + 1] == fs[..i] + [fs[i]];
    assert EncFiles([fs[i]]) == EncFile(fs[i]);
    EncFilesConcat(fs[..i], [fs[i]]);
    assert fs == fs[..i + 1] + fs[i + 1..];
    EncFilesConcat(fs[..i + 1], fs[i + 1..]);
  }

  lemma FilesUpToAll(fs: seq<FileEntry>)
    ensures fs[..|fs|] == fs && EncFiles(fs[..0]) == []
  {
  }

  /** A file as it is stored, for a body that begins at lo. */
  function EntryOf(f: File, lo: nat): FileEntry
    requires f.data.begin <= f.data.end
  {
    EntryAt(Plain(f), lo)
  }

  ghost predicate Within(files: seq<File>, body: DataBuffer) {
    forall f | f in files :: f.data.impl == body.impl && Inside(f.data.begin, f.data.end, (body.begin, body.end))
  }

  function Entries(files: seq<File>, body: DataBuffer): (r: seq<FileEntry>)
    requires Within(files, body)
    ensures |r| == |files| && forall i | 0 <= i < |files| :: r[i] == EntryOf(files[i], body.begin)
  {
    if files == [] then []
    else [assert files[0] in files; EntryOf(files[0], body.begin)] + Entries(files[1..], body)
  }

  /** One file entry: three strings and two integers, of which the first is an offset. */
  method SerializeFile(buffer: DataBuffer, pos: nat, f: File, ghost e: FileEntry, body: DataBuffer) returns (r: nat)
    requires buffer.Valid() && pos + |EncFile(e)| <= buffer.end - buffer.begin
    requires f.data.begin <= f.data.end && e == EntryOf(f, body.begin)
    modifies buffer.impl.Repr()
    ensures buffer.Valid() && r == pos + |EncFile(e)|
    ensures buffer.Text() == Splice(old(buffer.Text()), pos, EncFile(e))
    ensures |buffer.impl.Contents()| == |old(buffer.impl.Contents())|
  {
    hide EncString, EncInt, Splice;
    ghost var text := buffer.Text();
    ghost var a, b, c := EncString(f.key), EncString(f.remoteName), EncString(f.contentType);
    r := SerializeString(buffer, pos, f.key);
    SpliceTwice(text, pos, a, b);
    r := SerializeString(buffer, r, f.remoteName);
    SpliceTwice(text, pos, a + b, c);
    r := SerializeString(buffer, r, f.contentType);
    SpliceTwice(text, pos, a + b + c, EncInt(e.offset));
    r := SerializeInt(buffer, r, (f.data.begin - body.begin) % TWO_64);
    SpliceTwice(text, pos, a + b + c + EncInt(e.offset), EncInt(e.length));
    r := SerializeInt(buffer, r, f.data.end - f.data.begin);
  }

  method FilesSerializedSize(files: seq<File>, body: DataBuffer) returns (size: nat)
    requires Within(files, body)
    ensures size == FilesSize(Entries(files, body)) == |EncFiles(Entries(files, body))|
  {
    size := 0;
    ghost var es := Entries(files, body);
    for i := 0 to |files|
      invariant size == |EncFiles(es[..i])|
    {
      FilesStep(es, i);
      size := size + 8;
      size := size + |files[i].key|;
      size := size + 8;
      size := size + |files[i].remoteName|;
      size := size + 8;
      size := size + |files[i].contentType|;
      size := size + 2 * 8;
    }
    assert es[..|es|] == es;
    FilesSizeIsExact(es);
  }

  method SerializeFiles(buffer: DataBuffer, pos: nat, files: seq<File>, body: DataBuffer) returns (r: nat)
    requires Within(files, body)
    requires buffer.Valid() && pos + |EncFileSection(Entries(files, body))| <= buffer.end - buffer.begin
    modifies buffer.impl.Repr()
    ensures buffer.Valid() && r == pos + |EncFileSection(Entries(files, body))|
    ensures buffer.Text() == Splice(old(buffer.Text()), pos, EncFileSection(Entries(files, body)))
    ensures buffer.Text()[..r] == old(buffer.Text())[..pos] + EncFileSection(Entries(files, body))
    ensures |buffer.impl.Contents()| == |old(buffer.impl.Contents())|
  {
    hide Splice, EncInt, EncFiles, FilesSize, Entries;
    var size := FilesSerializedSize(files, body);
    ghost var text, es := buffer.Text(), Entries(files, body);
    PrefixGrows(text, pos, EncFileSection(es));
    r := SerializeInt(buffer, pos, size);
    SpliceTwice(text, pos, EncInt(size), EncFiles(es));
    r := SerializeFileEntries(buffer, r, files, es, body);
  }

  /** The loop of serializeFiles. */
  method SerializeFileEntries(buffer: DataBuffer, pos: nat, files: seq<File>, ghost es: seq<FileEntry>, body: DataBuffer)
    returns (r: nat)
    requires Within(files, body) && es == Entries(files, body)
    requires buffer.Valid() && pos + |EncFiles(es)| <= buffer.end - buffer.begin
    modifies buffer.impl.Repr()
    ensures buffer.Valid() && r == pos + |EncFiles(es)|
    ensures buffer.Text() == Splice(old(buffer.Text()), pos, EncFiles(es))
    ensures |buffer.impl.Contents()| == |old(buffer.impl.Contents())|
  {
    hide EncFile, Splice, Entries, EncFiles;
    r := pos;
    ghost var text := buffer.Text();
    SpliceNothing(text, pos);
    FilesUpToAll(es);
    for i := 0 to |files|
      invariant buffer.Valid() && r == pos + |EncFiles(es[..i])|
      invariant r <= |text|
      invariant buffer.Text() == Splice(text, pos, EncFiles(es[..i]))
      invariant |buffer.impl.Contents()| == |old(buffer.impl.Contents())|
    {
      assert files[i] in files;
      FilesStep(es, i);
      SpliceTwice(text, pos, EncFiles(es[..i]), EncFile(es[i]));
      r := SerializeFile(buffer, r, files[i], es[i], body);
    }
  }

  /** serializeBuffer: a length, then the source's segments. */
  method SerializeBuffer(buffer: DataBuffer, pos: nat, src: DataBuffer) returns (r: nat)
    requires buffer.Valid() && src.Valid() && buffer.impl.Repr() !! src.impl.Repr()
    requires pos + |EncString(src.Text())| <= buffer.end - buffer.begin
    modifies buffer.impl.Repr()
    ensures buffer.Valid() && src.Valid() && r == pos + |EncString(src.Text())|
    ensures buffer.Text() == Splice(old(buffer.Text()), pos, EncString(src.Text()))
    ensures buffer.Text()[..r] == old(buffer.Text())[..pos] + EncString(src.Text())
    ensures |buffer.impl.Contents()| == |old(buffer.impl.Contents())|
  {
    hide Splice, EncInt;
    ghost var text, n := buffer.Text(), src.end - src.begin;
    PrefixGrows(text, pos, EncString(src.Text()));
    r := SerializeInt(buffer, pos, src.end - src.begin);
    SpliceTwice(text, pos, EncInt(n), src.Text());
    r := CopySegments(buffer, r, src);
  }

  /** The iterator is at byte `done` of the view [lo, hi) of the bytes in store. */
  ghost predicate Walks(it: SegmentIterator, store: Bytes, lo: nat, hi: nat, done: nat)
    reads it, it.buffer.impl.Repr()
  {
    && it.Valid() && lo + done <= hi <= |store|
    && (it.ended ==> lo + done == hi)
    && (!it.ended ==> it.buffer.impl.Contents() == store && it.buffer.end == hi && it.posBegin == lo + done)
  }

  /** The source is walked segment by segment and written at the growing position. */
  method CopySegments(buffer: DataBuffer, pos: nat, src: DataBuffer) returns (r: nat)
    requires buffer.Valid() && src.Valid() && buffer.impl.Repr() !! src.impl.Repr()
    requires pos + |src.Text()| <= buffer.end - buffer.begin
    modifies buffer.impl.Repr()
    ensures buffer.Valid() && src.Valid() && r == pos + |src.Text()|
    ensures buffer.Text() == Splice(old(buffer.Text()), pos, src.Text())
    ensures |buffer.impl.Contents()| == |old(buffer.impl.Contents())|
  {
    hide Splice, Segments, CutEnd;
    var it := new SegmentIterator(src);
    r := CopyAll(buffer, pos, it, src.impl.Contents(), src.begin, src.end);
  }

  /** The loop. */
  method CopyAll(buffer: DataBuffer, pos: nat, it: SegmentIterator, ghost store: Bytes, ghost lo: nat, ghost hi: nat)
    returns (r: nat)
    requires buffer.Valid() && lo <= hi && Walks(it, store, lo, hi, 0)
    requires pos + (hi - lo) <= buffer.end - buffer.begin
    requires it !in buffer.impl.Repr() && it !in it.buffer.impl.Repr()
    requires !it.ended ==> it.buffer.impl.Repr() !! buffer.impl.Repr()
    modifies buffer.impl.Repr(), it, if !it.ended && it.buffer.impl.OnDisk? then {it.buffer.impl.f.file} else {}
    ensures buffer.Valid() && r == pos + (hi - lo)
    ensures buffer.Text() == Splice(old(buffer.Text()), pos, store[lo..hi])
    ensures |buffer.impl.Contents()| == |old(buffer.impl.Contents())|
  {
    hide Splice, Walks;
    WalksWithin(it, store, lo, hi, 0);
    ghost var text, body, walked := buffer.Text(), store[lo..hi], it.buffer;
    ghost var done: nat := 0;
    r := pos;
    SpliceNothing(text, pos);
    while !it.ended
      invariant Walks(it, store, lo, hi, done) && it.buffer == walked
      invariant buffer.Valid() && r == pos + done && lo + done <= hi <= |store|
      invariant buffer.Text() == Splice(text, pos, body[..done])
      invariant |buffer.impl.Contents()| == |old(buffer.impl.Contents())|
      decreases !it.ended, hi - lo - done
    {
      WalksWithin(it, store, lo, hi, done);
      ghost var n := it.posEnd - it.posBegin;
      NextChunk(store, lo, hi, text, pos, done, n);
      r := CopySegment(buffer, r, it, store, lo, hi, done);
      done := done + n;
    }
    WalksWithin(it, store, lo, hi, done);
    assert body[..done] == body;
  }

  lemma WalksWithin(it: SegmentIterator, store: Bytes, lo: nat, hi: nat, done: nat)
    requires Walks(it, store, lo, hi, done)
    ensures lo + done <= hi <= |store| && (it.ended ==> lo + done == hi)
    ensures !it.ended ==> it.posBegin == lo + done && it.posBegin < it.posEnd <= hi
  {
    hide Segments;
  }

  /** One turn of the loop: the current segment is written and the iterator moves on. */
  method CopySegment(
    buffer: DataBuffer, pos: nat, it: SegmentIterator, ghost store: Bytes, ghost lo: nat, ghost hi: nat, ghost done: nat)
    returns (r: nat)
    requires buffer.Valid() && Walks(it, store, lo, hi, done) && !it.ended
    requires buffer.impl.Repr() !! it.buffer.impl.Repr() && it !in buffer.impl.Repr() && it !in it.buffer.impl.Repr()
    requires pos + it.posEnd - it.posBegin <= buffer.end - buffer.begin
    modifies buffer.impl.Repr(), it, if it.buffer.impl.OnDisk? then {it.buffer.impl.f.file} else {}
    ensures buffer.Valid() && it.buffer == old(it.buffer)
    ensures Walks(it, store, lo, hi, done + old(it.posEnd - it.posBegin))
    ensures r == pos + old(it.posEnd - it.posBegin)
    ensures buffer.Text() == Splice(old(buffer.Text()), pos, store[lo + done..lo + done + old(it.posEnd - it.posBegin)])
    ensures |buffer.impl.Contents()| == |old(buffer.impl.Contents())|
  {
    hide Splice, Segments;
    var chunk := it.Current();
    r := Put(buffer, pos, chunk);
    it.Next();
  }

  /** A chunk of the source written behind those that are there. */
  lemma NextChunk(store: Bytes, lo: nat, hi: nat, text: Bytes, pos: nat, done: nat, n: nat)
    requires lo + done + n <= hi <= |store| && pos + (hi - lo) <= |text|
    ensures var body := store[lo..hi];
            Splice(Splice(text, pos, body[..done]), pos + done, store[lo + done..lo + done + n]) ==
            Splice(text, pos, body[..done + n])
  {
    hide Splice;
    var body, chunk := store[lo..hi], store[lo + done..lo + done + n];
    SliceOfSlice(store, lo, hi, done, done + n);
    SlicesMeet(body, 0, done, done + n);
    SpliceTwice(text, pos, body[..done], chunk);
  }

  lemma PrefixGrows(text: Bytes, pos: nat, data: Bytes)
    requires pos + |data| <= |text|
    ensures Splice(text, pos, data)[..pos + |data|] == text[..pos] + data
  {
  }

  // ----- reading the entity in place -----

  /** The loop of attach that lets the stream fill the body, segment by segment. */
  method ReadBody(body: DataBuffer, stream: InputStream) returns (rsz: nat)
    requires body.Valid() && stream !in body.impl.Repr()
    modifies body.impl.Repr(), stream
    ensures body.Valid() && rsz == Min(body.end - body.begin, |old(stream.input)|)
    ensures body.Text()[..rsz] == old(stream.input)[..rsz]
    ensures |body.impl.Contents()| == |old(body.impl.Contents())|
    ensures body.impl.Contents()[..body.begin] == old(body.impl.Contents())[..body.begin]
    ensures body.impl.Contents()[body.end..] == old(body.impl.Contents())[body.end..]
  {
    hide Splice, Segments, CutEnd;
    var it := new SegmentIterator(body);
    ghost var input, store := stream.input, body.impl.Contents();
    rsz := FillAll(body, it, stream);
    SplicedParts(store, body.begin, body.end, input[..rsz]);
  }

  /** The iterator is at byte `done` of the body. */
  ghost predicate Fills(it: SegmentIterator, body: DataBuffer, done: nat)
    reads it, it.buffer.impl.Repr(), body.impl.Repr()
  {
    && it.Valid() && body.Valid() && it.Visits(body.impl, body.end) && body.begin + done <= body.end
    && (if it.ended then body.begin + done == body.end else it.posBegin == body.begin + done)
  }

  /** The loop. */
  method FillAll(body: DataBuffer, it: SegmentIterator, stream: InputStream) returns (rsz: nat)
    requires Fills(it, body, 0) && body.begin <= body.end <= |body.impl.Contents()|
    requires it !in body.impl.Repr() && it !in it.buffer.impl.Repr()
    requires stream !in body.impl.Repr() && stream !in it.buffer.impl.Repr()
    modifies body.impl.Repr(), if it.ended then {} else it.buffer.impl.Repr(), it, stream
    ensures body.Valid() && rsz == Min(body.end - body.begin, |old(stream.input)|)
    ensures body.impl.Contents() == Splice(old(body.impl.Contents()), body.begin, old(stream.input)[..rsz])
  {
    hide Fills, HasRead;
    ghost var input, store, walked := stream.input, body.impl.Contents(), it.buffer;
    ghost var done: nat := 0;
    rsz := 0;
    FillsWithin(it, body, 0);
    NothingRead(store, body.begin, input);
    while !it.ended
      invariant Fills(it, body, done) && it.buffer == walked && body.begin + done <= body.end
      invariant HasRead(store, body.begin, input, done, body.impl.Contents(), rsz, stream.input)
      decreases !it.ended, body.end - body.begin - done
    {
      FillsWithin(it, body, done);
      ghost var n := it.posEnd - it.posBegin;
      ReadOn(store, body.begin, input, done, body.impl.Contents(), rsz, stream.input, n);
      var got := ReadSegment(body, it, stream, done);
      rsz := rsz + got;
      done := done + n;
    }
    FillsWithin(it, body, done);
    AllRead(store, body.begin, input, done, body.impl.Contents(), rsz, stream.input);
  }

  lemma FillsWithin(it: SegmentIterator, body: DataBuffer, done: nat)
    requires Fills(it, body, done)
    ensures body.Valid() && body.begin + done <= body.end && (it.ended ==> body.begin + done == body.end)
    ensures !it.ended ==> it.posBegin == body.begin + done && it.posBegin < it.posEnd <= body.end
  {
    hide Segments;
  }

  /** With `done` bytes of the body behind it, reading has put rsz bytes of the input there. */
  ghost predicate HasRead(store: Bytes, at: nat, input: Bytes, done: nat, contents: Bytes, rsz: nat, rest: Bytes) {
    && at + done <= |store| && rsz == Min(done, |input|)
    && rest == input[rsz..] && contents == Splice(store, at, input[..rsz])
  }

  lemma NothingRead(store: Bytes, at: nat, input: Bytes)
    requires at <= |store|
    ensures HasRead(store, at, input, 0, store, 0, input)
  {
    hide Splice;
    assert input[..0] == [];
    SpliceNothing(store, at);
  }

  lemma AllRead(store: Bytes, at: nat, input: Bytes, done: nat, contents: Bytes, rsz: nat, rest: Bytes)
    requires HasRead(store, at, input, done, contents, rsz, rest)
    ensures rsz == Min(done, |input|) && contents == Splice(store, at, input[..rsz])
  {
    hide Splice;
  }

  /** The next n bytes of the body get what the input still has for them. */
  lemma ReadOn(store: Bytes, at: nat, input: Bytes, done: nat, contents: Bytes, rsz: nat, rest: Bytes, n: nat)
    requires HasRead(store, at, input, done, contents, rsz, rest) && at + done + n <= |store|
    ensures var got := Min(n, |rest|);
            at + done + got <= |contents| &&
            HasRead(store, at, input, done + n, Splice(contents, at + done, rest[..got]), rsz + got, rest[got..])
  {
    hide Splice;
    var got := Min(n, |rest|);
    assert rest[..got] == input[rsz..rsz + got] && rest[got..] == input[rsz + got..];
    if rsz == done {
      SlicesMeet(input, 0, rsz, rsz + got);
      SpliceTwice(store, at, input[..rsz], input[rsz..rsz + got]);
    } else {
      assert rest[..got] == [];
      SpliceNothing(contents, at + done);
    }
  }

  lemma SplicedParts(s: Bytes, pos: nat, end: nat, data: Bytes)
    requires pos + |data| <= end <= |s|
    ensures var t := Splice(s, pos, data);
            t[..pos] == s[..pos] && t[pos..end][..|data|] == data && t[end..] == s[end..]
  {
  }

  /** One turn of the loop: the stream fills the current segment and the iterator moves on. */
  method ReadSegment(body: DataBuffer, it: SegmentIterator, stream: InputStream, ghost done: nat) returns (got: nat)
    requires Fills(it, body, done) && !it.ended
    requires it !in body.impl.Repr() && it !in it.buffer.impl.Repr()
    requires stream !in body.impl.Repr() && stream !in it.buffer.impl.Repr()
    modifies it.buffer.impl.Repr(), it, stream
    ensures it.buffer == old(it.buffer)
    ensures Fills(it, body, done + old(it.posEnd - it.posBegin))
    ensures got == Min(old(it.posEnd - it.posBegin), |old(stream.input)|)
    ensures stream.input == old(stream.input)[got..]
    ensures body.impl.Contents() == Splice(old(body.impl.Contents()), body.begin + done, old(stream.input)[..got])
  {
    hide Splice, Segments;
    var data := stream.Read(it.posEnd - it.posBegin);
    it.Fill(data);
    got := |data|;
    it.Next();
  }

  // ----- the request -----

  class RequestImpl {
    const maxString: nat   // the longest string this process can allocate
    var headers: seq<Field>
    var cookies: seq<Field>
    var vars: seq<Field>
    var body: DataBuffer
    var files: seq<File>
    var args: seq<Field>

    ghost predicate Valid()
      reads this, body.impl.Repr()
    {
      body.Valid() && Within(files, body)
    }

    /** The request as a value. */
    ghost function Snapshot(): StoredRequest
      requires Valid()
      reads this, body.impl.Repr()
    {
      StoredRequest(headers, cookies, vars, body.Text(), Entries(files, body), args)
    }

    constructor (maxString: nat, body: DataBuffer)
      ensures this.maxString == maxString && this.body == body
      ensures headers == cookies == vars == args == [] && files == []
    {
      this.maxString := maxString;
      headers, cookies, vars, files, args := [], [], [], [], [];
      this.body := body;
    }

    /** Sizes the buffer for the environment and addSize bytes more, and writes the environment. */
    method SerializeEnv(buffer: DataBuffer, addSize: nat) returns (r: DataBuffer, pos: nat)
      requires buffer.Valid() && this !in buffer.impl.Repr()
      modifies buffer.impl.Repr()
      ensures r.Valid() && r.impl == buffer.impl && r.begin == buffer.begin
      ensures r.end == |r.impl.Contents()|
      ensures r.end - r.begin == EnvSize() + addSize && pos == EnvSize()
      ensures r.Text()[..pos] == Env()
    {
      hide Splice, EncSection;
      var size := EnvSerializedSize();
      r := buffer.Resize(addSize + size);
      pos := 0;
      pos := SerializeSection(r, pos, headers);
      assert r.Text()[..pos] == EncSection(headers);
      pos := SerializeSection(r, pos, cookies);
      assert r.Text()[..pos] == EncSection(headers) + EncSection(cookies);
      pos := SerializeSection(r, pos, vars);
      assert r.Text()[..pos] == Env();
    }

    /** The three size loops of serializeEnv, and the lengths of the sections. */
    method EnvSerializedSize() returns (size: nat)
      ensures size == EnvSize()
    {
      var headerSize := FieldsSerializedSize(headers);
      var cookieSize := FieldsSerializedSize(cookies);
      var varSize := FieldsSerializedSize(vars);
      SectionSizes();
      size := headerSize + cookieSize + varSize + 3 * 8;
    }

    ghost function Env(): Bytes
      reads this
    {
      EncSection(headers) + EncSection(cookies) + EncSection(vars)
    }

    ghost function EnvSize(): nat
      reads this
    {
      |EncSection(headers)| + |EncSection(cookies)| + |EncSection(vars)|
    }

    lemma SectionSizes()
      ensures |EncSection(headers)| == 8 + FieldsSize(headers)
      ensures |EncSection(cookies)| == 8 + FieldsSize(cookies)
      ensures |EncSection(vars)| == 8 + FieldsSize(vars)
    {
      FieldsSizeIsExact(headers);
      FieldsSizeIsExact(cookies);
      FieldsSizeIsExact(vars);
    }

    /** Writes the whole image; the sizes summed beforehand are exactly what is written. */
    method Serialize(buffer: DataBuffer) returns (r: DataBuffer)
      requires Valid() && buffer.Valid()
      requires this !in buffer.impl.Repr() && buffer.impl.Repr() !! body.impl.Repr()
      modifies buffer.impl.Repr()
      ensures Valid() && Snapshot() == old(Snapshot())
      ensures r.Valid() && r.impl == buffer.impl && r.begin == buffer.begin
      ensures r.end == |r.impl.Contents()|
      ensures r.Text() == Image(Snapshot())
    {
      hide Splice, EncSection, EncFileSection, EncString, Entries;
      ghost var head := Env() + EncString(body.Text());
      var tail := TailSize();
      var pos;
      r, pos := SerializeHead(buffer, tail);
      AppendTail(r, pos, head);
    }

    /** Environment and body, with room for what comes behind. */
    method SerializeHead(buffer: DataBuffer, tail: nat) returns (r: DataBuffer, pos: nat)
      requires Valid() && buffer.Valid()
      requires this !in buffer.impl.Repr() && buffer.impl.Repr() !! body.impl.Repr()
      modifies buffer.impl.Repr()
      ensures Valid() && body.Text() == old(body.Text())
      ensures r.Valid() && r.impl == buffer.impl && r.begin == buffer.begin
      ensures r.end == |r.impl.Contents()| && r.end - r.begin == pos + tail
      ensures pos == |Env() + EncString(body.Text())| && r.Text()[..pos] == Env() + EncString(body.Text())
    {
      hide Splice, EncSection, EncString, Entries;
      StringSize(body.Text());
      r, pos := SerializeEnv(buffer, 8 + (body.end - body.begin) + tail);
      pos := SerializeBuffer(r, pos, body);
    }

    /** What files and arguments will take, the length of their sections included. */
    method TailSize() returns (size: nat)
      requires Valid()
      ensures size == |EncFileSection(Entries(files, body))| + |EncSection(args)|
    {
      hide EncFiles, EncFields, Entries;
      var fileSize := FilesSerializedSize(files, body);
      var argSize := FieldsSerializedSize(args);
      size := 2 * 8 + fileSize + argSize;
    }

    /**
     * attach's first stage for a cached upload: environment, body length, and the body read from
     * the stream straight into the buffer.
     */
    method StageBody(post: DataBuffer, stream: InputStream, size: nat) returns (r: Result<DataBuffer>)
      requires post.Valid() && this !in post.impl.Repr() && stream !in post.impl.Repr()
      modifies post.impl.Repr(), stream, this`body
      ensures r.Err? <==> |old(stream.input)| < size
      ensures r.Err? ==> r.error == ShortRead
      ensures r.Ok? ==>
                && r.value.Valid() && r.value.impl == post.impl && r.value.begin == post.begin
                && r.value.end == |post.impl.Contents()|
                && body.Valid() && body.impl == post.impl && body.end == r.value.end
                && body.begin == r.value.begin + EnvSize() + 8
                && body.Text() == old(stream.input)[..size]
                && r.value.Text() == Env() + EncString(body.Text())
    {
      hide Splice, EncSection, EncInt, EncString, Segments;
      var buffer, shift := SerializeEnv(post, size + 8);
      shift := SerializeInt(buffer, shift, size);
      ghost var head := buffer.Text()[..shift];
      assert head == Env() + EncInt(size);
      body := DataBuffer(buffer.impl, buffer.begin + shift, buffer.end);
      ghost var before := buffer.impl.Contents();
      var rsz := ReadBody(body, stream);
      if rsz != size {
        return Err(ShortRead);
      }
      HeadAndRest(before, body.impl.Contents(), buffer.begin, body.begin, body.end);
      LengthAndBody(Env(), buffer.Text(), body.Text());
      return Ok(buffer);
    }

    lemma LengthAndBody(env: Bytes, text: Bytes, content: Bytes)
      requires text == env + EncInt(|content|) + content
      ensures text == env + EncString(content)
    {
      hide EncInt;
    }

    /** What precedes a view is untouched when only the view is overwritten. */
    lemma HeadAndRest(before: Bytes, after: Bytes, lo: nat, mid: nat, hi: nat)
      requires lo <= mid <= hi <= |before| == |after|
      requires before[..mid] == after[..mid]
      ensures after[lo..hi] == before[lo..hi][..mid - lo] + after[mid..hi]
    {
      SliceOfSlice(before, lo, hi, 0, mid - lo);
      SliceOfSlice(before, 0, mid, lo, mid);
      SliceOfSlice(after, 0, mid, lo, mid);
      assert after[lo..hi] == after[lo..mid] + after[mid..hi];
    }

    /** A view inside an unchanged stretch of the store shows what it showed. */
    lemma SameSlice(before: Bytes, after: Bytes, lo: nat, n: nat, a: nat, b: nat)
      requires lo <= a <= b <= lo + n <= |before|
      requires lo + n <= |after| && before[lo..lo + n] == after[lo..lo + n]
      ensures before[a..b] == after[a..b]
    {
      SliceOfSlice(before, lo, lo + n, a - lo, b - lo);
      SliceOfSlice(after, lo, lo + n, a - lo, b - lo);
    }

    /** attach's last stage: the buffer grows and the file and argument sections are appended. */
    method StageTail(post: DataBuffer) returns (r: DataBuffer)
      requires Valid() && post.Valid() && this !in post.impl.Repr()
      requires post.impl == body.impl && body.end == post.end == |post.impl.Contents()|
      requires post.Text() == Env() + EncString(body.Text())
      modifies post.impl.Repr()
      ensures Valid() && Snapshot() == old(Snapshot())
      ensures r.Valid() && r.impl == post.impl && r.begin == post.begin
      ensures r.end == |r.impl.Contents()|
      ensures r.Text() == Image(Snapshot())
    {
      hide EncSection, EncFileSection, EncString, Entries, Splice;
      ghost var head, store := post.Text(), post.impl.Contents();
      var pos := post.end - post.begin;
      var tail := TailSize();
      StringSize(body.Text());
      r := Grow(post, pos + tail);
      AppendTail(r, pos, head);
      SliceOfSlice(r.impl.Contents(), r.begin, r.end, 0, |head|);
      SameSlice(store, r.impl.Contents(), r.begin, |head|, body.begin, body.end);
    }

    /** Growing the buffer keeps the earlier bytes. */
    method Grow(post: DataBuffer, size: nat) returns (r: DataBuffer)
      requires post.Valid() && post.end - post.begin <= size
      modifies post.impl.Repr()
      ensures r.Valid() && r.impl == post.impl && r.begin == post.begin
      ensures r.end == r.begin + size == |r.impl.Contents()|
      ensures r.Text()[..post.end - post.begin] == old(post.Text())
    {
      r := post.Resize(size);
      SliceOfSlice(r.impl.Contents(), r.begin, r.end, 0, post.end - post.begin);
    }

    method AppendTail(r: DataBuffer, pos: nat, ghost head: Bytes)
      requires Within(files, body) && r.Valid() && this !in r.impl.Repr()
      requires pos == |head| <= r.end - r.begin && r.Text()[..pos] == head
      requires r.end - r.begin == pos + |EncFileSection(Entries(files, body))| + |EncSection(args)|
      modifies r.impl.Repr()
      ensures r.Valid() && |r.impl.Contents()| == |old(r.impl.Contents())|
      ensures r.Text() == head + EncFileSection(Entries(files, body)) + EncSection(args)
      ensures r.Text()[..|head|] == head
    {
      hide Splice, EncSection, EncFileSection;
      var at := SerializeFiles(r, pos, files, body);
      assert r.Text()[..at] == head + EncFileSection(Entries(files, body));
      at := SerializeSection(r, at, args);
      assert r.Text()[..at] == r.Text();
    }

    /** What attach leaves for a body of these contents at lo, of which its parser made e. */
    ghost predicate Built(r: DataBuffer, lo: nat, content: Bytes, query: seq<Field>, e: Entity)
      reads this, body.impl.Repr(), r.impl.Repr()
    {
      && Valid() && r.Valid() && r.impl == body.impl && body.begin == lo
      && (forall f | f in e.files :: f.begin <= f.end)
      && Snapshot() == StoredRequest(headers, cookies, vars, content, EntriesAt(e.files, lo), query + e.args)
      && r.Text() == Image(Snapshot())
    }

    /**
     * attach for a cached upload. `entity` stands for the request's own body parsers, which look at
     * a view of the store and yield views of it, or throw; Uploads has the multipart parser in
     * its place.
     */
    method AttachCached(
      post: DataBuffer, stream: InputStream, size: nat, query: seq<Field>, entity: (Bytes, (nat, nat)) -> Result<Entity>)
      returns (r: Result<DataBuffer>, ghost store: Bytes)
      requires post.Valid() && this !in post.impl.Repr() && stream !in post.impl.Repr()
      requires forall s: Bytes, v: (nat, nat) :: v.0 <= v.1 <= |s| && entity(s, v).Ok? ==> InBody(entity(s, v).value.files, v)
      modifies post.impl.Repr(), stream, this`body, this`files, this`args
      ensures |old(stream.input)| < size ==> r == Err(ShortRead)
      ensures var lo := post.begin + EnvSize() + 8;
              size <= |old(stream.input)| ==>
                && lo + size <= |store| && store[lo..lo + size] == old(stream.input)[..size]
                && match entity(store, (lo, lo + size))
                   case Err(e) => r == Err(e)
                   case Ok(e) => r.Ok? && r.value.impl == post.impl && Built(r.value, lo, store[lo..lo + size], query, e)
    {
      hide Image, EncString, EncSection, InBody, Built;
      var stage := StageBody(post, stream, size);
      if stage.Err? {
        return Err(stage.error), [];
      }
      var all := DataBuffer(body.impl, 0, body.impl.Size());
      var text := all.ToString();
      store := text;
      var parsed := entity(text, (body.begin, body.end));
      if parsed.Err? {
        return Err(parsed.error), store;
      }
      var whole := Finish(stage.value, query, parsed.value);
      return Ok(whole), store;
    }

    /** attach once the body is parsed. */
    method Finish(post: DataBuffer, query: seq<Field>, e: Entity) returns (r: DataBuffer)
      requires body.Valid() && post.Valid() && this !in post.impl.Repr()
      requires post.impl == body.impl && body.end == post.end == |post.impl.Contents()|
      requires post.Text() == Env() + EncString(body.Text()) && InBody(e.files, (body.begin, body.end))
      modifies post.impl.Repr(), this`files, this`args
      ensures r.impl == post.impl && Built(r, body.begin, old(body.Text()), query, e)
    {
      hide Image, EncString, EncSection, FilesIn, PlainAll, EntriesAt, Entries, InBody;
      args := query + e.args;
      files := FilesIn(e.files, body);
      EntriesOfFilesIn(e.files, body);
      r := StageTail(post);
    }

    // ----- reading back -----

    /** What parse reads from. */
    ghost function SourceOf(buffer: DataBuffer): Source
      requires buffer.Valid()
      reads this, buffer.impl.Repr()
    {
      Source(buffer.Text(), buffer.begin, |buffer.impl.Contents()|, maxString)
    }

    method ReadInt(buffer: DataBuffer, pos: nat) returns (val: nat, r: nat)
      requires buffer.Valid()
      modifies if buffer.impl.OnDisk? then {buffer.impl.f.file} else {}
      ensures buffer.Valid() && buffer.impl.Contents() == old(buffer.impl.Contents())
      ensures (val, r) == ParseInt(buffer.Text(), pos)
    {
      var bytes := buffer.Read(pos, 8);
      val, r := DecBytes(bytes), pos + |bytes|;
    }

    method ReadString(buffer: DataBuffer, pos: nat) returns (r: Result<(Bytes, nat)>)
      requires buffer.Valid()
      modifies if buffer.impl.OnDisk? then {buffer.impl.f.file} else {}
      ensures buffer.Valid() && buffer.impl.Contents() == old(buffer.impl.Contents())
      ensures r == ParseString(SourceOf(buffer), pos)
    {
      hide ParseInt, DecBytes, Zeros;
      var len, at := ReadInt(buffer, pos);
      if len > maxString {
        return Err(StringTooLong);
      }
      var bytes := buffer.Read(at, len);
      return Ok((bytes + Zeros(len - |bytes|), at + |bytes|));
    }

    method ReadField(buffer: DataBuffer, pos: nat) returns (r: Result<(Field, nat)>)
      requires buffer.Valid()
      modifies if buffer.impl.OnDisk? then {buffer.impl.f.file} else {}
      ensures buffer.Valid() && buffer.impl.Contents() == old(buffer.impl.Contents())
      ensures r == ParseField(SourceOf(buffer), pos)
    {
      var name := ReadString(buffer, pos);
      if name.Err? {
        return Err(name.error);
      }
      var value := ReadString(buffer, name.value.1);
      if value.Err? {
        return Err(value.error);
      }
      return Ok(((name.value.0, value.value.0), value.value.1));
    }

    /** parseHeaders, parseCookies, parseVars and parseArgs, which differ only in the table. */
    method ReadSection(kind: Kind, buffer: DataBuffer, pos: nat, table: seq<Field>) returns (r: Result<(seq<Field>, nat)>)
      requires buffer.Valid() && pos <= buffer.end - buffer.begin
      modifies if buffer.impl.OnDisk? then {buffer.impl.f.file} else {}
      ensures buffer.Valid() && buffer.impl.Contents() == old(buffer.impl.Contents())
      ensures r == ParseSection(kind, SourceOf(buffer), pos, table)
    {
      hide ParseField, ParseInt, Insert;
      var size, at := ReadInt(buffer, pos);
      var posEnd := (at + size) % TWO_64;
      if posEnd > buffer.end - buffer.begin {
        return Err(SectionOverrun);
      }
      ghost var src, start := SourceOf(buffer), at;
      var acc := table;
      while at < posEnd
        invariant buffer.Valid() && SourceOf(buffer) == src
        invariant buffer.impl.Contents() == old(buffer.impl.Contents())
        invariant at <= |src.text|
        invariant ParseFields(kind, src, at, posEnd, acc) == ParseFields(kind, src, start, posEnd, table)
        decreases |src.text| - at
      {
        var f := ReadField(buffer, at);
        if f.Err? {
          return Err(f.error);
        }
        acc := Insert(kind, acc, f.value.0);
        at := f.value.1;
      }
      return Ok((acc, at));
    }

    method ReadBodyView(buffer: DataBuffer, pos: nat) returns (r: Result<nat>)
      requires buffer.Valid() && pos <= buffer.end - buffer.begin
      modifies if buffer.impl.OnDisk? then {buffer.impl.f.file} else {}, this`body
      ensures buffer.Valid() && buffer.impl.Contents() == old(buffer.impl.Contents())
      ensures match ParseBody(SourceOf(buffer), pos)
              case Err(e) => r == Err(e)
              case Ok((view, at)) => r == Ok(at) && body == DataBuffer(buffer.impl, view.0, view.1)
    {
      var size, at := ReadInt(buffer, pos);
      var posEnd := (at + size) % TWO_64;
      if posEnd > buffer.end - buffer.begin {
        return Err(SectionOverrun);
      }
      body := DataBuffer(buffer.impl, at + buffer.begin, posEnd + buffer.begin);
      return Ok(posEnd);
    }

    method ReadFile(buffer: DataBuffer, pos: nat) returns (r: Result<(File, nat)>)
      requires buffer.Valid() && body.impl == buffer.impl
      modifies if buffer.impl.OnDisk? then {buffer.impl.f.file} else {}
      ensures buffer.Valid() && buffer.impl.Contents() == old(buffer.impl.Contents())
      ensures match ParseFile(SourceOf(buffer), (body.begin, body.end), pos)
              case Err(e) => r == Err(e)
              case Ok((f, at)) => r.Ok? && Plain(r.value.0) == f && r.value.1 == at && r.value.0.data.impl == buffer.impl
    {
      hide ParseField, ParseString, ParseInt;
      var names := ReadField(buffer, pos);
      if names.Err? {
        return Err(names.error);
      }
      var contentType := ReadString(buffer, names.value.1);
      if contentType.Err? {
        return Err(contentType.error);
      }
      var offset, at3 := ReadInt(buffer, contentType.value.1);
      var length, at4 := ReadInt(buffer, at3);
      var view := body.SubView((offset + body.begin) % TWO_64, (offset + length + body.begin) % TWO_64);
      if view.Err? {
        return Err(view.error);
      }
      if names.value.0.1 == [] {
        return Err(NamelessFile);
      }
      return Ok((File(names.value.0.0, names.value.0.1, contentType.value.0, view.value), at4));
    }

    method ReadFiles(buffer: DataBuffer, pos: nat) returns (r: Result<nat>)
      requires buffer.Valid() && pos <= buffer.end - buffer.begin && body.impl == buffer.impl
      modifies if buffer.impl.OnDisk? then {buffer.impl.f.file} else {}, this`files
      ensures buffer.Valid() && buffer.impl.Contents() == old(buffer.impl.Contents())
      ensures match ParseFileSection(SourceOf(buffer), (body.begin, body.end), pos, PlainAll(old(files)))
              case Err(e) => r == Err(e)
              case Ok((fs, at)) => r == Ok(at) && PlainAll(files) == fs
      ensures old(files) <= files
      ensures forall i | |old(files)| <= i < |files| :: files[i].data.impl == buffer.impl
    {
      hide ParseFile, ParseInt;
      var size, at := ReadInt(buffer, pos);
      var posEnd := (at + size) % TWO_64;
      if posEnd > buffer.end - buffer.begin {
        return Err(SectionOverrun);
      }
      ghost var src, start, view := SourceOf(buffer), at, (body.begin, body.end);
      while at < posEnd
        invariant buffer.Valid() && SourceOf(buffer) == src
        invariant buffer.impl.Contents() == old(buffer.impl.Contents())
        invariant at <= |src.text|
        invariant old(files) <= files
        invariant forall i | |old(files)| <= i < |files| :: files[i].data.impl == buffer.impl
        invariant ParseFiles(src, view, at, posEnd, PlainAll(files)) ==
                  ParseFiles(src, view, start, posEnd, PlainAll(old(files)))
        decreases |src.text| - at
      {
        var f := ReadFile(buffer, at);
        if f.Err? {
          return Err(f.error);
        }
        InsertPlain(files, f.value.0);
        if !(exists i | 0 <= i < |files| :: files[i].key == f.value.0.key) {
          files := files + [f.value.0];
        }
        at := f.value.1;
      }
      return Ok(at);
    }

    /** parseHeaders, parseCookies and parseVars. */
    method ReadEnv(buffer: DataBuffer) returns (r: Result<nat>)
      requires buffer.Valid() && this !in buffer.impl.Repr()
      modifies if buffer.impl.OnDisk? then {buffer.impl.f.file} else {}, this`headers, this`cookies, this`vars
      ensures buffer.Valid() && buffer.impl.Contents() == old(buffer.impl.Contents())
      ensures match ParseEnv(SourceOf(buffer), old(Tables()))
              case Err(e) => r == Err(e)
              case Ok((p, at)) => r == Ok(at) && Tables() == p
    {
      hide ParseSection, PlainAll;
      var h := ReadSection(IgnoringCase, buffer, 0, headers);
      if h.Err? { return Err(h.error); }
      headers := h.value.0;
      var c := ReadSection(Exact, buffer, h.value.1, cookies);
      if c.Err? { return Err(c.error); }
      cookies := c.value.0;
      var v := ReadSection(Exact, buffer, c.value.1, vars);
      if v.Err? { return Err(v.error); }
      vars := v.value.0;
      return Ok(v.value.1);
    }

    /** RequestImpl::parse: on any bytes it ends, with the tables that Parse describes or an error. */
    method ReadAll(buffer: DataBuffer) returns (r: Result<()>)
      requires buffer.Valid() && this !in buffer.impl.Repr()
      modifies if buffer.impl.OnDisk? then {buffer.impl.f.file} else {}, this
      ensures buffer.Valid() && buffer.impl.Contents() == old(buffer.impl.Contents())
      ensures match Parse(SourceOf(buffer), old(Tables()))
              case Err(e) => r == Err(e)
              case Ok(p) =>
                && r.Ok? && Tables() == p
                && body.impl == buffer.impl
                && old(files) <= files
                && forall i | |old(files)| <= i < |files| :: files[i].data.impl == buffer.impl
    {
      hide ParseSection, ParseFileSection, ParseBody, ParseEnv, PlainAll;
      var v := ReadEnv(buffer);
      if v.Err? { return Err(v.error); }
      var b := ReadBodyView(buffer, v.value);
      if b.Err? { return Err(b.error); }
      var f := ReadFiles(buffer, b.value);
      if f.Err? { return Err(f.error); }
      var a := ReadSection(Repeated, buffer, f.value, args);
      if a.Err? { return Err(a.error); }
      args := a.value.0;
      return Ok(());
    }

    /** The fields parse fills, as plain values. */
    ghost function Tables(): Parsed
      reads this
    {
      Parsed(headers, cookies, vars, (body.begin, body.end), PlainAll(files), args)
    }
  }

  function Plain(f: File): ParsedFile {
    ParsedFile(f.key, f.remoteName, f.contentType, f.data.begin, f.data.end)
  }

  function PlainAll(fs: seq<File>): (r: seq<ParsedFile>)
    ensures |r| == |fs| && forall i | 0 <= i < |fs| :: r[i] == Plain(fs[i])
  {
    seq(|fs|, i requires 0 <= i < |fs| => Plain(fs[i]))
  }

  lemma InsertPlain(fs: seq<File>, f: File)
    ensures HasFile(PlainAll(fs), f.key) <==> exists i | 0 <= i < |fs| :: fs[i].key == f.key
    ensures PlainAll(fs + [f]) == PlainAll(fs) + [Plain(f)]
  {
    if i :| 0 <= i < |fs| && fs[i].key == f.key {
      assert PlainAll(fs)[i].key == f.key;
    }
    assert forall i | 0 <= i < |fs| :: PlainAll(fs)[i].key == fs[i].key;
  }

  /** Views of a store as files. */
  function FilesIn(fs: seq<ParsedFile>, body: DataBuffer): (r: seq<File>)
    ensures |r| == |fs|
  {
    seq(|fs|, i requires 0 <= i < |fs| =>
      File(fs[i].key, fs[i].remoteName, fs[i].contentType, DataBuffer(body.impl, fs[i].begin, fs[i].end)))
  }

  function EntriesAt(fs: seq<ParsedFile>, lo: nat): (r: seq<FileEntry>)
    requires forall f | f in fs :: f.begin <= f.end
    ensures |r| == |fs|
  {
    seq(|fs|, i requires 0 <= i < |fs| => assert fs[i] in fs; EntryAt(fs[i], lo))
  }

  lemma EntriesOfFilesIn(fs: seq<ParsedFile>, body: DataBuffer)
    requires InBody(fs, (body.begin, body.end)) && body.begin <= body.end
    ensures Within(FilesIn(fs, body), body) && PlainAll(FilesIn(fs, body)) == fs
    ensures (forall f | f in fs :: f.begin <= f.end) && Entries(FilesIn(fs, body), body) == EntriesAt(fs, body.begin)
  {
    hide Entries;
    var files := FilesIn(fs, body);
    forall i | 0 <= i < |files|
      ensures files[i].data.impl == body.impl && Plain(files[i]) == fs[i]
      ensures Inside(files[i].data.begin, files[i].data.end, (body.begin, body.end))
    {
      assert fs[i] in fs;
    }
    assert forall i | 0 <= i < |fs| :: Entries(files, body)[i] == EntryAt(fs[i], body.begin);
  }

  /** Parsed views over the store they were parsed from show the request that Meaning describes. */
  lemma TablesMean(q: RequestImpl, store: Bytes)
    requires q.body.impl.Valid() && store == q.body.impl.Contents()
    requires q.body.begin <= q.body.end <= |store|
    requires InBody(q.Tables().files, (q.body.begin, q.body.end))
    requires forall i | 0 <= i < |q.files| :: q.files[i].data.impl == q.body.impl
    ensures q.Valid() && q.Snapshot() == Meaning(store, q.Tables())
  {
    forall f | f in q.files
      ensures f.data.impl == q.body.impl && Inside(f.data.begin, f.data.end, (q.body.begin, q.body.end))
    {
      var i :| 0 <= i < |q.files| && q.files[i] == f;
      assert q.Tables().files[i] in q.Tables().files;
    }
    assert Entries(q.files, q.body) == Meaning(store, q.Tables()).files;
  }

  /**
   * The round trip through the code itself: whatever the request, and whichever store the buffer
   * lies on, what one object serializes another parses back to the same request.
   */
  method SaveAndLoad(r: RequestImpl, buffer: DataBuffer) returns (q: RequestImpl, res: Result<()>)
    requires r.Valid() && buffer.Valid() && buffer.begin == 0
    requires r !in buffer.impl.Repr() && buffer.impl.Repr() !! r.body.impl.Repr()
    requires WellFormed(r.Snapshot(), r.maxString) && |Image(r.Snapshot())| < TWO_64
    modifies buffer.impl.Repr()
    ensures res.Ok? && fresh(q) && q.Valid()
    ensures q.Snapshot() == old(r.Snapshot())
  {
    hide Image, WellFormed, Parse, Meaning;
    ghost var request, limit := r.Snapshot(), r.maxString;
    var written := r.Serialize(buffer);
    q := new RequestImpl(r.maxString, buffer);
    ghost var tables := q.Tables();
    assert written.impl.Contents() == written.Text();
    RoundTrip(request, limit);
    ParseIgnoresOldBody(q.SourceOf(written), tables);
    res := q.ReadAll(written);
    TablesMean(q, written.impl.Contents());
  }

  lemma ParseIgnoresOldBody(src: Source, old_: Parsed)
    requires old_.(body := (0, 0)) == EMPTY
    ensures Parse(src, old_) == Parse(src, EMPTY)
  {
    hide ParseSection, ParseBody, ParseFileSection;
  }
}
