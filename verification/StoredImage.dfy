/**
 * The stored form of a request (library/requestimpl.cpp, serialize* and parse*): what its bytes
 * are, what reading any bytes yields, and that reading undoes writing.
 */
module StoredImage {
  import opened Bytes
  import opened DataBuffers

  type Field = (Bytes, Bytes)

  /** An uploaded file: its content is body[offset..offset + length]. */
  datatype FileEntry = FileEntry(key: Bytes, remoteName: Bytes, contentType: Bytes, offset: nat, length: nat)

  /** A request's tables, each in its own iteration order, and its body. */
  datatype StoredRequest = StoredRequest(
    headers: seq<Field>, cookies: seq<Field>, vars: seq<Field>,
    body: Bytes, files: seq<FileEntry>, args: seq<Field>)

  /** Headers compare keys ignoring case, cookies and variables do not, arguments may repeat. */
  datatype Kind = IgnoringCase | Exact | Repeated

  predicate SameKey(kind: Kind, a: Bytes, b: Bytes) {
    match kind
    case IgnoringCase => EqualIgnoringCase(a, b)
    case Exact => a == b
    case Repeated => false
  }

  predicate HasKey(kind: Kind, table: seq<Field>, key: Bytes) {
    exists i | 0 <= i < |table| :: SameKey(kind, table[i].0, key)
  }

  /** map::insert keeps an existing entry; vector::push_back keeps both. */
  function Insert(kind: Kind, table: seq<Field>, field: Field): seq<Field> {
    if HasKey(kind, table, field.0) then table else table + [field]
  }

  ghost predicate DistinctKeys(kind: Kind, table: seq<Field>) {
    forall i, j | 0 <= i < j < |table| :: !SameKey(kind, table[i].0, table[j].0)
  }

  predicate HasFile(files: seq<ParsedFile>, key: Bytes) {
    exists i | 0 <= i < |files| :: files[i].key == key
  }

  // ----- writing -----

  /** n as k bytes, least significant first. */
  function EncBytes(n: nat, k: nat): (r: Bytes)
    ensures |r| == k
  {
    if k == 0 then [] else [n % 256] + EncBytes(n / 256, k - 1)
  }

  /** A boost::uint64_t as it lies in memory on a little-endian machine. */
  function EncInt(n: nat): (r: Bytes)
    ensures |r| == 8
  {
    EncBytes(n, 8)
  }

  function EncString(s: Bytes): Bytes {
    EncInt(|s|) + s
  }

  function EncField(f: Field): Bytes {
    EncString(f.0) + EncString(f.1)
  }

  function EncFields(fs: seq<Field>): Bytes {
    if fs == [] then [] else EncField(fs[0]) + EncFields(fs[1..])
  }

  /** A section's length prefix, summed apart from its bytes. */
  function FieldsSize(fs: seq<Field>): nat {
    if fs == [] then 0 else |fs[0].0| + |fs[0].1| + 2 * 8 + FieldsSize(fs[1..])
  }

  function EncSection(fs: seq<Field>): Bytes {
    EncInt(FieldsSize(fs)) + EncFields(fs)
  }

  function EncFile(f: FileEntry): Bytes {
    EncString(f.key) + EncString(f.remoteName) + EncString(f.contentType) + EncInt(f.offset) + EncInt(f.length)
  }

  function EncFiles(fs: seq<FileEntry>): Bytes {
    if fs == [] then [] else EncFile(fs[0]) + EncFiles(fs[1..])
  }

  function FileSize(f: FileEntry): nat {
    8 + |f.key| + 8 + |f.remoteName| + 8 + |f.contentType| + 2 * 8
  }

  function FilesSize(fs: seq<FileEntry>): nat {
    if fs == [] then 0 else FileSize(fs[0]) + FilesSize(fs[1..])
  }

  function EncFileSection(fs: seq<FileEntry>): Bytes {
    EncInt(FilesSize(fs)) + EncFiles(fs)
  }

  /** The three environment sections. */
  function EncEnv(r: StoredRequest): Bytes {
    EncSection(r.headers) + EncSection(r.cookies) + EncSection(r.vars)
  }

  function Image(r: StoredRequest): Bytes {
    EncEnv(r) + EncString(r.body) + EncFileSection(r.files) + EncSection(r.args)
  }

  lemma {:induction false} FieldsSizeIsExact(fs: seq<Field>)
    ensures |EncFields(fs)| == FieldsSize(fs)
  {
    if fs != [] {
      FieldsSizeIsExact(fs[1..]);
    }
  }

  lemma {:induction false} FilesSizeIsExact(fs: seq<FileEntry>)
    ensures |EncFiles(fs)| == FilesSize(fs)
  {
    if fs != [] {
      FilesSizeIsExact(fs[1..]);
    }
  }

  // ----- reading -----

  /** File content as a view of the store; begin may lie past end on a damaged image. */
  datatype ParsedFile = ParsedFile(key: Bytes, remoteName: Bytes, contentType: Bytes, begin: nat, end: nat)

  /** A view lies in the body, or is the empty view at the store's beginning, which stands for the
      content of an uploaded part that had no empty line. */
  predicate Inside(begin: nat, end: nat, body: (nat, nat)) {
    body.0 <= begin <= end <= body.1 || begin == end == 0
  }

  /** How a view is stored for a body that begins at lo: its offset is a boost::uint64_t, and so
      may go around. */
  function EntryAt(f: ParsedFile, lo: nat): FileEntry
    requires f.begin <= f.end
  {
    FileEntry(f.key, f.remoteName, f.contentType, (f.begin - lo) % TWO_64, f.end - f.begin)
  }

  datatype Parsed = Parsed(
    headers: seq<Field>, cookies: seq<Field>, vars: seq<Field>,
    body: (nat, nat), files: seq<ParsedFile>, args: seq<Field>)

  const EMPTY := Parsed([], [], [], (0, 0), [], [])

  /** What is read: the bytes in view, where the view and its store begin and end, and how long
      a string the process can allocate. */
  datatype Source = Source(text: Bytes, base: nat, store: nat, maxString: nat)
  {
    ghost predicate Valid() {
      base + |text| <= store < TWO_64
    }
  }

  function DecBytes(s: Bytes): (n: nat) {
    if s == [] then 0 else s[0] + 256 * DecBytes(s[1..])
  }

  /** parseInt: a short read leaves the high bytes zero. */
  function ParseInt(text: Bytes, pos: nat): (r: (nat, nat))
    ensures pos <= r.1
    ensures pos <= |text| ==> r.1 <= |text|
    ensures pos < |text| ==> pos < r.1
  {
    var bytes := ReadAt(text, pos, 8);
    (DecBytes(bytes), pos + |bytes|)
  }

  /** parseString: a short read leaves the tail zero. */
  function ParseString(src: Source, pos: nat): (r: Result<(Bytes, nat)>)
    ensures r.Ok? ==> pos <= r.value.1
    ensures r.Ok? && pos <= |src.text| ==> r.value.1 <= |src.text|
    ensures r.Ok? && pos < |src.text| ==> pos < r.value.1
  {
    var (len, at) := ParseInt(src.text, pos);
    if len > src.maxString then Err(StringTooLong)
    else
      var bytes := ReadAt(src.text, at, len);
      Ok((bytes + Zeros(len - |bytes|), at + |bytes|))
  }

  /** One name and value. */
  function ParseField(src: Source, pos: nat): (r: Result<(Field, nat)>)
    ensures r.Ok? ==> pos <= r.value.1
    ensures r.Ok? && pos <= |src.text| ==> r.value.1 <= |src.text|
    ensures r.Ok? && pos < |src.text| ==> pos < r.value.1
  {
    match ParseString(src, pos)
    case Err(e) => Err(e)
    case Ok((name, mid)) =>
      match ParseString(src, mid)
      case Err(e) => Err(e)
      case Ok((value, at)) => Ok(((name, value), at))
  }

  /** The loop of parseHeaders, parseCookies, parseVars and parseArgs. It ends on any bytes. */
  function ParseFields(kind: Kind, src: Source, pos: nat, posEnd: nat, acc: seq<Field>): (r: Result<(seq<Field>, nat)>)
    requires pos <= |src.text| && posEnd <= |src.text|
    ensures r.Ok? ==> pos <= r.value.1 <= |src.text| && posEnd <= r.value.1
    decreases |src.text| - pos
  {
    if pos >= posEnd then Ok((acc, pos))
    else
      match ParseField(src, pos)
      case Err(e) => Err(e)
      case Ok((field, at)) => ParseFields(kind, src, at, posEnd, Insert(kind, acc, field))
  }

  /** The end a length prefix announces, in 64-bit arithmetic. */
  function SectionEnd(pos: nat, size: nat): nat {
    (pos + size) % TWO_64
  }

  function ParseSection(kind: Kind, src: Source, pos: nat, acc: seq<Field>): (r: Result<(seq<Field>, nat)>)
    requires pos <= |src.text|
    ensures r.Ok? ==> r.value.1 <= |src.text|
  {
    var (size, at) := ParseInt(src.text, pos);
    var posEnd := SectionEnd(at, size);
    if posEnd > |src.text| then Err(SectionOverrun) else ParseFields(kind, src, at, posEnd, acc)
  }

  /** parseBody: only the view is recorded; the next section is read from where it ends. */
  function ParseBody(src: Source, pos: nat): (r: Result<((nat, nat), nat)>)
    requires pos <= |src.text|
    ensures r.Ok? ==> r.value.1 <= |src.text| && r.value.0.1 == src.base + r.value.1
    ensures r.Ok? ==> r.value.0.0 <= src.base + |src.text|
  {
    var (size, at) := ParseInt(src.text, pos);
    var posEnd := SectionEnd(at, size);
    if posEnd > |src.text| then Err(SectionOverrun)
    else Ok(((at + src.base, posEnd + src.base), posEnd))
  }

  function ParseFile(src: Source, body: (nat, nat), pos: nat): (r: Result<(ParsedFile, nat)>)
    ensures r.Ok? ==> pos <= r.value.1 && r.value.0.end <= src.store
    ensures r.Ok? && pos <= |src.text| ==> r.value.1 <= |src.text|
    ensures r.Ok? && pos < |src.text| ==> pos < r.value.1
  {
    match ParseField(src, pos)
    case Err(e) => Err(e)
    case Ok((names, at1)) =>
      match ParseString(src, at1)
      case Err(e) => Err(e)
      case Ok((contentType, at2)) =>
        var (offset, at3) := ParseInt(src.text, at2);
        var (length, at4) := ParseInt(src.text, at3);
        var begin, end := SectionEnd(offset, body.0), SectionEnd(offset + length, body.0);
        if end > src.store then Err(IndexOutOfRange)
        else if names.1 == [] then Err(NamelessFile)
        else Ok((ParsedFile(names.0, names.1, contentType, begin, end), at4))
  }

  ghost predicate EndWithin(files: seq<ParsedFile>, store: nat) {
    forall f | f in files :: f.end <= store
  }

  function InsertFile(files: seq<ParsedFile>, f: ParsedFile): (r: seq<ParsedFile>)
    ensures forall store | EndWithin(files, store) && f.end <= store :: EndWithin(r, store)
  {
    if HasFile(files, f.key) then files else files + [f]
  }

  function ParseFiles(src: Source, body: (nat, nat), pos: nat, posEnd: nat, acc: seq<ParsedFile>)
    : (r: Result<(seq<ParsedFile>, nat)>)
    requires pos <= |src.text| && posEnd <= |src.text|
    ensures r.Ok? ==> pos <= r.value.1 <= |src.text| && posEnd <= r.value.1
    ensures r.Ok? && EndWithin(acc, src.store) ==> EndWithin(r.value.0, src.store)
    decreases |src.text| - pos
  {
    if pos >= posEnd then Ok((acc, pos))
    else
      match ParseFile(src, body, pos)
      case Err(e) => Err(e)
      case Ok((f, at)) => ParseFiles(src, body, at, posEnd, InsertFile(acc, f))
  }

  function ParseFileSection(src: Source, body: (nat, nat), pos: nat, acc: seq<ParsedFile>)
    : (r: Result<(seq<ParsedFile>, nat)>)
    requires pos <= |src.text|
    ensures r.Ok? ==> r.value.1 <= |src.text|
    ensures r.Ok? && EndWithin(acc, src.store) ==> EndWithin(r.value.0, src.store)
  {
    var (size, at) := ParseInt(src.text, pos);
    var posEnd := SectionEnd(at, size);
    if posEnd > |src.text| then Err(SectionOverrun) else ParseFiles(src, body, at, posEnd, acc)
  }

  /** parseHeaders, parseCookies and parseVars, one behind the other. */
  function ParseEnv(src: Source, old_: Parsed): (r: Result<(Parsed, nat)>)
    ensures r.Ok? ==> r.value.1 <= |src.text|
  {
    match ParseSection(IgnoringCase, src, 0, old_.headers)
    case Err(e) => Err(e)
    case Ok((headers, at1)) =>
      match ParseSection(Exact, src, at1, old_.cookies)
      case Err(e) => Err(e)
      case Ok((cookies, at2)) =>
        match ParseSection(Exact, src, at2, old_.vars)
        case Err(e) => Err(e)
        case Ok((vars, at3)) => Ok((old_.(headers := headers, cookies := cookies, vars := vars), at3))
  }

  /** RequestImpl::parse as a function of the bytes and of the tables it adds to. */
  function Parse(src: Source, old_: Parsed): Result<Parsed> {
    match ParseEnv(src, old_)
    case Err(e) => Err(e)
    case Ok((env, at3)) =>
      match ParseBody(src, at3)
      case Err(e) => Err(e)
      case Ok((body, at4)) =>
        match ParseFileSection(src, body, at4, old_.files)
        case Err(e) => Err(e)
        case Ok((files, at5)) =>
          match ParseSection(Repeated, src, at5, old_.args)
          case Err(e) => Err(e)
          case Ok((args, _)) => Ok(env.(body := body, files := files, args := args))
  }

  // ----- reading what was written -----

  function Pow256(k: nat): (p: nat)
    ensures p > 0
  {
    if k == 0 then 1 else 256 * Pow256(k - 1)
  }

  lemma {:induction false} DecEncBytes(n: nat, k: nat)
    requires n < Pow256(k)
    ensures DecBytes(EncBytes(n, k)) == n
  {
    if k > 0 {
      DecEncBytes(n / 256, k - 1);
      assert EncBytes(n, k)[1..] == EncBytes(n / 256, k - 1);
    }
  }

  lemma DecEncInt(n: nat)
    requires n < TWO_64
    ensures DecBytes(EncInt(n)) == n
  {
    assert Pow256(4) == 0x1_0000_0000;
    assert Pow256(8) == TWO_64;
    DecEncBytes(n, 8);
  }

  /** data lies in text at pos. */
  ghost predicate Holds(text: Bytes, pos: nat, data: Bytes) {
    pos + |data| <= |text| && text[pos..pos + |data|] == data
  }

  lemma HoldsBoth(text: Bytes, pos: nat, a: Bytes, b: Bytes)
    requires Holds(text, pos, a + b)
    ensures Holds(text, pos, a) && Holds(text, pos + |a|, b)
  {
    assert text[pos..pos + |a|] == (a + b)[..|a|];
    assert text[pos + |a|..pos + |a| + |b|] == (a + b)[|a|..];
  }

  lemma HoldsIsRead(text: Bytes, pos: nat, data: Bytes)
    requires Holds(text, pos, data)
    ensures ReadAt(text, pos, |data|) == data
  {
  }

  lemma ParseIntHolds(text: Bytes, pos: nat, n: nat)
    requires n < TWO_64 && Holds(text, pos, EncInt(n))
    ensures ParseInt(text, pos) == (n, pos + 8)
  {
    HoldsIsRead(text, pos, EncInt(n));
    DecEncInt(n);
  }

  lemma ParseStringHolds(src: Source, pos: nat, s: Bytes)
    requires src.Valid() && |s| <= src.maxString && Holds(src.text, pos, EncString(s))
    ensures ParseString(src, pos) == Ok((s, pos + |EncString(s)|))
  {
    hide EncInt, ParseInt, Holds;
    HoldsBoth(src.text, pos, EncInt(|s|), s);
    ParseIntHolds(src.text, pos, |s|);
    HoldsIsRead(src.text, pos + 8, s);
    assert s + Zeros(0) == s;
  }

  lemma ParseFieldHolds(src: Source, pos: nat, f: Field)
    requires src.Valid() && FieldFits(f, src.maxString)
    requires Holds(src.text, pos, EncField(f))
    ensures ParseField(src, pos) == Ok((f, pos + |EncField(f)|))
  {
    hide EncString, ParseString, Holds;
    HoldsBoth(src.text, pos, EncString(f.0), EncString(f.1));
    ParseStringHolds(src, pos, f.0);
    ParseStringHolds(src, pos + |EncString(f.0)|, f.1);
  }

  ghost predicate FieldFits(f: Field, limit: nat) {
    |f.0| <= limit && |f.1| <= limit
  }

  ghost predicate FieldsFit(fs: seq<Field>, limit: nat) {
    forall f | f in fs :: FieldFits(f, limit)
  }

  /** Moving the first of the fields still to come behind those already there. */
  lemma NextIsNew(kind: Kind, acc: seq<Field>, fs: seq<Field>)
    requires fs != [] && DistinctKeys(kind, acc + fs)
    ensures Insert(kind, acc, fs[0]) == acc + [fs[0]]
    ensures acc + [fs[0]] + fs[1..] == acc + fs
  {
    forall i | 0 <= i < |acc|
      ensures !SameKey(kind, acc[i].0, fs[0].0)
    {
      assert (acc + fs)[i] == acc[i] && (acc + fs)[|acc|] == fs[0];
    }
  }

  lemma {:induction false} ParseFieldsHolds(kind: Kind, src: Source, pos: nat, acc: seq<Field>, fs: seq<Field>, end: nat)
    requires src.Valid() && FieldsFit(fs, src.maxString)
    requires end == pos + |EncFields(fs)| && Holds(src.text, pos, EncFields(fs))
    requires DistinctKeys(kind, acc + fs)
    ensures ParseFields(kind, src, pos, end, acc) == Ok((acc + fs, end))
    decreases |fs|
  {
    hide EncField, FieldFits, ParseField, DistinctKeys, Holds;
    if fs == [] {
      assert acc + fs == acc;
    } else {
      var at := pos + |EncField(fs[0])|;
      EncFieldNotEmpty(fs[0]);
      HoldsBoth(src.text, pos, EncField(fs[0]), EncFields(fs[1..]));
      assert fs[0] in fs;
      ParseFieldHolds(src, pos, fs[0]);
      NextIsNew(kind, acc, fs);
      assert ParseFields(kind, src, pos, end, acc) == ParseFields(kind, src, at, end, acc + [fs[0]]);
      ParseFieldsHolds(kind, src, at, acc + [fs[0]], fs[1..], end);
    }
  }

  lemma EncFieldNotEmpty(f: Field)
    ensures EncField(f) != []
  {
  }

  /** A length prefix announces the end of the bytes that follow it. */
  lemma PrefixHolds(src: Source, pos: nat, size: nat)
    requires src.Valid() && Holds(src.text, pos, EncInt(size)) && pos + 8 + size <= |src.text|
    ensures ParseInt(src.text, pos) == (size, pos + 8)
    ensures SectionEnd(pos + 8, size) == pos + 8 + size
  {
    ParseIntHolds(src.text, pos, size);
  }

  lemma ParseSectionHolds(kind: Kind, src: Source, pos: nat, fs: seq<Field>)
    requires src.Valid() && FieldsFit(fs, src.maxString) && DistinctKeys(kind, fs)
    requires pos <= |src.text| && Holds(src.text, pos, EncSection(fs))
    ensures ParseSection(kind, src, pos, []) == Ok((fs, pos + |EncSection(fs)|))
  {
    hide ParseFields, ParseInt, EncFields, EncInt;
    var size := FieldsSize(fs);
    FieldsSizeIsExact(fs);
    HoldsBoth(src.text, pos, EncInt(size), EncFields(fs));
    PrefixHolds(src, pos, size);
    assert [] + fs == fs;
    ParseFieldsHolds(kind, src, pos + 8, [], fs, pos + 8 + size);
  }

  /** The file table that reading yields: the same entries as views of a body that begins at lo. */
  function Views(fs: seq<FileEntry>, lo: nat): (r: seq<ParsedFile>)
    ensures |r| == |fs|
  {
    seq(|fs|, i requires 0 <= i < |fs| => ViewOf(fs[i], lo))
  }

  ghost predicate FileFits(f: FileEntry, lo: nat, bodySize: nat, limit: nat) {
    && f.remoteName != []
    && (f.offset + f.length <= bodySize || (f.length == 0 && 0 < lo && f.offset + lo == TWO_64))
    && |f.key| <= limit && |f.remoteName| <= limit && |f.contentType| <= limit
  }

  ghost predicate DistinctFiles(fs: seq<FileEntry>) {
    forall i, j | 0 <= i < j < |fs| :: fs[i].key != fs[j].key
  }

  /** Where the five parts of a file entry lie. */
  lemma FileParts(text: Bytes, pos: nat, a: Bytes, b: Bytes, c: Bytes, d: Bytes, e: Bytes)
    requires Holds(text, pos, a + b + c + d + e)
    ensures Holds(text, pos, a + b)
    ensures Holds(text, pos + |a| + |b|, c)
    ensures Holds(text, pos + |a| + |b| + |c|, d)
    ensures Holds(text, pos + |a| + |b| + |c| + |d|, e)
  {
    HoldsBoth(text, pos, a + b + c + d, e);
    HoldsBoth(text, pos, a + b + c, d);
    HoldsBoth(text, pos, a + b, c);
  }

  function ViewOf(f: FileEntry, lo: nat): ParsedFile {
    ParsedFile(f.key, f.remoteName, f.contentType, SectionEnd(lo, f.offset), SectionEnd(lo, f.offset + f.length))
  }

  lemma ParseFileHolds(src: Source, body: (nat, nat), pos: nat, f: FileEntry)
    requires src.Valid() && body.0 <= body.1 <= src.store
    requires FileFits(f, body.0, body.1 - body.0, src.maxString)
    requires Holds(src.text, pos, EncFile(f))
    ensures ParseFile(src, body, pos) == Ok((ViewOf(f, body.0), pos + |EncFile(f)|))
  {
    hide ParseField, ParseString, ParseInt, EncString, EncInt;
    var a, b, c := EncString(f.key), EncString(f.remoteName), EncString(f.contentType);
    FileParts(src.text, pos, a, b, c, EncInt(f.offset), EncInt(f.length));
    assert EncField((f.key, f.remoteName)) == a + b;
    ParseFieldHolds(src, pos, (f.key, f.remoteName));
    ParseStringHolds(src, pos + |a| + |b|, f.contentType);
    ParseIntHolds(src.text, pos + |a| + |b| + |c|, f.offset);
    ParseIntHolds(src.text, pos + |a| + |b| + |c| + 8, f.length);
  }

  lemma NextFileIsNew(done: seq<FileEntry>, fs: seq<FileEntry>, lo: nat)
    requires fs != [] && DistinctFiles(done + fs)
    ensures InsertFile(Views(done, lo), ViewOf(fs[0], lo)) == Views(done + [fs[0]], lo)
    ensures done + [fs[0]] + fs[1..] == done + fs
  {
    var acc := Views(done, lo);
    forall i | 0 <= i < |acc|
      ensures acc[i].key != fs[0].key
    {
      assert (done + fs)[i] == done[i] && (done + fs)[|done|] == fs[0];
    }
    assert acc + [ViewOf(fs[0], lo)] == Views(done + [fs[0]], lo);
  }

  lemma {:induction false} ParseFilesHolds(
    src: Source, body: (nat, nat), pos: nat, done: seq<FileEntry>, fs: seq<FileEntry>, end: nat)
    requires src.Valid() && body.0 <= body.1 <= src.store
    requires forall f | f in fs :: FileFits(f, body.0, body.1 - body.0, src.maxString)
    requires end == pos + |EncFiles(fs)| && Holds(src.text, pos, EncFiles(fs))
    requires DistinctFiles(done + fs)
    ensures ParseFiles(src, body, pos, end, Views(done, body.0)) == Ok((Views(done + fs, body.0), end))
    decreases |fs|
  {
    hide ParseFile, InsertFile, Views;
    if fs == [] {
      assert done + fs == done;
    } else {
      var f := fs[0];
      assert f in fs;
      var at := pos + |EncFile(f)|;
      HoldsBoth(src.text, pos, EncFile(f), EncFiles(fs[1..]));
      ParseFileHolds(src, body, pos, f);
      NextFileIsNew(done, fs, body.0);
      assert forall g | g in fs[1..] :: g in fs;
      assert ParseFiles(src, body, pos, end, Views(done, body.0)) ==
             ParseFiles(src, body, at, end, Views(done + [f], body.0));
      ParseFilesHolds(src, body, at, done + [f], fs[1..], end);
    }
  }

  lemma ParseFileSectionHolds(src: Source, body: (nat, nat), pos: nat, fs: seq<FileEntry>)
    requires src.Valid() && body.0 <= body.1 <= src.store
    requires forall f | f in fs :: FileFits(f, body.0, body.1 - body.0, src.maxString)
    requires pos <= |src.text| && Holds(src.text, pos, EncFileSection(fs)) && DistinctFiles(fs)
    ensures ParseFileSection(src, body, pos, []) == Ok((Views(fs, body.0), pos + |EncFileSection(fs)|))
  {
    hide ParseFiles, ParseInt, EncFiles, EncInt, FileFits;
    var size := FilesSize(fs);
    FilesSizeIsExact(fs);
    HoldsBoth(src.text, pos, EncInt(size), EncFiles(fs));
    PrefixHolds(src, pos, size);
    assert [] + fs == fs;
    assert Views([], body.0) == [];
    ParseFilesHolds(src, body, pos + 8, [], fs, pos + 8 + size);
  }

  /** A request as the daemon holds it: map keys are distinct, files have names and lie in the
      body, or are empty because their part had no empty line, and every string is one the process could allocate. */
  ghost predicate WellFormed(r: StoredRequest, maxString: nat) {
    && DistinctKeys(IgnoringCase, r.headers) && DistinctKeys(Exact, r.cookies) && DistinctKeys(Exact, r.vars)
    && DistinctFiles(r.files)
    && FieldsFit(r.headers, maxString) && FieldsFit(r.cookies, maxString)
    && FieldsFit(r.vars, maxString) && FieldsFit(r.args, maxString)
    && forall f | f in r.files :: FileFits(f, BodyStart(r), |r.body|, maxString)
  }

  /** Where the body starts in an image. */
  function BodyStart(r: StoredRequest): nat {
    |EncEnv(r)| + 8
  }

  /** The request that parsed views denote, given the bytes of the store. */
  function Meaning(store: Bytes, p: Parsed): StoredRequest
    requires p.body.0 <= p.body.1 <= |store|
    requires forall f | f in p.files :: Inside(f.begin, f.end, p.body)
  {
    StoredRequest(p.headers, p.cookies, p.vars, store[p.body.0..p.body.1],
      seq(|p.files|, i requires 0 <= i < |p.files| =>
        assert p.files[i] in p.files && Inside(p.files[i].begin, p.files[i].end, p.body);
        EntryAt(p.files[i], p.body.0)),
      p.args)
  }

  /** Reading an image back, in views. */
  lemma ParseImage(r: StoredRequest, maxString: nat)
    requires WellFormed(r, maxString) && |Image(r)| < TWO_64
    ensures Parse(Source(Image(r), 0, |Image(r)|, maxString), EMPTY) ==
            Ok(Parsed(r.headers, r.cookies, r.vars, (BodyStart(r), BodyStart(r) + |r.body|),
                      Views(r.files, BodyStart(r)), r.args))
  {
    hide ParseSection, ParseFileSection, ParseInt, EncSection, EncFileSection, EncInt, Holds, Views,
         FieldsFit, FileFits, DistinctFiles;
    var t := Image(r);
    var src := Source(t, 0, |t|, maxString);
    var h, c, v := EncSection(r.headers), EncSection(r.cookies), EncSection(r.vars);
    var b, f, a := EncString(r.body), EncFileSection(r.files), EncSection(r.args);
    var body := (BodyStart(r), BodyStart(r) + |r.body|);
    SixParts(t, h, c, v, b, f, a);
    ParseSectionHolds(IgnoringCase, src, 0, r.headers);
    ParseSectionHolds(Exact, src, |h|, r.cookies);
    ParseSectionHolds(Exact, src, |h| + |c|, r.vars);
    HoldsBoth(t, |h| + |c| + |v|, EncInt(|r.body|), r.body);
    PrefixHolds(src, |h| + |c| + |v|, |r.body|);
    ParseFileSectionHolds(src, body, |h| + |c| + |v| + |b|, r.files);
    ParseSectionHolds(Repeated, src, |h| + |c| + |v| + |b| + |f|, r.args);
  }

  /** Where the six sections of an image lie. */
  lemma SixParts(t: Bytes, h: Bytes, c: Bytes, v: Bytes, b: Bytes, f: Bytes, a: Bytes)
    requires t == h + c + v + b + f + a
    ensures Holds(t, 0, h)
    ensures Holds(t, |h|, c)
    ensures Holds(t, |h| + |c|, v)
    ensures Holds(t, |h| + |c| + |v|, b)
    ensures Holds(t, |h| + |c| + |v| + |b|, f)
    ensures Holds(t, |h| + |c| + |v| + |b| + |f|, a)
  {
    assert t[0..|t|] == t;
    HoldsBoth(t, 0, h + c + v + b + f, a);
    HoldsBoth(t, 0, h + c + v + b, f);
    HoldsBoth(t, 0, h + c + v, b);
    HoldsBoth(t, 0, h + c, v);
    HoldsBoth(t, 0, h, c);
  }

  /** Thirty-two bytes of prefixes stand in front of every body, and a request with a variable has
      more. */
  lemma BodyIsFarIn(r: StoredRequest)
    ensures 32 <= BodyStart(r) && (r.vars != [] ==> 33 <= BodyStart(r))
  {
  }

  lemma BodyInImage(r: StoredRequest)
    ensures Holds(Image(r), BodyStart(r), r.body)
  {
    hide EncEnv, EncFileSection, EncSection, EncInt;
    var e, n, f, a := EncEnv(r), EncInt(|r.body|), EncFileSection(r.files), EncSection(r.args);
    SixParts(Image(r), e, n, r.body, f, a, []);
  }

  /** The round trip: an image read back denotes the request that was written. */
  lemma RoundTrip(r: StoredRequest, maxString: nat)
    requires WellFormed(r, maxString) && |Image(r)| < TWO_64
    ensures var p := Parse(Source(Image(r), 0, |Image(r)|, maxString), EMPTY);
            && p.Ok?
            && p.value.body.0 <= p.value.body.1 <= |Image(r)|
            && (forall f | f in p.value.files :: Inside(f.begin, f.end, p.value.body))
            && Meaning(Image(r), p.value) == r
  {
    hide Parse, EncEnv, EncString, EncFileSection, EncSection, EncInt;
    ParseImage(r, maxString);
    BodyInImage(r);
    var p := Parse(Source(Image(r), 0, |Image(r)|, maxString), EMPTY).value;
    forall i | 0 <= i < |p.files|
      ensures Inside(p.files[i].begin, p.files[i].end, p.body) && EntryAt(p.files[i], p.body.0) == r.files[i]
    {
      assert r.files[i] in r.files;
      ViewAndBack(r.files[i], BodyStart(r), |r.body|, maxString);
    }
    assert Meaning(Image(r), p).files == r.files;
  }

  /** An offset that went around comes around again. */
  lemma ViewAndBack(f: FileEntry, lo: nat, size: nat, limit: nat)
    requires FileFits(f, lo, size, limit) && lo + size < TWO_64
    ensures var v := ViewOf(f, lo); Inside(v.begin, v.end, (lo, lo + size)) && EntryAt(v, lo) == f
  {
    if f.offset + f.length > size {
      assert (0 - lo) % TWO_64 == TWO_64 - lo;
    }
  }

  function ContentOf(body: Bytes, f: FileEntry): Bytes {
    if f.offset + f.length <= |body| then body[f.offset..f.offset + f.length] else []
  }

  /** A file's content survives with it: the view that reading yields shows the same bytes. */
  lemma FileContentSurvives(r: StoredRequest, maxString: nat, i: nat)
    requires WellFormed(r, maxString) && |Image(r)| < TWO_64 && i < |r.files|
    ensures var p := Parse(Source(Image(r), 0, |Image(r)|, maxString), EMPTY);
            && p.Ok? && |p.value.files| == |r.files|
            && var f := p.value.files[i];
               && f.begin <= f.end <= |Image(r)|
               && Image(r)[f.begin..f.end] == ContentOf(r.body, r.files[i])
  {
    hide Parse, EncEnv, EncString, EncFileSection, EncSection, EncInt;
    ParseImage(r, maxString);
    BodyInImage(r);
    assert r.files[i] in r.files;
    var off, len := r.files[i].offset, r.files[i].length;
    if off + len <= |r.body| {
      SliceOfSlice(Image(r), BodyStart(r), BodyStart(r) + |r.body|, off, off + len);
    }
  }
}
