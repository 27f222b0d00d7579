/**
 * An upload from the client's form to the stored image: attach (library/requestimpl.cpp) with
 * parseMultipart (library/parser.cpp) as the parser of the body.
 */
module Uploads {
  import opened Bytes
  import opened DataBuffers
  import opened StoredImage
  import opened Multipart
  import opened MultipartHeaders
  import opened MultipartRoundTrip
  import opened MultipartEnds
  import Requests

  function AsViews(files: seq<Upload>): (r: seq<ParsedFile>)
    ensures |r| == |files|
  {
    seq(|files|, i requires 0 <= i < |files| =>
      ParsedFile(files[i].key, files[i].filename, files[i].contentType, files[i].content.0, files[i].content.1))
  }

  /** What attach gets from parseMultipart. Where the parser would not return, this says the same as
      where it throws; Attach is not about such bodies. */
  function Parsed(backing: Backing, boundary: Bytes, text: Bytes, v: View): Result<Requests.Entity>
    requires boundary != []
  {
    if v.0 > v.1 || v.1 > |text| then Err(IndexOutOfRange)
    else
      match Body(backing, text, v, boundary, Found([], []))
      case Done(found) => Ok(Requests.Entity(AsViews(found.files), found.args))
      case _ => Err(MalformedBody)
  }

  /** Its files are slices of the body, or empty. */
  lemma ParsedInBody(backing: Backing, boundary: Bytes, text: Bytes, v: View)
    requires boundary != [] && v.0 <= v.1 <= |text|
    ensures var e := Parsed(backing, boundary, text, v); e.Ok? ==> Requests.InBody(e.value.files, v)
  {
    hide Body;
    FilesAreSlices(backing, text, v, boundary, Found([], []), v);
    var b := Body(backing, text, v, boundary, Found([], []));
    if b.Done? {
      forall f | f in AsViews(b.found.files)
        ensures Inside(f.begin, f.end, v)
      {
        var i :| 0 <= i < |b.found.files| && AsViews(b.found.files)[i] == f;
        assert b.found.files[i] in b.found.files;
      }
    }
  }

  /** The parser as attach calls it. */
  function Parser(backing: Backing, boundary: Bytes): (Bytes, View) -> Result<Requests.Entity>
    requires boundary != []
  {
    (s: Bytes, v: View) => Parsed(backing, boundary, s, v)
  }

  lemma ParserParses(backing: Backing, boundary: Bytes, text: Bytes, v: View)
    requires boundary != []
    ensures Parser(backing, boundary)(text, v) == Parsed(backing, boundary, text, v)
  {
    hide Parsed;
  }

  lemma ParserStaysInBody(backing: Backing, boundary: Bytes)
    requires boundary != []
    ensures forall s: Bytes, v: View ::
              v.0 <= v.1 <= |s| && Parser(backing, boundary)(s, v).Ok? ==>
                Requests.InBody(Parser(backing, boundary)(s, v).value.files, v)
  {
    hide Parsed;
    forall s: Bytes, v: View | v.0 <= v.1 <= |s|
      ensures Parser(backing, boundary)(s, v).Ok? ==>
                Requests.InBody(Parser(backing, boundary)(s, v).value.files, v)
    {
      ParsedInBody(backing, boundary, s, v);
    }
  }

  /** It throws exactly on malformed bodies, where it comes to an end at all. */
  lemma ParsedUnlessMalformed(backing: Backing, boundary: Bytes, text: Bytes, v: View)
    requires boundary != [] && InText(text, v) && !StopsAt(Shows(text, v), boundary, true)
    ensures var e := Parsed(backing, boundary, text, v);
            (e.Err? <==> StopsAt(Shows(text, v), boundary, false)) && (e.Err? ==> e.error == MalformedBody)
  {
    hide Body, StopsAt;
    EndsUnlessClosedEarly(backing, text, v, boundary, Found([], []));
  }

  function Entry(body: Bytes, f: FileEntry): Sent {
    (f.key, f.remoteName, f.contentType, ContentOf(body, f))
  }

  /** The request's files have these keys, names, types and contents. */
  ghost predicate FilesShow(r: StoredRequest, sent: seq<Sent>) {
    && |r.files| == |sent|
    && forall i | 0 <= i < |sent| ::
         Entry(r.body, r.files[i]) == sent[i]
  }

  /** What a stored entry shows of the body is what its view showed of the store. */
  lemma StoredContent(text: Bytes, lo: nat, hi: nat, f: ParsedFile)
    requires lo <= hi <= |text| && hi < TWO_64 && Inside(f.begin, f.end, (lo, hi))
    ensures f.begin <= f.end <= |text|
    ensures ContentOf(text[lo..hi], EntryAt(f, lo)) == text[f.begin..f.end]
  {
    if lo <= f.begin <= f.end <= hi {
      assert (f.begin - lo) % TWO_64 == f.begin - lo;
      SliceOfSlice(text, lo, hi, f.begin - lo, f.end - lo);
    } else {
      assert (0 - lo) % TWO_64 == TWO_64 - lo;
    }
  }

  /** A rendered form, parsed from wherever it lies. */
  lemma RenderedIsParsed(eol: Eol, backing: Backing, boundary: Bytes, text: Bytes, v: View, parts: seq<FormPart>)
    requires InText(text, v) && BoundaryOk(boundary) && PartsOk(eol, backing, boundary, parts)
    requires backing.File? ==> 33 <= v.0
    requires Shows(text, v) == Render(eol, boundary, parts)
    ensures var e, form := Parsed(backing, boundary, text, v), AddAll(Form([], []), parts);
            && e.Ok? && e.value.args == form.args && |e.value.files| == |form.files|
            && forall i | 0 <= i < |form.files| ::
                 var f := e.value.files[i];
                 f.begin <= f.end <= |text| && (f.key, f.remoteName, f.contentType, text[f.begin..f.end]) == form.files[i]
  {
    hide Body, PartsOk, Render, AddAll;
    MultipartRoundTrip.MultipartRoundTrip(eol, backing, text, v, boundary, parts);
    var found := Body(backing, text, v, boundary, Found([], [])).found;
    forall i | 0 <= i < |found.files|
      ensures InText(text, found.files[i].content)
      ensures FormOf(text, found).files[i] ==
              (found.files[i].key, found.files[i].filename, found.files[i].contentType, Shows(text, found.files[i].content))
    {
      assert found.files[i] in found.files;
    }
  }

  /** Views that show what was sent become entries that do. */
  lemma EntriesShow(r: StoredRequest, text: Bytes, lo: nat, hi: nat, fs: seq<ParsedFile>, sent: seq<Sent>)
    requires lo <= hi <= |text| && hi < TWO_64 && Requests.InBody(fs, (lo, hi)) && |fs| == |sent|
    requires forall i | 0 <= i < |fs| :: fs[i].begin <= fs[i].end <= |text|
    requires forall i | 0 <= i < |fs| ::
               (fs[i].key, fs[i].remoteName, fs[i].contentType, text[fs[i].begin..fs[i].end]) == sent[i]
    requires (forall f | f in fs :: f.begin <= f.end) && r.body == text[lo..hi] && r.files == Requests.EntriesAt(fs, lo)
    ensures FilesShow(r, sent)
  {
    hide ContentOf, EntryAt;
    forall i | 0 <= i < |fs|
      ensures Entry(r.body, r.files[i]) == sent[i]
    {
      assert fs[i] in fs;
      StoredContent(text, lo, hi, fs[i]);
      EntryKeeps(fs[i], lo);
    }
  }

  lemma EntryKeeps(f: ParsedFile, lo: nat)
    requires f.begin <= f.end
    ensures var e := EntryAt(f, lo);
            e.key == f.key && e.remoteName == f.remoteName && e.contentType == f.contentType
  {
  }

  function BackingOf(b: DataBuffer): Backing {
    if b.impl.OnDisk? then File else Memory
  }

  /** attach with this parser. */
  method AttachParsed(
    q: Requests.RequestImpl, post: DataBuffer, stream: Requests.InputStream, size: nat, query: seq<Field>, boundary: Bytes)
    returns (r: Result<DataBuffer>, ghost store: Bytes)
    requires post.Valid() && q !in post.impl.Repr() && stream !in post.impl.Repr() && boundary != []
    modifies post.impl.Repr(), stream, q`body, q`files, q`args
    ensures |old(stream.input)| < size ==> r == Err(ShortRead)
    ensures var lo := post.begin + q.EnvSize() + 8;
            size <= |old(stream.input)| ==>
              && lo + size <= |store| && store[lo..lo + size] == old(stream.input)[..size]
              && match Parsed(BackingOf(post), boundary, store, (lo, lo + size))
                 case Err(e) => r == Err(e)
                 case Ok(e) =>
                   r.Ok? && r.value.impl == post.impl && q.Built(r.value, lo, store[lo..lo + size], query, e)
  {
    hide Parser, Parsed, BackingOf, Requests.InBody, Requests.RequestImpl.Built, Requests.RequestImpl.EnvSize;
    var backing := BackingOf(post);
    ParserStaysInBody(backing, boundary);
    r, store := q.AttachCached(post, stream, size, query, Parser(backing, boundary));
    ghost var lo := post.begin + q.EnvSize() + 8;
    ParserParses(backing, boundary, store, (lo, lo + size));
  }

  lemma BuiltHolds(q: Requests.RequestImpl, r: DataBuffer, lo: nat, content: Bytes, query: seq<Field>, e: Requests.Entity)
    requires q.Built(r, lo, content, query, e)
    ensures q.Valid() && r.Valid() && r.Text() == Image(q.Snapshot())
    ensures q.Snapshot().body == content && q.Snapshot().args == query + e.args
    ensures (forall f | f in e.files :: f.begin <= f.end) && q.Snapshot().files == Requests.EntriesAt(e.files, lo)
  {
    hide Image, Requests.EntriesAt, Requests.Entries;
  }

  /**
   * attach for a multipart upload into a cache file, on any body that the parser comes to an end
   * with: it fails on a short stream and on a malformed body, and else leaves the image of a request
   * with that body.
   */
  method Attach(
    q: Requests.RequestImpl, post: DataBuffer, stream: Requests.InputStream, size: nat, query: seq<Field>, boundary: Bytes)
    returns (r: Result<DataBuffer>)
    requires post.Valid() && q !in post.impl.Repr() && stream !in post.impl.Repr() && boundary != []
    requires size <= |stream.input| ==> !StopsAt(stream.input[..size], boundary, true)
    modifies post.impl.Repr(), stream, q`body, q`files, q`args
    ensures |old(stream.input)| < size ==> r == Err(ShortRead)
    ensures size <= |old(stream.input)| ==>
              var content := old(stream.input)[..size];
              && (r.Err? <==> StopsAt(content, boundary, false))
              && (r.Err? ==> r == Err(MalformedBody))
              && (r.Ok? ==>
                    && q.Valid() && r.value.Valid() && r.value.Text() == Image(q.Snapshot())
                    && q.Snapshot().body == content)
  {
    hide Image, StopsAt, Parsed, Requests.RequestImpl.Built;
    ghost var lo := post.begin + q.EnvSize() + 8;
    ghost var store;
    r, store := AttachParsed(q, post, stream, size, query, boundary);
    if size <= |old(stream.input)| {
      ParsedUnlessMalformed(BackingOf(post), boundary, store, (lo, lo + size));
      if r.Ok? {
        BuiltHolds(q, r.value, lo, store[lo..lo + size], query,
                   Parsed(BackingOf(post), boundary, store, (lo, lo + size)).value);
      }
    }
  }

  /**
   * From the client's form to the stored image: every argument, and for each key the first file with
   * its bytes, is in the request whose image the cache file holds.
   */
  method AttachForm(
    q: Requests.RequestImpl, post: DataBuffer, stream: Requests.InputStream, size: nat, query: seq<Field>,
    boundary: Bytes, ghost eol: Eol, ghost parts: seq<FormPart>)
    returns (r: Result<DataBuffer>)
    requires post.Valid() && q !in post.impl.Repr() && stream !in post.impl.Repr()
    requires BoundaryOk(boundary) && PartsOk(eol, BackingOf(post), boundary, parts) && q.vars != []
    requires size <= |stream.input| && stream.input[..size] == Render(eol, boundary, parts)
    requires post.begin + q.EnvSize() + 8 + size < TWO_64
    modifies post.impl.Repr(), stream, q`body, q`files, q`args
    ensures r.Ok? && q.Valid() && r.value.Valid() && r.value.Text() == Image(q.Snapshot())
    ensures var form := AddAll(Form([], []), parts);
            && q.Snapshot().body == Render(eol, boundary, parts)
            && q.Snapshot().args == query + form.args && FilesShow(q.Snapshot(), form.files)
  {
    hide Image, Render, PartsOk, AddAll, FilesShow, Parsed, Requests.RequestImpl.Built, StoresEntity, BoundaryOk;
    ghost var backing, lo := BackingOf(post), post.begin + q.EnvSize() + 8;
    assert boundary != [] by { BoundaryIsSome(boundary); }
    EnvIsFarIn(q);
    ghost var store;
    r, store := AttachParsed(q, post, stream, size, query, boundary);
    FormParses(eol, backing, boundary, store, (lo, lo + size), parts);
    ghost var e := Parsed(backing, boundary, store, (lo, lo + size)).value;
    BuiltStores(q, r.value, store, lo, lo + size, query, e);
    FormIsStored(eol, backing, boundary, store, lo, lo + size, parts, q.Snapshot(), query);
  }

  /** A request that has these tables and the body that lies there in the store. */
  ghost predicate StoresEntity(
    r: StoredRequest, text: Bytes, lo: nat, hi: nat, query: seq<Field>, e: Requests.Entity)
  {
    && lo <= hi <= |text| && r.body == text[lo..hi] && r.args == query + e.args
    && (forall f | f in e.files :: f.begin <= f.end) && r.files == Requests.EntriesAt(e.files, lo)
  }

  lemma BuiltStores(
    q: Requests.RequestImpl, r: DataBuffer, text: Bytes, lo: nat, hi: nat, query: seq<Field>, e: Requests.Entity)
    requires lo <= hi <= |text| && q.Built(r, lo, text[lo..hi], query, e)
    ensures q.Valid() && r.Valid() && r.Text() == Image(q.Snapshot())
    ensures StoresEntity(q.Snapshot(), text, lo, hi, query, e)
  {
    hide Image, Requests.EntriesAt, Requests.RequestImpl.Built;
    BuiltHolds(q, r, lo, text[lo..hi], query, e);
  }

  lemma BoundaryIsSome(boundary: Bytes)
    requires BoundaryOk(boundary)
    ensures boundary != []
  {
  }

  lemma FormParses(eol: Eol, backing: Backing, boundary: Bytes, text: Bytes, v: View, parts: seq<FormPart>)
    requires InText(text, v) && BoundaryOk(boundary) && PartsOk(eol, backing, boundary, parts)
    requires backing.File? ==> 33 <= v.0
    requires Shows(text, v) == Render(eol, boundary, parts)
    ensures Parsed(backing, boundary, text, v).Ok?
  {
    hide Render, PartsOk, AddAll, Parsed;
    RenderedIsParsed(eol, backing, boundary, text, v, parts);
  }

  lemma FormIsStored(
    eol: Eol, backing: Backing, boundary: Bytes, text: Bytes, lo: nat, hi: nat, parts: seq<FormPart>, r: StoredRequest,
    query: seq<Field>)
    requires lo <= hi <= |text| && hi < TWO_64 && BoundaryOk(boundary) && PartsOk(eol, backing, boundary, parts)
    requires backing.File? ==> 33 <= lo
    requires Shows(text, (lo, hi)) == Render(eol, boundary, parts)
    requires var e := Parsed(backing, boundary, text, (lo, hi)); e.Ok? && StoresEntity(r, text, lo, hi, query, e.value)
    ensures var form := AddAll(Form([], []), parts);
            r.body == Render(eol, boundary, parts) && r.args == query + form.args && FilesShow(r, form.files)
  {
    hide Render, PartsOk, AddAll, FilesShow, Parsed, Requests.InBody, Requests.EntriesAt;
    RenderedIsParsed(eol, backing, boundary, text, (lo, hi), parts);
    ParsedInBody(backing, boundary, text, (lo, hi));
    EntriesShow(r, text, lo, hi, Parsed(backing, boundary, text, (lo, hi)).value.files, AddAll(Form([], []), parts).files);
  }

  /** The environment of a request with a variable takes more than thirty-two bytes. */
  lemma EnvIsFarIn(q: Requests.RequestImpl)
    requires q.vars != []
    ensures 33 <= q.EnvSize() + 8
  {
    q.SectionSizes();
  }
}
