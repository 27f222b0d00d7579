/**
 * What library/requestimpl.cpp's parse makes of bytes that serialize did not leave: of repeated keys,
 * of lengths that do not fit, and of an image that was cut short.
 */
module StoredLaws {
  import opened Alphabet
  import opened Bytes
  import opened DataBuffers
  import opened StoredImage

  // ----- bytes and keys -----

  /** Eight bytes, the least significant first. */
  lemma IntLayout(n: nat)
    requires n < TWO_64
    ensures var e := EncInt(n);
            n == e[0] + 0x100 * (e[1] as int) + 0x1_0000 * (e[2] as int) + 0x100_0000 * (e[3] as int) + 0x1_0000_0000 * (e[4] as int) +
                 0x100_0000_0000 * (e[5] as int) + 0x1_0000_0000_0000 * (e[6] as int) + 0x100_0000_0000_0000 * (e[7] as int)
  {
    hide EncInt;
    DecEncInt(n);
    var e := EncInt(n);
    DecBytesOf(e, e[4..]);
    FourBytes(e[..4]);
    FourBytes(e[4..]);
    assert e == e[..4] + e[4..];
  }

  lemma FourBytes(s: Bytes)
    requires |s| == 4
    ensures DecBytes(s) == s[0] + 0x100 * (s[1] as int) + 0x1_0000 * (s[2] as int) + 0x100_0000 * (s[3] as int)
  {
    assert DecBytes(s[4..]) == 0;
    assert DecBytes(s[3..]) == s[3];
    assert s[2..][1..] == s[3..];
    assert DecBytes(s[2..]) == s[2] + 0x100 * (s[3] as int);
    assert s[1..][1..] == s[2..];
  }

  lemma DecBytesOf(s: Bytes, t: Bytes)
    requires |s| == 8 && t == s[4..]
    ensures DecBytes(s) == DecBytes(s[..4]) + 0x1_0000_0000 * DecBytes(t)
  {
    DecConcat(s[..4], t);
    assert s[..4] + t == s;
    assert Pow256(4) == 0x1_0000_0000;
  }

  lemma Distributes(c: int, d: int, p: int, x: int)
    ensures c + 256 * (d + p * x) == (c + 256 * d) + (256 * p) * x
  {
    var q := p * x;
    assert (256 * p) * x == 256 * q;
  }

  lemma {:induction false} DecConcat(a: Bytes, b: Bytes)
    ensures DecBytes(a + b) == DecBytes(a) + Pow256(|a|) * DecBytes(b)
  {
    if a == [] {
      assert a + b == b;
    } else {
      assert (a + b)[1..] == a[1..] + b;
      DecConcat(a[1..], b);
      Distributes(a[0], DecBytes(a[1..]), Pow256(|a| - 1), DecBytes(b));
    }
  }

  /** Two bytes that a header's name does not tell apart: the same, or one letter in both cases. */
  ghost predicate SameLetter(a: Byte, b: Byte) {
    || a == b
    || exists i | 0 <= i < 26 ::
         || (a == UPPER[i] as int && b == LOWER[i] as int)
         || (a == LOWER[i] as int && b == UPPER[i] as int)
  }

  lemma SameLetterIff(a: Byte, b: Byte)
    ensures ToLower(a) == ToLower(b) <==> SameLetter(a, b)
  {
    hide UPPER, LOWER;
    Lengths();
    forall i | 0 <= i < 26
      ensures UPPER[i] as int == 65 + i && LOWER[i] as int == 97 + i
    {
      UpperAt(i);
      LowerAt(i);
    }
    if a != b && ToLower(a) == ToLower(b) {
      var i := ToLower(a) - 97;
      assert UPPER[i] as int == 65 + i;
    }
  }

  lemma HeaderKeysIff(a: Bytes, b: Bytes)
    ensures SameKey(IgnoringCase, a, b) <==> |a| == |b| && forall i | 0 <= i < |a| :: SameLetter(a[i], b[i])
  {
    hide SameLetter, ToLower;
    if |a| == |b| {
      forall i | 0 <= i < |a|
        ensures ToLower(a[i]) == ToLower(b[i]) <==> SameLetter(a[i], b[i])
      {
        SameLetterIff(a[i], b[i]);
      }
    }
  }

  // ----- repeated keys -----

  /** What a table says of a key: the value that stands first. */
  function Lookup(kind: Kind, table: seq<Field>, key: Bytes): Option<Bytes> {
    if table == [] then None
    else if SameKey(kind, table[0].0, key) then Some(table[0].1)
    else Lookup(kind, table[1..], key)
  }

  /** Whatever was written, a section read into a table leaves keys distinct, and of each key the value
      that stood first; arguments are all kept, in order. */
  lemma SectionReads(kind: Kind, src: Source, pos: nat, acc: seq<Field>, fs: seq<Field>)
    requires src.Valid() && FieldsFit(fs, src.maxString)
    requires pos <= |src.text| && Holds(src.text, pos, EncSection(fs))
    ensures var r := ParseSection(kind, src, pos, acc);
            && r.Ok? && r.value.1 == pos + |EncSection(fs)|
            && (DistinctKeys(kind, acc) ==> DistinctKeys(kind, r.value.0))
            && (forall key :: Lookup(kind, r.value.0, key) == Lookup(kind, acc + fs, key))
            && (kind.Repeated? ==> r.value.0 == acc + fs)
  {
    hide ParseFields, ParseInt, EncFields, EncInt, Lookup, DistinctKeys;
    var size := FieldsSize(fs);
    FieldsSizeIsExact(fs);
    HoldsBoth(src.text, pos, EncInt(size), EncFields(fs));
    PrefixHolds(src, pos, size);
    FieldsRead(kind, src, pos + 8, acc, fs, pos + 8 + size);
    InsertAllKeeps(kind, acc, fs);
  }

  function InsertAll(kind: Kind, acc: seq<Field>, fs: seq<Field>): seq<Field>
    decreases |fs|
  {
    if fs == [] then acc else InsertAll(kind, Insert(kind, acc, fs[0]), fs[1..])
  }

  lemma {:induction false} FieldsRead(kind: Kind, src: Source, pos: nat, acc: seq<Field>, fs: seq<Field>, end: nat)
    requires src.Valid() && FieldsFit(fs, src.maxString)
    requires end == pos + |EncFields(fs)| && Holds(src.text, pos, EncFields(fs))
    ensures ParseFields(kind, src, pos, end, acc) == Ok((InsertAll(kind, acc, fs), end))
    decreases |fs|
  {
    hide EncField, FieldFits, ParseField, Holds, Insert;
    if fs != [] {
      var at := pos + |EncField(fs[0])|;
      EncFieldNotEmpty(fs[0]);
      HoldsBoth(src.text, pos, EncField(fs[0]), EncFields(fs[1..]));
      assert fs[0] in fs;
      ParseFieldHolds(src, pos, fs[0]);
      assert forall f | f in fs[1..] :: f in fs;
      FieldsRead(kind, src, at, Insert(kind, acc, fs[0]), fs[1..], end);
    }
  }

  lemma {:induction false} LookupConcat(kind: Kind, a: seq<Field>, b: seq<Field>, key: Bytes)
    ensures Lookup(kind, a + b, key) == if Lookup(kind, a, key).Some? then Lookup(kind, a, key) else Lookup(kind, b, key)
  {
    if a == [] {
      assert a + b == b;
    } else {
      assert (a + b)[1..] == a[1..] + b;
      LookupConcat(kind, a[1..], b, key);
    }
  }

  lemma {:induction false} LookupIff(kind: Kind, table: seq<Field>, key: Bytes)
    ensures Lookup(kind, table, key).Some? <==> HasKey(kind, table, key)
  {
    hide SameKey;
    if table != [] {
      LookupIff(kind, table[1..], key);
      if HasKey(kind, table[1..], key) {
        var i :| 0 <= i < |table[1..]| && SameKey(kind, table[1..][i].0, key);
        assert table[i + 1] == table[1..][i];
      }
      if HasKey(kind, table, key) && !SameKey(kind, table[0].0, key) {
        var i :| 0 <= i < |table| && SameKey(kind, table[i].0, key);
        assert table[1..][i - 1] == table[i];
      }
    }
  }

  lemma SameKeyJoins(kind: Kind, a: Bytes, b: Bytes, c: Bytes)
    requires SameKey(kind, a, b) && SameKey(kind, b, c)
    ensures SameKey(kind, a, c)
  {
  }

  /** A field that finds its key taken adds nothing to what a table says. */
  lemma InsertSays(kind: Kind, acc: seq<Field>, f: Field, key: Bytes)
    ensures Lookup(kind, Insert(kind, acc, f), key) == Lookup(kind, acc + [f], key)
  {
    hide SameKey;
    LookupConcat(kind, acc, [f], key);
    if HasKey(kind, acc, f.0) && SameKey(kind, f.0, key) {
      var i :| 0 <= i < |acc| && SameKey(kind, acc[i].0, f.0);
      SameKeyJoins(kind, acc[i].0, f.0, key);
      LookupIff(kind, acc, key);
    }
  }

  lemma InsertIsDistinct(kind: Kind, acc: seq<Field>, f: Field)
    requires DistinctKeys(kind, acc)
    ensures DistinctKeys(kind, Insert(kind, acc, f))
  {
    hide SameKey;
  }

  lemma {:induction false} InsertAllKeeps(kind: Kind, acc: seq<Field>, fs: seq<Field>)
    ensures var r := InsertAll(kind, acc, fs);
            && (DistinctKeys(kind, acc) ==> DistinctKeys(kind, r))
            && (forall key :: Lookup(kind, r, key) == Lookup(kind, acc + fs, key))
            && (kind.Repeated? ==> r == acc + fs)
    decreases |fs|
  {
    hide Insert, Lookup, DistinctKeys;
    if fs == [] {
      assert acc + fs == acc;
    } else {
      var f, next := fs[0], Insert(kind, acc, fs[0]);
      assert acc + fs == acc + [f] + fs[1..];
      InsertAllKeeps(kind, next, fs[1..]);
      if DistinctKeys(kind, acc) {
        InsertIsDistinct(kind, acc, f);
      }
      forall key
        ensures Lookup(kind, next + fs[1..], key) == Lookup(kind, acc + fs, key)
      {
        InsertSays(kind, acc, f, key);
        LookupConcat(kind, next, fs[1..], key);
        LookupConcat(kind, acc + [f], fs[1..], key);
      }
      assert kind.Repeated? ==> next == acc + [f] by { NothingIsRepeated(acc, f); }
    }
  }

  lemma NothingIsRepeated(acc: seq<Field>, f: Field)
    ensures Insert(Repeated, acc, f) == acc + [f]
  {
  }

  // ----- any bytes -----

  /** What a process that parsed any bytes holds: keys are distinct, strings are no longer than it can
      allocate, and every uploaded file has a name, the only one under its key. */
  ghost predicate Sound(p: Parsed, limit: nat) {
    && SoundTable(IgnoringCase, p.headers, limit) && SoundTable(Exact, p.cookies, limit)
    && SoundTable(Exact, p.vars, limit) && SoundTable(Repeated, p.args, limit)
    && SoundFiles(p.files, limit)
  }

  ghost predicate SoundTable(kind: Kind, table: seq<Field>, limit: nat) {
    DistinctKeys(kind, table) && FieldsFit(table, limit)
  }

  ghost predicate SoundFiles(files: seq<ParsedFile>, limit: nat) {
    && (forall i, j | 0 <= i < j < |files| :: files[i].key != files[j].key)
    && forall f | f in files :: SoundFile(f, limit)
  }

  ghost predicate SoundFile(f: ParsedFile, limit: nat) {
    f.remoteName != [] && |f.key| <= limit && |f.remoteName| <= limit && |f.contentType| <= limit
  }

  lemma StringFits(src: Source, pos: nat)
    ensures var r := ParseString(src, pos); r.Ok? ==> |r.value.0| <= src.maxString
  {
    hide ParseInt;
  }

  lemma FieldIsSound(src: Source, pos: nat)
    ensures var r := ParseField(src, pos); r.Ok? ==> FieldFits(r.value.0, src.maxString)
  {
    hide ParseString;
    StringFits(src, pos);
    var r := ParseString(src, pos);
    if r.Ok? {
      StringFits(src, r.value.1);
    }
  }

  lemma {:induction false} FieldsAreSound(kind: Kind, src: Source, pos: nat, posEnd: nat, acc: seq<Field>)
    requires pos <= |src.text| && posEnd <= |src.text| && SoundTable(kind, acc, src.maxString)
    ensures var r := ParseFields(kind, src, pos, posEnd, acc);
            r.Ok? ==> SoundTable(kind, r.value.0, src.maxString) && acc <= r.value.0
    decreases |src.text| - pos
  {
    hide ParseField, DistinctKeys, FieldFits, HasKey;
    if pos < posEnd {
      var f := ParseField(src, pos);
      if f.Ok? {
        FieldIsSound(src, pos);
        InsertIsDistinct(kind, acc, f.value.0);
        FieldsAreSound(kind, src, f.value.1, posEnd, Insert(kind, acc, f.value.0));
      }
    }
  }

  lemma SectionIsSound(kind: Kind, src: Source, pos: nat, acc: seq<Field>)
    requires pos <= |src.text| && SoundTable(kind, acc, src.maxString)
    ensures var r := ParseSection(kind, src, pos, acc);
            r.Ok? ==> SoundTable(kind, r.value.0, src.maxString) && acc <= r.value.0
  {
    hide ParseFields, SoundTable;
    var (size, at) := ParseInt(src.text, pos);
    var posEnd := SectionEnd(at, size);
    if posEnd <= |src.text| {
      FieldsAreSound(kind, src, at, posEnd, acc);
    }
  }

  lemma FileIsSound(src: Source, body: (nat, nat), pos: nat)
    ensures var r := ParseFile(src, body, pos); r.Ok? ==> SoundFile(r.value.0, src.maxString)
  {
    hide ParseString, ParseField, ParseInt, SectionEnd;
    FieldIsSound(src, pos);
    var r := ParseField(src, pos);
    if r.Ok? {
      StringFits(src, r.value.1);
    }
  }

  lemma {:induction false} FilesAreSound(src: Source, body: (nat, nat), pos: nat, posEnd: nat, acc: seq<ParsedFile>)
    requires pos <= |src.text| && posEnd <= |src.text| && SoundFiles(acc, src.maxString)
    ensures var r := ParseFiles(src, body, pos, posEnd, acc);
            r.Ok? ==> SoundFiles(r.value.0, src.maxString) && acc <= r.value.0
    decreases |src.text| - pos
  {
    hide ParseFile, SoundFile;
    if pos < posEnd {
      var f := ParseFile(src, body, pos);
      if f.Ok? {
        FileIsSound(src, body, pos);
        FilesAreSound(src, body, f.value.1, posEnd, InsertFile(acc, f.value.0));
      }
    }
  }

  lemma FileSectionIsSound(src: Source, body: (nat, nat), pos: nat, acc: seq<ParsedFile>)
    requires pos <= |src.text| && SoundFiles(acc, src.maxString)
    ensures var r := ParseFileSection(src, body, pos, acc);
            r.Ok? ==> SoundFiles(r.value.0, src.maxString) && acc <= r.value.0
  {
    hide ParseFiles, SoundFiles;
    var (size, at) := ParseInt(src.text, pos);
    var posEnd := SectionEnd(at, size);
    if posEnd <= |src.text| {
      FilesAreSound(src, body, at, posEnd, acc);
    }
  }

  /** Whatever the bytes, parse leaves tables that are as they should be, and takes nothing out of the
      tables it adds to. */
  lemma ParsedIsSound(src: Source, before: Parsed)
    requires Sound(before, src.maxString)
    ensures var r := Parse(src, before);
            r.Ok? ==>
              && Sound(r.value, src.maxString)
              && before.headers <= r.value.headers && before.cookies <= r.value.cookies
              && before.vars <= r.value.vars && before.files <= r.value.files && before.args <= r.value.args
  {
    hide ParseSection, ParseFileSection, ParseBody, SoundTable, SoundFiles;
    var r := Parse(src, before);
    if r.Ok? {
      SectionIsSound(IgnoringCase, src, 0, before.headers);
      var at1 := ParseSection(IgnoringCase, src, 0, before.headers).value.1;
      SectionIsSound(Exact, src, at1, before.cookies);
      var at2 := ParseSection(Exact, src, at1, before.cookies).value.1;
      SectionIsSound(Exact, src, at2, before.vars);
      var at3 := ParseSection(Exact, src, at2, before.vars).value.1;
      var (body, at4) := ParseBody(src, at3).value;
      FileSectionIsSound(src, body, at4, before.files);
      var at5 := ParseFileSection(src, body, at4, before.files).value.1;
      SectionIsSound(Repeated, src, at5, before.args);
    }
  }

  // ----- lengths that do not fit -----

  /** A string of n bytes: refused when there is no room for n, read when they are all there, and
      else filled up with zeros. */
  lemma StringReads(src: Source, pos: nat, n: nat)
    requires n < TWO_64 && Holds(src.text, pos, EncInt(n))
    ensures var r, rest := ParseString(src, pos), src.text[pos + 8..];
            && (n > src.maxString ==> r == Err(StringTooLong))
            && (n <= src.maxString && n <= |rest| ==> r == Ok((rest[..n], pos + 8 + n)))
            && (n <= src.maxString && n > |rest| ==> r == Ok((rest + Zeros(n - |rest|), |src.text|)))
  {
    hide EncInt, ParseInt;
    ParseIntHolds(src.text, pos, n);
    if n <= |src.text| - (pos + 8) {
      SliceOfSlice(src.text, pos + 8, |src.text|, 0, n);
      assert ReadAt(src.text, pos + 8, n) == src.text[pos + 8..][..n];
      assert src.text[pos + 8..][..n] + Zeros(0) == src.text[pos + 8..][..n];
    } else {
      assert ReadAt(src.text, pos + 8, n) == src.text[pos + 8..];
    }
  }

  /** A section that says it is longer than what is left is refused, whatever it is a section of. */
  lemma OverrunIsRefused(src: Source, pos: nat, n: nat)
    requires Holds(src.text, pos, EncInt(n)) && |src.text| < pos + 8 + n < TWO_64
    ensures forall kind, acc :: ParseSection(kind, src, pos, acc) == Err(SectionOverrun)
    ensures forall body, acc :: ParseFileSection(src, body, pos, acc) == Err(SectionOverrun)
    ensures ParseBody(src, pos) == Err(SectionOverrun)
  {
    hide EncInt, ParseInt;
    ParseIntHolds(src.text, pos, n);
  }

  /** A file's entry: refused when its content would end behind the store, then when it has no name. */
  lemma FileEntryReads(src: Source, body: (nat, nat), pos: nat, f: FileEntry)
    requires src.Valid() && f.offset < TWO_64 && f.length < TWO_64
    requires |f.key| <= src.maxString && |f.remoteName| <= src.maxString && |f.contentType| <= src.maxString
    requires Holds(src.text, pos, EncFile(f))
    ensures var r := ParseFile(src, body, pos);
            if (body.0 + f.offset + f.length) % TWO_64 > src.store then r == Err(IndexOutOfRange)
            else if f.remoteName == [] then r == Err(NamelessFile)
            else r == Ok((ViewOf(f, body.0), pos + |EncFile(f)|))
  {
    hide ParseField, ParseString, ParseInt, EncString, EncInt;
    var a, b, c := EncString(f.key), EncString(f.remoteName), EncString(f.contentType);
    FileParts(src.text, pos, a, b, c, EncInt(f.offset), EncInt(f.length));
    assert EncField((f.key, f.remoteName)) == a + b;
    ParseFieldHolds(src, pos, (f.key, f.remoteName));
    ParseStringHolds(src, pos + |a| + |b|, f.contentType);
    ParseIntHolds(src.text, pos + |a| + |b| + |c|, f.offset);
    ParseIntHolds(src.text, pos + |a| + |b| + |c| + 8, f.length);
  }
}
