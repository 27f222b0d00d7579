/**
 * When library/requestimpl.cpp's parse notices that an image was cut short, as a daemon that stops in
 * the middle of saving leaves it.
 */
module CutImages {
  import opened Bytes
  import opened DataBuffers
  import opened StoredImage

  ghost predicate AllZero(s: Bytes) {
    forall i | 0 <= i < |s| :: s[i] == 0
  }

  /** The six parts of an image, each with its length in front. */
  function Sections(r: StoredRequest): (s: seq<Bytes>)
    ensures |s| == 6
  {
    [EncSection(r.headers), EncSection(r.cookies), EncSection(r.vars), EncString(r.body), EncFileSection(r.files),
     EncSection(r.args)]
  }

  /** Where the first i of them end. */
  function Start(r: StoredRequest, i: nat): nat
    requires i <= 6
  {
    if i == 0 then 0 else Start(r, i - 1) + |Sections(r)[i - 1]|
  }

  /** What is left of an image cut at k. */
  function CutSource(r: StoredRequest, k: nat, limit: nat): Source
    requires k <= |Image(r)|
  {
    Source(Image(r)[..k], 0, k, limit)
  }

  /** The cut goes through the length of the section at pos, or is in front of it, and the bytes of the
      length in front of the cut are zero. */
  ghost predicate CutInZeros(text: Bytes, pos: nat) {
    pos <= |text| < pos + 8 && AllZero(text[pos..])
  }

  // ----- one section -----

  /** The text ends before the end of what begins at pos. */
  ghost predicate EndsIn(text: Bytes, pos: nat, whole: Bytes) {
    pos <= |text| < pos + |whole| && text[pos..] == whole[..|text| - pos]
  }

  lemma {:induction false} DecZeroIff(s: Bytes)
    ensures DecBytes(s) == 0 <==> AllZero(s)
  {
    if s != [] {
      DecZeroIff(s[1..]);
      assert AllZero(s) ==> AllZero(s[1..]);
      if s[0] == 0 && AllZero(s[1..]) {
        assert forall i | 0 < i < |s| :: s[i] == s[1..][i - 1];
      }
    }
  }

  lemma {:induction false} DecOfFewer(n: nat, k: nat, c: nat)
    requires c <= k
    ensures DecBytes(EncBytes(n, k)[..c]) <= n
  {
    if c > 0 {
      DecOfFewer(n / 256, k - 1, c - 1);
      assert EncBytes(n, k)[..c][1..] == EncBytes(n / 256, k - 1)[..c - 1];
    }
  }

  /** A length cut short is not longer; it announces what is not there unless all its bytes are zero. */
  lemma LengthCut(text: Bytes, pos: nat, n: nat, data: Bytes)
    requires EndsIn(text, pos, EncInt(n) + data) && |data| == n && pos + 8 + n < TWO_64
    ensures var (size, at) := ParseInt(text, pos);
            if CutInZeros(text, pos) then size == 0 && at == |text| && SectionEnd(at, size) == |text|
            else SectionEnd(at, size) > |text|
  {
    var c := |text| - pos;
    var e := EncInt(n);
    if c >= 8 {
      assert (e + data)[..c][..8] == e;
      assert text[pos..pos + 8] == text[pos..][..8];
      ParseIntHolds(text, pos, n);
    } else {
      assert (e + data)[..c] == e[..c];
      assert ReadAt(text, pos, 8) == text[pos..];
      DecOfFewer(n, 8, c);
      DecZeroIff(text[pos..]);
    }
  }

  lemma SectionCut(kind: Kind, src: Source, pos: nat, fs: seq<Field>)
    requires src.Valid() && EndsIn(src.text, pos, EncSection(fs)) && pos + |EncSection(fs)| < TWO_64
    ensures var r := ParseSection(kind, src, pos, []);
            if CutInZeros(src.text, pos) then r == Ok(([], |src.text|)) else r.Err?
  {
    hide ParseInt, EncInt, EncFields, SectionEnd, CutInZeros;
    FieldsSizeIsExact(fs);
    LengthCut(src.text, pos, FieldsSize(fs), EncFields(fs));
  }

  lemma FileSectionCut(src: Source, body: (nat, nat), pos: nat, fs: seq<FileEntry>)
    requires src.Valid() && EndsIn(src.text, pos, EncFileSection(fs)) && pos + |EncFileSection(fs)| < TWO_64
    ensures var r := ParseFileSection(src, body, pos, []);
            if CutInZeros(src.text, pos) then r == Ok(([], |src.text|)) else r.Err?
  {
    hide ParseInt, EncInt, EncFiles, SectionEnd, CutInZeros;
    FilesSizeIsExact(fs);
    LengthCut(src.text, pos, FilesSize(fs), EncFiles(fs));
  }

  lemma BodyCut(src: Source, pos: nat, body: Bytes)
    requires src.Valid() && EndsIn(src.text, pos, EncString(body)) && pos + |EncString(body)| < TWO_64
    ensures var r, end := ParseBody(src, pos), src.base + |src.text|;
            if CutInZeros(src.text, pos) then r == Ok(((end, end), |src.text|)) else r.Err?
  {
    hide ParseInt, EncInt, SectionEnd, CutInZeros;
    LengthCut(src.text, pos, |body|, body);
  }

  /** At the end of the bytes every section is empty. */
  lemma NothingLeft(src: Source)
    requires src.Valid()
    ensures forall kind :: ParseSection(kind, src, |src.text|, []) == Ok(([], |src.text|))
    ensures forall body :: ParseFileSection(src, body, |src.text|, []) == Ok(([], |src.text|))
    ensures var end := src.base + |src.text|; ParseBody(src, |src.text|) == Ok(((end, end), |src.text|))
  {
    assert DecBytes([]) == 0;
  }

  // ----- the image -----

  /** Each section lies where it should, or is the one that is cut. */
  lemma SectionLies(r: StoredRequest, k: nat, i: nat)
    requires k <= |Image(r)| && i < 6
    ensures Start(r, i + 1) == Start(r, i) + |Sections(r)[i]| <= |Image(r)|
    ensures Start(r, i + 1) <= k ==> Holds(Image(r)[..k], Start(r, i), Sections(r)[i])
    ensures Start(r, i) <= k < Start(r, i + 1) ==> EndsIn(Image(r)[..k], Start(r, i), Sections(r)[i])
  {
    SectionHolds(r, i);
    hide Image, Sections;
    CutHolds(Image(r), k, Start(r, i), Sections(r)[i]);
  }

  lemma SectionHolds(r: StoredRequest, i: nat)
    requires i < 6
    ensures Holds(Image(r), Start(r, i), Sections(r)[i])
  {
    StartsAre(r);
    ImageIsSections(r);
    hide Image, Start, Sections;
    SixHold(Image(r), Sections(r), i, Start(r, i));
  }

  lemma ImageIsSections(r: StoredRequest)
    ensures var s := Sections(r); Image(r) == s[0] + s[1] + s[2] + s[3] + s[4] + s[5]
  {
    hide EncSection, EncString, EncFileSection;
  }

  lemma SixHold(t: Bytes, s: seq<Bytes>, i: nat, at: nat)
    requires |s| == 6 && i < 6 && t == s[0] + s[1] + s[2] + s[3] + s[4] + s[5]
    requires i == 0 ==> at == 0
    requires i == 1 ==> at == |s[0]|
    requires i == 2 ==> at == |s[0]| + |s[1]|
    requires i == 3 ==> at == |s[0]| + |s[1]| + |s[2]|
    requires i == 4 ==> at == |s[0]| + |s[1]| + |s[2]| + |s[3]|
    requires i == 5 ==> at == |s[0]| + |s[1]| + |s[2]| + |s[3]| + |s[4]|
    ensures Holds(t, at, s[i])
  {
    hide Holds;
    SixParts(t, s[0], s[1], s[2], s[3], s[4], s[5]);
  }

  lemma StartsAre(r: StoredRequest)
    ensures var s := Sections(r);
            && Start(r, 0) == 0 && Start(r, 1) == |s[0]| && Start(r, 2) == |s[0]| + |s[1]|
            && Start(r, 3) == |s[0]| + |s[1]| + |s[2]| && Start(r, 4) == |s[0]| + |s[1]| + |s[2]| + |s[3]|
            && Start(r, 5) == |s[0]| + |s[1]| + |s[2]| + |s[3]| + |s[4]|
            && Start(r, 6) == |s[0]| + |s[1]| + |s[2]| + |s[3]| + |s[4]| + |s[5]|
  {
    hide Sections;
    assert Start(r, 1) == |Sections(r)[0]|;
    assert Start(r, 2) == Start(r, 1) + |Sections(r)[1]|;
    assert Start(r, 3) == Start(r, 2) + |Sections(r)[2]|;
    assert Start(r, 4) == Start(r, 3) + |Sections(r)[3]|;
  }

  lemma CutHolds(text: Bytes, k: nat, pos: nat, part: Bytes)
    requires k <= |text| && Holds(text, pos, part)
    ensures pos + |part| <= k ==> Holds(text[..k], pos, part)
    ensures pos <= k < pos + |part| ==> EndsIn(text[..k], pos, part)
  {
    if pos + |part| <= k {
      SliceOfSlice(text, 0, k, pos, pos + |part|);
    } else if pos <= k {
      assert text[..k][pos..] == text[pos..pos + |part|][..k - pos];
    }
  }

  /** One of the tables, in an image that is cut in its section j. */
  lemma TableStage(r: StoredRequest, limit: nat, k: nat, j: nat, i: nat, kind: Kind, fs: seq<Field>)
    requires j < 6 && i < 6 && k < |Image(r)| < TWO_64 && Start(r, j) <= k < Start(r, j + 1)
    requires Sections(r)[i] == EncSection(fs) && DistinctKeys(kind, fs) && FieldsFit(fs, limit)
    ensures Start(r, i) <= |Image(r)|
    ensures var src := CutSource(r, k, limit);
            && (i < j && Start(r, i + 1) <= k ==>
                  Start(r, i) <= k && ParseSection(kind, src, Start(r, i), []) == Ok((fs, Start(r, i + 1))))
            && (i == j ==>
                  var p := ParseSection(kind, src, Start(r, i), []);
                  if CutInZeros(src.text, Start(r, j)) then p == Ok(([], k)) else p.Err?)
            && (i > j ==> ParseSection(kind, src, k, []) == Ok(([], k)))
  {
    hide ParseSection, Image, Start, Sections, EncSection, DistinctKeys, FieldsFit, Holds, EndsIn, CutInZeros;
    var src := CutSource(r, k, limit);
    SectionLies(r, k, i);
    if i < j && Start(r, i + 1) <= k {
      ParseSectionHolds(kind, src, Start(r, i), fs);
    } else if i == j {
      SectionCut(kind, src, Start(r, i), fs);
    }
    NothingLeft(src);
  }

  lemma BodyStage(r: StoredRequest, limit: nat, k: nat, j: nat)
    requires j < 6 && k < |Image(r)| < TWO_64 && Start(r, j) <= k < Start(r, j + 1)
    ensures Start(r, 3) <= |Image(r)|
    ensures var src := CutSource(r, k, limit);
            && (3 < j && Start(r, 4) <= k ==>
                  Start(r, 3) <= k &&
                  ParseBody(src, Start(r, 3)) == Ok(((BodyStart(r), BodyStart(r) + |r.body|), Start(r, 4))))
            && (3 == j ==>
                  var p := ParseBody(src, Start(r, 3));
                  if CutInZeros(src.text, Start(r, j)) then p == Ok(((k, k), k)) else p.Err?)
            && (3 > j ==> ParseBody(src, k) == Ok(((k, k), k)))
  {
    hide Image, Start, EncSection, EncInt, EncFileSection, Holds, EndsIn, CutInZeros, ParseInt, SectionEnd;
    var src := CutSource(r, k, limit);
    SectionLies(r, k, 3);
    if 3 < j && Start(r, 4) <= k {
      assert Sections(r)[3] == EncInt(|r.body|) + r.body;
      HoldsBoth(src.text, Start(r, 3), EncInt(|r.body|), r.body);
      assert Start(r, 4) <= |src.text| && Start(r, 4) == Start(r, 3) + 8 + |r.body|;
      PrefixHolds(src, Start(r, 3), |r.body|);
      BodyStarts(r);
    } else if 3 == j {
      BodyCut(src, Start(r, 3), r.body);
    }
    NothingLeft(src);
  }

  lemma BodyStarts(r: StoredRequest)
    ensures BodyStart(r) == Start(r, 3) + 8 && Start(r, 4) == BodyStart(r) + |r.body|
  {
    hide EncSection;
    StartsAre(r);
  }

  lemma FilesStage(r: StoredRequest, limit: nat, k: nat, j: nat)
    requires j < 6 && k < |Image(r)| < TWO_64 && Start(r, j) <= k < Start(r, j + 1)
    requires DistinctFiles(r.files) && forall f | f in r.files :: FileFits(f, BodyStart(r), |r.body|, limit)
    ensures Start(r, 4) <= |Image(r)|
    ensures var (src, body) := (CutSource(r, k, limit), (BodyStart(r), BodyStart(r) + |r.body|));
            && (4 < j && Start(r, 5) <= k ==>
                  Start(r, 4) <= k &&
                  ParseFileSection(src, body, Start(r, 4), []) == Ok((Views(r.files, BodyStart(r)), Start(r, 5))))
            && (4 == j ==>
                  var p := ParseFileSection(src, body, Start(r, 4), []);
                  if CutInZeros(src.text, Start(r, j)) then p == Ok(([], k)) else p.Err?)
            && (4 > j ==> forall b :: ParseFileSection(src, b, k, []) == Ok(([], k)))
  {
    hide Image, Start, EncSection, EncInt, EncFileSection, Holds, EndsIn, CutInZeros, ParseFileSection,
         Views, FileFits, DistinctFiles, BodyStart;
    var (src, body) := (CutSource(r, k, limit), (BodyStart(r), BodyStart(r) + |r.body|));
    SectionLies(r, k, 4);
    assert Sections(r)[4] == EncFileSection(r.files);
    BodyStarts(r);
    if 4 < j && Start(r, 5) <= k {
      ParseFileSectionHolds(src, body, Start(r, 4), r.files);
    } else if 4 == j {
      FileSectionCut(src, body, Start(r, 4), r.files);
    }
    NothingLeft(src);
  }

  /** What is read of an image cut in its section j: the sections in front of it, and nothing of the
      others. */
  function CutRead(r: StoredRequest, k: nat, j: nat): Parsed {
    Parsed(
      if 0 < j then r.headers else [], if 1 < j then r.cookies else [], if 2 < j then r.vars else [],
      if 3 < j then (BodyStart(r), BodyStart(r) + |r.body|) else (k, k),
      if 4 < j then Views(r.files, BodyStart(r)) else [], [])
  }

  lemma {:induction false} StartsRise(r: StoredRequest, i: nat, j: nat)
    requires i < j <= 6
    ensures Start(r, i) + 8 <= Start(r, j)
  {
    assert |Sections(r)[j - 1]| >= 8 by {
      hide EncInt, EncFields, EncFiles;
      assert |EncString(r.body)| >= 8;
    }
    hide Sections;
    if i < j - 1 {
      StartsRise(r, i, j - 1);
    }
  }

  lemma EnvAt(r: StoredRequest, limit: nat, k: nat, j: nat)
    requires j < 6 && WellFormed(r, limit) && k < |Image(r)| < TWO_64 && Start(r, j) <= k < Start(r, j + 1)
    ensures var src, p := CutSource(r, k, limit), ParseEnv(CutSource(r, k, limit), EMPTY);
            if j < 3 && !CutInZeros(src.text, Start(r, j)) then p.Err?
            else p == Ok((Parsed(CutRead(r, k, j).headers, CutRead(r, k, j).cookies, CutRead(r, k, j).vars,
                                 (0, 0), [], []),
                          if j < 3 then k else Start(r, 3)))
  {
    hide Image, Start, EncSection, ParseSection, CutInZeros, DistinctKeys, FieldsFit, FileFits, DistinctFiles,
         BodyStart, Views;
    TableStage(r, limit, k, j, 0, IgnoringCase, r.headers);
    TableStage(r, limit, k, j, 1, Exact, r.cookies);
    TableStage(r, limit, k, j, 2, Exact, r.vars);
    assert Start(r, 0) == 0 by { StartsAre(r); }
    assert 1 < j ==> Start(r, 1) + 8 <= Start(r, j) by { if 1 < j { StartsRise(r, 1, j); } }
    assert 2 < j ==> Start(r, 2) + 8 <= Start(r, j) by { if 2 < j { StartsRise(r, 2, j); } }
    assert 3 < j ==> Start(r, 3) + 8 <= Start(r, j) by { if 3 < j { StartsRise(r, 3, j); } }
  }

  lemma CutAt(r: StoredRequest, limit: nat, k: nat, j: nat)
    requires j < 6 && WellFormed(r, limit) && k < |Image(r)| < TWO_64 && Start(r, j) <= k < Start(r, j + 1)
    ensures var src := CutSource(r, k, limit);
            if CutInZeros(src.text, Start(r, j)) then Parse(src, EMPTY) == Ok(CutRead(r, k, j))
            else Parse(src, EMPTY).Err?
  {
    hide Image, Start, EncSection, ParseSection, ParseFileSection, ParseBody, ParseEnv, CutInZeros, DistinctKeys, FieldsFit,
         FileFits, DistinctFiles, BodyStart, Views;
    EnvAt(r, limit, k, j);
    BodyStage(r, limit, k, j);
    FilesStage(r, limit, k, j);
    TableStage(r, limit, k, j, 5, Repeated, r.args) by { RepeatedIsDistinct(r.args); }
    assert 4 < j ==> Start(r, 4) + 8 <= Start(r, j) by { if 4 < j { StartsRise(r, 4, j); } }
  }

  lemma RepeatedIsDistinct(fs: seq<Field>)
    ensures DistinctKeys(Repeated, fs)
  {
  }

  /** The section in which an image is cut. */
  lemma CutSection(r: StoredRequest, k: nat) returns (j: nat)
    requires k < |Image(r)|
    ensures j < 6 && Start(r, j) <= k < Start(r, j + 1)
  {
    StartsAre(r);
    ImageIsSections(r);
    hide Image, Start, Sections;
    j := 0;
    while j < 5 && k >= Start(r, j + 1)
      invariant j < 6 && Start(r, j) <= k
    {
      j := j + 1;
    }
  }

  /**
   * An image that was cut short, anywhere, is read as if it were whole exactly when the cut falls in
   * front of or into the length of a section, and what is left of the length is zero. Then the
   * sections in front of it are read as they were saved, and the others as empty; else it is refused.
   */
  lemma CutIsNoticedIff(r: StoredRequest, limit: nat, k: nat)
    requires WellFormed(r, limit) && k < |Image(r)| < TWO_64
    ensures var src := CutSource(r, k, limit);
            && (Parse(src, EMPTY).Ok? <==> exists j | 0 <= j < 6 :: CutInZeros(src.text, Start(r, j)))
            && forall j | 0 <= j < 6 && CutInZeros(src.text, Start(r, j)) :: Parse(src, EMPTY) == Ok(CutRead(r, k, j))
  {
    hide Image, Parse, Start, WellFormed, CutRead;
    var src := CutSource(r, k, limit);
    var j := CutSection(r, k);
    CutAt(r, limit, k, j);
    forall i | 0 <= i < 6 && CutInZeros(src.text, Start(r, i))
      ensures i == j
    {
      OnlySection(r, k, i, j);
    }
  }

  /** A cut within eight bytes of the beginning of a section is in that section. */
  lemma OnlySection(r: StoredRequest, k: nat, i: nat, j: nat)
    requires i < 6 && j < 6 && Start(r, i) <= k < Start(r, i) + 8 && Start(r, j) <= k < Start(r, j + 1)
    ensures i == j
  {
    hide Start;
    if i < j {
      StartsRise(r, i, j);
    }
    if j + 1 < i {
      StartsRise(r, j + 1, i);
    }
  }
}
