/** Byte strings, substring search and the failures the daemon's storage and codecs raise. */
module Bytes {

  type Byte = b: int | 0 <= b < 256

  type Bytes = seq<Byte>

  /** The range of boost::uint64_t, in which every size and position is computed. */
  const TWO_64: nat := 0x1_0000_0000_0000_0000

  datatype Error =
    | IndexOutOfRange      // std::out_of_range from an index check
    | DataOutOfRange       // FileBuffer: "Data is out of range"
    | MapFailed            // mmap returned MAP_FAILED
    | SectionOverrun       // "Cannot parse request ..."
    | StringTooLong        // std::string::resize cannot provide the length asked for
    | NamelessFile         // "uploaded file without name"
    | MalformedBody        // "malformed multipart message"
    | ShortRead            // "failed to read request entity"

  datatype Result<+T> = Ok(value: T) | Err(error: Error)

  datatype Option<+T> = None | Some(value: T)

  /** The bytes of an ASCII literal. */
  function Ascii(s: string): (r: Bytes)
    ensures |r| == |s| && forall i | 0 <= i < |s| && s[i] < 128 as char :: r[i] == s[i] as int
  {
    if s == "" then [] else [s[0] as int % 256] + Ascii(s[1..])
  }

  function ToLower(b: Byte): Byte {
    if 'A' as int <= b <= 'Z' as int then b + 32 else b
  }

  /** StringCIEqual. */
  predicate EqualIgnoringCase(s: Bytes, t: Bytes) {
    |s| == |t| && forall i | 0 <= i < |s| :: ToLower(s[i]) == ToLower(t[i])
  }

  function Min(a: int, b: int): int {
    if a < b then a else b
  }

  function Zeros(n: nat): (z: Bytes)
    ensures |z| == n && forall i | 0 <= i < n :: z[i] == 0
  {
    seq(n, i => 0)
  }

  /** s with the bytes from pos on overwritten by data. */
  function Splice(s: Bytes, pos: nat, data: Bytes): (r: Bytes)
    requires pos + |data| <= |s|
    ensures |r| == |s|
  {
    s[..pos] + data + s[pos + |data|..]
  }

  /** Writing in two pieces is writing once. */
  lemma SpliceTwice(s: Bytes, pos: nat, a: Bytes, b: Bytes)
    requires pos + |a| + |b| <= |s|
    ensures Splice(Splice(s, pos, a), pos + |a|, b) == Splice(s, pos, a + b)
  {
    var one := Splice(s, pos, a);
    assert one[..pos + |a|] == s[..pos] + a;
    assert one[pos + |a| + |b|..] == s[pos + |a| + |b|..];
  }

  lemma Associates<T>(a: seq<T>, b: seq<T>, c: seq<T>)
    ensures (a + b) + c == a + (b + c)
  {
  }

  // ----- substring search -----

  predicate OccursAt(text: Bytes, pat: Bytes, i: int) {
    0 <= i && i + |pat| <= |text| && text[i..i + |pat|] == pat
  }

  /** What std::find and std::search return: the leftmost occurrence, or the end. */
  ghost predicate Leftmost(text: Bytes, pat: Bytes, r: int) {
    && 0 <= r <= |text|
    && (r < |text| ==> OccursAt(text, pat, r))
    && forall i | 0 <= i < r :: !OccursAt(text, pat, i)
  }

  function Search(text: Bytes, pat: Bytes): (r: nat)
    ensures Leftmost(text, pat, r)
  {
    SearchFrom(text, pat, 0)
  }

  function SearchFrom(text: Bytes, pat: Bytes, from: nat): (r: nat)
    requires from <= |text|
    requires forall i | 0 <= i < from :: !OccursAt(text, pat, i)
    ensures from <= r && Leftmost(text, pat, r)
    decreases |text| - from
  {
    if from == |text| || OccursAt(text, pat, from) then from else SearchFrom(text, pat, from + 1)
  }

  lemma LeftmostIsSearch(text: Bytes, pat: Bytes, r: nat)
    requires Leftmost(text, pat, r)
    ensures Search(text, pat) == r
  {
    var f := Search(text, pat);
    assert f < |text| ==> OccursAt(text, pat, f);
    assert r < |text| ==> OccursAt(text, pat, r);
  }

  lemma SliceOfSlice<T>(s: seq<T>, lo: nat, hi: nat, i: nat, j: nat)
    requires lo <= hi <= |s| && i <= j <= hi - lo
    ensures s[lo..hi][i..j] == s[lo + i..lo + j]
  {
    var a, b := s[lo..hi][i..j], s[lo + i..lo + j];
    assert |a| == |b|;
    forall k | 0 <= k < |a|
      ensures a[k] == b[k]
    {
      assert a[k] == s[lo..hi][i + k];
    }
  }

  /** An occurrence in a slice is an occurrence in the whole, shifted. */
  lemma OccursInSlice(text: Bytes, lo: nat, hi: nat, pat: Bytes, i: int)
    requires lo <= hi <= |text|
    ensures OccursAt(text[lo..hi], pat, i) <==>
            0 <= i && lo + i + |pat| <= hi && OccursAt(text, pat, lo + i)
  {
    if 0 <= i && lo + i + |pat| <= hi {
      SliceOfSlice(text, lo, hi, i, i + |pat|);
    }
  }
}
