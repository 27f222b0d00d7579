/**
 * library/data_buffer.cpp: views [begin, end) of a byte store, and the iterator that walks a
 * view segment by segment. A view is a value; the store under it is shared.
 */
module DataBuffers {
  import opened Bytes
  import opened MMapFiles
  import opened Buffers

  /** The store under a view: the two classes that implement DataBufferImpl. */
  datatype Impl = InMemory(s: StringBuffer) | OnDisk(f: FileBuffer)
  {
    ghost function Repr(): set<object> {
      match this
      case InMemory(s) => {s}
      case OnDisk(f) => {f.file, f.file.inode}
    }

    ghost predicate Valid()
      reads Repr()
    {
      OnDisk? ==> f.Valid()
    }

    ghost function Contents(): Bytes
      reads Repr()
    {
      match this
      case InMemory(s) => s.data
      case OnDisk(f) => f.Contents()
    }

    /** How the store cuts a view into segments. */
    function Cutting(): Cutting {
      match this
      case InMemory(_) => Whole
      case OnDisk(f) => Every(f.window)
    }

    function Size(): (n: nat)
      requires Valid()
      reads Repr()
      ensures n == |Contents()|
    {
      match this
      case InMemory(s) => |s.data|
      case OnDisk(f) => f.file.size
    }

    method Read(pos: nat, len: nat) returns (r: Bytes)
      requires Valid() && pos + len <= |Contents()|
      modifies if OnDisk? then {f.file} else {}
      ensures Valid() && Contents() == old(Contents())
      ensures r == Contents()[pos..pos + len]
    {
      match this
      case InMemory(s) => r := s.Read(pos, len);
      case OnDisk(f) =>
        var res := f.Read(pos, len);
        r := res.value;
    }

    method Write(pos: nat, data: Bytes) returns (n: nat)
      requires Valid() && pos + |data| <= |Contents()|
      modifies Repr()
      ensures Valid() && n == |data|
      ensures Contents() == Splice(old(Contents()), pos, data)
    {
      match this
      case InMemory(s) => n := s.Write(pos, data);
      case OnDisk(f) =>
        var res := f.Write(pos, data);
        n := res.value;
    }

    method Resize(size: nat)
      requires Valid()
      modifies Repr()
      ensures Valid() && Contents() == Resized(old(Contents()), size)
    {
      match this
      case InMemory(s) => s.Resize(size);
      case OnDisk(f) => f.Resize(size);
    }

    method Find(begin: nat, end: nat, pat: Bytes) returns (r: Result<nat>)
      requires Valid() && begin <= end <= |Contents()|
      modifies if OnDisk? then {f.file} else {}
      ensures Valid() && Contents() == old(Contents())
      ensures r.Ok? ==> r.value == FindIn(Contents(), begin, end, pat)
      ensures InMemory? || pat != [] || begin < end ==> r.Ok?
    {
      match this
      case InMemory(s) =>
        var at := s.Find(begin, end, pat);
        r := Ok(at);
      case OnDisk(f) => r := f.Find(begin, end, pat);
    }

    /** A second handle on the same bytes. */
    method GetCopy() returns (copy: Impl)
      requires Valid()
      ensures copy.Valid() && copy.Contents() == Contents() && copy.Cutting() == Cutting()
      ensures InMemory? ==> copy == this
      ensures OnDisk? ==> copy.OnDisk? && fresh(copy.f.file) && copy.f.file.inode == f.file.inode
    {
      match this
      case InMemory(s) => copy := this;
      case OnDisk(f) =>
        var g := f.GetCopy();
        copy := OnDisk(g);
    }
  }

  // ----- segments -----

  datatype Cutting = Whole | Every(window: nat)

  /** Where the segment that starts at lo ends, inside a view that ends at hi. */
  function CutEnd(c: Cutting, lo: nat, hi: nat): (e: nat)
    requires lo < hi && (c.Every? ==> 0 < c.window)
    ensures lo < e <= hi
  {
    match c
    case Whole => hi
    case Every(w) => var e := FloorTo(lo, w) + w; Min(e, hi)
  }

  /** The segments an iterator over [lo, hi) visits. */
  function Segments(c: Cutting, lo: nat, hi: nat): seq<(nat, nat)>
    requires c.Every? ==> 0 < c.window
    decreases hi - lo
  {
    if lo >= hi then [] else [(lo, CutEnd(c, lo, hi))] + Segments(c, CutEnd(c, lo, hi), hi)
  }

  /** Segments partition [lo, hi): non-empty, adjacent, first at lo, last at hi. */
  ghost predicate Partitions(segs: seq<(nat, nat)>, lo: nat, hi: nat) {
    && (segs == [] <==> lo >= hi)
    && (forall i | 0 <= i < |segs| :: segs[i].0 < segs[i].1)
    && (forall i | 0 <= i < |segs| - 1 :: segs[i].1 == segs[i + 1].0)
    && (segs != [] ==> segs[0].0 == lo && segs[|segs| - 1].1 == hi)
  }

  lemma {:induction false} SegmentsPartition(c: Cutting, lo: nat, hi: nat)
    requires c.Every? ==> 0 < c.window
    ensures Partitions(Segments(c, lo, hi), lo, hi)
    decreases hi - lo
  {
    if lo < hi {
      SegmentsPartition(c, CutEnd(c, lo, hi), hi);
    }
  }

  /** No segment of a windowed store crosses a window boundary. */
  lemma {:induction false} SegmentsStayInWindows(w: nat, lo: nat, hi: nat)
    requires 0 < w
    ensures forall s | s in Segments(Every(w), lo, hi) :: s.1 <= FloorTo(s.0, w) + w
    decreases hi - lo
  {
    if lo < hi {
      SegmentsStayInWindows(w, CutEnd(Every(w), lo, hi), hi);
    }
  }

  /** The pieces of text that those segments show. */
  function Pieces(text: Bytes, c: Cutting, lo: nat, hi: nat): seq<Bytes>
    requires (c.Every? ==> 0 < c.window) && lo <= hi <= |text|
    decreases hi - lo
  {
    if lo == hi then [] else [text[lo..CutEnd(c, lo, hi)]] + Pieces(text, c, CutEnd(c, lo, hi), hi)
  }

  function Concat(pieces: seq<Bytes>): Bytes {
    if pieces == [] then [] else pieces[0] + Concat(pieces[1..])
  }

  /** One piece for each segment: the bytes it covers. */
  lemma {:induction false} PiecesOfSegments(text: Bytes, c: Cutting, lo: nat, hi: nat)
    requires (c.Every? ==> 0 < c.window) && lo <= hi <= |text|
    ensures |Pieces(text, c, lo, hi)| == |Segments(c, lo, hi)|
    ensures forall i | 0 <= i < |Segments(c, lo, hi)| ::
              var s := Segments(c, lo, hi)[i];
              lo <= s.0 < s.1 <= hi && Pieces(text, c, lo, hi)[i] == text[s.0..s.1]
    decreases hi - lo
  {
    if lo < hi {
      PiecesOfSegments(text, c, CutEnd(c, lo, hi), hi);
    }
  }

  /** The pieces, in order, are the view: nothing missing, nothing twice. */
  lemma {:induction false} PiecesAreTheView(text: Bytes, c: Cutting, lo: nat, hi: nat)
    requires (c.Every? ==> 0 < c.window) && lo <= hi <= |text|
    ensures Concat(Pieces(text, c, lo, hi)) == text[lo..hi]
    decreases hi - lo
  {
    if lo < hi {
      var mid := CutEnd(c, lo, hi);
      PiecesAreTheView(text, c, mid, hi);
      assert Pieces(text, c, lo, hi)[1..] == Pieces(text, c, mid, hi);
      assert text[lo..hi] == text[lo..mid] + text[mid..hi];
    }
  }

  // ----- views -----

  /** What reading len bytes at pos of a view yields: possibly fewer, possibly none. */
  function ReadAt(text: Bytes, pos: nat, len: nat): (r: Bytes)
    ensures |r| <= len
  {
    if pos >= |text| then [] else text[pos..if len < |text| - pos then pos + len else |text|]
  }

  /** The prefix of data that a write at pos of a view of n bytes can place. */
  function Fitting(n: nat, pos: nat, data: Bytes): (r: Bytes)
    ensures r <= data && (pos + |r| <= n || r == [])
  {
    if pos >= n then [] else if |data| < n - pos then data else data[..n - pos]
  }

  datatype DataBuffer = DataBuffer(impl: Impl, begin: nat, end: nat)
  {
    ghost predicate Valid()
      reads impl.Repr()
    {
      impl.Valid() && begin <= end <= |impl.Contents()|
    }

    /** The bytes in view. */
    ghost function Text(): Bytes
      requires Valid()
      reads impl.Repr()
    {
      impl.Contents()[begin..end]
    }

    /** A view of part of the same store; only the end is checked. */
    method SubView(begin: nat, end: nat) returns (r: Result<DataBuffer>)
      requires impl.Valid()
      ensures r == if end <= |impl.Contents()| then Ok(DataBuffer(impl, begin, end)) else Err(IndexOutOfRange)
    {
      if end > impl.Size() {
        return Err(IndexOutOfRange);
      }
      return Ok(DataBuffer(impl, begin, end));
    }

    method Read(pos: nat, len: nat) returns (r: Bytes)
      requires Valid()
      modifies if impl.OnDisk? then {impl.f.file} else {}
      ensures Valid() && impl.Contents() == old(impl.Contents())
      ensures r == ReadAt(Text(), pos, len)
    {
      if pos >= end - begin {
        return [];
      }
      var n := Min(end - begin - pos, len);
      r := impl.Read(pos + begin, n);
      SliceOfSlice(impl.Contents(), begin, end, pos, pos + n);
    }

    method Write(pos: nat, data: Bytes) returns (n: nat)
      requires Valid()
      modifies impl.Repr()
      ensures Valid()
      ensures n == |Fitting(end - begin, pos, data)|
      ensures n > 0 ==> Text() == Splice(old(Text()), pos, Fitting(end - begin, pos, data))
      ensures n == 0 ==> Text() == old(Text())
      ensures |impl.Contents()| == |old(impl.Contents())|
      ensures impl.Contents()[..begin] == old(impl.Contents())[..begin]
      ensures impl.Contents()[end..] == old(impl.Contents())[end..]
    {
      if pos >= end - begin {
        return 0;
      }
      hide Splice;
      var src := if |data| < end - begin - pos then data else data[..end - begin - pos];
      SpliceInView(impl.Contents(), begin, end, pos, src);
      n := impl.Write(pos + begin, src);
    }

    /** Resizes the store so that it ends with this view; the handle learns its new end. */
    method Resize(size: nat) returns (r: DataBuffer)
      requires Valid()
      modifies impl.Repr()
      ensures r.Valid() && r == DataBuffer(impl, begin, begin + size)
      ensures impl.Contents() == Resized(old(impl.Contents()), begin + size)
    {
      impl.Resize(begin + size);
      return DataBuffer(impl, begin, begin + size);
    }

    /** Splits at the first delimiter; without one the first part is everything. */
    method Split(delim: Bytes) returns (found: bool, first: DataBuffer, second: DataBuffer)
      requires Valid() && delim != []
      modifies if impl.OnDisk? then {impl.f.file} else {}
      ensures impl.Valid() && impl.Contents() == old(impl.Contents())
      ensures first.impl == impl && second.impl == impl
      ensures (found, (first.begin, first.end), (second.begin, second.end)) ==
              SplitView(impl.Contents(), (begin, end), delim)
    {
      first := this;
      second := DataBuffer(impl, 0, 0);
      if begin == end {
        return false, first, second;
      }
      var res := impl.Find(begin, end, delim);
      if res.value - begin == end - begin {
        return false, first, second;
      }
      first := DataBuffer(impl, begin, begin + (res.value - begin));
      second := DataBuffer(impl, first.end + |delim|, end);
      return true, first, second;
    }

    /** The bytes in view, gathered segment by segment. */
    method ToString() returns (str: Bytes)
      requires Valid()
      ensures str == Text()
    {
      hide Segments, CutEnd;
      str := [];
      var it := new SegmentIterator(this);
      ghost var text, walked := impl.Contents(), it.buffer;
      while !it.ended
        invariant it.Valid() && it.buffer == walked
        invariant !it.ended ==> walked.impl.Contents() == text && walked.end == end
        invariant !it.ended && walked.impl.OnDisk? ==> fresh(walked.impl.f.file)
        invariant !it.ended ==> begin <= it.posBegin && str == text[begin..it.posBegin]
        invariant it.ended ==> str == text[begin..end]
        decreases !it.ended, end - it.posBegin
      {
        var chunk := it.Current();
        SlicesMeet(text, begin, it.posBegin, it.posEnd);
        str := str + chunk;
        it.Next();
      }
    }
  }

  lemma SpliceInView(s: Bytes, lo: nat, hi: nat, pos: nat, data: Bytes)
    requires lo + pos + |data| <= hi <= |s|
    ensures var t := Splice(s, lo + pos, data);
            t[lo..hi] == Splice(s[lo..hi], pos, data) && t[..lo] == s[..lo] && t[hi..] == s[hi..]
  {
  }

  lemma SlicesMeet(text: Bytes, a: nat, b: nat, c: nat)
    requires a <= b <= c <= |text|
    ensures text[a..b] + text[b..c] == text[a..c]
  {
  }

  /** Splitting as a function of the bytes; a failed split leaves an empty second part at 0. */
  function SplitView(text: Bytes, v: (nat, nat), delim: Bytes): (r: (bool, (nat, nat), (nat, nat)))
    requires v.0 <= v.1 <= |text| && delim != []
    ensures r.1.0 <= r.1.1 <= v.1 && r.2.0 <= r.2.1 <= v.1
    ensures r.1.0 == v.0
  {
    var at := FindIn(text, v.0, v.1, delim);
    if at == v.1 then (false, v, (0, 0)) else (true, (v.0, at), (at + |delim|, v.1))
  }

  // ----- splitting bytes at one delimiter -----

  /** Range::split: without the delimiter the second part is empty. */
  function Cut(s: Bytes, d: Byte): (r: (Bytes, Bytes))
    ensures s != [] ==> |r.1| < |s|
  {
    var at := Search(s, [d]);
    if at == |s| then (s, []) else (s[..at], s[at + 1..])
  }

  lemma CutAtFirst(a: Bytes, d: Byte, b: Bytes)
    requires d !in a
    ensures Cut(a + [d] + b, d) == (a, b)
    ensures Cut(a, d) == (a, [])
  {
    var s := a + [d] + b;
    forall i | 0 <= i < |a|
      ensures !OccursAt(s, [d], i) && !OccursAt(a, [d], i)
    {
      assert s[i..i + 1] == [a[i]] == a[i..i + 1];
    }
    assert s[..|a|] == a && s[|a| + 1..] == b && s[|a|..|a| + 1] == [d];
    assert OccursAt(s, [d], |a|);
    LeftmostIsSearch(s, [d], |a|);
    LeftmostIsSearch(a, [d], |a|);
  }

  /** Splitting a view is splitting the bytes in view. */
  lemma SplitViewIsCut(text: Bytes, v: (nat, nat), d: Byte)
    requires v.0 <= v.1 <= |text|
    ensures var (_, a, b) := SplitView(text, v, [d]);
            && Cut(text[v.0..v.1], d) == (text[a.0..a.1], text[b.0..b.1])
            && (b.0 == b.1 || v.0 <= b.0) && v.0 <= a.0
  {
    hide Search;
    var s := text[v.0..v.1];
    var at := Search(s, [d]);
    assert s[..|s|] == s;
    if at < |s| {
      SliceOfSlice(text, v.0, v.1, 0, at);
      SliceOfSlice(text, v.0, v.1, at + 1, v.1 - v.0);
    }
  }

  /** DataBuffer::SegmentIterator. At the end it holds no buffer, which `ended` records. */
  class SegmentIterator {
    var ended: bool
    var buffer: DataBuffer
    var posBegin: nat
    var posEnd: nat

    ghost predicate Valid()
      reads this, buffer.impl.Repr()
    {
      !ended ==>
        && buffer.Valid()
        && (buffer.impl.OnDisk? ==> 0 < buffer.impl.f.window)
        && buffer.begin <= posBegin < buffer.end
        && posEnd == CutEnd(buffer.impl.Cutting(), posBegin, buffer.end)
    }

    /** The iterator walks the bytes of impl up to end. */
    ghost predicate Visits(impl: Impl, end: nat)
      reads this, buffer.impl.Repr(), impl.Repr()
    {
      !ended ==>
        && buffer.end == end
        && buffer.impl.Contents() == impl.Contents()
        && buffer.impl.Cutting() == impl.Cutting()
        && (impl.InMemory? ==> buffer.impl == impl)
        && (impl.OnDisk? ==> buffer.impl.OnDisk? && buffer.impl.f.file.inode == impl.f.file.inode)
    }

    /** What is left to visit. */
    ghost function Remaining(): seq<(nat, nat)>
      requires Valid()
      reads this, buffer.impl.Repr()
    {
      if ended then [] else Segments(buffer.impl.Cutting(), posBegin, buffer.end)
    }

    constructor (buffer: DataBuffer)
      requires buffer.Valid()
      ensures Valid() && Visits(buffer.impl, buffer.end)
      ensures Remaining() == Segments(buffer.impl.Cutting(), buffer.begin, buffer.end)
      ensures ended <==> buffer.begin == buffer.end
      ensures !ended ==> posBegin == buffer.begin
      ensures !ended && buffer.impl.OnDisk? ==> fresh(this.buffer.impl.f.file)
    {
      this.ended := true;
      this.buffer := buffer;
      this.posBegin, this.posEnd := 0, 0;
      new;
      if buffer.begin != buffer.end {
        var copy := buffer.impl.GetCopy();
        this.buffer := DataBuffer(copy, buffer.begin, buffer.end);
        ended := false;
        posBegin := buffer.begin;
        var segmentEnd := SegmentEnd(posBegin);
        posEnd := Min(segmentEnd, buffer.end);
      }
    }

    /** DataBufferImpl::segment: the end of the segment that holds pos. */
    function SegmentEnd(pos: nat): nat
      requires buffer.impl.Valid()
      reads this, buffer.impl.Repr()
    {
      match buffer.impl
      case InMemory(s) => |s.data|
      case OnDisk(f) => f.SegmentEnd(pos)
    }

    /** The bytes of the current segment. */
    method Current() returns (chunk: Bytes)
      requires Valid() && !ended
      modifies if buffer.impl.OnDisk? then {buffer.impl.f.file} else {}
      ensures Valid() && buffer.impl.Contents() == old(buffer.impl.Contents())
      ensures chunk == buffer.impl.Contents()[posBegin..posEnd]
      ensures Remaining() == old(Remaining())
    {
      match buffer.impl
      case InMemory(s) =>
        var n := Min(|s.data| - posBegin, buffer.end - posBegin);
        chunk := s.data[posBegin..posBegin + n];
      case OnDisk(f) =>
        var c := f.Chunk(posBegin);
        var (delta, avail) := c.value;
        var n := Min(avail, buffer.end - posBegin);
        chunk := f.file.Load(delta, n);
    }

    /** Memory of the current segment overwritten in place, from its first byte on. */
    method Fill(data: Bytes)
      requires Valid() && !ended && |data| <= posEnd - posBegin
      modifies buffer.impl.Repr()
      ensures Valid() && Remaining() == old(Remaining())
      ensures buffer.impl.Contents() == Splice(old(buffer.impl.Contents()), posBegin, data)
    {
      match buffer.impl
      case InMemory(s) => s.data := Splice(s.data, posBegin, data);
      case OnDisk(f) =>
        var c := f.Chunk(posBegin);
        var (delta, avail) := c.value;
        f.file.Store(delta, data);
    }

    method Next()
      requires Valid()
      modifies this
      ensures Valid() && buffer == old(buffer)
      ensures old(ended) ==> ended
      ensures !old(ended) ==> (ended <==> old(posEnd) == buffer.end)
      ensures !ended ==> posBegin == old(posEnd)
      ensures Remaining() == if old(ended) then [] else old(Remaining())[1..]
    {
      if ended {
        return;
      }
      assert Remaining()[1..] == Segments(buffer.impl.Cutting(), posEnd, buffer.end);
      if posEnd >= buffer.end {
        ended := true;
        posBegin, posEnd := 0, 0;
        return;
      }
      var segmentEnd := SegmentEnd(posEnd);
      posBegin := posEnd;
      posEnd := Min(segmentEnd, buffer.end);
    }
  }
}
