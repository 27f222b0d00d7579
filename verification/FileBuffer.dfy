/**
 * request-cache/file_buffer.cpp and library/string_buffer.cpp: two byte stores with one
 * interface, the first seen only through a sliding window of its file.
 */
module Buffers {
  import opened Bytes
  import opened MMapFiles

  /** The specification both searches meet: the leftmost match in [begin, end), or end. */
  function FindIn(contents: Bytes, begin: nat, end: nat, pat: Bytes): (r: nat)
    requires begin <= end <= |contents|
    ensures begin <= r <= end
    ensures r < end ==> r + |pat| <= end && OccursAt(contents, pat, r)
    ensures forall i | begin <= i < r && i + |pat| <= end :: !OccursAt(contents, pat, i)
  {
    var f := Search(contents[begin..end], pat);
    OccursInSlice(contents, begin, end, pat, f);
    assert forall i | begin <= i < begin + f && i + |pat| <= end :: !OccursAt(contents, pat, i) by {
      forall i | begin <= i < begin + f && i + |pat| <= end
        ensures !OccursAt(contents, pat, i)
      {
        OccursInSlice(contents, begin, end, pat, i - begin);
      }
    }
    begin + f
  }

  class FileBuffer {
    const file: MMapFile
    const window: nat

    ghost predicate Valid()
      reads file, file.inode
    {
      file.Valid() && window == file.window
    }

    ghost function Contents(): Bytes
      reads file.inode
    {
      file.inode.bytes
    }

    constructor (inode: Inode, window: nat, page: nat)
      requires 0 < page
      ensures Valid() && fresh(file) && file.inode == inode
      ensures this.window == RoundWindow(window, page)
    {
      var f := new MMapFile(inode, window, page);
      this.file := f;
      this.window := f.window;
    }

    constructor FromCopy(file: MMapFile)
      requires file.Valid()
      ensures Valid() && this.file == file
    {
      this.file := file;
      this.window := file.window;
    }

    method Chunk(pos: nat) returns (r: Result<(nat, nat)>)
      requires Valid()
      modifies file`start, file`len
      ensures Valid()
      ensures r.Ok? <==> pos < |Contents()|
      ensures r.Ok? ==> var (delta, n) := r.value;
                        && file.Addresses(delta, pos, n)
                        && 0 < n && pos + n == (if FloorTo(pos, window) + window < |Contents()|
                                                then FloorTo(pos, window) + window else |Contents()|)
    {
      r := file.AtSegment(pos);
    }

    /** The window boundary that ends the segment holding pos. */
    function SegmentEnd(pos: nat): (e: nat)
      requires Valid()
      reads file, file.inode
      ensures pos < e <= pos + window && e == FloorTo(pos, window) + window
    {
      window * (pos / window) + window
    }

    method At(pos: nat) returns (r: Result<Byte>)
      requires Valid()
      modifies file`start, file`len
      ensures Valid()
      ensures r == if pos < |Contents()| then Ok(Contents()[pos]) else Err(IndexOutOfRange)
    {
      r := file.At(pos);
    }

    /** Chunk by chunk, yet exactly one slice of the file. */
    method Read(pos: nat, len: nat) returns (r: Result<Bytes>)
      requires Valid()
      modifies file`start, file`len
      ensures Valid()
      ensures r == if pos + len <= |Contents()| then Ok(Contents()[pos..pos + len]) else Err(DataOutOfRange)
    {
      if pos + len > file.size {
        return Err(DataOutOfRange);
      }
      var at, left, data := pos, len, [];
      while left > 0
        invariant Valid()
        invariant at + left == pos + len && pos <= at && 0 <= left
        invariant data == Contents()[pos..at]
      {
        var c := Chunk(at);
        var (delta, avail) := c.value;
        var n := Min(avail, left);
        var piece := file.Load(delta, n);
        data := data + piece;
        at, left := at + n, left - n;
      }
      return Ok(data);
    }

    /** Chunk by chunk, yet exactly one slice update of the file. */
    method Write(pos: nat, data: Bytes) returns (r: Result<nat>)
      requires Valid()
      modifies file`start, file`len, file.inode
      ensures Valid()
      ensures r == if pos + |data| <= |old(Contents())| then Ok(|data|) else Err(DataOutOfRange)
      ensures Contents() == if r.Ok? then Splice(old(Contents()), pos, data) else old(Contents())
    {
      if pos + |data| > file.size {
        return Err(DataOutOfRange);
      }
      var done := 0;
      assert Splice(Contents(), pos, []) == Contents();
      while done < |data|
        invariant Valid() && done <= |data|
        invariant |Contents()| == |old(Contents())|
        invariant Contents() == Splice(old(Contents()), pos, data[..done])
      {
        var c := Chunk(pos + done);
        var (delta, avail) := c.value;
        var n := Min(avail, |data| - done);
        file.Store(delta, data[done..done + n]);
        SpliceTwice(old(Contents()), pos, data[..done], data[done..done + n]);
        assert data[..done] + data[done..done + n] == data[..done + n];
        done := done + n;
      }
      assert data[..done] == data;
      return Ok(|data|);
    }

    /**
     * The windowed search. A pattern that straddles window boundaries, even one longer than the
     * window, is found because each stretch overlaps the next by the pattern's length.
     */
    method Find(begin: nat, end: nat, pat: Bytes) returns (r: Result<nat>)
      requires Valid() && begin <= end <= |Contents()|
      modifies file`start, file`len
      ensures Valid()
      ensures r.Ok? ==> r.value == FindIn(Contents(), begin, end, pat)
      ensures pat != [] || begin < end ==> r.Ok?
    {
      hide Search;
      if |pat| > end - begin {
        return Ok(end);
      }
      var segment := begin / window;
      var segment_pos := window * segment;
      var offset := begin - segment_pos;
      ghost var text := Contents()[begin..end];
      while true
        invariant Valid() && Contents() == old(Contents()) && offset < window
        invariant begin <= segment_pos + offset && segment_pos + offset + |pat| <= end
        invariant segment_pos + offset == end ==> begin == end
        invariant forall i | 0 <= i < segment_pos + offset - begin :: !OccursAt(text, pat, i)
        decreases end - segment_pos - offset
      {
        var pos := segment_pos + offset;
        var length := window - offset + |pat|;
        var finish := false;
        if pos + length >= end {
          length := end - pos;
          finish := true;
        }
        var stretch := Stretch(pos, length);
        if stretch.Err? {
          return Err(stretch.error);
        }
        var range := stretch.value;
        SliceOfSlice(Contents(), begin, end, pos - begin, pos - begin + length);
        var res := Search(range, pat);
        StretchSearch(text, pat, pos - begin, length, res);
        if res != |range| {
          LeftmostIsSearch(text, pat, pos - begin + res);
          return Ok(pos + res);
        }
        if finish {
          break;
        }
        offset := 0;
        segment_pos := segment_pos + window;
      }
      LeftmostIsSearch(text, pat, |text|);
      return Ok(end);
    }

    /** The mapped bytes from pos on, as find looks at them. */
    method Stretch(pos: nat, length: nat) returns (r: Result<Bytes>)
      requires Valid() && pos + length <= |Contents()|
      modifies file`start, file`len
      ensures Valid() && Contents() == old(Contents())
      ensures r.Ok? ==> r.value == Contents()[pos..pos + length]
      ensures 0 < length ==> r.Ok?
    {
      var a := file.AtRange(pos, length);
      if a.Err? {
        return Err(a.error);
      }
      var range := file.Load(a.value, length);
      return Ok(range);
    }

    /** What one stretch of the windowed search establishes about the whole text. */
    static lemma StretchSearch(text: Bytes, pat: Bytes, lo: nat, length: nat, res: nat)
      requires lo + length <= |text| && |pat| <= length
      requires res == Search(text[lo..lo + length], pat)
      requires forall i | 0 <= i < lo :: !OccursAt(text, pat, i)
      ensures res < length ==> Leftmost(text, pat, lo + res)
      ensures res == length ==> forall i | 0 <= i < lo + length && i + |pat| <= lo + length :: !OccursAt(text, pat, i)
    {
      forall i | lo <= i < lo + res && i + |pat| <= lo + length
        ensures !OccursAt(text, pat, i)
      {
        OccursInSlice(text, lo, lo + length, pat, i - lo);
      }
      if res < length {
        OccursInSlice(text, lo, lo + length, pat, res);
        assert OccursAt(text, pat, lo + res);
      }
    }

    method Resize(size: nat)
      requires Valid()
      modifies file, file.inode
      ensures Valid() && Contents() == Resized(old(Contents()), size)
    {
      file.Resize(size);
    }

    method GetCopy() returns (copy: FileBuffer)
      requires Valid()
      ensures fresh(copy) && fresh(copy.file) && copy.Valid()
      ensures copy.file.inode == file.inode && copy.window == window
    {
      var f := file.Clone();
      copy := new FileBuffer.FromCopy(f);
    }
  }

  class StringBuffer {
    var data: Bytes

    constructor (data: Bytes)
      ensures this.data == data
    {
      this.data := data;
    }

    method Read(pos: nat, len: nat) returns (r: Bytes)
      requires pos + len <= |data|
      ensures r == data[pos..pos + len]
    {
      r := data[pos..pos + len];
    }

    method Write(pos: nat, src: Bytes) returns (n: nat)
      requires pos + |src| <= |data|
      modifies this
      ensures n == |src| && data == Splice(old(data), pos, src)
    {
      data := Splice(data, pos, src);
      n := |src|;
    }

    method Find(begin: nat, end: nat, pat: Bytes) returns (r: nat)
      requires begin <= end <= |data|
      ensures r == FindIn(data, begin, end, pat)
    {
      if |pat| > end - begin {
        LeftmostIsSearch(data[begin..end], pat, end - begin);
        return end;
      }
      r := begin + Search(data[begin..end], pat);
    }

    method Resize(size: nat)
      modifies this
      ensures data == Resized(old(data), size)
    {
      data := Resized(data, size);
    }
  }
}
