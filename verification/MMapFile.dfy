/** request-cache/mmap_file.cpp: a page-aligned window that slides over a file. */
module MMapFiles {
  import opened Bytes

  /** A file on disk. Several descriptors, and several names, may lead to the same one. */
  class Inode {
    var bytes: Bytes

    constructor ()
      ensures bytes == []
    {
      bytes := [];
    }
  }

  /** checkWindow's rounding: ten pages by default, otherwise up to a page multiple. */
  function RoundWindow(window: nat, page: nat): nat
    requires 0 < page
  {
    if window == 0 then 10 * page
    else if window - window / page * page == 0 then page * (window / page)
    else page * (window / page + 1)
  }

  /** How many pages the rounded window has. */
  function WindowPages(window: nat, page: nat): nat
    requires 0 < page
  {
    if window == 0 then 10 else if window % page == 0 then window / page else window / page + 1
  }

  lemma RoundWindowPages(window: nat, page: nat)
    requires 0 < page
    ensures RoundWindow(window, page) == WindowPages(window, page) * page
    ensures WindowPages(window, page) > 0
    ensures RoundWindow(window, page) > 0 && RoundWindow(window, page) % page == 0
    ensures window <= RoundWindow(window, page)
    ensures window > 0 ==> RoundWindow(window, page) < window + page
  {
    var q, k := window / page, WindowPages(window, page);
    assert window == q * page + window % page;
    if window != 0 && q == 0 {
      assert window == window % page;
    }
    assert RoundWindow(window, page) == k * page;
    MultiplesApart(k, 0, page);
    DivModUnique(k * page, page, k, 0);
  }

  /** The rounded window is the least positive page multiple that covers a non-zero request. */
  lemma RoundWindowIsLeast(window: nat, page: nat, other: nat)
    requires 0 < page
    ensures RoundWindow(window, page) > 0 && RoundWindow(window, page) % page == 0
    ensures window <= RoundWindow(window, page)
    ensures 0 < window <= other && other % page == 0 ==> RoundWindow(window, page) <= other
  {
    hide RoundWindow, WindowPages;
    var k, m := WindowPages(window, page), other / page;
    RoundWindowPages(window, page);
    SegmentAndOffset(other, page);
    MultiplesApart(k, m, page);
    MultiplesApart(m, k, page);
  }

  lemma SegmentAndOffset(index: nat, window: nat)
    requires 0 < window
    ensures index / window * window + index % window == index && index % window < window
  {
  }

  lemma DivModUnique(x: nat, d: nat, q: nat, r: nat)
    requires r < d && x == q * d + r
    ensures x / d == q && x % d == r
  {
    var p := x / d;
    assert x == p * d + x % d;
    MultiplesApart(p, q, d);
    MultiplesApart(q, p, d);
  }

  /** A larger multiple is larger by at least the unit. */
  lemma MultiplesApart(a: nat, b: nat, d: nat)
    ensures a > b ==> a * d >= b * d + d
  {
    if a > b + 1 {
      MultiplesApart(a - 1, b, d);
    }
  }

  /** Rounding down to a multiple of a positive unit. */
  function FloorTo(pos: nat, unit: nat): (base: nat)
    requires 0 < unit
    ensures base <= pos < base + unit && base % unit == 0
  {
    DivModUnique(unit * (pos / unit), unit, pos / unit, 0);
    unit * (pos / unit)
  }

  /** An address is modelled by its distance from pointer_, the base of the mapping. */
  class MMapFile {
    const inode: Inode
    const page: nat
    var window: nat
    var size: nat
    var start: nat   // segment_start_
    var len: nat     // segment_len_; 0 when nothing is mapped

    ghost predicate Valid()
      reads this, inode
    {
      && 0 < page
      && 0 < window
      && window % page == 0
      && size == |inode.bytes|
      && start % page == 0
    }

    /** The addresses [delta, delta + n) lie in the mapping and are the file's [pos, pos + n). */
    ghost predicate Addresses(delta: nat, pos: nat, n: nat)
      reads this
    {
      start + delta == pos && delta + n <= len
    }

    constructor (inode: Inode, window: nat, page: nat)
      requires 0 < page
      ensures Valid() && this.inode == inode && this.page == page
      ensures this.window == RoundWindow(window, page)
      ensures start == 0 && len == this.window
    {
      this.inode, this.page := inode, page;
      this.window, this.size, this.start, this.len := window, |inode.bytes|, 0, 0;
      new;
      CheckWindow();
      var _ := MapSegment(0);
    }

    method CheckWindow()
      requires 0 < page
      modifies this`window
      ensures window == RoundWindow(old(window), page)
      ensures 0 < window && window % page == 0
    {
      RoundWindowIsLeast(window, page, window);
      if window == 0 {
        window := 10 * page;
      } else {
        var index := window / page;
        var offset := window - index * page;
        if offset != 0 {
          index := index + 1;
        }
        window := page * index;
      }
    }

    predicate Mapped(begin: nat, end: nat)
      reads this`start, this`len
    {
      begin >= start && end <= start + len
    }

    method Unmap()
      modifies this`start, this`len
      ensures start == 0 && len == 0
    {
      start, len := 0, 0;
    }

    /** Maps [begin, end) unless it already is; an empty mapping is refused by mmap. */
    method MapRange(begin: nat, end: nat) returns (r: Result<nat>)
      requires Valid() && begin <= end
      modifies this`start, this`len
      ensures Valid()
      ensures r.Ok? ==> Addresses(r.value, begin, end - begin)
      ensures r.Err? <==> begin == end && begin % page == 0 && !old(Mapped(begin, end))
      ensures r.Err? ==> r.error == MapFailed
      ensures old(Mapped(begin, end)) ==> start == old(start) && len == old(len)
      ensures r.Ok? && !old(Mapped(begin, end)) ==> start == FloorTo(begin, page) && start + len == end
    {
      if Mapped(begin, end) {
        return Ok(begin - start);
      }
      Unmap();
      var base := page * (begin / page);
      assert base == FloorTo(begin, page);
      if begin % page == 0 {
        assert base == begin;
      }
      if end - base == 0 {
        return Err(MapFailed);
      }
      start, len := base, end - base;
      return Ok(begin - base);
    }

    method MapSegment(segment: nat) returns (delta: nat)
      requires Valid()
      modifies this`start, this`len
      ensures Valid() && Addresses(delta, segment * window, window)
      ensures !old(Mapped(segment * window, segment * window + window)) ==>
                start + len == segment * window + window && start == FloorTo(segment * window, page)
    {
      var pos := segment * window;
      var r := MapRange(pos, pos + window);
      delta := r.value;
    }

    /** The byte at a file position: out_of_range exactly past the end of the file. */
    method At(index: nat) returns (r: Result<Byte>)
      requires Valid()
      modifies this`start, this`len
      ensures Valid()
      ensures r == if index < |inode.bytes| then Ok(inode.bytes[index]) else Err(IndexOutOfRange)
    {
      if index >= size {
        return Err(IndexOutOfRange);
      }
      if Mapped(index, index + 1) {
        return Ok(inode.bytes[start + (index - start)]);
      }
      var offset, segment := index % window, index / window;
      SegmentAndOffset(index, window);
      var delta := MapSegment(segment);
      return Ok(inode.bytes[start + (delta + offset)]);
    }

    /** An address for [index, index + length), all of it mapped and below size. */
    method AtRange(index: nat, length: nat) returns (r: Result<nat>)
      requires Valid()
      modifies this`start, this`len
      ensures Valid()
      ensures r.Ok? ==> Addresses(r.value, index, length) && index + length <= size && index < size
      ensures index < size && index + length <= size && 0 < length ==> r.Ok?
      ensures r == Err(IndexOutOfRange) <==> size <= index || (0 < length && size < index + length)
    {
      if index >= size {
        return Err(IndexOutOfRange);
      }
      if length > 0 {
        if index + length - 1 >= size {
          return Err(IndexOutOfRange);
        }
      }
      r := MapRange(index, index + length);
    }

    /** The rest of the window that holds index: an address and the bytes left in it. */
    method AtSegment(index: nat) returns (r: Result<(nat, nat)>)
      requires Valid()
      modifies this`start, this`len
      ensures Valid()
      ensures r.Ok? <==> index < size
      ensures r.Err? ==> r.error == IndexOutOfRange
      ensures r.Ok? ==> var (delta, n) := r.value;
                        && Addresses(delta, index, n)
                        && 0 < n && index + n == (if FloorTo(index, window) + window < size
                                                  then FloorTo(index, window) + window else size)
    {
      if index >= size {
        return Err(IndexOutOfRange);
      }
      var segment_pos := index / window * window;
      assert segment_pos == FloorTo(index, window);
      var n := (if segment_pos + window < size then segment_pos + window else size) - index;
      var segment := MapRange(segment_pos, segment_pos + window);
      return Ok((segment.value + index - segment_pos, n));
    }

    method Resize(newsize: nat)
      requires Valid()
      modifies this, inode
      ensures Valid() && window == old(window)
      ensures inode.bytes == Resized(old(inode.bytes), newsize)
    {
      Unmap();
      inode.bytes := Resized(inode.bytes, newsize);
      size := newsize;
      var _ := MapSegment(0);
    }

    /** A second mapping of the same descriptor, so of the same file. */
    method Clone() returns (file: MMapFile)
      requires Valid()
      ensures fresh(file) && file.Valid()
      ensures file.inode == inode && file.window == window && file.page == page
    {
      RoundWindowIsLeast(window, page, window);
      file := new MMapFile(inode, window, page);
    }

    /** Reading memory through an address of the mapping. */
    method Load(delta: nat, n: nat) returns (data: Bytes)
      requires Valid() && delta + n <= len && start + delta + n <= size
      ensures data == inode.bytes[start + delta..start + delta + n]
    {
      data := inode.bytes[start + delta..start + delta + n];
    }

    /** Writing memory through an address of the mapping: it is shared with the file. */
    method Store(delta: nat, data: Bytes)
      requires Valid() && delta + |data| <= len && start + delta + |data| <= size
      modifies inode
      ensures Valid() && inode.bytes == Splice(old(inode.bytes), start + delta, data)
    {
      inode.bytes := Splice(inode.bytes, start + delta, data);
    }
  }

  /** ftruncate: keeps the common prefix and fills growth with zeros. */
  function Resized(s: Bytes, n: nat): (r: Bytes)
    ensures |r| == n
    ensures forall i | 0 <= i < n && i < |s| :: r[i] == s[i]
    ensures forall i | |s| <= i < n :: r[i] == 0
  {
    if n <= |s| then s[..n] else s + Zeros(n - |s|)
  }
}
