/**
 A circular byte buffer over a fixed array. Every operation is specified on `Contents()`,
 the stored bytes in order; callers never see where the data wraps.
 */
module RingBuffers {
  import opened Wire

  /** One scatter/gather segment: `len` bytes of a buffer from index `base`. */
  datatype Iov = Iov(base: nat, len: nat)

  function Min(a: nat, b: nat): nat { if a < b then a else b }

  /** An index that has run at most one lap past the end, brought back into range. */
  function Wrap(i: nat, cap: nat): (r: nat)
    requires i < 2 * cap
    ensures r < cap
  {
    if i < cap then i else i - cap
  }

  lemma WrapIsModulo(i: nat, cap: nat)
    requires i < 2 * cap
    ensures i % cap == Wrap(i, cap)
  {
    if i >= cap {
      assert i == cap * 1 + (i - cap);
    }
  }

  /** The `n` bytes of `b` found walking forward from index `h`, wrapping at the end. */
  function Span(b: seq<byte>, h: nat, n: nat): (s: seq<byte>)
    requires h < |b| && n <= |b|
    ensures |s| == n
  {
    seq(n, i requires 0 <= i < n => b[Wrap(h + i, |b|)])
  }

  lemma WrapTwice(h: nat, n: nat, k: nat, cap: nat)
    requires h < cap && n + k < cap
    ensures Wrap(Wrap(h + n, cap) + k, cap) == Wrap(h + n + k, cap)
  {
  }

  /** A walk of `n + m` bytes is a walk of `n` followed by a walk of `m`. */
  lemma SpanSplit(b: seq<byte>, h: nat, n: nat, m: nat)
    requires h < |b| && n + m <= |b|
    ensures Span(b, h, n + m) == Span(b, h, n) + Span(b, Wrap(h + n, |b|), m)
  {
    var whole := Span(b, h, n + m);
    var last := Span(b, Wrap(h + n, |b|), m);
    forall i | 0 <= i < m
      ensures whole[n + i] == last[i]
    {
      WrapTwice(h, n, i, |b|);
    }
    assert whole[..n] == Span(b, h, n);
    assert whole[n..] == last;
  }

  lemma SpanIsSlice(b: seq<byte>, h: nat, n: nat)
    requires h < |b| && h + n <= |b|
    ensures Span(b, h, n) == b[h..h + n]
  {
    forall i | 0 <= i < n
      ensures Span(b, h, n)[i] == b[h..h + n][i]
    {
      assert Wrap(h + i, |b|) == h + i;
    }
  }

  /** A walk that does not pass the end is a slice; one that does is two slices. */
  lemma SpanIsSlices(b: seq<byte>, h: nat, n: nat)
    requires h < |b| && n <= |b|
    ensures Span(b, h, n) == if h + n <= |b| then b[h..h + n] else b[h..] + b[..h + n - |b|]
  {
    if h + n <= |b| {
      SpanIsSlice(b, h, n);
    } else {
      var k := |b| - h;
      SpanSplit(b, h, k, n - k);
      SpanIsSlice(b, h, k);
      SpanIsSlice(b, 0, n - k);
    }
  }

  lemma SpanTake(b: seq<byte>, h: nat, n: nat, k: nat)
    requires h < |b| && k <= n <= |b|
    ensures Span(b, h, n)[..k] == Span(b, h, k)
  {
    SpanSplit(b, h, k, n - k);
  }

  /** A part of a walk that does not pass the end is a slice. */
  lemma SpanPiece(b: seq<byte>, h: nat, size: nat, skip: nat, n: nat)
    requires h < |b| && skip + n <= size <= |b|
    requires h + skip < 2 * |b| && Wrap(h + skip, |b|) + n <= |b|
    ensures Span(b, h, size)[skip..skip + n] == b[Wrap(h + skip, |b|)..Wrap(h + skip, |b|) + n]
  {
    hide Span; hide Wrap;
    var t := Wrap(h + skip, |b|);
    SpanSplit(b, h, skip, size - skip);
    assert Span(b, h, size)[skip..skip + n] == Span(b, t, size - skip)[..n];
    SpanTake(b, t, size - skip, n);
    SpanIsSlice(b, t, n);
  }

  /** Extending a walk takes its bytes from the front of what lies beyond it. */
  lemma SpanGrows(b: seq<byte>, h: nat, n: nat, m: nat)
    requires h < |b| && n + m <= |b|
    ensures Span(b, h, n + m) == Span(b, h, n) + Span(b, Wrap(h + n, |b|), |b| - n)[..m]
  {
    SpanSplit(b, h, n, m);
    SpanTake(b, Wrap(h + n, |b|), |b| - n, m);
  }

  /** `b` with the bytes `d` stored from index `off`. */
  function Stored(b: seq<byte>, off: nat, d: seq<byte>): (r: seq<byte>)
    requires off + |d| <= |b|
    ensures |r| == |b|
  {
    b[..off] + d + b[off + |d|..]
  }

  lemma StoredNext(b: seq<byte>, off: nat, d: seq<byte>, i: nat)
    requires off + |d| <= |b| && i < |d|
    ensures Stored(b, off, d[..i + 1]) == Stored(b, off, d[..i])[off + i := d[i]]
  {
  }

  lemma StoredAt(b: seq<byte>, off: nat, d: seq<byte>, j: nat)
    requires off + |d| <= |b| && j < |b|
    ensures Stored(b, off, d)[j] == if off <= j < off + |d| then d[j - off] else b[j]
  {
  }

  /** The positions of a walk of `n` bytes are none of the `len` positions after it. */
  lemma WalkMisses(h: nat, n: nat, len: nat, cap: nat, i: nat)
    requires h < cap && n + len <= cap && i < n
    requires Wrap(h + n, cap) + len <= cap
    ensures Wrap(h + i, cap) < Wrap(h + n, cap) || Wrap(h + n, cap) + len <= Wrap(h + i, cap)
  {
  }

  /** Storing `d` after a walk of `n` bytes leaves the walk alone. */
  lemma StoredKeeps(b: seq<byte>, h: nat, n: nat, d: seq<byte>)
    requires h < |b| && n + |d| <= |b|
    requires Wrap(h + n, |b|) + |d| <= |b|
    ensures Span(Stored(b, Wrap(h + n, |b|), d), h, n) == Span(b, h, n)
  {
    var t := Wrap(h + n, |b|);
    var c := Stored(b, t, d);
    forall i | 0 <= i < n
      ensures Span(c, h, n)[i] == Span(b, h, n)[i]
    {
      hide Stored;
      WalkMisses(h, n, |d|, |b|, i);
      StoredAt(b, t, d, Wrap(h + i, |b|));
    }
  }

  /** Storing `d` where a walk of `n` bytes ends extends it by `d`. */
  lemma StoredExtends(b: seq<byte>, h: nat, n: nat, d: seq<byte>)
    requires h < |b| && n + |d| <= |b|
    requires Wrap(h + n, |b|) + |d| <= |b|
    ensures Span(Stored(b, Wrap(h + n, |b|), d), h, n + |d|) == Span(b, h, n) + d
  {
    hide Span;
    var t := Wrap(h + n, |b|);
    var c := Stored(b, t, d);
    StoredKeeps(b, h, n, d);
    SpanSplit(c, h, n, |d|);
    SpanIsSlices(c, t, |d|);
    assert c[t..t + |d|] == d;
  }

  lemma StoredTwice(b: seq<byte>, x: seq<byte>, y: seq<byte>)
    requires |x| + |y| <= |b|
    ensures Stored(Stored(b, 0, x), |x|, y) == Stored(b, 0, x + y)
  {
  }

  /** The walk of `n` bytes from `t` as one or two segments, cut at the end of the buffer. */
  function Segments(t: nat, n: nat, cap: nat): (iov: seq<Iov>)
    requires t < cap && n <= cap
    ensures |iov| <= 2
    ensures forall v :: v in iov ==> v.base + v.len <= cap
  {
    if t + n <= cap then [Iov(t, n)] else [Iov(t, cap - t), Iov(0, n - (cap - t))]
  }

  function Slice(b: seq<byte>, v: Iov): seq<byte>
    requires v.base + v.len <= |b|
  {
    b[v.base..v.base + v.len]
  }

  /** The bytes that one or two segments show, in order. */
  function Gather(b: seq<byte>, iov: seq<Iov>): seq<byte>
    requires |iov| <= 2
    requires forall v :: v in iov ==> v.base + v.len <= |b|
  {
    if |iov| == 0 then []
    else if |iov| == 1 then Slice(b, iov[0])
    else Slice(b, iov[0]) + Slice(b, iov[1])
  }

  lemma SegmentsShowSpan(b: seq<byte>, t: nat, n: nat)
    requires t < |b| && n <= |b|
    ensures Gather(b, Segments(t, n, |b|)) == Span(b, t, n)
  {
    SpanIsSlices(b, t, n);
  }

  /** `b` after `d` was received into one or two segments, filling the first one first. */
  function Scatter(b: seq<byte>, iov: seq<Iov>, d: seq<byte>): (c: seq<byte>)
    requires 1 <= |iov| <= 2
    requires forall v :: v in iov ==> v.base + v.len <= |b|
    requires |d| <= iov[0].len + if |iov| == 2 then iov[1].len else 0
    ensures |c| == |b|
  {
    var first := Min(|d|, iov[0].len);
    var b1 := Stored(b, iov[0].base, d[..first]);
    if |d| > first then Stored(b1, iov[1].base, d[first..]) else b1
  }

  lemma StoredExtendsTwice(b: seq<byte>, h: nat, n: nat, d: seq<byte>, e: seq<byte>)
    requires h < |b| && n + |d| + |e| <= |b|
    requires Wrap(h + n, |b|) + |d| == |b|
    ensures Span(Stored(Stored(b, Wrap(h + n, |b|), d), 0, e), h, n + |d| + |e|) == Span(b, h, n) + d + e
  {
    var b1 := Stored(b, Wrap(h + n, |b|), d);
    StoredExtends(b, h, n, d);
    if |e| > 0 {
      StoredExtends(b1, h, n + |d|, e);
    } else {
      assert Stored(b1, 0, e) == b1;
    }
  }

  /** Receiving `d` into segments that expose `m` free bytes extends the stored walk by `d`. */
  lemma ScatterExtends(b: seq<byte>, h: nat, n: nat, m: nat, d: seq<byte>)
    requires h < |b| && 0 < |d| <= m <= |b| - n
    ensures var c := Scatter(b, Segments(Wrap(h + n, |b|), m, |b|), d);
            Span(c, h, n + |d|) == Span(b, h, n) + d
  {
    hide Span; hide Stored;
    var t := Wrap(h + n, |b|);
    if t + |d| <= |b| {
      assert d[..|d|] == d;
      StoredExtends(b, h, n, d);
    } else {
      var first := |b| - t;
      StoredExtendsTwice(b, h, n, d[..first], d[first..]);
      assert d[..first] + d[first..] == d;
    }
  }

  /**
   Receiving `d` into segments that expose any part of the free space never touches the stored walk,
   and fills the free walk from its front.
   */
  lemma ScatterFillsFree(b: seq<byte>, h: nat, n: nat, m: nat, d: seq<byte>)
    requires h < |b| && 0 < |d| <= m <= |b| - n
    ensures var t := Wrap(h + n, |b|);
            var c := Scatter(b, Segments(t, m, |b|), d);
            && Span(c, h, n) == Span(b, h, n)
            && Span(c, t, |b| - n)[..|d|] == d
  {
    hide Span; hide Scatter;
    var c := Scatter(b, Segments(Wrap(h + n, |b|), m, |b|), d);
    ScatterExtends(b, h, n, m, d);
    SpanGrows(c, h, n, |d|);
    assert (Span(b, h, n) + d)[..n] == Span(b, h, n);
    assert (Span(b, h, n) + d)[n..] == d;
  }

  class RingBuffer {
    const buffer: array<byte>
    const capacity: nat
    var head: nat
    var tail: nat
    var size: nat

    ghost predicate Valid()
      reads this
    {
      && capacity == buffer.Length > 0
      && head < capacity && tail < capacity && size <= capacity
      && tail == Wrap(head + size, capacity)
    }

    /** The stored bytes, oldest first. */
    ghost function Contents(): (s: seq<byte>)
      requires Valid()
      reads this, buffer
      ensures |s| == size
    {
      Span(buffer[..], head, size)
    }

    /** The unused bytes, in the order they will be filled. */
    ghost function Free(): (s: seq<byte>)
      requires Valid()
      reads this, buffer
      ensures |s| == capacity - size
    {
      Span(buffer[..], tail, capacity - size)
    }

    constructor (cap: nat)
      requires cap > 0
      ensures Valid() && fresh(buffer) && capacity == cap && Contents() == []
    {
      buffer := new byte[cap](_ => 0);
      capacity := cap;
      head, tail, size := 0, 0, 0;
    }

    function FreeSpace(): nat
      requires Valid()
      reads this
    {
      capacity - size
    }

    method CopyIn(off: nat, data: seq<byte>)
      requires off + |data| <= buffer.Length
      modifies buffer
      ensures buffer[..] == Stored(old(buffer[..]), off, data)
    {
      for i := 0 to |data|
        invariant buffer[..] == Stored(old(buffer[..]), off, data[..i])
      {
        StoredNext(old(buffer[..]), off, data, i);
        buffer[off + i] := data[i];
      }
      assert data[..|data|] == data;
    }

    /** Moves `tail` past `n` filled bytes. */
    method AdvanceTail(n: nat)
      requires Valid() && n <= FreeSpace()
      modifies this`tail, this`size
      ensures Valid() && size == old(size) + n
    {
      WrapIsModulo(tail + n, capacity);
      tail := (tail + n) % capacity;
      size := size + n;
    }

    /** Moves `head` past `n` consumed bytes. */
    method AdvanceHead(n: nat)
      requires Valid() && n <= size
      modifies this`head, this`size
      ensures Valid() && size == old(size) - n && head == Wrap(old(head) + n, capacity)
      ensures Contents() == old(Contents())[n..]
    {
      SpanSplit(buffer[..], head, n, size - n);
      WrapIsModulo(head + n, capacity);
      head := (head + n) % capacity;
      size := size - n;
    }

    /** Copies `data` in one piece at `tail` and counts it as stored. */
    method Append(data: seq<byte>)
      requires Valid() && |data| <= FreeSpace() && tail + |data| <= capacity
      modifies this`tail, this`size, buffer
      ensures Valid() && size == old(size) + |data|
      ensures tail == Wrap(old(tail) + |data|, capacity)
      ensures Contents() == old(Contents()) + data
    {
      StoredExtends(buffer[..], head, size, data);
      CopyIn(tail, data);
      AdvanceTail(|data|);
    }

    /** Stores as much of `data` as fits. */
    method Write(data: seq<byte>) returns (written: nat)
      requires Valid()
      modifies this`tail, this`size, buffer
      ensures Valid()
      ensures written == Min(|data|, old(FreeSpace()))
      ensures Contents() == old(Contents()) + data[..written]
    {
      if |data| == 0 {
        return 0;
      }
      var toWrite := Min(|data|, FreeSpace());
      if toWrite == 0 {
        return 0;
      }
      var endSpace := capacity - tail;
      var firstPart := Min(toWrite, endSpace);
      Append(data[..firstPart]);
      var remaining := toWrite - firstPart;
      if remaining > 0 {
        Append(data[firstPart..toWrite]);
        assert data[..toWrite] == data[..firstPart] + data[firstPart..toWrite];
      }
      return toWrite;
    }

    method CopyOut(off: nat, dest: array<byte>, at: nat, n: nat)
      requires off + n <= buffer.Length && at + n <= dest.Length && dest != buffer
      modifies dest
      ensures dest[..] == Stored(old(dest[..]), at, buffer[off..off + n])
    {
      ghost var data := buffer[off..off + n];
      for i := 0 to n
        invariant buffer[off..off + n] == data
        invariant dest[..] == Stored(old(dest[..]), at, data[..i])
      {
        StoredNext(old(dest[..]), at, data, i);
        dest[at + i] := buffer[off + i];
      }
      assert data[..n] == data;
    }

    /** Copies `n` stored bytes, found in one piece `skip` bytes into the contents. */
    method CopyPiece(dest: array<byte>, at: nat, skip: nat, n: nat)
      requires Valid() && skip + n <= size
      requires Wrap(head + skip, capacity) + n <= capacity
      requires at + n <= dest.Length && dest != buffer
      modifies dest
      ensures dest[..] == Stored(old(dest[..]), at, Contents()[skip..skip + n])
    {
      hide Span; hide Stored; hide Wrap;
      SpanPiece(buffer[..], head, size, skip, n);
      CopyOut(Wrap(head + skip, capacity), dest, at, n);
    }

    /** Copies up to `len` stored bytes to the start of `dest` without consuming them. */
    method Peek(dest: array?<byte>, len: nat) returns (copied: nat)
      requires Valid()
      requires dest != null ==> len <= dest.Length && dest != buffer
      modifies dest
      ensures copied == if dest == null then 0 else Min(len, size)
      ensures dest != null ==> dest[..] == Stored(old(dest[..]), 0, Contents()[..copied])
    {
      if dest == null || len == 0 {
        return 0;
      }
      var toCopy := Min(len, size);
      if toCopy == 0 {
        return 0;
      }
      var endData := capacity - head;
      var firstPart := Min(toCopy, endData);
      ghost var was, c := dest[..], Contents();
      CopyPiece(dest, 0, 0, firstPart);
      var remaining := toCopy - firstPart;
      if remaining > 0 {
        CopyPiece(dest, firstPart, firstPart, remaining);
        StoredTwice(was, c[..firstPart], c[firstPart..toCopy]);
        assert c[..firstPart] + c[firstPart..toCopy] == c[..toCopy];
      }
      return toCopy;
    }

    /** Copies `n` bytes out in one piece from `head` and consumes them. */
    method TakeOut(dest: array<byte>, at: nat, n: nat)
      requires Valid() && n <= size && head + n <= capacity
      requires at + n <= dest.Length && dest != buffer
      modifies dest, this`head, this`size
      ensures Valid() && size == old(size) - n && head == Wrap(old(head) + n, capacity)
      ensures dest[..] == Stored(old(dest[..]), at, old(Contents())[..n])
      ensures Contents() == old(Contents())[n..]
    {
      SpanTake(buffer[..], head, size, n);
      SpanIsSlices(buffer[..], head, n);
      CopyOut(head, dest, at, n);
      AdvanceHead(n);
    }

    /** Copies up to `len` stored bytes to the start of `dest` and consumes them. */
    method Read(dest: array?<byte>, len: nat) returns (copied: nat)
      requires Valid()
      requires dest != null ==> len <= dest.Length && dest != buffer
      modifies dest, this`head, this`size
      ensures Valid()
      ensures copied == if dest == null then 0 else Min(len, old(size))
      ensures dest != null ==> dest[..] == Stored(old(dest[..]), 0, old(Contents())[..copied])
      ensures Contents() == old(Contents())[copied..]
    {
      if dest == null || len == 0 {
        return 0;
      }
      var toRead := Min(len, size);
      if toRead == 0 {
        return 0;
      }
      var endData := capacity - head;
      var firstPart := Min(toRead, endData);
      ghost var was, c := dest[..], Contents();
      TakeOut(dest, 0, firstPart);
      var remaining := toRead - firstPart;
      if remaining > 0 {
        TakeOut(dest, firstPart, remaining);
        StoredTwice(was, c[..firstPart], c[firstPart..][..remaining]);
        assert c[..firstPart] + c[firstPart..][..remaining] == c[..toRead];
      }
      return toRead;
    }

    /** The longest stored prefix that lies in one piece, at most `maxLen` bytes. */
    method PeekView(maxLen: nat) returns (view: Iov)
      requires Valid()
      ensures view.base + view.len <= capacity
      ensures view.len == Min(maxLen, Min(size, capacity - head))
      ensures buffer[view.base..view.base + view.len] == Contents()[..view.len]
    {
      if maxLen == 0 || size == 0 {
        return Iov(0, 0);
      }
      var contiguous := Min(size, capacity - head);
      var viewSize := Min(maxLen, contiguous);
      if viewSize == 0 {
        return Iov(0, 0);
      }
      SpanTake(buffer[..], head, size, viewSize);
      SpanIsSlices(buffer[..], head, viewSize);
      return Iov(head, viewSize);
    }

    /** `PeekView` that also consumes what it shows; the bytes stay readable in the buffer. */
    method ReadView(maxLen: nat) returns (view: Iov)
      requires Valid()
      modifies this`head, this`size
      ensures Valid()
      ensures view.base + view.len <= capacity
      ensures view.len == Min(maxLen, Min(old(size), capacity - old(head)))
      ensures buffer[view.base..view.base + view.len] == old(Contents())[..view.len]
      ensures Contents() == old(Contents())[view.len..]
    {
      view := PeekView(maxLen);
      if view.len == 0 {
        return;
      }
      AdvanceHead(view.len);
    }

    /** The segments that show the first `maxLen` stored bytes, in order. */
    method PeekIov(maxLen: nat) returns (iov: seq<Iov>)
      requires Valid()
      ensures |iov| <= 2 && (|iov| == 0 <==> maxLen == 0 || size == 0)
      ensures forall v :: v in iov ==> v.len > 0 && v.base + v.len <= capacity
      ensures Gather(buffer[..], iov) == Contents()[..Min(maxLen, size)]
    {
      if maxLen == 0 || size == 0 {
        return [];
      }
      var toRead := Min(maxLen, size);
      var endData := capacity - head;
      var firstPart := Min(toRead, endData);
      var remaining := toRead - firstPart;
      SpanTake(buffer[..], head, size, toRead);
      SegmentsShowSpan(buffer[..], head, toRead);
      if remaining > 0 {
        return [Iov(head, firstPart), Iov(0, remaining)];
      }
      return [Iov(head, firstPart)];
    }

    /** The segments that cover the first `maxLen` free bytes, in fill order. */
    method WriteIov(maxLen: nat) returns (iov: seq<Iov>)
      requires Valid()
      ensures |iov| == 0 <==> maxLen == 0 || size == capacity
      ensures |iov| > 0 ==> iov == Segments(tail, Min(maxLen, FreeSpace()), capacity)
      ensures forall v :: v in iov ==> v.len > 0
    {
      if maxLen == 0 {
        return [];
      }
      var free := FreeSpace();
      if free == 0 {
        return [];
      }
      var toWrite := Min(maxLen, free);
      var endSpace := capacity - tail;
      var firstPart := Min(toWrite, endSpace);
      var remaining := toWrite - firstPart;
      if remaining > 0 {
        return [Iov(tail, firstPart), Iov(0, remaining)];
      }
      return [Iov(tail, firstPart)];
    }

    /** Counts the first `n` free bytes as stored, clamping `n` to what is free. */
    method CommitWrite(n: nat)
      requires Valid()
      modifies this`tail, this`size
      ensures Valid()
      ensures Contents() == old(Contents()) + old(Free())[..Min(n, old(FreeSpace()))]
    {
      if n == 0 {
        return;
      }
      var free := FreeSpace();
      var m := n;
      if m > free {
        m := free;
      }
      SpanGrows(buffer[..], head, size, m);
      AdvanceTail(m);
    }

    method Clear()
      requires Valid()
      modifies this`head, this`tail, this`size
      ensures Valid() && Contents() == []
    {
      head := 0;
      tail := 0;
      size := 0;
    }
  }
}
