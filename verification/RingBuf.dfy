/**
 The ring buffer object of mybot_ringbuf.c used by one caller at a time: a first-in first-out
 queue of bytes in an array, moved with at most two block copies.
 */
module RingBuf {
  import opened Arithmetic
  import opened CText
  import opened RingMachine

  /** n cells from tail on, going round the end. */
  function Unread(cells: Str, tail: nat, n: nat): (s: Str)
    requires |cells| > 0
    ensures |s| == n && forall k :: 0 <= k < n ==> s[k] == cells[Slot(tail + k, |cells|)]
  {
    seq(n, k requires 0 <= k => cells[Slot(tail + k, |cells|)])
  }

  lemma SlotIs(k: nat, size: nat)
    requires 0 < size && k < 2 * size
    ensures Slot(k, size) == if k < size then k else k - size
  {
    if k < size { ModIs(k, size, 0, k); } else { ModIs(k, size, 1, k - size); }
  }

  lemma UsedIs(size: nat, head: nat, tail: nat)
    requires head < size && tail < size
    ensures Used(size, head, tail) == if head >= tail then head - tail else head + size - tail
  {
    SlotIs(head + size - tail, size);
  }

  /** Cells from head on, going round the end, hold src; the others are as before. */
  ghost predicate Laid(before: Str, after: Str, head: nat, src: Str) {
    |before| == |after| && |src| < |after| && head < |after| &&
    (forall j :: 0 <= j < |src| ==> after[if head + j < |after| then head + j else head + j - |after|] == src[j]) &&
    forall i :: 0 <= i < |after| && !(head <= i < head + |src|) && i + |after| >= head + |src| ==>
      after[i] == before[i]
  }

  lemma Appended(before: Str, after: Str, head: nat, tail: nat, src: Str)
    requires Laid(before, after, head, src) && tail < |after|
    requires Used(|after|, head, tail) + |src| < |after|
    ensures var size := |after|;
      var pos := Slot(head + |src|, size);
      pos < size &&
      Unread(after, tail, Used(size, pos, tail)) == Unread(before, tail, Used(size, head, tail)) + src
  {
    hide Slot, Used;
    var size := |after|;
    var used := Used(size, head, tail);
    UsedIs(size, head, tail);
    SlotIs(head + |src|, size);
    UsedIs(size, Slot(head + |src|, size), tail);
    var n := used + |src|;
    forall k | 0 <= k < n ensures Unread(after, tail, n)[k] == (Unread(before, tail, used) + src)[k] {
      SlotIs(tail + k, size);
      if k >= used { assert after[Slot(tail + k, size)] == src[k - used]; }
    }
  }

  lemma Removed(cells: Str, head: nat, tail: nat, n: nat)
    requires head < |cells| && tail < |cells| && n <= Used(|cells|, head, tail)
    ensures var size := |cells|;
      var pos := Slot(tail + n, size);
      pos < size &&
      Unread(cells, tail, Used(size, head, tail)) ==
      Unread(cells, tail, n) + Unread(cells, pos, Used(size, head, pos))
  {
    hide Slot, Used;
    var size := |cells|;
    var used := Used(size, head, tail);
    UsedIs(size, head, tail);
    SlotIs(tail + n, size);
    var pos := Slot(tail + n, size);
    UsedIs(size, head, pos);
    forall k | 0 <= k < used
      ensures Unread(cells, tail, used)[k] == (Unread(cells, tail, n) + Unread(cells, pos, used - n))[k]
    {
      SlotIs(tail + k, size);
      if k >= n { SlotIs(pos + (k - n), size); }
    }
  }

  class RingBuf {
    const size: nat
    const buf: array<Byte>
    var head: nat
    var tail: nat

    ghost predicate Valid()
      reads this
    {
      size >= 2 && buf.Length == size && head < size && tail < size
    }

    ghost function Contents(): (s: Str)
      requires Valid()
      reads this, buf
      ensures |s| == Used(size, head, tail) < size
    {
      Unread(buf[..], tail, Used(size, head, tail))
    }

    constructor (capacity: nat)
      requires capacity > 0
      ensures Valid() && fresh(buf) && size == capacity + 1 && Contents() == []
    {
      size := capacity + 1;
      buf := new Byte[capacity + 1];
      head, tail := 0, 0;
    }

    method GetDataSize() returns (n: nat)
      requires Valid()
      ensures n == |Contents()|
    {
      return (head + size - tail) % size;
    }

    method GetFreeSize() returns (n: nat)
      requires Valid()
      ensures n == size - 1 - |Contents()|
    {
      return size - (head + size - tail) % size - 1;
    }

    /** All of src behind the contents, or nothing: -1 if src is empty or does not fit. */
    method Write(src: Str) returns (written: int)
      requires Valid()
      modifies `head, buf
      ensures Valid()
      ensures if src == [] || |src| > size - 1 - old(|Contents()|) then written == -1 && Contents() == old(Contents())
              else written == |src| && Contents() == old(Contents()) + src
    {
      hide Slot, Unread;
      if src == [] { return -1; }
      var used := (head + size - tail) % size;
      if size - used - 1 < |src| { return -1; }
      ghost var cells := buf[..];
      var pos := Slot(head + |src|, size);
      SlotIs(head + |src|, size);
      if pos >= head {
        CopyTo(head, src);
      } else {
        var remain := size - head;
        CopyTo(head, src[..remain]);
        CopyTo(0, src[remain..]);
      }
      assert Laid(cells, buf[..], head, src);
      Appended(cells, buf[..], head, tail, src);
      head := pos;
      return |src|;
    }

    method CopyTo(at: nat, src: Str)
      requires Valid() && at + |src| <= size
      modifies buf
      ensures forall i :: 0 <= i < size ==> buf[i] == if at <= i < at + |src| then src[i - at] else old(buf[i])
    {
      var i := 0;
      while i < |src|
        invariant i <= |src|
        invariant forall j :: 0 <= j < size ==> buf[j] == if at <= j < at + i then src[j - at] else old(buf[j])
      {
        buf[at + i] := src[i];
        i := i + 1;
      }
    }

    /** The oldest n bytes into dst, or nothing: -1 if n is not positive or more than there is. */
    method Read(dst: array<Byte>, n: int) returns (read: int)
      requires Valid() && dst != buf && n <= dst.Length
      modifies `tail, dst
      ensures Valid()
      ensures if n <= 0 || n > old(|Contents()|) then read == -1 && Contents() == old(Contents())
              else read == n && old(Contents()) == dst[..n] + Contents()
    {
      hide Slot;
      if n <= 0 { return -1; }
      var used := (head + size - tail) % size;
      if used < n { return -1; }
      var pos := Slot(tail + n, size);
      SlotIs(tail + n, size);
      if pos >= tail {
        CopyFrom(tail, dst, 0, n);
      } else {
        var remain := size - tail;
        CopyFrom(tail, dst, 0, remain);
        CopyFrom(0, dst, remain, n - remain);
      }
      Removed(buf[..], head, tail, n);
      forall k | 0 <= k < n ensures dst[..n][k] == Unread(buf[..], tail, n)[k] { SlotIs(tail + k, size); }
      tail := pos;
      return n;
    }

    method CopyFrom(at: nat, dst: array<Byte>, to: nat, n: nat)
      requires Valid() && dst != buf && at + n <= size && to + n <= dst.Length
      modifies dst
      ensures forall i :: 0 <= i < dst.Length ==>
        dst[i] == if to <= i < to + n then buf[at + (i - to)] else old(dst[i])
    {
      var i := 0;
      while i < n
        invariant i <= n
        invariant forall j :: 0 <= j < dst.Length ==>
          dst[j] == if to <= j < to + i then buf[at + (j - to)] else old(dst[j])
      {
        dst[to + i] := buf[at + i];
        i := i + 1;
      }
    }
  }
}
