/** src/buffer.cc, src/include/buffer.h: a growable byte queue with headroom. */
module Buffers {
  import opened Bytes

  /** What memmove leaves, read in the old array: bytes [dst, dst + n) come from [src, src + n). */
  ghost predicate Moved(was: string, now: string, dst: nat, src: nat, n: nat)
  {
    && |now| == |was|
    && dst + n <= |was| && src + n <= |was|
    && now[dst..dst + n] == was[src..src + n]
    && now[..dst] == was[..dst]
    && now[dst + n..] == was[dst + n..]
  }

  /** memmove onto a lower address: ascending, so an overlapped source is read before it is hit. */
  method MoveDown(a: array<char>, dst: nat, src: nat, n: nat)
    requires dst <= src && src + n <= a.Length
    modifies a
    ensures Moved(old(a[..]), a[..], dst, src, n)
  {
    ghost var was := a[..];
    for i := 0 to n
      invariant forall k :: dst <= k < dst + i ==> a[k] == was[k - dst + src]
      invariant forall k :: 0 <= k < a.Length && !(dst <= k < dst + i) ==> a[k] == was[k]
    {
      a[dst + i] := a[src + i];
    }
  }

  /** memmove onto a higher address: descending. */
  method MoveUp(a: array<char>, dst: nat, src: nat, n: nat)
    requires src <= dst && dst + n <= a.Length
    modifies a
    ensures Moved(old(a[..]), a[..], dst, src, n)
  {
    ghost var was := a[..];
    for i := n downto 0
      invariant forall k :: dst + i <= k < dst + n ==> a[k] == was[k - dst + src]
      invariant forall k :: 0 <= k < a.Length && !(dst + i <= k < dst + n) ==> a[k] == was[k]
    {
      a[dst + i] := a[src + i];
    }
  }

  /** std::copy of `bytes` into the vector at `at`. */
  method CopyIn(a: array<char>, at: nat, bytes: string)
    requires at + |bytes| <= a.Length
    modifies a
    ensures a[at..at + |bytes|] == bytes
    ensures a[..at] == old(a[..at]) && a[at + |bytes|..] == old(a[at + |bytes|..])
  {
    forall k | 0 <= k < |bytes| {
      a[at + k] := bytes[k];
    }
  }

  class Buffer {
    var data: array<char>
    var head: nat
    var tail: nat
    const prepend: nat

    ghost predicate Valid()
      reads this
    {
      head <= tail <= data.Length
    }

    /** The abstract value: the readable bytes. */
    ghost function Contents(): string
      requires Valid()
      reads this, data
    {
      data[head..tail]
    }

    constructor (initialSize: nat := 1024, prependSize: nat := 8)
      requires initialSize >= prependSize
      ensures Valid() && fresh(data)
      ensures Contents() == "" && prepend == prependSize == head && data.Length == initialSize
    {
      data := new char[initialSize];
      head, tail, prepend := prependSize, prependSize, prependSize;
    }

    function ReadableBytes(): (n: nat)
      requires Valid()
      reads this, data
      ensures n == |Contents()|
    {
      tail - head
    }

    function WriteableBytes(): nat
      requires Valid()
      reads this
    {
      data.Length - (tail - head)
    }

    predicate Empty()
      requires Valid()
      reads this, data
      ensures Empty() <==> Contents() == ""
    {
      head == tail
    }

    method Pop(size: nat)
      requires Valid() && size <= |Contents()|
      modifies this`head
      ensures Valid() && Contents() == old(Contents())[size..]
    {
      head := head + size;
    }

    /** The assert at buffer.cc:57 is the precondition. */
    method MoveTo(index: nat)
      requires Valid() && index + |Contents()| <= data.Length
      modifies this`head, this`tail, data
      ensures Valid() && Contents() == old(Contents()) && head == index
    {
      if head == index { return; }
      ghost var was := data[..];
      ghost var n := tail - head;
      if index <= head {
        MoveDown(data, index, head, tail - head);
      } else {
        MoveUp(data, index, head, tail - head);
      }
      assert data[index..index + n] == data[..][index..index + n] == was[head..tail];
      tail := index + tail - head;
      head := index;
    }

    /** `slack` is how far vector::capacity() exceeds the requested size, which line 50 then claims. */
    method EnsureWritableSpace(size: nat, slack: nat)
      requires Valid()
      modifies this, data
      ensures Valid() && Contents() == old(Contents())
      ensures tail + size <= data.Length
      ensures data == old(data) || fresh(data)
      ensures old(data.Length) - |Contents()| - prepend < size
              ==> head == old(head) && data.Length == size + old(tail) + old(data.Length) + slack
      ensures old(data.Length) - |Contents()| - prepend >= size
              ==> head == prepend && data == old(data)
    {
      if WriteableBytes() - prepend < size {
        var grown := new char[size + tail + data.Length + slack](_ => '\0');
        forall k | 0 <= k < data.Length {
          grown[k] := data[k];
        }
        assert grown[head..tail] == data[head..tail];
        data := grown;
      } else {
        MoveTo(prepend);
      }
    }

    method Append(bytes: string, slack: nat := 0)
      requires Valid()
      modifies this, data
      ensures Valid() && Contents() == old(Contents()) + bytes
      ensures data == old(data) || fresh(data)
      ensures head == old(head) || head == prepend
    {
      EnsureWritableSpace(|bytes|, slack);
      PutAtTail(bytes);
    }

    method PutAtTail(bytes: string)
      requires Valid() && tail + |bytes| <= data.Length
      modifies this`tail, data
      ensures Valid() && Contents() == old(Contents()) + bytes && tail == old(tail) + |bytes|
    {
      ghost var was := data[..];
      CopyIn(data, tail, bytes);
      assert data[head..tail] == data[..tail][head..] == was[..tail][head..];
      tail := tail + |bytes|;
      assert data[head..tail] == data[head..tail - |bytes|] + data[tail - |bytes|..tail];
    }

    /** readv into the free tail and then a 64 KiB stack block. `received` is what the kernel
        delivered, None is a negative return; the result is what ReadFd returns. */
    method ReadFd(received: Option<string>, slack: nat := 0) returns (ret: int)
      requires Valid()
      requires received.Some? ==> |received.value| <= data.Length - tail + 65535
      modifies this, data
      ensures Valid()
      ensures data == old(data) || fresh(data)
      ensures received.None? ==> ret < 0 && Contents() == old(Contents())
      ensures received.Some? ==>
                ret == |received.value| && Contents() == old(Contents()) + received.value
    {
      if received.None? { return -1; }
      var bytes := received.value;
      var room := data.Length - tail;
      var direct := if |bytes| <= room then |bytes| else room;
      PutAtTail(bytes[..direct]);
      assert direct == |bytes| ==> bytes[..direct] == bytes;
      if |bytes| > room {
        Append(bytes[room..], slack);
        assert bytes == bytes[..room] + bytes[room..];
        assert old(Contents()) + bytes[..room] + bytes[room..] == old(Contents()) + bytes;
      }
      ret := |bytes|;
    }

    /** Shrink runs MoveTo, whose assert fails when headroom and contents do not fit together:
        possible once Prepend has used the headroom. False means that assert failed. */
    method Shrink() returns (ok: bool)
      requires Valid()
      modifies this, data
      ensures Valid() && Contents() == old(Contents())
      ensures data == old(data) || fresh(data)
      ensures ok <==> prepend + |old(Contents())| <= old(data.Length)
      ensures ok ==> head == prepend && data.Length == tail
    {
      if prepend + (tail - head) > data.Length { return false; }
      MoveTo(prepend);
      var shrunk := new char[tail](
        k requires 0 <= k < tail reads this, data => if k < data.Length then data[k] else '\0');
      assert shrunk[head..tail] == data[head..tail];
      data := shrunk;
      ok := true;
    }

    /** Line 70 copies to `data_.data() - head_`, not `+ head_`. False is a copy that left the
        vector (undefined behaviour in C++). The contract is exact: Prepend works if and only if
        it uses up all the headroom, or writes nothing. */
    method Prepend(bytes: string) returns (inBounds: bool)
      requires Valid() && |bytes| <= head
      modifies this`head, data
      ensures Valid() && head == old(head) - |bytes|
      ensures inBounds <==> bytes == "" || |bytes| == old(head)
      ensures inBounds ==> Contents() == bytes + old(Contents())
      ensures !inBounds ==> data[..] == old(data[..])
    {
      ghost var was := data[..];
      head := head - |bytes|;
      if bytes == "" {
        assert bytes + Contents() == Contents();
        return true;
      }
      var destination := -(head as int);
      if destination < 0 { return false; }
      CopyIn(data, destination, bytes);
      assert data[|bytes|..tail] == data[|bytes|..][..tail - |bytes|] == was[|bytes|..][..tail - |bytes|];
      assert data[head..tail] == data[..|bytes|] + data[|bytes|..tail];
      inBounds := true;
    }

    method StartWith(bytes: string) returns (yes: bool)
      requires Valid()
      ensures yes <==> bytes <= Contents()
    {
      if tail - head < |bytes| { return false; }
      assert Contents()[..|bytes|] == data[head..head + |bytes|];
      yes := data[head..head + |bytes|] == bytes;
    }

    /** string_view{begin(), size}. */
    method View(size: nat) returns (view: string)
      requires Valid() && size <= |Contents()|
      ensures view == Contents()[..size]
    {
      view := data[head..head + size];
    }

    /** memmem: the offset of the first match, or -1. */
    method FirstOf(pattern: string) returns (r: int)
      requires Valid()
      ensures r == Find(Contents(), pattern)
    {
      var text := data[head..tail];
      var i := 0;
      while i + |pattern| <= |text|
        invariant 0 <= i <= |text| + 1
        invariant forall k: nat :: k < i ==> !MatchAt(text, pattern, k)
      {
        if text[i..i + |pattern|] == pattern {
          FindIs(text, pattern, i);
          return i;
        }
        i := i + 1;
      }
      FindNone(text, pattern);
      r := -1;
    }

    method ContainsByte(ch: char) returns (yes: bool)
      requires Valid()
      ensures yes <==> ch in Contents()
    {
      var i := head;
      while i < tail
        invariant head <= i <= tail
        invariant forall k :: head <= k < i ==> data[k] != ch
      {
        if data[i] == ch {
          assert Contents()[i - head] == ch;
          return true;
        }
        i := i + 1;
      }
      yes := false;
    }
  }
}
