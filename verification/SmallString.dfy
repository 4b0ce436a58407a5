/** The small-buffer string: a byte sequence kept in 24 bytes, or on the heap. */
module SmallString {
  import opened Common

  const LEN := 24
  const LAST := 23
  /** Bytes 0..15 of the buffer share their memory with the heap view. */
  const VIEW := 16
  /** Sizes are unsigned 32-bit. */
  const SIZE_LIMIT := 0x1_0000_0000

  /** memcpy of `src` to `dst + at`. */
  method CopyInto(dst: array<byte>, at: nat, src: seq<byte>)
    requires at + |src| <= dst.Length
    modifies dst
    ensures dst[..] == old(dst[..at]) + src + old(dst[at + |src|..])
  {
    forall i | 0 <= i < |src| { dst[at + i] := src[i]; }
  }

  class String {
    const buf: array<byte>
    var ptr: array?<byte>
    var size: nat
    var capacity: nat

    predicate OnStack()
      reads this, buf
      requires buf.Length == LEN
    {
      buf[LAST] < 128
    }

    /** On the stack the last byte holds how much room is left, so that a full buffer's size byte
        is its terminator; on the heap the block is larger than the text and terminated too. */
    ghost predicate Valid()
      reads this, buf, ptr
    {
      && buf.Length == LEN
      && if OnStack() then buf[LAST] <= 23 && buf[LAST - buf[LAST] as int] == 0
         else ptr != null && ptr != buf && ptr.Length == capacity < SIZE_LIMIT && size < capacity && ptr[size] == 0
    }

    /** The bytes before the terminator, NULs among them included. */
    ghost function Content(): seq<byte>
      reads this, buf, ptr
      requires Valid()
    {
      if OnStack() then buf[..LAST - buf[LAST] as int] else ptr[..size]
    }

    ghost function Blocks(): set<object>
      reads this, buf
      requires buf.Length == LEN
    {
      {this, buf} + if OnStack() || ptr == null then {} else {ptr}
    }

    method SetLast(room: nat)
      requires buf.Length == LEN && room < 256
      modifies buf
      ensures buf[..] == old(buf[..])[LAST := room as byte]
    {
      buf[LAST] := room as byte;
    }

    method SetOnHeap()
      requires buf.Length == LEN
      modifies buf
      ensures buf[..] == old(buf[..])[LAST := 128]
    {
      buf[LAST] := 128;
    }

    /** Writing the heap view destroys the buffer bytes it shares memory with. */
    method SetView(p: array<byte>, sz: nat, cap: nat)
      requires buf.Length == LEN && p != buf
      modifies `ptr, `size, `capacity, buf
      ensures ptr == p && size == sz && capacity == cap
      ensures buf[VIEW..] == old(buf[VIEW..])
    {
      ptr, size, capacity := p, sz, cap;
      for i := 0 to VIEW
        invariant buf[VIEW..] == old(buf[VIEW..]) && ptr == p && size == sz && capacity == cap
      {
        var overwritten: byte := *;
        buf[i] := overwritten;
      }
    }

    /** Room for `sz` bytes and a terminator; what was held before is not released here. */
    method Allocate(sz: nat) returns (dst: array<byte>)
      requires buf.Length == LEN && sz + 1 < SIZE_LIMIT
      modifies this, buf
      ensures sz <= LAST ==> dst == buf && OnStack() && buf[LAST] as int == LAST - sz && buf[sz] == 0
      ensures sz > LAST ==> !OnStack() && fresh(dst) && dst == ptr && dst.Length == sz + 1 && dst[sz] == 0
                            && size == sz && capacity == sz + 1
    {
      if sz <= LAST {
        buf[sz] := 0;
        SetLast(LAST - sz);
        dst := buf;
      } else {
        SetOnHeap();
        dst := new byte[sz + 1](_ => 0);
        SetView(dst, sz, sz + 1);
        assert buf[VIEW..][LAST - VIEW] == 128;
        dst[sz] := 0;
      }
    }

    /** Allocates for `text` and copies it in. */
    method Hold(text: seq<byte>)
      requires buf.Length == LEN && |text| + 1 < SIZE_LIMIT
      modifies this, buf
      ensures Valid() && Content() == text
      ensures |text| <= LAST <==> OnStack()
      ensures !OnStack() ==> fresh(ptr)
    {
      var dst := Allocate(|text|);
      ghost var before := dst[..];
      CopyInto(dst, 0, text);
      assert forall k :: |text| <= k < |before| ==> dst[..][k] == before[k];
      assert dst[..][..|text|] == text;
      assert dst[..|text|] == text;
    }

    constructor ()
      ensures Valid() && Content() == [] && OnStack() && fresh(Blocks())
    {
      buf := new byte[LEN](_ => 0);
      ptr, size, capacity := null, 0, 0;
      new;
      buf[0] := 0;
      SetLast(LAST);
    }

    constructor FromBytes(text: seq<byte>)
      requires |text| + 1 < SIZE_LIMIT
      ensures Valid() && Content() == text && fresh(Blocks())
      ensures OnStack() <==> |text| <= 23
    {
      buf := new byte[LEN](_ => 0);
      ptr, size, capacity := null, 0, 0;
      new;
      Hold(text);
    }

    /** Copies another string's text; both strings then own their own bytes. */
    method Copy(other: String)
      requires buf.Length == LEN && other.Valid() && other != this && buf !in other.Blocks()
      modifies this, buf
      ensures Valid() && Content() == old(other.Content()) && (!OnStack() ==> fresh(ptr))
      ensures other.Valid() && other.Content() == old(other.Content())
    {
      if other.OnStack() {
        CopyInto(buf, 0, other.buf[..]);
        assert buf[..] == other.buf[..];
        assert forall k :: 0 <= k < LEN ==> buf[k] == buf[..][k] == other.buf[..][k];
      } else {
        Hold(other.ptr[..other.size]);
      }
    }

    constructor CopyOf(other: String)
      requires other.Valid()
      ensures Valid() && Content() == other.Content() && fresh(Blocks())
    {
      buf := new byte[LEN](_ => 0);
      ptr, size, capacity := null, 0, 0;
      new;
      Copy(other);
    }

    /** Two strings own separate bytes; a string assigned to itself stays as it is. */
    method Assign(other: String)
      requires Valid() && other.Valid() && (other == this || Blocks() !! other.Blocks())
      modifies this, buf
      ensures Valid() && Content() == old(other.Content()) && fresh(Blocks() - old(Blocks()))
      ensures other.Valid() && other.Content() == old(other.Content())
    {
      if this != other { Copy(other); }
    }

    function Size(): (n: nat)
      reads this, buf, ptr
      requires Valid()
      ensures n == |Content()|
    {
      if OnStack() then LAST - (buf[LAST] % 32) as int else size
    }

    /** The text with its terminator, as c_str() gives it. */
    function CStr(): (text: seq<byte>)
      reads this, buf, ptr
      requires Valid()
      ensures text == Content() + [0]
    {
      if OnStack() then buf[..Size() + 1] else ptr[..size + 1]
    }

    /** `other` is another string; appending a string to itself is not covered. */
    method Append(other: String)
      requires Valid() && other.Valid() && Blocks() !! other.Blocks()
      requires |Content()| + |other.Content()| + 1 < SIZE_LIMIT
      modifies Blocks()
      ensures Valid() && Content() == old(Content()) + old(other.Content())
      ensures OnStack() <==> old(OnStack()) && |Content()| <= LAST
      ensures fresh(Blocks() - old(Blocks()))
      ensures other.Valid() && other.Content() == old(other.Content())
    {
      var totalSize := Size() + other.Size();
      if OnStack() {
        if totalSize < LEN { AppendOnStack(other.CStr()); } else { MoveToHeap(other.CStr()); }
      } else if capacity > totalSize {
        AppendInPlace(other.CStr());
      } else {
        Grow(other.CStr());
      }
    }

    method AppendOnStack(text: seq<byte>)
      requires Valid() && OnStack() && text != [] && text[|text| - 1] == 0 && Size() + |text| - 1 < LEN
      modifies buf
      ensures Valid() && OnStack() && Content() == old(Content()) + text[..|text| - 1]
    {
      var myOldSize := Size();
      var totalSize := myOldSize + |text| - 1;
      ghost var before := buf[..];
      CopyInto(buf, myOldSize, text);
      assert buf[..][totalSize] == 0;
      assert buf[..][..totalSize] == before[..myOldSize] + text[..|text| - 1];
      SetLast(LAST - totalSize);
      assert buf[..totalSize] == buf[..][..totalSize] == before[..myOldSize] + text[..|text| - 1];
      assert buf[totalSize] == buf[..][totalSize];
    }

    /** The text so far is copied out before the heap view overwrites it. */
    method MoveToHeap(text: seq<byte>)
      requires Valid() && OnStack() && text != [] && text[|text| - 1] == 0
      requires LEN <= Size() + |text| - 1 < SIZE_LIMIT - 1
      modifies this, buf
      ensures Valid() && !OnStack() && fresh(ptr) && Content() == old(Content()) + text[..|text| - 1]
    {
      var myOldSize := Size();
      var totalSize := myOldSize + |text| - 1;
      ghost var was := Content();
      var temp := new byte[totalSize + 1](_ => 0);
      CopyInto(temp, 0, buf[..myOldSize]);
      assert temp[..myOldSize] == temp[..][..myOldSize] == was;
      SetOnHeap();
      SetView(temp, totalSize, totalSize + 1);
      assert buf[VIEW..][LAST - VIEW] == 128;
      FillHeap(myOldSize, text);
    }

    method AppendInPlace(text: seq<byte>)
      requires Valid() && !OnStack() && text != [] && text[|text| - 1] == 0
      requires Size() + |text| - 1 < capacity
      modifies this, ptr
      ensures Valid() && !OnStack() && ptr == old(ptr) && Content() == old(Content()) + text[..|text| - 1]
    {
      var myOldSize := Size();
      size := myOldSize + |text| - 1;
      FillHeap(myOldSize, text);
    }

    /** The block doubles, modulo the width of a size, or takes just what is needed. */
    method Grow(text: seq<byte>)
      requires Valid() && !OnStack() && text != [] && text[|text| - 1] == 0
      requires capacity <= Size() + |text| - 1 < SIZE_LIMIT - 1
      modifies this
      ensures Valid() && !OnStack() && fresh(ptr) && Content() == old(Content()) + text[..|text| - 1]
    {
      var myOldSize := Size();
      var totalSize := myOldSize + |text| - 1;
      ghost var was := Content();
      capacity := capacity * 2 % SIZE_LIMIT;
      if capacity <= totalSize { capacity := totalSize + 1; }
      var temp := new byte[capacity](_ => 0);
      CopyInto(temp, 0, ptr[..myOldSize]);
      assert temp[..myOldSize] == temp[..][..myOldSize] == was;
      size := totalSize;
      ptr := temp;
      FillHeap(myOldSize, text);
    }

    /** Copies text and terminator behind the bytes already in the heap block. */
    method FillHeap(myOldSize: nat, text: seq<byte>)
      requires buf.Length == LEN && !OnStack() && ptr != null && ptr != buf && ptr.Length == capacity < SIZE_LIMIT
      requires text != [] && text[|text| - 1] == 0 && size == myOldSize + |text| - 1 < capacity
      modifies ptr
      ensures Valid() && !OnStack() && Content() == old(ptr[..myOldSize]) + text[..|text| - 1]
    {
      ghost var before := ptr[..myOldSize];
      CopyInto(ptr, myOldSize, text);
      assert ptr[..][size] == 0;
      assert ptr[..size] == ptr[..][..size] == before + text[..|text| - 1];
    }

    /** substr on an expiring string: the wanted bytes slide to the front. */
    method SubstrInPlace(pos: nat, cnt: nat)
      requires Valid() && pos <= |Content()|
      modifies Blocks()
      ensures Valid() && OnStack() == old(OnStack())
      ensures Content() == old(Content())[pos..if cnt < |old(Content())| - pos then pos + cnt else |old(Content())|]
    {
      var n := if cnt < Size() - pos then cnt else Size() - pos;
      var piece := CStr()[pos..pos + n];
      if OnStack() { CutOnStack(piece); } else { CutOnHeap(piece); }
    }

    method CutOnStack(piece: seq<byte>)
      requires Valid() && OnStack() && |piece| <= Size()
      modifies buf
      ensures Valid() && OnStack() && Content() == piece
    {
      CopyInto(buf, 0, piece);
      assert buf[..][..|piece|] == piece;
      buf[|piece|] := 0;
      SetLast(LAST - |piece|);
      assert buf[..|piece|] == buf[..][..|piece|] == piece;
      assert buf[|piece|] == buf[..][|piece|];
    }

    method CutOnHeap(piece: seq<byte>)
      requires Valid() && !OnStack() && |piece| <= Size()
      modifies this, ptr
      ensures Valid() && !OnStack() && ptr == old(ptr) && Content() == piece
    {
      CopyInto(ptr, 0, piece);
      assert ptr[..|piece|] == ptr[..][..|piece|] == piece;
      ptr[|piece|] := 0;
      size := |piece|;
    }

    /** The other string's bytes and heap block, taken over as they are. */
    method Adopt(other: String)
      requires buf.Length == LEN && other.Valid() && other != this && buf !in other.Blocks() && other.buf != buf
      modifies this, buf
      ensures Valid() && Content() == old(other.Content()) && OnStack() == old(other.OnStack())
      ensures ptr == old(other.ptr) && other.buf[..] == old(other.buf[..])
    {
      CopyInto(buf, 0, other.buf[..]);
      assert buf[..] == other.buf[..];
      assert forall k :: 0 <= k < LEN ==> buf[k] == buf[..][k] == other.buf[..][k];
      ptr, size, capacity := other.ptr, other.size, other.capacity;
    }

    method Clear()
      requires buf.Length == LEN
      modifies buf
      ensures Valid() && Content() == [] && OnStack()
    {
      buf[0] := 0;
      SetLast(LAST);
      assert buf[0] == buf[..][0];
    }

    /** The source's bytes move over, heap block and all, and the source is left empty. */
    method TakeFrom(other: String)
      requires buf.Length == LEN && other.Valid() && other != this && buf !in other.Blocks() && other.buf != buf
      modifies this, buf, other, other.buf
      ensures Valid() && Content() == old(other.Content())
      ensures other.Valid() && other.Content() == [] && other.OnStack()
      ensures !OnStack() ==> !old(other.OnStack()) && ptr == old(other.ptr)
    {
      Adopt(other);
      other.Clear();
    }

    constructor MoveFrom(other: String)
      requires other.Valid()
      modifies other, other.buf
      ensures Valid() && Content() == old(other.Content()) && fresh(Blocks() - old(other.Blocks()))
      ensures other.Valid() && other.Content() == [] && Blocks() !! other.Blocks()
    {
      buf := new byte[LEN](_ => 0);
      ptr, size, capacity := null, 0, 0;
      new;
      TakeFrom(other);
    }

    method MoveAssign(other: String)
      requires Valid() && other.Valid() && (other == this || Blocks() !! other.Blocks())
      modifies this, buf, other, other.buf
      ensures Valid() && Content() == old(other.Content()) && Blocks() <= {this, buf} + old(other.Blocks())
      ensures other.Valid() && (other != this ==> other.Content() == [] && Blocks() !! other.Blocks())
    {
      if this != other { TakeFrom(other); }
    }
  }

  /** lhs + rhs: a copy of one, the other appended. */
  method Concatenate(lhs: String, rhs: String) returns (both: String)
    requires lhs.Valid() && rhs.Valid() && |lhs.Content()| + |rhs.Content()| + 1 < SIZE_LIMIT
    ensures both.Valid() && both.Content() == lhs.Content() + rhs.Content() && fresh(both.Blocks())
  {
    both := new String.CopyOf(lhs);
    both.Append(rhs);
  }
}
