/**
  The byte cursor of buf.c: an array split into PAST (consumed), DATA (the payload) and IDLE (free).
  A grown buffer gets a new array, as without the mapped-backing hook.
 */
module Buffer {
  import opened Bytes

  /** What an operation throws, if anything. */
  datatype Thrown = Fine | BadArg | NoRoom | NoData

  function Overlaid(s: seq<Byte>, at: nat, src: seq<Byte>): seq<Byte>
    requires at + |src| <= |s|
  {
    s[..at] + src + s[at + |src|..]
  }

  /** set of JavaScript's typed arrays. */
  method SetBytes(a: array<Byte>, at: nat, src: seq<Byte>)
    requires at + |src| <= a.Length
    modifies a
    ensures a[..] == Overlaid(old(a[..]), at, src)
  {
    for i := 0 to |src|
      invariant forall k :: 0 <= k < a.Length ==> a[k] == if at <= k < at + i then src[k - at] else old(a[k])
    {
      a[at + i] := src[i];
    }
  }

  /** A splice, on the array: the tail is moved, then the paste is read and put in. */
  method Replace(a: array<Byte>, front: nat, idle: nat, off: nat, cut: nat, src: array<Byte>, lo: nat, hi: nat)
    requires front + off + cut <= idle <= a.Length && lo <= hi <= src.Length && idle + (hi - lo) - cut <= a.Length
    modifies a
    ensures a[..] == Overlaid(Moved(old(a[..]), front + off + (hi - lo), front + off + cut, idle), front + off,
                              Pasted(old(src[..]), src == a, front, idle, off, cut, lo, hi))
  {
    var paste := MoveAndRead(a, front, idle, off, cut, src, lo, hi);
    SetBytes(a, front + off, paste);
  }

  /** The tail moved, and the paste as it then is. */
  method MoveAndRead(a: array<Byte>, front: nat, idle: nat, off: nat, cut: nat, src: array<Byte>, lo: nat, hi: nat)
    returns (paste: seq<Byte>)
    requires front + off + cut <= idle <= a.Length && lo <= hi <= src.Length && idle + (hi - lo) - cut <= a.Length
    modifies a
    ensures a[..] == Moved(old(a[..]), front + off + (hi - lo), front + off + cut, idle)
    ensures paste == Pasted(old(src[..]), src == a, front, idle, off, cut, lo, hi) && |paste| == hi - lo
  {
    ghost var was, src' := a[..], src[..];
    MoveTail(a, src, front + off + (hi - lo), front + off + cut, idle);
    PasteIs(was, src', src == a, front, idle, off, cut, lo, hi, src[..]);
    paste := src[..][lo..hi];
  }

  lemma PasteIs(was: seq<Byte>, src: seq<Byte>, self: bool, front: nat, idle: nat, off: nat, cut: nat, lo: nat, hi: nat,
                now: seq<Byte>)
    requires front + off + cut <= idle <= |was| && lo <= hi <= |src| && idle + (hi - lo) - cut <= |was|
    requires self ==> was == src
    requires now == if self then Moved(was, front + off + (hi - lo), front + off + cut, idle) else src
    ensures now[lo..hi] == Pasted(src, self, front, idle, off, cut, lo, hi)
  {
  }

  /** The move, as seen in any array. */
  method MoveTail(a: array<Byte>, src: array<Byte>, to: nat, from: nat, end: nat)
    requires from <= end <= a.Length && to + (end - from) <= a.Length
    modifies a
    ensures a[..] == Moved(old(a[..]), to, from, end)
    ensures src[..] == if src == a then Moved(old(a[..]), to, from, end) else old(src[..])
  {
    CopyWithin(a, to, from, end);
  }

  /** What that makes of the bytes from front to idle. */
  method ReplaceData(a: array<Byte>, front: nat, idle: nat, off: nat, cut: nat, src: array<Byte>, lo: nat, hi: nat)
    requires front + off + cut <= idle <= a.Length && lo <= hi <= src.Length && idle + (hi - lo) - cut <= a.Length
    modifies a
    ensures a[..][front..idle + (hi - lo) - cut] ==
            Spliced(old(a[..])[front..idle], off, cut, Pasted(old(src[..]), src == a, front, idle, off, cut, lo, hi))
  {
    ghost var was, paste := a[..], Pasted(src[..], src == a, front, idle, off, cut, lo, hi);
    Replace(a, front, idle, off, cut, src, lo, hi);
    SpliceData(was, Moved(was, front + off + (hi - lo), front + off + cut, idle), a[..], front, idle, off, cut, paste);
  }

  class Buf {
    var bytes: array<Byte>
    var front: nat
    var idle: nat
    var cap: nat

    predicate Valid()
      reads this
    {
      front <= idle <= cap == bytes.Length
    }

    ghost function Data(): seq<Byte>
      requires Valid()
      reads this, bytes
    {
      bytes[front..idle]
    }

    function Size(): nat
      requires Valid()
      reads this
    {
      idle - front
    }

    function Room(): nat
      requires Valid()
      reads this
    {
      cap - idle
    }

    /** Buf.into: every byte is IDLE. */
    constructor Into(n: nat)
      ensures Valid() && fresh(bytes) && cap == n && Data() == []
    {
      bytes := new Byte[n](_ => 0);
      front, idle, cap := 0, 0, n;
    }

    /** Buf.over: every byte is DATA. */
    constructor Over(a: array<Byte>)
      ensures Valid() && bytes == a && Data() == a[..]
    {
      bytes := a;
      front, idle, cap := 0, a.Length, a.Length;
    }

    method Feed(src: seq<Byte>) returns (thrown: Thrown)
      requires Valid()
      modifies this`idle, bytes
      ensures Valid() && thrown == (if |src| <= old(Room()) then Fine else NoRoom)
      ensures if thrown == Fine then Data() == old(Data()) + src && bytes[..front] == old(bytes[..front])
              else idle == old(idle) && bytes[..] == old(bytes[..])
    {
      if |src| > Room() { return NoRoom; }
      SetBytes(bytes, idle, src);
      idle := idle + |src|;
      return Fine;
    }

    /** Commits n bytes that were written into IDLE by hand. */
    method Fed(n: int) returns (thrown: Thrown)
      requires Valid()
      modifies this`idle
      ensures Valid() && thrown == (if 0 <= n <= old(Room()) then Fine else BadArg)
      ensures if thrown == Fine then Data() == old(Data()) + old(bytes[idle..])[..n] else idle == old(idle)
    {
      if n < 0 || n > Room() { return BadArg; }
      assert bytes[front..idle + n] == Data() + bytes[idle..][..n];
      idle := idle + n;
      return Fine;
    }

    /** take and skip: the front n bytes of DATA become PAST. */
    method Take(n: int) returns (thrown: Thrown, taken: seq<Byte>)
      requires Valid()
      modifies this`front
      ensures Valid() && thrown == (if 0 <= n <= old(Size()) then Fine else BadArg)
      ensures if thrown == Fine then |taken| == n && old(Data()) == taken + Data()
              else front == old(front) && taken == []
    {
      if n < 0 || n > Size() { return BadArg, []; }
      taken := bytes[front..front + n];
      assert bytes[front..idle] == taken + bytes[front + n..idle];
      front := front + n;
      return Fine, taken;
    }

    /** The last n bytes of DATA become IDLE. */
    method Shed(n: int) returns (thrown: Thrown)
      requires Valid()
      modifies this`idle
      ensures Valid() && thrown == (if 0 <= n <= old(Size()) then Fine else BadArg)
      ensures if thrown == Fine then |Data()| == old(Size()) - n && Data() <= old(Data()) else idle == old(idle)
    {
      if n < 0 || n > Size() { return BadArg; }
      idle := idle - n;
      return Fine;
    }

    method Pop() returns (thrown: Thrown, b: Byte)
      requires Valid()
      modifies this`idle
      ensures Valid() && thrown == (if old(Size()) > 0 then Fine else NoData)
      ensures if thrown == Fine then old(Data()) == Data() + [b] else idle == old(idle)
    {
      if idle == front { return NoData, 0; }
      idle := idle - 1;
      assert bytes[front..idle + 1] == bytes[front..idle] + [bytes[idle]];
      return Fine, bytes[idle];
    }

    method Reset()
      requires Valid()
      modifies this`front, this`idle
      ensures Valid() && Data() == [] && Room() == cap
    {
      front, idle := 0, 0;
    }

    /** Compacts: DATA moves to the front of the array. */
    method Shift()
      requires Valid()
      modifies this`front, this`idle, bytes
      ensures Valid() && Data() == old(Data()) && front == 0
    {
      if front == 0 { return; }
      CopyWithin(bytes, 0, front, idle);
      idle := idle - front;
      front := 0;
    }

    /** A larger array with the same PAST and DATA; a smaller n does nothing. */
    method Grow(n: nat)
      requires Valid()
      modifies this`bytes, this`cap
      ensures Valid() && cap == (if n <= old(cap) then old(cap) else n)
      ensures Data() == old(Data()) && bytes[..front] == old(bytes[..front])
      ensures bytes == old(bytes) || fresh(bytes)
    {
      if n <= cap { return; }
      var nb := new Byte[n](_ => 0);
      SetBytes(nb, 0, bytes[..idle]);
      assert nb[..idle] == bytes[..idle];
      assert nb[front..idle] == nb[..idle][front..] && bytes[front..idle] == bytes[..idle][front..];
      assert nb[..front] == nb[..idle][..front] && bytes[..front] == bytes[..idle][..front];
      bytes := nb;
      cap := n;
    }

    /**
      Replaces `cut` bytes of DATA from `off` on by bytes [lo, hi) of `src`.  The tail is moved before the
      paste is read, so a paste that lies in this very array is read after the move.
     */
    method Splice(off: int, cut: int, src: array<Byte>, lo: nat, hi: nat) returns (thrown: Thrown)
      requires Valid() && lo <= hi <= src.Length
      modifies this`idle, bytes
      ensures Valid()
      ensures thrown == if off < 0 || cut < 0 || off + cut > old(Size()) then BadArg
                        else if hi - lo - cut > old(Room()) then NoRoom else Fine
      ensures thrown != Fine ==> idle == old(idle) && bytes[..] == old(bytes[..])
      ensures thrown == Fine ==>
        Data() == Spliced(old(Data()), off, cut, Pasted(old(src[..]), src == bytes, front, old(idle), off, cut, lo, hi))
    {
      if off < 0 || cut < 0 || off + cut > Size() { return BadArg; }
      var len := hi - lo;
      if len - cut > Room() { return NoRoom; }
      ReplaceData(bytes, front, idle, off, cut, src, lo, hi);
      idle := idle + len - cut;
      return Fine;
    }
  }

  /** What a splice pastes: bytes [lo, hi) of the source, after the move when the source is the array itself. */
  function Pasted(src: seq<Byte>, self: bool, front: nat, idle: nat, off: nat, cut: nat, lo: nat, hi: nat)
    : (r: seq<Byte>)
    requires front + off + cut <= idle && lo <= hi <= |src|
    requires self ==> idle + (hi - lo) - cut <= |src| && idle <= |src|
    ensures |r| == hi - lo
  {
    if self then Moved(src, front + off + (hi - lo), front + off + cut, idle)[lo..hi] else src[lo..hi]
  }

  /** `cut` elements from `off` on replaced. */
  function Spliced(data: seq<Byte>, off: nat, cut: nat, paste: seq<Byte>): seq<Byte>
    requires off + cut <= |data|
  {
    data[..off] + paste + data[off + cut..]
  }

  lemma SpliceData(was: seq<Byte>, moved: seq<Byte>, after: seq<Byte>, front: nat, idle: nat, off: nat, cut: nat,
                   paste: seq<Byte>)
    requires front + off + cut <= idle <= |was| && idle + |paste| - cut <= |was|
    requires moved == Moved(was, front + off + |paste|, front + off + cut, idle)
    requires after == Overlaid(moved, front + off, paste)
    ensures after[front..idle + |paste| - cut] == Spliced(was[front..idle], off, cut, paste)
  {
    var at, end := front + off, idle + |paste| - cut;
    MovedParts(was, at + |paste|, at + cut, idle);
    assert moved[..at] == was[..at] by { assert moved[..at + |paste|][..at] == moved[..at]; }
    assert after[..at] == was[..at];
    assert after[front..at] == after[..at][front..] && was[front..idle][..off] == was[..at][front..];
    assert after[at..at + |paste|] == paste;
    assert after[at + |paste|..end] == moved[at + |paste|..end] == was[at + cut..idle] == was[front..idle][off + cut..];
    assert after[front..end] == after[front..at] + after[at..at + |paste|] + after[at + |paste|..end];
  }

  /** No byte of the paste is moved over: there is none, or none moves, or the tail lands elsewhere. */
  predicate Unmoved(front: nat, idle: nat, off: nat, cut: nat, lo: nat, hi: nat) {
    || lo >= hi || hi - lo == cut || front + off + cut == idle
    || hi <= front + off + (hi - lo) || idle + (hi - lo) - cut <= lo
  }

  /**
    The paste of a buffer's own bytes comes out as the caller saw it, whatever they are, exactly when none is
    moved over.
  */
  lemma PasteKept(n: nat, front: nat, idle: nat, off: nat, cut: nat, lo: nat, hi: nat)
    requires front + off + cut <= idle <= n && lo <= hi <= n && idle + (hi - lo) - cut <= n
    ensures (forall src: seq<Byte> | |src| == n :: Pasted(src, true, front, idle, off, cut, lo, hi) == src[lo..hi])
            <==> Unmoved(front, idle, off, cut, lo, hi)
  {
    if Unmoved(front, idle, off, cut, lo, hi) {
      forall src: seq<Byte> | |src| == n ensures Pasted(src, true, front, idle, off, cut, lo, hi) == src[lo..hi] {
        PasteUnmoved(src, front, idle, off, cut, lo, hi);
      }
    } else {
      var src := PasteMoved(n, front, idle, off, cut, lo, hi);
    }
  }

  lemma PasteUnmoved(src: seq<Byte>, front: nat, idle: nat, off: nat, cut: nat, lo: nat, hi: nat)
    requires front + off + cut <= idle <= |src| && lo <= hi <= |src| && idle + (hi - lo) - cut <= |src|
    requires Unmoved(front, idle, off, cut, lo, hi)
    ensures Pasted(src, true, front, idle, off, cut, lo, hi) == src[lo..hi]
  {
    var to, past := front + off + (hi - lo), idle + (hi - lo) - cut;
    var m := Moved(src, to, front + off + cut, idle);
    MovedParts(src, to, front + off + cut, idle);
    if lo == hi {
      assert m[lo..hi] == [] == src[lo..hi];
    } else if hi - lo == cut || front + off + cut == idle {
      assert m == src;
    } else if hi <= to {
      SliceOfFront(m, src, to, lo, hi);
    } else {
      forall k | lo <= k < hi ensures m[k] == src[k] {
        assert m[past..][k - past] == src[past..][k - past];
      }
      assert m[lo..hi] == src[lo..hi];
    }
  }

  /** Otherwise a byte of the paste that is moved over shows it. */
  lemma PasteMoved(n: nat, front: nat, idle: nat, off: nat, cut: nat, lo: nat, hi: nat) returns (src: seq<Byte>)
    requires front + off + cut <= idle <= n && lo <= hi <= n && idle + (hi - lo) - cut <= n
    requires !Unmoved(front, idle, off, cut, lo, hi)
    ensures |src| == n && Pasted(src, true, front, idle, off, cut, lo, hi) != src[lo..hi]
  {
    var from, to := front + off + cut, front + off + (hi - lo);
    var k := if lo < to then to else lo;
    src := seq(n, i => if i == k then 1 else 0);
    var m := Moved(src, to, from, idle);
    MovedParts(src, to, from, idle);
    assert m[to..to + (idle - from)][k - to] == src[from..idle][k - to] == src[from + (k - to)] == 0;
    assert m[k] == 0 && src[k] == 1;
    assert m[lo..hi][k - lo] != src[lo..hi][k - lo];
  }

  lemma SliceOfFront(s: seq<Byte>, t: seq<Byte>, n: nat, lo: nat, hi: nat)
    requires lo <= hi <= n <= |s| && n <= |t| && s[..n] == t[..n]
    ensures s[lo..hi] == t[lo..hi]
  {
    forall k | lo <= k < hi ensures s[k] == t[k] {
      assert s[..n][k] == t[..n][k];
    }
  }

  /** A buffer spliced with its own tail: the move has run over the paste before it is read. */
  lemma SelfPaste()
    ensures Pasted([1, 2, 3, 4, 0, 0], true, 0, 4, 0, 0, 2, 4) == [1, 2] != [1, 2, 3, 4, 0, 0][2..4]
  {
    assert Moved([1, 2, 3, 4, 0, 0], 2, 0, 4) == [1, 2, 1, 2, 3, 4];
    assert [1, 2, 1, 2, 3, 4][2..4] == [1, 2];
    assert [1, 2, 3, 4, 0, 0][2..4] == [3, 4];
  }
}
