module Bytes {
  /** An octet. */
  type Byte = x: int | 0 <= x < 256

  /** The bytes of s with [from, end) moved to `to`, overlap allowed. */
  function Moved(s: seq<Byte>, to: nat, from: nat, end: nat): (r: seq<Byte>)
    requires from <= end <= |s| && to + (end - from) <= |s|
    ensures |r| == |s|
  {
    s[..to] + s[from..end] + s[to + (end - from)..]
  }

  /** The bytes moved, and the others. */
  lemma MovedParts(s: seq<Byte>, to: nat, from: nat, end: nat)
    requires from <= end <= |s| && to + (end - from) <= |s|
    ensures var r := Moved(s, to, from, end);
            && r[to..to + (end - from)] == s[from..end]
            && r[..to] == s[..to] && r[to + (end - from)..] == s[to + (end - from)..]
  {
  }

  /** copyWithin of JavaScript's typed arrays, memmove of C. */
  method CopyWithin(a: array<Byte>, to: nat, from: nat, end: nat)
    requires from <= end <= a.Length && to + (end - from) <= a.Length
    modifies a
    ensures a[..] == Moved(old(a[..]), to, from, end)
  {
    forall k | 0 <= k < end - from {
      a[to + k] := a[from + k];
    }
    ghost var was := old(a[..]);
    forall i | 0 <= i < a.Length ensures a[i] == Moved(was, to, from, end)[i] {
      if to <= i < to + (end - from) { assert a[to + (i - to)] == was[from + (i - to)]; }
    }
  }
}
