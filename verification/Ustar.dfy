/**
  The ustar headers both ends of the script bundle share: numeric fields in octal, the field layout of the
  POSIX ustar interchange format, and the checksum (jsrcpack.js, require.c).
 */
module Ustar {
  import opened Bytes

  const ZERO_DIGIT: Byte := 48
  const SPACE: Byte := 32
  const SLASH: Byte := 47
  const BLOCK: nat := 512

  // ----- octal numbers

  /** n.toString(8) */
  function OctDigits(n: nat): (s: seq<Byte>)
    ensures s != [] && forall i :: 0 <= i < |s| ==> IsOct(s[i])
  {
    if n < 8 then [48 + n] else OctDigits(n / 8) + [48 + n % 8]
  }

  predicate IsOct(b: Byte) { 48 <= b < 56 }

  function Zeros(n: nat): (s: seq<Byte>)
    ensures |s| == n && forall i :: 0 <= i < n ==> s[i] == ZERO_DIGIT
  {
    seq(n, _ => ZERO_DIGIT)
  }

  /** A numeric field: at least width - 1 digits. */
  function OctField(n: nat, width: nat): (s: seq<Byte>)
    ensures forall i :: 0 <= i < |s| ==> IsOct(s[i])
  {
    var d := OctDigits(n);
    if |d| < width - 1 then Zeros(width - 1 - |d|) + d else d
  }

  /** parseInt(s, 8) on octal digits. */
  function ParseOct(s: seq<Byte>): nat {
    if s == [] then 0
    else
      var last := s[|s| - 1];
      if IsOct(last) then ParseOct(s[..|s| - 1]) * 8 + (last - 48) else ParseOct(s[..|s| - 1])
  }

  lemma {:induction false} ParseDigits(n: nat)
    ensures ParseOct(OctDigits(n)) == n
  {
    if n >= 8 {
      ParseDigits(n / 8);
      assert OctDigits(n)[..|OctDigits(n)| - 1] == OctDigits(n / 8);
    }
  }

  lemma {:induction false} ParseZeros(k: nat, d: seq<Byte>)
    requires forall i :: 0 <= i < |d| ==> IsOct(d[i])
    ensures ParseOct(Zeros(k) + d) == ParseOct(d)
    decreases |d|, k
  {
    if d == [] {
      assert Zeros(k) + d == Zeros(k);
      if k > 0 {
        assert Zeros(k)[..k - 1] == Zeros(k - 1) + d;
        ParseZeros(k - 1, d);
      }
    } else {
      assert (Zeros(k) + d)[..k + |d| - 1] == Zeros(k) + d[..|d| - 1];
      ParseZeros(k, d[..|d| - 1]);
    }
  }

  /** Reading a numeric field back gives the number. */
  lemma ParseField(n: nat, width: nat)
    ensures ParseOct(OctField(n, width)) == n
  {
    ParseDigits(n);
    if |OctDigits(n)| < width - 1 { ParseZeros(width - 1 - |OctDigits(n)|, OctDigits(n)); }
  }

  function Pow8(k: nat): nat { if k == 0 then 1 else 8 * Pow8(k - 1) }

  /** A number below 8^k, k >= 1, has at most k digits. */
  lemma {:induction false} DigitCount(n: nat, k: nat)
    requires k >= 1 && n < Pow8(k)
    ensures |OctDigits(n)| <= k
    decreases k
  {
    if n >= 8 { DigitCount(n / 8, k - 1); }
  }

  /** Within range, a field is exactly width - 1 digits. */
  lemma FieldWidth(n: nat, width: nat)
    requires width >= 2 && n < Pow8(width - 1)
    ensures |OctField(n, width)| == width - 1
  {
    DigitCount(n, width - 1);
  }

  // ----- the layout of a header

  /** The fields that vary; chksum is all eight bytes of its field. */
  datatype Fields = Fields(name: seq<Byte>, prefix: seq<Byte>, size: nat, chksum: seq<Byte>)

  /** Byte i of a field that holds s, NUL-filled. */
  function Filled(s: seq<Byte>, i: int): Byte {
    if 0 <= i < |s| then s[i] else 0
  }

  const MAGIC: seq<Byte> := [117, 115, 116, 97, 114]  // "ustar"

  function LayoutByte(f: Fields, i: nat): Byte {
    if i < 100 then Filled(f.name, i)
    else if i < 108 then Filled(OctField(420, 8), i - 100)
    else if i < 116 then Filled(OctField(0, 8), i - 108)
    else if i < 124 then Filled(OctField(0, 8), i - 116)
    else if i < 136 then Filled(OctField(f.size, 12), i - 124)
    else if i < 148 then Filled(OctField(0, 12), i - 136)
    else if i < 156 then Filled(f.chksum, i - 148)
    else if i == 156 then ZERO_DIGIT
    else if i < 257 then 0
    else if i < 263 then Filled(MAGIC, i - 257)
    else if i < 265 then ZERO_DIGIT
    else if i < 345 then 0
    else if i < 500 then Filled(f.prefix, i - 345)
    else 0
  }

  /** The first k bytes of the header. */
  function LayoutTo(f: Fields, k: nat): (h: seq<Byte>)
    ensures |h| == k
  {
    if k == 0 then [] else LayoutTo(f, k - 1) + [LayoutByte(f, k - 1)]
  }

  function Layout(f: Fields): (h: seq<Byte>)
    ensures |h| == BLOCK
  {
    LayoutTo(f, BLOCK)
  }

  lemma {:induction false} LayoutToAt(f: Fields, k: nat)
    ensures forall i :: 0 <= i < k ==> LayoutTo(f, k)[i] == LayoutByte(f, i)
  {
    if k > 0 { LayoutToAt(f, k - 1); }
  }

  lemma LayoutAt(f: Fields)
    ensures forall i :: 0 <= i < BLOCK ==> Layout(f)[i] == LayoutByte(f, i)
  {
    LayoutToAt(f, BLOCK);
  }

  /** Bytes `at` and on of the header are s, then NULs up to `to`. */
  ghost predicate Says(h: seq<Byte>, at: nat, s: seq<Byte>, to: nat) {
    && at + |s| <= to <= |h| && h[at..at + |s|] == s
    && forall i :: at + |s| <= i < to ==> h[i] == 0
  }

  /**
    The fields that are the same in every header: mode 0000644, owner and group 0000000, time 00000000000, type flag 0,
    magic ustar with its NUL, version 00; and nothing where there is no field.
  */
  lemma LayoutConstants(f: Fields)
    ensures var h := Layout(f);
            && Says(h, 100, [48, 48, 48, 48, 54, 52, 52], 108)
            && Says(h, 108, [48, 48, 48, 48, 48, 48, 48], 116) && Says(h, 116, [48, 48, 48, 48, 48, 48, 48], 124)
            && Says(h, 136, [48, 48, 48, 48, 48, 48, 48, 48, 48, 48, 48], 148)
            && Says(h, 156, [48], 257) && Says(h, 257, [117, 115, 116, 97, 114], 263)
            && Says(h, 263, [48, 48], 345) && Says(h, 500, [], 512)
  {
    LayoutAt(f);
    OctalConstants();
  }

  lemma OctalConstants()
    ensures OctField(420, 8) == [48, 48, 48, 48, 54, 52, 52]
    ensures OctField(0, 8) == [48, 48, 48, 48, 48, 48, 48]
    ensures OctField(0, 12) == [48, 48, 48, 48, 48, 48, 48, 48, 48, 48, 48]
  {
  }

  function Sum(s: seq<Byte>): nat {
    if s == [] then 0 else Sum(s[..|s| - 1]) + s[|s| - 1]
  }

  lemma {:induction false} SumBound(s: seq<Byte>)
    ensures Sum(s) <= 255 * |s|
  {
    if s != [] { SumBound(s[..|s| - 1]); }
  }

  const SPACES: seq<Byte> := [32, 32, 32, 32, 32, 32, 32, 32]

  /** The checksum of a header: the sum of its bytes with the checksum field taken as spaces. */
  function Checksum(f: Fields): nat {
    Sum(Layout(f.(chksum := SPACES)))
  }

  /** Six digits, NUL, space. */
  function ChecksumField(sum: nat): seq<Byte> { OctField(sum, 7) + [0, SPACE] }

  function HeaderFields(name: seq<Byte>, prefix: seq<Byte>, size: nat): Fields {
    var f := Fields(name, prefix, size, SPACES);
    f.(chksum := ChecksumField(Checksum(f)))
  }

  /** The checksum always fits six digits, and reading it back gives the sum. */
  lemma ChecksumFits(name: seq<Byte>, prefix: seq<Byte>, size: nat)
    ensures var f := HeaderFields(name, prefix, size);
            |f.chksum| == 8 && ParseOct(f.chksum[..6]) == Checksum(f)
  {
    var f := Fields(name, prefix, size, SPACES);
    SumBound(Layout(f));
    assert Pow8(6) == 262144;
    FieldWidth(Checksum(f), 7);
    ParseField(Checksum(f), 7);
    assert ChecksumField(Checksum(f))[..6] == OctField(Checksum(f), 7);
  }

  // ----- paths that fit a header

  /** Where a long path splits: a slash that leaves at most 155 bytes before it and 100 after. */
  predicate CanCut(path: seq<Byte>, i: nat) {
    i < |path| && path[i] == SLASH && i <= 155 && |path| - i - 1 <= 100
  }

  /** The first such slash, or |path|. */
  function FirstCut(path: seq<Byte>, from: nat): (i: nat)
    requires from <= |path|
    ensures from <= i <= |path|
    ensures i < |path| ==> CanCut(path, i)
    ensures forall j :: from <= j < i ==> !CanCut(path, j)
    decreases |path| - from
  {
    if from == |path| || CanCut(path, from) then from else FirstCut(path, from + 1)
  }

  /** The paths `header` accepts. */
  predicate Fits(path: seq<Byte>) {
    |path| <= 100 || FirstCut(path, 0) < |path|
  }

  function NamePart(path: seq<Byte>): seq<Byte>
    requires Fits(path)
  {
    if |path| <= 100 then path else path[FirstCut(path, 0) + 1..]
  }

  function PrefixPart(path: seq<Byte>): seq<Byte>
    requires Fits(path)
  {
    if |path| <= 100 then [] else path[..FirstCut(path, 0)]
  }

  function Header(path: seq<Byte>, size: nat): seq<Byte>
    requires Fits(path)
  {
    Layout(HeaderFields(NamePart(path), PrefixPart(path), size))
  }

  /** A path as readdir lists it: relative, not a directory, plain ASCII without NUL. */
  predicate PlainPath(path: seq<Byte>) {
    && path != [] && path[0] != SLASH && path[|path| - 1] != SLASH
    && forall i :: 0 <= i < |path| ==> 0 < path[i] < 128
  }

  /** The two parts are NUL-free, fit their fields, and join to the path again. */
  lemma PartsJoin(path: seq<Byte>)
    requires PlainPath(path) && Fits(path)
    ensures var n, p := NamePart(path), PrefixPart(path);
            && 1 <= |n| <= 100 && |p| <= 155
            && (forall i :: 0 <= i < |n| ==> n[i] != 0) && (forall i :: 0 <= i < |p| ==> p[i] != 0)
            && path == (if p == [] then n else p + [SLASH] + n)
  {
  }
}
