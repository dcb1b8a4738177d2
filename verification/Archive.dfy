/**
  The script bundle: `pack` lays the files out as a ustar archive in one zeroed buffer (jsrcpack.js), and
  `packUntar` reads it back (require.c).  Deflating and hashing the archive, and the file system around
  it, are outside.
 */
module Archive {
  import opened Bytes
  import opened Ustar

  datatype File = File(path: seq<Byte>, content: seq<Byte>)

  // ----- the arithmetic of padding

  /** JavaScript's conversion of a whole number to 32 bits. */
  function ToInt32(n: int): int {
    var m := n % 0x1_0000_0000;
    if m < 0x8000_0000 then m else m - 0x1_0000_0000
  }

  /** (n + 511) & ~511 */
  function Round512(n: nat): (r: int) {
    var t := ToInt32(n + 511);
    t - t % 512
  }

  /** The rounding is right exactly while n + 511 stays below 2^31. */
  lemma RoundExact(n: nat)
    ensures n + 511 < 0x8000_0000 <==> n <= Round512(n)
    ensures n + 511 < 0x8000_0000 ==> Round512(n) < n + 512 && Round512(n) % 512 == 0
  {
    var t := ToInt32(n + 511);
    assert Round512(n) <= t < 0x8000_0000;
    if n < 0x8000_0000 { assert (n + 511) % 0x1_0000_0000 == n + 511; }
  }

  /** The files pack and packUntar agree on. */
  predicate Packable(f: File) {
    PlainPath(f.path) && Fits(f.path) && |f.content| + 511 < 0x8000_0000
  }

  // ----- writing

  function Blank(n: nat): (s: seq<Byte>)
    ensures |s| == n && forall i :: 0 <= i < n ==> s[i] == 0
  {
    seq(n, _ => 0)
  }

  function Entry(f: File): seq<Byte>
    requires Packable(f)
  {
    RoundExact(|f.content|);
    Header(f.path, |f.content|) + f.content + Blank(Round512(|f.content|) - |f.content|)
  }

  function Entries(files: seq<File>): seq<Byte>
    requires forall i :: 0 <= i < |files| ==> Packable(files[i])
  {
    if files == [] then [] else Entries(files[..|files| - 1]) + Entry(files[|files| - 1])
  }

  /** The whole archive: the entries and two zero blocks. */
  function Tar(files: seq<File>): seq<Byte>
    requires forall i :: 0 <= i < |files| ==> Packable(files[i])
  {
    Entries(files) + Blank(1024)
  }

  /** The octal function of jsrcpack.js: pads on the left, one zero at a time. */
  method Octal(n: nat, width: nat) returns (s: seq<Byte>)
    ensures s == OctField(n, width)
  {
    s := OctDigits(n);
    ghost var k := 0;
    while |s| < width - 1
      invariant s == Zeros(k) + OctDigits(n)
      invariant k > 0 ==> |s| <= width - 1
      decreases width - |s|
    {
      s := [ZERO_DIGIT] + s;
      k := k + 1;
      assert Zeros(k) == [ZERO_DIGIT] + Zeros(k - 1);
    }
  }

  /** Bytes lo..hi of the buffer hold `want`, the others what they held before. */
  ghost predicate Wrote(before: seq<Byte>, after: seq<Byte>, at: nat, want: seq<Byte>) {
    && |after| == |before| && at + |want| <= |after|
    && forall i :: 0 <= i < |after| ==> after[i] == if at <= i < at + |want| then want[i - at] else before[i]
  }

  method Put(dst: array<Byte>, at: nat, str: seq<Byte>)
    requires at + |str| <= dst.Length
    modifies dst
    ensures Wrote(old(dst[..]), dst[..], at, str)
  {
    for i := 0 to |str|
      invariant forall j :: 0 <= j < dst.Length ==> dst[j] == if at <= j < at + i then str[j - at] else old(dst[j])
    {
      dst[at + i] := str[i];
    }
  }

  /** The search of `header` for the slash to split a long path at. */
  method FindCut(path: seq<Byte>) returns (cut: int)
    ensures cut == if FirstCut(path, 0) < |path| then FirstCut(path, 0) else -1
  {
    cut := -1;
    var i := 0;
    while i < |path| && cut < 0
      invariant 0 <= i <= |path|
      invariant if cut < 0 then cut == -1 && FirstCut(path, 0) == FirstCut(path, i)
                else cut < |path| && FirstCut(path, 0) == cut
      decreases |path| - i, -cut
    {
      if path[i] == SLASH && i <= 155 && |path| - i - 1 <= 100 {
        cut := i;
      } else {
        i := i + 1;
      }
    }
  }

  // ----- one header

  /** The first k bytes of the header at `off` are laid out, the rest of it is blank, nothing else changed. */
  ghost predicate LaidOut(before: seq<Byte>, after: seq<Byte>, off: nat, f: Fields, k: nat) {
    && |after| == |before| && off + BLOCK <= |after| && k <= BLOCK
    && (forall i :: off <= i < off + BLOCK ==> after[i] == if i - off < k then LayoutByte(f, i - off) else 0)
    && forall i :: 0 <= i < |after| && !(off <= i < off + BLOCK) ==> after[i] == before[i]
  }

  /** One field of the header, the next in order; `next` is where the field after it starts. */
  method PutField(dst: array<Byte>, off: nat, at: nat, str: seq<Byte>, next: nat, ghost before: seq<Byte>,
                  ghost f: Fields)
    requires LaidOut(before, dst[..], off, f, at) && at + |str| <= next <= BLOCK
    requires forall i :: at <= i < next ==> LayoutByte(f, i) == Filled(str, i - at)
    modifies dst
    ensures LaidOut(before, dst[..], off, f, next)
  {
    Put(dst, off + at, str);
  }

  /** Every field but the checksum, whose bytes are spaces for the time being. */
  method PutFields(dst: array<Byte>, off: nat, name: seq<Byte>, prefix: seq<Byte>, size: nat)
    requires off + BLOCK <= dst.Length && forall i :: off <= i < off + BLOCK ==> dst[i] == 0
    requires |name| <= 100 && |prefix| <= 155 && size < Pow8(11)
    modifies dst
    ensures LaidOut(old(dst[..]), dst[..], off, Fields(name, prefix, size, SPACES), BLOCK)
  {
    ghost var f, was := Fields(name, prefix, size, SPACES), dst[..];
    var mode := Octal(420, 8);
    var none := Octal(0, 8);
    var bytes := Octal(size, 12);
    var mtime := Octal(0, 12);
    FieldWidths(size);
    PutField(dst, off, 0, name, 100, was, f);
    PutField(dst, off, 100, mode, 108, was, f);
    PutField(dst, off, 108, none, 116, was, f);
    PutField(dst, off, 116, none, 124, was, f);
    PutField(dst, off, 124, bytes, 136, was, f);
    PutField(dst, off, 136, mtime, 148, was, f);
    PutField(dst, off, 148, SPACES, 156, was, f);
    PutField(dst, off, 156, [ZERO_DIGIT], 257, was, f);
    PutField(dst, off, 257, MAGIC, 263, was, f);
    PutField(dst, off, 263, [ZERO_DIGIT, ZERO_DIGIT], 345, was, f);
    PutField(dst, off, 345, prefix, BLOCK, was, f);
  }

  lemma FieldWidths(size: nat)
    requires size < Pow8(11)
    ensures |OctField(420, 8)| == 7 && |OctField(0, 8)| == 7 && |OctField(size, 12)| == 11 && |OctField(0, 12)| == 11
  {
    assert Pow8(7) == 2097152 && Pow8(11) > 0;
    FieldWidth(420, 8); FieldWidth(0, 8); FieldWidth(size, 12); FieldWidth(0, 12);
  }

  /** The sum of the header's bytes. */
  method SumBytes(dst: array<Byte>, off: nat) returns (sum: nat)
    requires off + BLOCK <= dst.Length
    ensures sum == Sum(dst[off..off + BLOCK])
  {
    sum := 0;
    for i := 0 to BLOCK
      invariant sum == Sum(dst[off..off + i])
    {
      assert dst[off..off + i + 1] == dst[off..off + i] + [dst[off + i]];
      sum := sum + dst[off + i];
    }
  }

  /** header(dst, off, name, size); false for the path it throws at. */
  method WriteHeader(dst: array<Byte>, off: nat, path: seq<Byte>, size: nat) returns (ok: bool)
    requires off + BLOCK <= dst.Length && forall i :: off <= i < off + BLOCK ==> dst[i] == 0
    requires size < Pow8(11)
    modifies dst
    ensures ok == Fits(path)
    ensures if ok then Wrote(old(dst[..]), dst[..], off, Header(path, size)) else dst[..] == old(dst[..])
  {
    var prefix, name := [], path;
    if |path| > 100 {
      var cut := FindCut(path);
      if cut < 0 { return false; }
      prefix, name := path[..cut], path[cut + 1..];
    }
    ghost var f, was := Fields(name, prefix, size, SPACES), dst[..];
    PutFields(dst, off, name, prefix, size);
    LayoutAt(f);
    assert dst[off..off + BLOCK] == Layout(f);
    var sum := SumBytes(dst, off);
    ChecksumFits(name, prefix, size);
    var digits := Octal(sum, 7);
    ghost var mid := dst[..];
    Put(dst, off + 148, digits + [0, SPACE]);
    HeaderDone(was, mid, dst[..], off, f, HeaderFields(name, prefix, size));
    return true;
  }

  /** With the checksum put over the spaces, the header is whole. */
  lemma HeaderDone(was: seq<Byte>, mid: seq<Byte>, after: seq<Byte>, off: nat, f: Fields, done: Fields)
    requires LaidOut(was, mid, off, f, BLOCK) && done == f.(chksum := done.chksum) && |done.chksum| == 8
    requires Wrote(mid, after, off + 148, done.chksum)
    ensures Wrote(was, after, off, Layout(done))
  {
    LayoutAt(done);
    forall i | 0 <= i < BLOCK && !(148 <= i < 156) ensures LayoutByte(done, i) == LayoutByte(f, i) {
    }
    assert forall i :: off <= i < off + BLOCK ==> after[i] == LayoutByte(done, i - off);
  }

  // ----- the archive

  /** The bytes the entries take. */
  function Length(files: seq<File>): int {
    if files == [] then 0
    else Length(files[..|files| - 1]) + 512 + Round512(|files[|files| - 1].content|)
  }

  /** The longest typed array the engine makes. */
  const ARRAY_MAX: nat := 0x7FFF_FFFF

  predicate SizesOk(files: seq<File>) {
    forall i :: 0 <= i < |files| ==> |files[i].content| + 511 < 0x8000_0000
  }

  lemma {:induction false} LengthGrows(files: seq<File>, i: nat)
    requires SizesOk(files) && i < |files|
    ensures 0 <= Length(files[..i])
    ensures Length(files[..i]) + 512 + Round512(|files[i].content|) <= Length(files)
    decreases |files|
  {
    var n := |files| - 1;
    RoundExact(|files[i].content|);
    RoundExact(|files[n].content|);
    if i < n {
      assert files[..n][..i] == files[..i];
      LengthGrows(files[..n], i);
    } else {
      LengthPositive(files[..n]);
    }
  }

  lemma {:induction false} LengthPositive(files: seq<File>)
    requires SizesOk(files)
    ensures 0 <= Length(files)
  {
    if files != [] {
      RoundExact(|files[|files| - 1].content|);
      LengthPositive(files[..|files| - 1]);
    }
  }

  /** Header and bytes put behind `before` into a blank buffer make the entry. */
  lemma EntryWritten(before: seq<Byte>, f: File, b0: seq<Byte>, b1: seq<Byte>, b2: seq<Byte>)
    requires Packable(f) && |before| + |Entry(f)| <= |b0|
    requires b0 == before + Blank(|b0| - |before|)
    requires Wrote(b0, b1, |before|, Header(f.path, |f.content|)) && Wrote(b1, b2, |before| + 512, f.content)
    ensures b2 == before + Entry(f) + Blank(|b0| - |before| - |Entry(f)|)
  {
    var r := before + Entry(f) + Blank(|b0| - |before| - |Entry(f)|);
    RoundExact(|f.content|);
    assert |b2| == |r|;
    forall i | 0 <= i < |r| ensures b2[i] == r[i] {
      if |before| <= i < |before| + |Entry(f)| { assert r[i] == Entry(f)[i - |before|]; }
    }
  }

  /**
    One entry behind what is written already: the header, then the bytes.  A buffer too short for it, as it is
    where the padding of some size went wrong, makes a copy throw: of these bytes, or of that file's.
  */
  method WriteEntry(buffer: array<Byte>, off: nat, f: File, ghost before: seq<Byte>) returns (ok: bool)
    requires PlainPath(f.path) && |before| == off && buffer.Length <= ARRAY_MAX
    requires off <= buffer.Length && buffer[..] == before + Blank(buffer.Length - off)
    modifies buffer
    ensures ok == (Packable(f) && off + 512 + Round512(|f.content|) <= buffer.Length)
    ensures ok ==> off + |Entry(f)| <= buffer.Length &&
                   buffer[..] == before + Entry(f) + Blank(buffer.Length - off - |Entry(f)|)
  {
    RoundExact(|f.content|);
    assert Pow8(11) == 8589934592;
    if off + 512 + |f.content| > buffer.Length || off + 512 + Round512(|f.content|) > buffer.Length { return false; }
    ghost var b0 := buffer[..];
    assert forall i :: off <= i < off + BLOCK ==> b0[i] == 0;
    ok := WriteHeader(buffer, off, f.path, |f.content|);
    if ok {
      ghost var b1 := buffer[..];
      if |f.content| > 0 {
        Put(buffer, off + 512, f.content);
      }
      EntryWritten(before, f, b0, b1, buffer[..]);
    }
  }

  /** The size of the buffer. */
  method TotalSize(files: seq<File>) returns (raw: int)
    ensures raw == 1024 + Length(files)
  {
    raw := 1024;
    for i := 0 to |files|
      invariant raw == 1024 + Length(files[..i])
    {
      assert files[..i + 1][..i] == files[..i];
      raw := raw + 512 + Round512(|files[i].content|);
    }
    assert files[..|files|] == files;
  }

  ghost predicate Holds(buffer: seq<Byte>, files: seq<File>) {
    && (forall j :: 0 <= j < |files| ==> Packable(files[j]))
    && |Entries(files)| == Length(files) <= |buffer|
    && buffer == Entries(files) + Blank(|buffer| - Length(files))
  }

  lemma FilledNext(buffer: seq<Byte>, buffer': seq<Byte>, files: seq<File>, i: nat)
    requires i < |files| && Holds(buffer, files[..i]) && Packable(files[i]) && |buffer'| == |buffer|
    requires Length(files[..i]) + |Entry(files[i])| <= |buffer|
    requires buffer' == Entries(files[..i]) + Entry(files[i]) + Blank(|buffer| - Length(files[..i]) - |Entry(files[i])|)
    ensures Holds(buffer', files[..i + 1])
    ensures Length(files[..i + 1]) == Length(files[..i]) + 512 + Round512(|files[i].content|)
  {
    RoundExact(|files[i].content|);
    assert files[..i + 1][..i] == files[..i];
    assert files[..i + 1][i] == files[i];
  }

  ghost predicate AllPackable(files: seq<File>) {
    forall i :: 0 <= i < |files| ==> Packable(files[i])
  }

  /**
    pack: the buffer is sized first, then filled entry by entry.  None is returned exactly when a path does not
    fit, a size is too large to be padded in 32 bits, or the engine makes no array that large.
  */
  method Pack(files: seq<File>) returns (tar: array?<Byte>)
    requires forall i :: 0 <= i < |files| ==> PlainPath(files[i].path)
    ensures tar == null <==> !AllPackable(files) || 1024 + Length(files) > ARRAY_MAX
    ensures tar != null ==> fresh(tar) && AllPackable(files) && tar[..] == Tar(files)
  {
    var raw := TotalSize(files);
    if SizesOk(files) { LengthPositive(files); }
    if raw < 0 || raw > ARRAY_MAX { return null; }
    tar := new Byte[raw](_ => 0);
    assert tar[..] == Entries(files[..0]) + Blank(raw);
    var off, i, ok := 0, 0, true;
    while i < |files| && ok
      invariant 0 <= i <= |files| && tar != null && fresh(tar) && tar.Length == raw
      invariant ok ==> off == Length(files[..i]) && 0 <= off && Holds(tar[..], files[..i])
      invariant !ok ==> !AllPackable(files)
      decreases |files| - i, ok
    {
      ok := PackOne(tar, off, files, i);
      if ok {
        off := off + 512 + Round512(|files[i].content|);
        i := i + 1;
      }
    }
    if !ok { return null; }
    assert files[..|files|] == files;
  }

  method PackOne(tar: array<Byte>, off: nat, files: seq<File>, i: nat) returns (ok: bool)
    requires i < |files| && PlainPath(files[i].path)
    requires tar.Length == 1024 + Length(files) <= ARRAY_MAX && off == Length(files[..i]) && Holds(tar[..], files[..i])
    modifies tar
    ensures !ok ==> !AllPackable(files)
    ensures ok ==> Holds(tar[..], files[..i + 1])
    ensures ok ==> 0 <= off + 512 + Round512(|files[i].content|) == Length(files[..i + 1])
  {
    if SizesOk(files) { LengthGrows(files, i); }
    RoundExact(|files[i].content|);
    assert files[..i + 1][..i] == files[..i] && files[..i + 1][i] == files[i];
    ghost var was := tar[..];
    ok := WriteEntry(tar, off, files[i], Entries(files[..i]));
    if ok { FilledNext(was, tar[..], files, i); }
  }
}
