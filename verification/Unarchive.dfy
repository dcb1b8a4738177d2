/**
  Unpacking the script bundle: `packUntar` (require.c), and that it undoes `pack`.
 */
module Unarchive {
  import opened Bytes
  import opened Ustar
  import opened Archive

  // ----- reading

  /** What unpacking comes to; Wild where a size field is no octal number, or past 32-bit arithmetic. */
  datatype Unpacked = Files(files: seq<File>) | Wild

  /** The bytes of a field up to its NUL. */
  function Text(field: seq<Byte>): seq<Byte> {
    if field == [] || field[0] == 0 then [] else [field[0]] + Text(field[1..])
  }

  function FieldOf(raw: seq<Byte>, off: nat, len: nat): seq<Byte>
    requires off + len <= |raw|
  {
    Text(raw[off..off + len])
  }

  lemma {:induction false} TextSplit(field: seq<Byte>, k: nat)
    requires k <= |field| && forall i :: 0 <= i < k ==> field[i] != 0
    ensures Text(field) == field[..k] + Text(field[k..])
  {
    if k > 0 {
      TextSplit(field[1..], k - 1);
      assert field[..k] == [field[0]] + field[1..][..k - 1] && field[1..][k - 1..] == field[k..];
    }
  }

  /** packStr */
  method PackStr(raw: seq<Byte>, off: nat, len: nat) returns (s: seq<Byte>)
    requires off + len <= |raw|
    ensures s == FieldOf(raw, off, len)
  {
    var end := off;
    while end < off + len && raw[end] != 0
      invariant off <= end <= off + len
      invariant forall i :: off <= i < end ==> raw[i] != 0
    {
      end := end + 1;
    }
    s := raw[off..end];
    ghost var field := raw[off..off + len];
    TextSplit(field, end - off);
    assert field[..end - off] == s;
  }

  predicate IsBlank(b: Byte) { 9 <= b <= 13 || b == SPACE }

  function TrimStart(s: seq<Byte>): seq<Byte> {
    if s != [] && IsBlank(s[0]) then TrimStart(s[1..]) else s
  }

  function TrimEnd(s: seq<Byte>): seq<Byte> {
    if s != [] && IsBlank(s[|s| - 1]) then TrimEnd(s[..|s| - 1]) else s
  }

  function OctPrefix(s: seq<Byte>): seq<Byte> {
    if s != [] && IsOct(s[0]) then [s[0]] + OctPrefix(s[1..]) else []
  }

  /** parseInt(field.trim() || "0", 8), when it is a number. */
  function SizeOf(field: seq<Byte>): (size: int)
    ensures size >= -1
  {
    var t := TrimEnd(TrimStart(field));
    if t == [] then 0 else if IsOct(t[0]) then ParseOct(OctPrefix(t)) else -1
  }

  /** raw.subarray(from, from + len): clamped to the bytes there are. */
  function Clamped(raw: seq<Byte>, from: nat, len: nat): seq<Byte> {
    if from >= |raw| then [] else if from + len <= |raw| then raw[from..from + len] else raw[from..]
  }

  function PathOf(raw: seq<Byte>, off: nat): seq<Byte>
    requires off + BLOCK <= |raw|
  {
    var prefix := FieldOf(raw, off + 345, 155);
    if prefix != [] then prefix + [SLASH] + FieldOf(raw, off, 100) else FieldOf(raw, off, 100)
  }

  function Also(files: seq<File>, u: Unpacked): Unpacked {
    if u.Wild? then u else Files(files + u.files)
  }

  /** What one turn of the loop comes to: the end, a number that is none, or a file at most and the next header. */
  datatype Turn = Stop | Lost | Turn(files: seq<File>, next: nat)

  function TurnAt(raw: seq<Byte>, off: nat): (t: Turn)
    ensures t.Turn? ==> off < t.next && off + BLOCK <= |raw|
  {
    if off + BLOCK > |raw| || raw[off] == 0 then Stop
    else
      var size := SizeOf(FieldOf(raw, off + 124, 12));
      if size < 0 || Round512(size) < 0 then Lost
      else
        Turn(if raw[off + 156] == 48 || raw[off + 156] == 0
             then [File(PathOf(raw, off), Clamped(raw, off + BLOCK, size))] else [],
             off + BLOCK + Round512(size))
  }

  function Untar(raw: seq<Byte>, off: nat): Unpacked
    decreases |raw| - off
  {
    match TurnAt(raw, off)
    case Stop => Files([])
    case Lost => Wild
    case Turn(files, next) => Also(files, Untar(raw, next))
  }

  /** The path of the header at `off`. */
  method ReadPath(raw: seq<Byte>, off: nat) returns (name: seq<Byte>)
    requires off + BLOCK <= |raw|
    ensures name == PathOf(raw, off)
  {
    name := PackStr(raw, off, 100);
    var prefix := PackStr(raw, off + 345, 155);
    if prefix != [] {
      name := prefix + [SLASH] + name;
    }
  }

  method ReadTurn(raw: seq<Byte>, off: nat) returns (t: Turn)
    ensures t == TurnAt(raw, off)
  {
    if off + BLOCK > |raw| || raw[off] == 0 { return Stop; }
    var name := ReadPath(raw, off);
    var field := PackStr(raw, off + 124, 12);
    var size, kind := SizeOf(field), raw[off + 156];
    if size < 0 || Round512(size) < 0 { return Lost; }
    if kind == 48 || kind == 0 {
      return Turn([File(name, Clamped(raw, off + BLOCK, size))], off + BLOCK + Round512(size));
    }
    return Turn([], off + BLOCK + Round512(size));
  }

  /** packUntar, with the files it writes. */
  method PackUntar(raw: seq<Byte>) returns (u: Unpacked)
    ensures u == Untar(raw, 0)
  {
    var off, files := 0, [];
    var turn := ReadTurn(raw, off);
    AlsoNothing(Untar(raw, 0));
    while turn.Turn?
      invariant turn == TurnAt(raw, off)
      invariant Untar(raw, 0) == Also(files, Untar(raw, off))
      decreases |raw| - off, turn.Turn?
    {
      AlsoTwice(files, turn.files, Untar(raw, turn.next));
      files := files + turn.files;
      off := turn.next;
      turn := ReadTurn(raw, off);
    }
    assert files + [] == files;
    return if turn.Lost? then Wild else Files(files);
  }

  lemma AlsoNothing(u: Unpacked)
    ensures Also([], u) == u
  {
    if u.Files? { assert [] + u.files == u.files; }
  }

  lemma AlsoTwice(a: seq<File>, b: seq<File>, u: Unpacked)
    ensures Also(a, Also(b, u)) == Also(a + b, u)
    ensures a + [] == a
  {
    if u.Files? { assert a + (b + u.files) == a + b + u.files; }
  }

  // ----- what is read of other archives

  predicate Blanks(s: seq<Byte>) { forall i :: 0 <= i < |s| ==> IsBlank(s[i]) }

  lemma {:induction false} TrimmedStart(a: seq<Byte>, s: seq<Byte>)
    requires Blanks(a) && (s != [] ==> !IsBlank(s[0]))
    ensures TrimStart(a + s) == s
  {
    if a == [] {
      assert a + s == s;
    } else {
      assert (a + s)[1..] == a[1..] + s;
      TrimmedStart(a[1..], s);
    }
  }

  lemma {:induction false} TrimmedEnd(s: seq<Byte>, b: seq<Byte>)
    requires Blanks(b) && (s != [] ==> !IsBlank(s[|s| - 1]))
    ensures TrimEnd(s + b) == s
  {
    if b == [] {
      assert s + b == s;
    } else {
      var last := |b| - 1;
      assert (s + b)[..|s + b| - 1] == s + b[..last];
      TrimmedEnd(s, b[..last]);
    }
  }

  /**
    A size field with blanks around what it says: nothing is zero, octal digits are a number up to the first byte that
    is none, and anything else is no number.
  */
  lemma PaddedReads(a: seq<Byte>, t: seq<Byte>, b: seq<Byte>)
    requires Blanks(a) && Blanks(b) && (t != [] ==> !IsBlank(t[0]) && !IsBlank(t[|t| - 1]))
    ensures SizeOf(a + t + b) == if t == [] then 0 else if IsOct(t[0]) then ParseOct(OctPrefix(t)) else -1
  {
    if t == [] {
      assert a + t == a;
      BlanksGo(a + b);
    } else {
      Trimmed(a, t, b);
    }
  }

  lemma Trimmed(a: seq<Byte>, t: seq<Byte>, b: seq<Byte>)
    requires Blanks(a) && Blanks(b) && t != [] && !IsBlank(t[0]) && !IsBlank(t[|t| - 1])
    ensures TrimEnd(TrimStart(a + t + b)) == t
  {
    var s := t + b;
    assert a + t + b == a + s && s[0] == t[0];
    TrimmedStart(a, s);
    TrimmedEnd(t, b);
  }

  lemma {:induction false} BlanksGo(s: seq<Byte>)
    requires Blanks(s)
    ensures TrimStart(s) == []
  {
    if s != [] { BlanksGo(s[1..]); }
  }

  /** An entry that is no regular file is passed over: the rest is read as if it were not there. */
  lemma OthersSkipped(raw: seq<Byte>, off: nat)
    requires TurnAt(raw, off).Turn? && raw[off + 156] != 48 && raw[off + 156] != 0
    ensures Untar(raw, off) == Untar(raw, TurnAt(raw, off).next)
  {
    AlsoNothing(Untar(raw, TurnAt(raw, off).next));
  }

  // ----- there and back

  /** A NUL-filled field reads back. */
  lemma FieldReads(field: seq<Byte>, s: seq<Byte>)
    requires |s| <= |field| && (forall i :: 0 <= i < |s| ==> s[i] != 0)
    requires forall i :: 0 <= i < |field| ==> field[i] == Filled(s, i)
    ensures Text(field) == s
  {
    TextSplit(field, |s|);
    assert field[..|s|] == s;
    assert s + [] == s;
  }

  lemma {:induction false} OctPrefixWhole(s: seq<Byte>)
    requires forall i :: 0 <= i < |s| ==> IsOct(s[i])
    ensures OctPrefix(s) == s
  {
    if s != [] { OctPrefixWhole(s[1..]); }
  }

  /** Every field of a header reads back what was written. */
  lemma HeaderReads(h: seq<Byte>, path: seq<Byte>, size: nat)
    requires PlainPath(path) && Fits(path) && size + 511 < 0x8000_0000 && h == Header(path, size)
    ensures h[0] != 0 && h[156] == 48
    ensures Text(h[0..100]) == NamePart(path) && Text(h[345..500]) == PrefixPart(path)
    ensures SizeOf(Text(h[124..136])) == size
  {
    PartsJoin(path);
    var f := HeaderFields(NamePart(path), PrefixPart(path), size);
    LayoutAt(f);
    assert h[0] == LayoutByte(f, 0);
    FieldReads(h[0..100], f.name);
    FieldReads(h[345..500], f.prefix);
    assert Pow8(11) == 8589934592;
    FieldWidth(size, 12);
    FieldReads(h[124..136], OctField(size, 12));
    SizeReads(size);
  }

  lemma SizeReads(size: nat)
    ensures SizeOf(OctField(size, 12)) == size
  {
    var d := OctField(size, 12);
    ParseField(size, 12);
    OctPrefixWhole(d);
    assert d != [];
    assert TrimStart(d) == d && TrimEnd(d) == d;
  }

  lemma {:induction false} EntriesLength(files: seq<File>)
    requires forall j :: 0 <= j < |files| ==> Packable(files[j])
    ensures |Entries(files)| == Length(files)
  {
    if files != [] {
      RoundExact(|files[|files| - 1].content|);
      EntriesLength(files[..|files| - 1]);
    }
  }

  /** `part` stands at `at`. */
  predicate Stands(raw: seq<Byte>, at: int, part: seq<Byte>) {
    0 <= at && at + |part| <= |raw| && raw[at..at + |part|] == part
  }

  lemma StandsFirst(a: seq<Byte>, b: seq<Byte>, at: int, part: seq<Byte>)
    requires Stands(a, at, part)
    ensures Stands(a + b, at, part)
  {
    assert (a + b)[at..at + |part|] == a[at..at + |part|];
  }

  lemma StandsSecond(a: seq<Byte>, b: seq<Byte>)
    ensures Stands(a + b, |a|, b)
  {
  }

  /** What stands in a part stands in the whole. */
  lemma StandsWithin(raw: seq<Byte>, at: int, part: seq<Byte>, i: int, piece: seq<Byte>)
    requires Stands(raw, at, part) && Stands(part, i, piece)
    ensures Stands(raw, at + i, piece)
  {
    forall k | 0 <= k < |piece| ensures raw[at + i..at + i + |piece|][k] == piece[k] {
      assert raw[at..at + |part|][i + k] == raw[at + (i + k)] && part[i..i + |piece|][k] == part[i + k];
    }
  }

  /** What a header has to read as for the entry behind it to come out. */
  predicate ReadsAs(h: seq<Byte>, path: seq<Byte>, size: nat) {
    && |h| == BLOCK && h[0] != 0 && h[156] == 48
    && path == (if Text(h[345..500]) != [] then Text(h[345..500]) + [SLASH] + Text(h[0..100]) else Text(h[0..100]))
    && SizeOf(Text(h[124..136])) == size
  }

  lemma HeaderReadsAs(path: seq<Byte>, size: nat)
    requires PlainPath(path) && Fits(path) && size + 511 < 0x8000_0000
    ensures ReadsAs(Header(path, size), path, size)
  {
    HeaderReads(Header(path, size), path, size);
    PartsJoin(path);
  }

  /** One turn of the loop, on an entry that stands at `off`. */
  lemma OneEntryReads(raw: seq<Byte>, off: nat, h: seq<Byte>, f: File)
    requires ReadsAs(h, f.path, |f.content|) && |f.content| + 511 < 0x8000_0000
    requires Stands(raw, off, h) && Stands(raw, off + BLOCK, f.content)
    ensures TurnAt(raw, off) == Turn([f], off + BLOCK + Round512(|f.content|))
  {
    RoundExact(|f.content|);
    assert raw[off] == raw[off..off + BLOCK][0] && raw[off + 156] == raw[off..off + BLOCK][156];
    StandsWithin(raw, off, h, 0, h[0..100]);
    StandsWithin(raw, off, h, 345, h[345..500]);
    StandsWithin(raw, off, h, 124, h[124..136]);
  }

  /** The parts of an entry. */
  lemma EntrySplit(f: File)
    requires Packable(f)
    ensures |Entry(f)| == BLOCK + Round512(|f.content|) && |f.content| <= Round512(|f.content|)
    ensures Stands(Entry(f), 0, Header(f.path, |f.content|)) && Stands(Entry(f), BLOCK, f.content)
  {
    RoundExact(|f.content|);
    var h, pad := Header(f.path, |f.content|), Blank(Round512(|f.content|) - |f.content|);
    StandsSecond([], h);
    assert [] + h == h;
    StandsFirst(h, f.content, 0, h);
    StandsFirst(h + f.content, pad, 0, h);
    StandsSecond(h, f.content);
    StandsFirst(h + f.content, pad, BLOCK, f.content);
  }

  /** The parts end to end. */
  ghost function Joined(parts: seq<seq<Byte>>): seq<Byte> {
    if parts == [] then [] else Joined(parts[..|parts| - 1]) + parts[|parts| - 1]
  }

  lemma {:induction false} PartPlaced(parts: seq<seq<Byte>>, i: nat)
    requires i < |parts|
    ensures Stands(Joined(parts), |Joined(parts[..i])|, parts[i])
    decreases |parts|
  {
    var n := |parts| - 1;
    if i < n {
      assert parts[..n][..i] == parts[..i];
      PartPlaced(parts[..n], i);
      StandsFirst(Joined(parts[..n]), parts[n], |Joined(parts[..i])|, parts[i]);
    } else {
      StandsSecond(Joined(parts[..n]), parts[n]);
    }
  }

  lemma {:induction false} EntriesJoined(files: seq<File>, parts: seq<seq<Byte>>)
    requires forall j :: 0 <= j < |files| ==> Packable(files[j])
    requires |parts| == |files| && forall j :: 0 <= j < |files| ==> parts[j] == Entry(files[j])
    ensures Entries(files) == Joined(parts)
  {
    if files != [] { EntriesJoined(files[..|files| - 1], parts[..|parts| - 1]); }
  }

  lemma EntryParts(files: seq<File>) returns (parts: seq<seq<Byte>>)
    requires forall j :: 0 <= j < |files| ==> Packable(files[j])
    ensures |parts| == |files| && forall j :: 0 <= j < |files| ==> parts[j] == Entry(files[j])
  {
    parts := seq(|files|, j requires 0 <= j < |files| => Entry(files[j]));
  }

  /** Entry i stands among the entries where those before it end. */
  lemma EntryPlaced(files: seq<File>, i: nat)
    requires i < |files| && forall j :: 0 <= j < |files| ==> Packable(files[j])
    ensures Stands(Entries(files), |Entries(files[..i])|, Entry(files[i]))
  {
    var parts := EntryParts(files);
    EntriesJoined(files, parts);
    EntriesJoined(files[..i], parts[..i]);
    PartPlaced(parts, i);
  }

  lemma LengthStep(files: seq<File>, m: nat)
    requires m < |files| && |files[m].content| + 511 < 0x8000_0000 && Length(files[..m]) >= 0
    ensures Length(files[..m + 1]) == Length(files[..m]) + BLOCK + Round512(|files[m].content|) >= 0
  {
    RoundExact(|files[m].content|);
    assert files[..m + 1][..m] == files[..m];
  }

  /** Header and bytes of a file, where its entry stands. */
  lemma FilePlaced(raw: seq<Byte>, at: int, f: File)
    requires Packable(f) && Stands(raw, at, Entry(f))
    ensures Stands(raw, at, Header(f.path, |f.content|)) && Stands(raw, at + BLOCK, f.content)
  {
    EntrySplit(f);
    StandsWithin(raw, at, Entry(f), 0, Header(f.path, |f.content|));
    StandsWithin(raw, at, Entry(f), BLOCK, f.content);
  }

  /** After the last entry the reader meets a zero byte. */
  lemma EndsAt(files: seq<File>)
    requires forall j :: 0 <= j < |files| ==> Packable(files[j])
    ensures 0 <= Length(files) && Untar(Tar(files), Length(files)) == Files([])
  {
    EntriesLength(files);
    StandsSecond(Entries(files), Blank(1024));
    assert Tar(files)[Length(files)] == Tar(files)[|Entries(files)|..|Entries(files)| + 1024][0];
  }

  lemma EntryReads(raw: seq<Byte>, at: nat, f: File)
    requires Packable(f) && Stands(raw, at, Entry(f))
    ensures TurnAt(raw, at) == Turn([f], at + BLOCK + Round512(|f.content|))
  {
    FilePlaced(raw, at, f);
    HeaderReadsAs(f.path, |f.content|);
    OneEntryReads(raw, at, Header(f.path, |f.content|), f);
  }

  lemma EntryInTar(files: seq<File>, i: nat)
    requires i < |files| && forall j :: 0 <= j < |files| ==> Packable(files[j])
    ensures Length(files[..i]) >= 0 && Stands(Tar(files), Length(files[..i]), Entry(files[i]))
  {
    EntryPlaced(files, i);
    StandsFirst(Entries(files), Blank(1024), |Entries(files[..i])|, Entry(files[i]));
    EntriesLength(files[..i]);
  }

  lemma TurnTakes(raw: seq<Byte>, off: nat, f: File, next: nat)
    requires TurnAt(raw, off) == Turn([f], next)
    ensures Untar(raw, off) == Also([f], Untar(raw, next))
  {
  }

  /** One turn of the loop takes the reader over one file. */
  lemma UntarStep(raw: seq<Byte>, files: seq<File>, i: nat)
    requires i < |files| && Packable(files[i])
    requires Length(files[..i]) >= 0 && Stands(raw, Length(files[..i]), Entry(files[i]))
    ensures Length(files[..i + 1]) >= 0
    ensures Untar(raw, Length(files[..i])) == Also([files[i]], Untar(raw, Length(files[..i + 1])))
  {
    EntryReads(raw, Length(files[..i]), files[i]);
    LengthStep(files, i);
    TurnTakes(raw, Length(files[..i]), files[i], Length(files[..i + 1]));
  }

  /** What the turns add up to. */
  lemma {:induction false} TurnsAddUp(files: seq<File>, u: seq<Unpacked>)
    requires |u| == |files| + 1 && u[|files|] == Files([])
    requires forall i :: 0 <= i < |files| ==> u[i] == Also([files[i]], u[i + 1])
    ensures u[0] == Files(files)
  {
    if files != [] {
      TurnsAddUp(files[1..], u[1..]);
      assert files == [files[0]] + files[1..];
    }
  }

  /** Unpacking what was packed gives the same files, paths and bytes, in the same order. */
  lemma RoundTrip(files: seq<File>)
    requires forall j :: 0 <= j < |files| ==> Packable(files[j])
    ensures Untar(Tar(files), 0) == Files(files)
  {
    var raw := Tar(files);
    forall i | 0 <= i <= |files| ensures Length(files[..i]) >= 0 { EntriesLength(files[..i]); }
    var u := seq(|files| + 1, i requires 0 <= i <= |files| => Untar(raw, Length(files[..i])));
    forall i | 0 <= i < |files| ensures u[i] == Also([files[i]], u[i + 1]) {
      EntryInTar(files, i);
      UntarStep(raw, files, i);
    }
    assert files[..|files|] == files;
    EndsAt(files);
    TurnsAddUp(files, u);
  }

  /** Every header of the archive carries its own checksum: six octal digits, NUL, space. */
  lemma ChecksumReads(path: seq<Byte>, size: nat)
    requires Fits(path)
    ensures var h := Header(path, size);
            && (forall i :: 148 <= i < 154 ==> IsOct(h[i])) && h[154] == 0 && h[155] == SPACE
            && ParseOct(h[148..154]) == Sum(h[..148] + SPACES + h[156..])
  {
    var f := HeaderFields(NamePart(path), PrefixPart(path), size);
    ChecksumFits(NamePart(path), PrefixPart(path), size);
    var h, blank := Layout(f), Layout(f.(chksum := SPACES));
    LayoutAt(f);
    LayoutAt(f.(chksum := SPACES));
    assert h[148..154] == f.chksum[..6];
    assert h[..148] + SPACES + h[156..] == blank;
  }
}
