/**
 * The Psion bitmap codec of lib/psibitmap.cpp: it writes 2 bits per pixel, four grey values to a byte, rows
 * padded to a multiple of four bytes; it reads 1, 2, 4 or 8 bits per pixel, raw or run-length encoded.
 */
module Bitmap {
  import opened Bytes
  import opened BufferStores

  const HEADER: nat := 40
  const WRAP: nat := 0x1_0000_0000          // uint32_t arithmetic
  const INT_MAX: nat := 0x7fff_ffff

  // ---------------------------------------------------------------- decoding pixels

  /** The depths that fill a byte. */
  predicate Depth(bits: nat) {
    bits == 1 || bits == 2 || bits == 4 || bits == 8
  }

  /** 8 / bitsPerPixel. */
  function PerByte(bits: nat): (n: nat)
    ensures n > 0 && (Depth(bits) ==> n * bits == 8)
  {
    if bits == 1 then 8 else if bits == 2 then 4 else if bits == 4 then 2 else 1
  }

  /** v & ((bitsPerPixel << 1) - 1). */
  function Masked(bits: nat, v: byte): byte {
    if bits == 1 then v % 2 else if bits == 2 then v % 4 else if bits == 4 then v % 8 else v % 16
  }

  /** The grey value written for the lowest pixel of v. */
  function Shade(bits: nat, v: byte): byte {
    Masked(bits, v) * if bits == 1 then 255 else if bits == 2 then 85 else if bits == 4 then 17 else 1
  }

  /** v >> bitsPerPixel. */
  function Shifted(bits: nat, v: byte): byte {
    if bits == 1 then v / 2 else if bits == 2 then v / 4 else if bits == 4 then v / 16 else 0
  }

  function Levels(bits: nat): nat {
    if bits == 1 then 2 else if bits == 2 then 4 else if bits == 4 then 16 else 256
  }

  /** A pixel is read whole, whatever the byte, exactly at 1 and 2 bits: the mask is too short for 4 and 8. */
  lemma ReadWhole(bits: nat)
    requires Depth(bits)
    ensures (forall v: byte :: Masked(bits, v) == v % Levels(bits)) <==> bits <= 2
  {
    assert Masked(4, 8) == 0 && 8 % Levels(4) == 8;
    assert Masked(8, 16) == 0 && 16 % Levels(8) == 16;
  }

  /** What `decodeBitmap` derives from the header; the bytes per line are an int. */
  datatype Geometry = Geometry(bits: nat, xPixels: nat, picsize: nat, linelen: nat) {
    function BytesPerLine(): nat {
      var n := (xPixels + PerByte(bits) - 1) % WRAP / PerByte(bits);
      if n > INT_MAX then 0 else n
    }
  }

  /** The decoder between two bytes: still valid, column in bytes, pixels written. */
  datatype Scan = Scan(ok: bool, x: nat, oidx: nat, out: seq<byte>)

  const START: Scan := Scan(true, 0, 0, [])

  /** The pixels of a byte from the j-th on, low bits first; a row may end in the middle of a byte. */
  function Pixels(g: Geometry, s: Scan, v: byte, j: nat): Scan
    requires g.xPixels > 0 && j <= PerByte(g.bits)
    decreases PerByte(g.bits) - j
  {
    if j == PerByte(g.bits) then s
    else if j > 0 && s.oidx % g.xPixels == 0 then s
    else if s.oidx >= g.picsize then s.(ok := false)
    else Pixels(g, s.(oidx := s.oidx + 1, out := s.out + [Shade(g.bits, v)]), Shifted(g.bits, v), j + 1)
  }

  /** v >> k. */
  function Above(v: byte, k: nat): byte
    decreases k
  {
    if k == 0 then v else Above(v / 2, k - 1)
  }

  /** Pixel i of a byte: its bits, low ones first, as far as the mask keeps them, scaled to 0..255. */
  function Grey(bits: nat, v: byte, i: nat): byte
    requires Depth(bits)
  {
    Above(v, bits * i) % (2 * bits) * (255 / (Levels(bits) - 1))
  }

  lemma ShiftedIs(bits: nat, v: byte)
    requires Depth(bits)
    ensures Shifted(bits, v) == Above(v, bits) && Shade(bits, v) == Grey(bits, v, 0)
  {
    FirstShade(bits, v);
    AboveSum(v, 4, 4);
    AboveStep(v, 4);
    AboveStep(v / 16, 4);
    AboveStep(v, if bits == 8 then 4 else bits);
    hide Above;
    hide Grey;
    hide Shade;
  }

  lemma FirstShade(bits: nat, v: byte)
    requires Depth(bits)
    ensures Shade(bits, v) == Grey(bits, v, 0)
  {
    AboveStep(v, 0);
    hide Above;
    assert bits == 1 || bits == 2 || bits == 4 || bits == 8;
  }

  lemma AboveStep(v: byte, k: nat)
    requires k <= 4
    ensures Above(v, k) == if k == 0 then v else if k == 1 then v / 2 else if k == 2 then v / 4
                           else if k == 3 then v / 8 else v / 16
  {
    if k > 0 {
      AboveStep(v / 2, k - 1);
    }
  }

  lemma {:induction false} AboveSum(v: byte, j: nat, k: nat)
    ensures Above(v, j + k) == Above(Above(v, j), k)
    decreases j
  {
    if j > 0 {
      AboveSum(v / 2, j - 1, k);
    }
  }

  lemma NextGrey(bits: nat, v: byte, i: nat)
    requires Depth(bits)
    ensures Grey(bits, v, i + 1) == Grey(bits, Shifted(bits, v), i)
  {
    ShiftedIs(bits, v);
    AboveSum(v, bits, bits * i);
    assert bits * (i + 1) == bits + bits * i;
    hide Above;
    hide Shifted;
  }

  /** How many pixels of a byte a row still takes, from pixel j of the byte on. */
  function Taken(g: Geometry, oidx: nat, j: nat): nat
    requires g.xPixels > 0 && j <= PerByte(g.bits)
  {
    if j > 0 && oidx % g.xPixels == 0 then 0 else Upto(PerByte(g.bits) - j, g.xPixels - oidx % g.xPixels)
  }

  /**
   * A byte gives its pixels, at any depth, up to the end of the row; decoding fails exactly when they are more than
   * the picture has left.
   */
  lemma {:induction false} BytePixels(g: Geometry, s: Scan, v: byte, j: nat)
    requires s.ok && Depth(g.bits) && g.xPixels > 0 && j <= PerByte(g.bits) && s.oidx <= g.picsize
    ensures var s', n := Pixels(g, s, v, j), Taken(g, s.oidx, j);
            && (s'.ok <==> s.oidx + n <= g.picsize)
            && (s'.ok ==> && s'.oidx == s.oidx + n && s'.x == s.x && |s'.out| == |s.out| + n
                          && s.out == s'.out[..|s.out|]
                          && forall i :: 0 <= i < n ==> s'.out[|s.out| + i] == Grey(g.bits, v, i))
    decreases PerByte(g.bits) - j
  {
    hide Grey;
    hide Shade;
    hide Shifted;
    hide PerByte;
    hide Depth;
    if j < PerByte(g.bits) && !(j > 0 && s.oidx % g.xPixels == 0) && s.oidx < g.picsize {
      var s1 := s.(oidx := s.oidx + 1, out := s.out + [Shade(g.bits, v)]);
      NextInRow(s.oidx, g.xPixels);
      BytePixels(g, s1, Shifted(g.bits, v), j + 1);
      ShiftedIs(g.bits, v);
      var s', n := Pixels(g, s, v, j), Taken(g, s.oidx, j);
      assert n == 1 + Taken(g, s1.oidx, j + 1);
      assert s' == Pixels(g, s1, Shifted(g.bits, v), j + 1);
      hide Pixels;
      hide Taken;
      if s'.ok {
        forall i | 0 <= i < n ensures s'.out[|s.out| + i] == Grey(g.bits, v, i) {
          if i == 0 {
            assert s'.out[|s.out|] == s1.out[|s.out|];
          } else {
            NextGrey(g.bits, v, i - 1);
          }
        }
      }
    }
  }

  lemma NextInRow(oidx: nat, width: nat)
    requires width > 0
    ensures (oidx + 1) % width == if oidx % width + 1 == width then 0 else oidx % width + 1
  {
    var q, r := oidx / width, oidx % width;
    assert oidx == q * width + r;
    if r + 1 == width {
      assert (q + 1) * width == q * width + width;
      Multiple(q + 1, width, 0);
    } else {
      Multiple(q, width, r + 1);
    }
  }

  /** The macro splitByte; once it has returned false nothing more happens. */
  function SplitByte(g: Geometry, s: Scan, v: byte): Scan {
    if !s.ok then s
    else
      var s1 := if s.x < g.BytesPerLine() then Pixels(g, s, v, 0) else s;
      if !s1.ok then s1 else s1.(x := if s.x + 1 >= g.linelen then 0 else s.x + 1)
  }

  /** The raw branch. */
  function RawDecode(g: Geometry, s: Scan, data: seq<byte>): Scan
    decreases |data|
  {
    if data == [] then s else RawDecode(g, SplitByte(g, s, data[0]), data[1..])
  }

  // ---------------------------------------------------------------- runs

  /** Run-length encoded data: a count b < 128 and a byte that stands b + 1 times, or 256 - n and n bytes. */
  predicate WellFormed(data: seq<byte>)
    decreases |data|
  {
    data == [] ||
    if data[0] >= 128 then |data| >= 257 - data[0] && WellFormed(data[257 - data[0]..])
    else |data| >= 2 && WellFormed(data[2..])
  }

  function Repeat(c: byte, n: nat): (s: seq<byte>)
    ensures |s| == n
  {
    if n == 0 then [] else [c] + Repeat(c, n - 1)
  }

  function Expand(data: seq<byte>): seq<byte>
    requires WellFormed(data)
    decreases |data|
  {
    if data == [] then []
    else if data[0] >= 128 then data[1..257 - data[0]] + Expand(data[257 - data[0]..])
    else Repeat(data[1], data[0] + 1) + Expand(data[2..])
  }

  /** A count of 256 - n stands before n bytes, a count of n - 1 before one byte that stands n times; n <= 128. */
  lemma RunsExpand(n: nat, bytes: seq<byte>, c: byte, rest: seq<byte>)
    requires 1 <= n <= 128 && |bytes| <= n && WellFormed(rest)
    ensures |bytes| == n ==> && WellFormed([256 - n] + bytes + rest)
                             && Expand([256 - n] + bytes + rest) == bytes + Expand(rest)
    ensures WellFormed([n - 1, c] + rest)
    ensures var x := Expand([n - 1, c] + rest);
            |x| == n + |Expand(rest)| && x[n..] == Expand(rest) && forall i :: 0 <= i < n ==> x[i] == c
    ensures |bytes| < n ==> !WellFormed([256 - n] + bytes)
    ensures !WellFormed([n - 1])
  {
    var literal, run := [256 - n] + bytes + rest, [n - 1, c] + rest;
    if |bytes| == n {
      assert literal[1..257 - literal[0]] == bytes && literal[257 - literal[0]..] == rest;
    }
    assert run[2..] == rest;
    RepeatAll(c, n);
    assert Expand(run) == Repeat(c, n) + Expand(rest);
    hide Repeat;
    hide Expand;
  }

  lemma {:induction false} RepeatAll(c: byte, n: nat)
    ensures forall i :: 0 <= i < n ==> Repeat(c, n)[i] == c
  {
    if n > 0 {
      RepeatAll(c, n - 1);
    }
  }

  /** The length the counts promise, whether or not the data keep the promise. */
  function Promised(data: seq<byte>): nat
    decreases |data|
  {
    if data == [] then 0
    else if data[0] >= 128 then 256 - data[0] + Promised(data[Upto(257 - data[0], |data|)..])
    else data[0] + 1 + Promised(data[Upto(2, |data|)..])
  }

  function Upto(n: nat, limit: nat): (m: nat)
    ensures m <= limit && m <= n && (m == n || m == limit)
  {
    if n <= limit then n else limit
  }

  /** The run-length branch. */
  function RunDecode(g: Geometry, s: Scan, data: seq<byte>): Scan
    decreases |data|
  {
    if data == [] || !s.ok then s
    else if data[0] >= 128 then
      var n := 257 - data[0];
      if |data| < n then RawDecode(g, s, data[1..]).(ok := false)
      else RunDecode(g, RawDecode(g, s, data[1..n]), data[n..])
    else if |data| < 2 then s.(ok := false)
    else RunDecode(g, RawDecode(g, s, Repeat(data[1], data[0] + 1)), data[2..])
  }

  lemma {:induction false} StuckStays(g: Geometry, s: Scan, data: seq<byte>)
    requires !s.ok
    ensures RawDecode(g, s, data) == s
    decreases |data|
  {
    if data != [] {
      StuckStays(g, s, data[1..]);
    }
  }

  lemma {:induction false} RawSplit(g: Geometry, s: Scan, a: seq<byte>, b: seq<byte>)
    ensures RawDecode(g, s, a + b) == RawDecode(g, RawDecode(g, s, a), b)
    decreases |a|
  {
    if a == [] {
      assert a + b == b;
    } else {
      assert (a + b)[0] == a[0] && (a + b)[1..] == a[1..] + b;
      hide SplitByte;
      RawSplit(g, SplitByte(g, s, a[0]), a[1..], b);
    }
  }

  lemma {:induction false} PromiseKept(data: seq<byte>)
    requires WellFormed(data)
    ensures |Expand(data)| == Promised(data)
    decreases |data|
  {
    if data != [] {
      PromiseKept(data[if data[0] >= 128 then 257 - data[0] else 2..]);
    }
  }

  /**
   * Run-length decoding is raw decoding of the expanded data, whatever the row length and wherever rows end;
   * data with an incomplete run are never accepted.
   */
  lemma {:induction false} RunsRefineRaw(g: Geometry, s: Scan, data: seq<byte>)
    ensures WellFormed(data) ==> RunDecode(g, s, data) == RawDecode(g, s, Expand(data))
    ensures !WellFormed(data) ==> !RunDecode(g, s, data).ok
    decreases |data|
  {
    if !s.ok {
      if WellFormed(data) {
        StuckStays(g, s, Expand(data));
      }
    } else if data != [] {
      hide SplitByte;
      hide Repeat;
      if data[0] >= 128 {
        var n := 257 - data[0];
        if |data| >= n {
          RunsRefineRaw(g, RawDecode(g, s, data[1..n]), data[n..]);
          if WellFormed(data) {
            RawSplit(g, s, data[1..n], Expand(data[n..]));
          }
        }
      } else if |data| >= 2 {
        var run := Repeat(data[1], data[0] + 1);
        RunsRefineRaw(g, RawDecode(g, s, run), data[2..]);
        if WellFormed(data) {
          RawSplit(g, s, run, Expand(data[2..]));
        }
      }
    }
  }

  // ---------------------------------------------------------------- files

  datatype Image = Image(ok: bool, width: nat, height: nat, out: seq<byte>)

  function DataLength(p: seq<byte>): nat
    requires |p| >= HEADER
  {
    (DWordAt(p, 0) - DWordAt(p, 4)) % WRAP
  }

  /** What `decodeBitmap` takes for granted: the data are all there, and there are rows. */
  predicate Readable(p: seq<byte>) {
    |p| >= HEADER && HEADER + DataLength(p) <= |p| && DWordAt(p, 12) > 0 && Depth(DWordAt(p, 24))
  }

  /** The number of pixels, as the source computes it. */
  function PictureSize(width: nat, height: nat): nat {
    width * height % WRAP
  }

  /** The geometry, the row length taken from the number of bytes. */
  function Derived(bits: nat, width: nat, height: nat, n: nat): Geometry
    requires height > 0
  {
    Geometry(bits, width, PictureSize(width, height), n / height)
  }

  function Decoded(bits: nat, data: seq<byte>, width: nat, height: nat, runs: bool): Scan
    requires height > 0
  {
    if runs then RunDecode(Derived(bits, width, height, Promised(data)), START, data)
    else RawDecode(Derived(bits, width, height, |data|), START, data)
  }

  function Decode(p: seq<byte>): Image
    requires Readable(p)
  {
    var data := p[HEADER..HEADER + DataLength(p)];
    var s := Decoded(DWordAt(p, 24), data, DWordAt(p, 8), DWordAt(p, 12), DWordAt(p, 36) != 0);
    Image(s.ok, DWordAt(p, 8), DWordAt(p, 12), s.out)
  }

  /** The run-length branch gives what the raw branch gives on the expanded data, the row length derived included. */
  lemma RunsDecodeAsRaw(bits: nat, data: seq<byte>, width: nat, height: nat)
    requires height > 0 && WellFormed(data)
    ensures Decoded(bits, data, width, height, true) == Decoded(bits, Expand(data), width, height, false)
  {
    PromiseKept(data);
    DecodedBranches(bits, data, width, height);
    DecodedBranches(bits, Expand(data), width, height);
    RunsRefineRaw(Derived(bits, width, height, Promised(data)), START, data);
    hide *;
  }

  /** The data of a file. */
  function DataOf(p: seq<byte>): seq<byte>
    requires Readable(p)
  {
    p[40..40 + DataLength(p)]
  }

  /**
   * A run-length file decodes as any raw file of the same size and depth that holds the expanded data; a file with
   * an incomplete run is never accepted.
   */
  lemma RunFileDecodesAsRawFile(p: seq<byte>, raw: seq<byte>)
    requires Readable(p) && Readable(raw) && DWordAt(p, 36) != 0 && DWordAt(raw, 36) == 0
    requires DWordAt(p, 8) == DWordAt(raw, 8) && DWordAt(p, 12) == DWordAt(raw, 12)
    requires DWordAt(p, 24) == DWordAt(raw, 24)
    ensures WellFormed(DataOf(p)) && DataOf(raw) == Expand(DataOf(p)) ==> Decode(p) == Decode(raw)
    ensures !WellFormed(DataOf(p)) ==> !Decode(p).ok
  {
    var bits, width, height, data := DWordAt(p, 24), DWordAt(p, 8), DWordAt(p, 12), DataOf(p);
    if WellFormed(data) {
      RunsDecodeAsRaw(bits, data, width, height);
    } else {
      DecodedBranches(bits, data, width, height);
      RunsRefineRaw(Derived(bits, width, height, Promised(data)), START, data);
    }
    hide DWordAt;
    hide Decoded;
    hide WellFormed;
  }

  /** The raw file for a run-length file: the same header, but for the total length and the flag. */
  function RawFile(p: seq<byte>): seq<byte>
    requires Readable(p) && WellFormed(DataOf(p))
  {
    var x := Expand(DataOf(p));
    DWordBytes(DWordAt(p, 4) + |x|) + p[4..36] + DWordBytes(0) + x
  }

  /** There is one for every run-length file whose expanded data a 32-bit length can count. */
  lemma RawFileDecodes(p: seq<byte>)
    requires Readable(p) && DWordAt(p, 36) != 0 && WellFormed(DataOf(p)) && |Expand(DataOf(p))| < 0x1_0000_0000
    ensures Readable(RawFile(p)) && DWordAt(RawFile(p), 36) == 0 && Decode(p) == Decode(RawFile(p))
  {
    var x := Expand(DataOf(p));
    DWordRoundTrip(DWordAt(p, 4) + |x|);
    DWordRoundTrip(0);
    var total, none := DWordBytes(DWordAt(p, 4) + |x|), DWordBytes(0);
    assert RawFile(p) == total + p[4..36] + none + x && |total| == |none| == 4;
    hide *;
    ReadableIs(p);
    RawFileReads(p, total, none, x);
    RunFileDecodesAsRawFile(p, RawFile(p));
  }

  lemma ReadableIs(p: seq<byte>)
    requires Readable(p)
    ensures |p| >= 40 && DWordAt(p, 12) > 0 && Depth(DWordAt(p, 24))
  {
  }

  lemma RawFileReads(p: seq<byte>, total: seq<byte>, none: seq<byte>, x: seq<byte>)
    requires |p| >= 40 && |total| == |none| == 4 && |x| < WRAP && DWordAt(p, 12) > 0 && Depth(DWordAt(p, 24))
    requires DWordAt(total, 0) == (DWordAt(p, 4) + |x|) % WRAP && DWordAt(none, 0) == 0
    ensures var raw := total + p[4..36] + none + x;
            && Readable(raw) && DataOf(raw) == x && DWordAt(raw, 36) == 0
            && DWordAt(raw, 8) == DWordAt(p, 8) && DWordAt(raw, 12) == DWordAt(p, 12)
            && DWordAt(raw, 24) == DWordAt(p, 24)
  {
    var raw := total + p[4..36] + none + x;
    SameDWord(raw, 0, total, 0);
    SameDWord(raw, 36, none, 0);
    SameDWord(raw, 4, p, 4);
    SameDWord(raw, 8, p, 8);
    SameDWord(raw, 12, p, 12);
    SameDWord(raw, 24, p, 24);
    RawLength(DWordAt(p, 4), |x|);
    hide DWordAt;
    hide Depth;
    assert raw[40..40 + |x|] == x;
  }

  lemma SameDWord(a: seq<byte>, i: nat, b: seq<byte>, j: nat)
    requires i + 4 <= |a| && j + 4 <= |b| && a[i..i + 4] == b[j..j + 4]
    ensures DWordAt(a, i) == DWordAt(b, j)
  {
    var s, t := a[i..i + 4], b[j..j + 4];
    assert s[0] == t[0] && s[1] == t[1] && s[2] == t[2] && s[3] == t[3];
  }

  lemma RawLength(header: nat, n: nat)
    requires n < WRAP
    ensures ((header + n) % WRAP - header) % WRAP == n
  {
  }

  lemma DecodedBranches(bits: nat, data: seq<byte>, width: nat, height: nat)
    requires height > 0
    ensures Decoded(bits, data, width, height, true)
            == RunDecode(Derived(bits, width, height, Promised(data)), START, data)
    ensures Decoded(bits, data, width, height, false) == RawDecode(Derived(bits, width, height, |data|), START, data)
  {
    hide PictureSize;
    hide RunDecode;
    hide RawDecode;
    hide Promised;
  }

  // ---------------------------------------------------------------- encoding

  type Source = (nat, nat) -> byte           // getPixel, by column and row

  function Level(pixel: Source, x: nat, y: nat): nat {
    pixel(x, y) / 85
  }

  /** n pixels of row y from column x on, two bits each, the first one lowest. */
  function Packed(pixel: Source, y: nat, x: nat, n: nat): nat
    decreases n
  {
    if n == 0 then 0 else Level(pixel, x, y) + 4 * Packed(pixel, y, x + 1, n - 1)
  }

  lemma {:induction false} PackedRange(pixel: Source, y: nat, x: nat, n: nat)
    requires n <= 4
    ensures Packed(pixel, y, x, n) < Pow4(n) <= 256
    decreases n
  {
    hide Level;
    assert Level(pixel, x, y) <= 3 by { LevelRange(pixel, x, y); }
    if n > 0 {
      PackedRange(pixel, y, x + 1, n - 1);
    }
  }

  lemma LevelRange(pixel: Source, x: nat, y: nat)
    ensures Level(pixel, x, y) <= 3
  {
  }

  function Pow4(n: nat): nat
    requires n <= 4
  {
    if n == 0 then 1 else if n == 1 then 4 else if n == 2 then 16 else if n == 3 then 64 else 256
  }

  lemma {:induction false} PackedSnoc(pixel: Source, y: nat, x: nat, n: nat)
    requires n < 4
    ensures Packed(pixel, y, x, n + 1) == Packed(pixel, y, x, n) + Level(pixel, x + n, y) * Pow4(n)
    decreases n
  {
    hide Level;
    if n > 0 {
      PackedSnoc(pixel, y, x + 1, n - 1);
    }
  }

  function BytesPerLine(width: nat): nat {
    (width + 3) / 4
  }

  function LineLength(width: nat): nat {
    (BytesPerLine(width) + 3) / 4 * 4
  }

  function Least(a: int, b: int): int {
    if a < b then a else b
  }

  function RowByte(pixel: Source, width: nat, y: nat, k: nat): byte {
    PackedRange(pixel, y, 4 * k, if 4 * k < width then Least(4, width - 4 * k) else 0);
    if 4 * k < width then Packed(pixel, y, 4 * k, Least(4, width - 4 * k)) else 0
  }

  function Row(pixel: Source, width: nat, y: nat): seq<byte> {
    seq(LineLength(width), k requires k >= 0 => RowByte(pixel, width, y, k))
  }

  function Rows(pixel: Source, width: nat, height: nat): seq<byte> {
    if height == 0 then [] else Rows(pixel, width, height - 1) + Row(pixel, width, height - 1)
  }

  /** The picture as the decoder gives it: each of the four levels as a grey value, row by row. */
  function GreyRow(pixel: Source, width: nat, y: nat): seq<byte> {
    seq(width, x requires x >= 0 => Level(pixel, x, y) * 85)
  }

  function Picture(pixel: Source, width: nat, height: nat): seq<byte> {
    if height == 0 then [] else Picture(pixel, width, height - 1) + GreyRow(pixel, width, height - 1)
  }

  function Header(width: nat, height: nat): seq<byte> {
    DWordBytes(0x28) + DWordBytes(width) + DWordBytes(height) + DWordBytes(0) + DWordBytes(0)
    + DWordBytes(2) + DWordBytes(0) + DWordBytes(0) + DWordBytes(0)
  }

  function File(pixel: Source, width: nat, height: nat): seq<byte> {
    DWordBytes(HEADER + |Rows(pixel, width, height)|) + Header(width, height) + Rows(pixel, width, height)
  }

  method EncodeBitmap(width: nat, height: nat, getPixel: Source) returns (out: seq<byte>)
    ensures out == File(getPixel, width, height)
  {
    var ib := DWordBytes(0x28) + DWordBytes(width) + DWordBytes(height) + DWordBytes(0) + DWordBytes(0)
      + DWordBytes(2) + DWordBytes(0) + DWordBytes(0) + DWordBytes(0);
    var rawBuf := [];
    for y := 0 to height
      invariant rawBuf == Rows(getPixel, width, y)
    {
      rawBuf := EncodeRow(width, y, getPixel, rawBuf);
    }
    ib := ib + rawBuf;
    out := DWordBytes(|ib| + 4);
    out := out + ib;
    hide Rows;
    hide DWordBytes;
    assert |ib| + 4 == HEADER + |rawBuf| by { HeaderLength(width, height); }
    assert out == File(getPixel, width, height);
  }

  lemma HeaderLength(width: nat, height: nat)
    ensures |Header(width, height)| == 36
  {
  }

  /** Row y is complete up to byte bc, and the next one holds its first n pixels. */
  predicate Partial(pixel: Source, width: nat, y: nat, bc: nat, n: nat, ov: nat, out: seq<byte>) {
    n < 4 && ov == Packed(pixel, y, 4 * bc, n) && bc <= LineLength(width) && out == Row(pixel, width, y)[..bc]
  }

  lemma NextPixel(pixel: Source, width: nat, y: nat, bc: nat, n: nat, ov: nat, out: seq<byte>)
    requires Partial(pixel, width, y, bc, n, ov, out) && 4 * bc + n < width
    ensures var ov' := ov + ShiftLeft(pixel(4 * bc + n, y) / 85, 2 * n);
            && ov' < 256
            && if n == 3 then Partial(pixel, width, y, bc + 1, 0, 0, out + [ov'])
               else Partial(pixel, width, y, bc, n + 1, ov', out)
  {
    var ov' := ov + ShiftLeft(pixel(4 * bc + n, y) / 85, 2 * n);
    hide *;
    PartialMeans(pixel, width, y, bc, n, ov, out);
    PackedSnoc(pixel, y, 4 * bc, n);
    PackedRange(pixel, y, 4 * bc, n + 1);
    LevelShifted(pixel, 4 * bc + n, y, n);
    if n == 3 {
      FullByte(pixel, width, y, bc, ov', out);
    } else {
      PartialIf(pixel, width, y, bc, n + 1, ov', out);
    }
  }

  lemma PartialMeans(pixel: Source, width: nat, y: nat, bc: nat, n: nat, ov: nat, out: seq<byte>)
    requires Partial(pixel, width, y, bc, n, ov, out)
    ensures n < 4 && ov == Packed(pixel, y, 4 * bc, n) && bc <= LineLength(width)
    ensures out == Row(pixel, width, y)[..Upto(bc, LineLength(width))]
  {
    hide Packed;
    hide LineLength;
  }

  lemma PartialIf(pixel: Source, width: nat, y: nat, bc: nat, n: nat, ov: nat, out: seq<byte>)
    requires n < 4 && ov == Packed(pixel, y, 4 * bc, n) && bc <= LineLength(width)
    requires out == Row(pixel, width, y)[..Upto(bc, LineLength(width))]
    ensures Partial(pixel, width, y, bc, n, ov, out)
  {
    hide Packed;
    hide LineLength;
  }

  lemma LevelShifted(pixel: Source, x: nat, y: nat, n: nat)
    requires n < 4
    ensures ShiftLeft(pixel(x, y) / 85, 2 * n) == Level(pixel, x, y) * Pow4(n) && Pow4(n + 1) <= 256
  {
  }

  lemma FullByte(pixel: Source, width: nat, y: nat, bc: nat, ov: nat, out: seq<byte>)
    requires 4 * bc + 4 <= width && out == Row(pixel, width, y)[..Upto(bc, LineLength(width))]
    requires ov == Packed(pixel, y, 4 * bc, 4) < 256
    ensures Partial(pixel, width, y, bc + 1, 0, 0, out + [ov])
  {
    hide Packed;
    assert RowByte(pixel, width, y, bc) == ov;
    NextByte(pixel, width, y, bc);
    PackedNone(pixel, y, 4 * (bc + 1));
    hide Row;
    hide RowByte;
  }

  lemma PackedNone(pixel: Source, y: nat, x: nat)
    ensures Packed(pixel, y, x, 0) == 0
  {
  }

  lemma NextByte(pixel: Source, width: nat, y: nat, k: nat)
    requires k < LineLength(width)
    ensures Row(pixel, width, y)[..k + 1] == Row(pixel, width, y)[..k] + [RowByte(pixel, width, y, k)]
  {
    hide RowByte;
  }

  lemma LastPixels(pixel: Source, width: nat, y: nat, bc: nat, n: nat, ov: nat, out: seq<byte>)
    requires Partial(pixel, width, y, bc, n, ov, out) && 4 * bc + n == width && n > 0
    ensures ov < 256 && bc + 1 == BytesPerLine(width) && Partial(pixel, width, y, bc + 1, 0, 0, out + [ov])
  {
    PackedRange(pixel, y, 4 * bc, n);
    NextByte(pixel, width, y, bc);
    PackedNone(pixel, y, 4 * (bc + 1));
    assert RowByte(pixel, width, y, bc) == ov;
    hide Packed;
    hide Row;
    hide RowByte;
  }

  /** `v << shift`, for the shifts that occur. */
  function ShiftLeft(v: nat, shift: nat): nat {
    v * (if shift == 0 then 1 else if shift == 2 then 4 else if shift == 4 then 16 else 64)
  }

  method EncodeRow(width: nat, y: nat, getPixel: Source, before: seq<byte>) returns (rawBuf: seq<byte>)
    ensures rawBuf == before + Row(getPixel, width, y)
  {
    rawBuf := before;
    ghost var out: seq<byte> := [];
    var ov, shift, bc := 0, 0, 0;
    ghost var n := 0;
    assert Partial(getPixel, width, y, 0, 0, 0, []) by { PackedNone(getPixel, y, 0); }
    hide *;
    for x := 0 to width
      invariant 0 <= n < 4 && shift == 2 * n && 0 <= ov && 0 <= bc && x == 4 * bc + n
      invariant Partial(getPixel, width, y, bc, n, ov, out) && rawBuf == before + out
    {
      NextPixel(getPixel, width, y, bc, n, ov, out);
      var v := getPixel(x, y) / 85;
      // ov |= v << shift: the bits do not overlap
      ov := ov + ShiftLeft(v, shift);
      if shift == 6 {
        Regrouped(before, out, [ov]);
        rawBuf := rawBuf + [ov];
        out := out + [ov];
        bc := bc + 1;
        shift := 0;
        n := 0;
        ov := 0;
      } else {
        shift := shift + 2;
        n := n + 1;
      }
    }
    if shift != 0 {
      LastPixels(getPixel, width, y, bc, n, ov, out);
      Regrouped(before, out, [ov]);
      rawBuf := rawBuf + [ov];
      out := out + [ov];
      bc := bc + 1;
    } else {
      WholeBytes(width, bc);
    }
    PartialRow(getPixel, width, y, bc, out);
    rawBuf := PadRow(getPixel, width, y, bc, before, rawBuf);
  }

  lemma PartialRow(pixel: Source, width: nat, y: nat, bc: nat, out: seq<byte>)
    requires BytesPerLine(width) == bc && exists ov :: Partial(pixel, width, y, bc, 0, ov, out)
    ensures bc <= LineLength(width) && out == Row(pixel, width, y)[..bc]
  {
  }

  lemma WholeBytes(width: nat, bc: nat)
    requires width == 4 * bc
    ensures BytesPerLine(width) == bc
  {
  }

  method PadRow(getPixel: Source, width: nat, y: nat, filled: nat, ghost before: seq<byte>, row: seq<byte>)
    returns (rawBuf: seq<byte>)
    requires BytesPerLine(width) == filled <= LineLength(width) && row == before + Row(getPixel, width, y)[..filled]
    ensures rawBuf == before + Row(getPixel, width, y)
  {
    var bc := filled;
    rawBuf := row;
    while bc % 4 != 0
      invariant BytesPerLine(width) <= bc <= LineLength(width)
      invariant rawBuf == before + Row(getPixel, width, y)[..bc]
      decreases LineLength(width) - bc
    {
      NextByte(getPixel, width, y, bc);
      hide Row;
      assert RowByte(getPixel, width, y, bc) == 0;
      rawBuf := rawBuf + [0];
      bc := bc + 1;
    }
    assert bc == LineLength(width);
    assert Row(getPixel, width, y)[..bc] == Row(getPixel, width, y);
  }

  // ---------------------------------------------------------------- round trip

  lemma Column(y: nat, width: nat, x: nat)
    requires 0 < width && x <= width
    ensures (y * width + x) % width == if x == width then 0 else x
  {
    if x == width {
      assert y * width + x == (y + 1) * width;
      Multiple(y + 1, width, 0);
    } else {
      Multiple(y, width, x);
    }
  }

  lemma {:induction false} Times(m: nat, a: nat, b: nat)
    ensures a < b ==> m * a + m <= m * b
    decreases b
  {
    if a < b {
      Times(m, a, b - 1);
      assert m * b == m * (b - 1) + m;
    }
  }

  lemma Multiple(q: nat, m: nat, r: nat)
    requires r < m
    ensures (q * m + r) % m == r
  {
    var n := q * m + r;
    var q', r' := n / m, n % m;
    assert n == m * q' + r' && n == m * q + r;
    Times(m, q', q);
    Times(m, q, q');
  }

  lemma InPicture(y: nat, width: nat, height: nat, x: nat)
    requires y < height && x < width
    ensures y * width + x < width * height
  {
    assert (y + 1) * width <= height * width;
  }

  function Area(width: nat, rows: nat): nat {
    width * rows
  }

  lemma AreaNext(width: nat, a: nat, b: nat)
    requires a < b
    ensures Area(width, a + 1) == Area(width, a) + width <= Area(width, b) && Area(width, 0) == 0
    ensures Area(width, b - 1) + width == Area(width, b)
  {
    Times(width, a, b);
    assert width * (a + 1) == width * a + width && width * b == width * (b - 1) + width;
  }

  /** The byte of a row that holds a pixel, and the place of the pixel in it. */
  function ByteOf(bits: nat, x: nat): nat {
    x / PerByte(bits)
  }

  function PlaceOf(bits: nat, x: nat): nat {
    x % PerByte(bits)
  }

  /** The bytes that hold a row. */
  function LineBytes(bits: nat, width: nat): nat {
    (width + PerByte(bits) - 1) / PerByte(bits)
  }

  lemma LineBytesAre(bits: nat, width: nat)
    requires Depth(bits)
    ensures LineBytes(bits, width) == 0 <==> width == 0
    ensures width >= PerByte(bits) ==> LineBytes(bits, width) == 1 + LineBytes(bits, width - PerByte(bits))
    ensures 0 < width <= PerByte(bits) ==> LineBytes(bits, width) == 1
  {
    assert bits == 1 || bits == 2 || bits == 4 || bits == 8;
  }

  lemma PlaceIn(bits: nat, width: nat, x: nat)
    requires Depth(bits)
    ensures x < width ==> ByteOf(bits, x) < LineBytes(bits, width)
    ensures x < PerByte(bits) ==> ByteOf(bits, x) == 0 && PlaceOf(bits, x) == x
    ensures x >= PerByte(bits) ==> && ByteOf(bits, x) == 1 + ByteOf(bits, x - PerByte(bits))
                                   && PlaceOf(bits, x) == PlaceOf(bits, x - PerByte(bits))
  {
    assert bits == 1 || bits == 2 || bits == 4 || bits == 8;
  }

  /** The first n pixels of a byte. */
  function Greys(bits: nat, v: byte, n: nat): seq<byte>
    requires Depth(bits)
  {
    seq(n, i requires i >= 0 => Grey(bits, v, i))
  }

  /** The first x pixels of a line of bytes. */
  function Line(bits: nat, line: seq<byte>, x: nat): seq<byte>
    requires Depth(bits)
    decreases |line|
  {
    if line == [] then []
    else
      var n := Upto(PerByte(bits), x);
      Greys(bits, line[0], n) + Line(bits, line[1..], x - n)
  }

  /** The pixels of a picture whose rows begin every linelen bytes. */
  function Shown(bits: nat, width: nat, linelen: nat, data: seq<byte>, height: nat): seq<byte>
    requires Depth(bits)
    decreases height
  {
    if height == 0 then []
    else
      var n := Upto(linelen, |data|);
      Line(bits, data[..n], width) + Shown(bits, width, linelen, data[n..], height - 1)
  }

  /** Rows of enough bytes, as many as fill the picture. */
  predicate Fits(g: Geometry, height: nat) {
    && Depth(g.bits) && 0 < g.xPixels <= INT_MAX && g.picsize == Area(g.xPixels, height)
    && LineBytes(g.bits, g.xPixels) <= g.linelen
  }

  /** How many pixels of a row its first k bytes hold. */
  function Held(g: Geometry, k: nat): (x: nat)
    ensures x <= g.xPixels
  {
    Upto(k * PerByte(g.bits), g.xPixels)
  }

  lemma HeldNext(g: Geometry, height: nat, k: nat)
    requires Fits(g, height)
    ensures k < g.BytesPerLine() <==> Held(g, k) < g.xPixels
    ensures Held(g, k + 1) == Held(g, k) + Upto(PerByte(g.bits), g.xPixels - Held(g, k))
    ensures Held(g, 0) == 0 && Held(g, g.linelen) == g.xPixels && 0 < g.linelen
  {
    hide *;
    GeometryIs(g, height, k);
    GeometryIs(g, height, k + 1);
    GeometryIs(g, height, 0);
    GeometryIs(g, height, g.linelen);
    var n := PerByte(g.bits);
    UptoIs(k * n, g.xPixels);
    UptoIs((k + 1) * n, g.xPixels);
    UptoIs(g.linelen * n, g.xPixels);
    UptoIs(0 * n, g.xPixels);
    UptoIs(n, g.xPixels - Held(g, k));
    InBytes(n, g.xPixels, k);
    InBytes(n, g.xPixels, g.linelen);
  }

  lemma GeometryIs(g: Geometry, height: nat, k: nat)
    requires Fits(g, height)
    ensures var n := PerByte(g.bits);
            && (n == 1 || n == 2 || n == 4 || n == 8) && g.BytesPerLine() == (g.xPixels + n - 1) / n <= g.linelen
            && Held(g, k) == Upto(k * n, g.xPixels) && 0 < g.xPixels
  {
    assert g.bits == 1 || g.bits == 2 || g.bits == 4 || g.bits == 8;
    hide Area;
    hide Depth;
  }

  /** ceil(w / n) bytes hold w pixels, n to a byte. */
  lemma InBytes(n: nat, w: nat, k: nat)
    requires n == 1 || n == 2 || n == 4 || n == 8
    ensures k < (w + n - 1) / n <==> k * n < w
    ensures (k + 1) * n == k * n + n && (w + n - 1) / n <= w
  {
    if n == 1 {
      assert k * n == k && (w + n - 1) / n == w;
    } else if n == 2 {
      assert (w + n - 1) / n == (w + 1) / 2;
    } else if n == 4 {
      assert (w + n - 1) / n == (w + 3) / 4;
    } else {
      assert (w + n - 1) / n == (w + 7) / 8;
    }
  }

  /** One byte of row y. */
  lemma ByteDecodes(g: Geometry, height: nat, y: nat, k: nat, s: Scan, v: byte)
    requires Fits(g, height) && y < height && k < g.linelen
    requires s.ok && s.x == k && s.oidx == Area(g.xPixels, y) + Held(g, k)
    ensures SplitByte(g, s, v) == Scan(true, if k + 1 == g.linelen then 0 else k + 1,
                                       Area(g.xPixels, y) + Held(g, k + 1),
                                       s.out + Greys(g.bits, v, Upto(PerByte(g.bits), g.xPixels - Held(g, k))))
  {
    var n := Upto(PerByte(g.bits), g.xPixels - Held(g, k));
    HeldNext(g, height, k);
    AreaRoom(g.xPixels, y, height, Held(g, k));
    FitsMeans(g, height);
    hide Held;
    hide Fits;
    hide Area;
    hide Depth;
    if k < g.BytesPerLine() {
      BytePixels(g, s, v, 0);
      TakenFirst(g, s.oidx, Held(g, k));
      hide Grey;
      assert Pixels(g, s, v, 0).out == s.out + Greys(g.bits, v, n);
    } else {
      assert n == 0 && Greys(g.bits, v, 0) == [] && s.out + [] == s.out;
    }
    hide Pixels;
    hide Greys;
  }

  lemma FitsMeans(g: Geometry, height: nat)
    requires Fits(g, height)
    ensures Depth(g.bits) && g.xPixels > 0 && g.picsize == Area(g.xPixels, height)
  {
  }

  lemma TakenFirst(g: Geometry, oidx: nat, column: nat)
    requires g.xPixels > 0 && oidx % g.xPixels == column
    ensures Taken(g, oidx, 0) == Upto(PerByte(g.bits), g.xPixels - column)
  {
  }

  lemma AreaRoom(width: nat, y: nat, height: nat, x: nat)
    requires 0 < width && y < height && x <= width
    ensures Area(width, y) + width == Area(width, y + 1) <= Area(width, height)
    ensures x < width ==> (Area(width, y) + x) % width == x
  {
    Column(y, width, x);
    AreaNext(width, y, height);
  }

  /** The rest of row y, from byte k on. */
  lemma {:induction false} LineDecodes(g: Geometry, height: nat, y: nat, k: nat, s: Scan, line: seq<byte>)
    requires Fits(g, height) && y < height && line != [] && k + |line| == g.linelen
    requires s.ok && s.x == k && s.oidx == Area(g.xPixels, y) + Held(g, k)
    ensures RawDecode(g, s, line)
            == Scan(true, 0, Area(g.xPixels, y + 1), s.out + Line(g.bits, line, g.xPixels - Held(g, k)))
    decreases |line|
  {
    hide *;
    var v, rest, left := line[0], line[1..], g.xPixels - Held(g, k);
    var n := Upto(PerByte(g.bits), left);
    var s1 := SplitByte(g, s, v);
    ByteDecodes(g, height, y, k, s, v);
    HeldNext(g, height, k);
    HeldNext(g, height, k + 1);
    FitsMeans(g, height);
    AreaRoom(g.xPixels, y, height, 0);
    RawFirst(g, s, line);
    LineFirst(g.bits, line, left);
    if rest == [] {
      RawNothing(g, s1);
      LineFirst(g.bits, rest, left - n);
      assert s.out + Greys(g.bits, v, n) == s.out + Line(g.bits, line, left);
    } else {
      LineDecodes(g, height, y, k + 1, s1, rest);
      assert s.out + Greys(g.bits, v, n) + Line(g.bits, rest, left - n) == s.out + Line(g.bits, line, left);
    }
  }

  lemma RawFirst(g: Geometry, s: Scan, data: seq<byte>)
    requires data != []
    ensures RawDecode(g, s, data) == RawDecode(g, SplitByte(g, s, data[0]), data[1..])
  {
    hide SplitByte;
  }

  lemma LineFirst(bits: nat, line: seq<byte>, x: nat)
    requires Depth(bits)
    ensures var n := Upto(PerByte(bits), x);
            Line(bits, line, x) == if line == [] then [] else Greys(bits, line[0], n) + Line(bits, line[1..], x - n)
  {
    hide Greys;
    hide PerByte;
  }

  /** The rest of the picture, from row y on. */
  lemma {:induction false} RowsDecode(g: Geometry, height: nat, y: nat, s: Scan, data: seq<byte>)
    requires Fits(g, height) && y <= height && |data| == Area(g.linelen, height - y)
    requires s.ok && s.x == 0 && s.oidx == Area(g.xPixels, y)
    ensures RawDecode(g, s, data)
            == Scan(true, 0, Area(g.xPixels, height),
                    s.out + Shown(g.bits, g.xPixels, g.linelen, data, height - y))
    decreases height - y
  {
    hide *;
    var l, n := g.linelen, height - y;
    FitsMeans(g, height);
    if n == 0 {
      AreaNext(l, 0, 1);
      RawNothing(g, s);
      NoRows(g.bits, g.xPixels, l, data);
    } else {
      AreaNext(l, 0, n);
      var line, rest := data[..l], data[l..];
      HeldNext(g, height, 0);
      RawSplit(g, s, line, rest);
      LineDecodes(g, height, y, 0, s, line);
      RowsDecode(g, height, y + 1, RawDecode(g, s, line), rest);
      FirstRow(g.bits, g.xPixels, l, data, n);
      assert data == line + rest;
      var shown, more := Line(g.bits, line, g.xPixels), Shown(g.bits, g.xPixels, l, rest, n - 1);
      assert s.out + shown + more == s.out + (shown + more);
    }
  }

  lemma NoRows(bits: nat, width: nat, linelen: nat, data: seq<byte>)
    requires Depth(bits)
    ensures Shown(bits, width, linelen, data, 0) == []
  {
  }

  lemma FirstRow(bits: nat, width: nat, linelen: nat, data: seq<byte>, height: nat)
    requires Depth(bits) && height > 0 && linelen <= |data|
    ensures Shown(bits, width, linelen, data, height)
            == Line(bits, data[..linelen], width) + Shown(bits, width, linelen, data[linelen..], height - 1)
  {
    hide Line;
  }

  /** Bytes behind the last row are one pixel too many. */
  lemma TooLong(g: Geometry, height: nat, s: Scan, data: seq<byte>)
    requires Fits(g, height) && s.ok && s.x == 0 && s.oidx == Area(g.xPixels, height) && data != []
    ensures !RawDecode(g, s, data).ok
  {
    HeldNext(g, height, 0);
    FitsMeans(g, height);
    hide Fits;
    hide Held;
    hide Area;
    assert 0 < g.BytesPerLine() && 0 < PerByte(g.bits);
    assert Pixels(g, s, data[0], 0) == s.(ok := false);
    StuckStays(g, SplitByte(g, s, data[0]), data[1..]);
  }

  /**
   * A raw picture whose rows have enough bytes is accepted exactly when all of them have the same number of bytes,
   * and then each of its pixels is shown, at every depth.
   */
  lemma RawPicture(bits: nat, data: seq<byte>, width: nat, height: nat)
    requires Depth(bits) && 1 <= width && 1 <= height && Area(width, height) <= INT_MAX
    requires LineBytes(bits, width) <= |data| / height
    ensures var s := Decoded(bits, data, width, height, false);
            && (s.ok <==> |data| % height == 0)
            && (s.ok ==> s.out == Shown(bits, width, |data| / height, data, height))
  {
    var g := Derived(bits, width, height, |data|);
    DerivedFits(bits, width, height, |data|);
    DecodedBranches(bits, data, width, height);
    WholeRows(|data|, height);
    hide *;
    RowsAndMore(g, height, data);
  }

  /** Rows, and what is left behind them. */
  lemma RowsAndMore(g: Geometry, height: nat, data: seq<byte>)
    requires Fits(g, height) && height >= 1 && Area(g.linelen, height) <= |data| && Depth(g.bits)
    ensures var s := RawDecode(g, START, data);
            && (s.ok <==> Area(g.linelen, height) == |data|)
            && (s.ok ==> s.out == Shown(g.bits, g.xPixels, g.linelen, data, height))
  {
    hide *;
    var n := Area(g.linelen, height);
    var picture, more := data[..n], data[n..];
    assert data == picture + more;
    RawSplit(g, START, picture, more);
    StartIs(g.xPixels);
    RowsDecode(g, height, 0, START, picture);
    var s := RawDecode(g, START, picture);
    if n < |data| {
      TooLong(g, height, s, more);
    } else {
      assert picture == data && more == [];
      RawNothing(g, s);
      var shown := Shown(g.bits, g.xPixels, g.linelen, picture, height);
      assert [] + shown == shown;
    }
  }

  lemma WholeRows(n: nat, height: nat)
    requires height > 0
    ensures Area(n / height, height) <= n && (n % height == 0 <==> Area(n / height, height) == n)
  {
  }

  lemma StartIs(width: nat)
    ensures START == Scan(true, 0, 0, []) && Area(width, 0) == 0
  {
  }

  lemma RawNothing(g: Geometry, s: Scan)
    ensures RawDecode(g, s, []) == s
  {
  }

  lemma DerivedFits(bits: nat, width: nat, height: nat, n: nat)
    requires Depth(bits) && 1 <= width && 1 <= height && Area(width, height) <= INT_MAX
    requires LineBytes(bits, width) <= n / height
    ensures var g := Derived(bits, width, height, n);
            Fits(g, height) && g.bits == bits && g.xPixels == width && g.linelen == n / height
  {
    AreaNext(width, 0, height);
    hide LineBytes;
  }

  /** Pixel (x, y) of such a picture. */
  lemma {:induction false} ShownAt(bits: nat, width: nat, linelen: nat, data: seq<byte>, height: nat, x: nat, y: nat)
    requires Depth(bits) && x < width && y < height && |data| == Area(linelen, height)
    requires LineBytes(bits, width) <= linelen
    ensures var at, out := Area(linelen, y) + ByteOf(bits, x), Shown(bits, width, linelen, data, height);
            && |out| == Area(width, height) && Area(width, y) + x < |out| && at < |data|
            && out[Area(width, y) + x] == Grey(bits, data[at], PlaceOf(bits, x))
    decreases height
  {
    hide *;
    AreaNext(linelen, y, height);
    AreaNext(width, y, height);
    AreaNext(linelen, 0, height);
    var line, rest := data[..linelen], data[linelen..];
    PlaceIn(bits, width, x);
    FirstRow(bits, width, linelen, data, height);
    LineAt(bits, line, width, x);
    ShownLength(bits, width, linelen, data, height);
    if y > 0 {
      ShownAt(bits, width, linelen, rest, height - 1, x, y - 1);
      AreaNext(width, y - 1, y);
      AreaNext(linelen, y - 1, y);
    } else {
      AreaNext(width, 0, 1);
    }
  }

  /** The pixels of a line. */
  lemma {:induction false} LineAt(bits: nat, line: seq<byte>, width: nat, x: nat)
    requires Depth(bits) && x < width && LineBytes(bits, width) <= |line|
    ensures ByteOf(bits, x) < |line| && |Line(bits, line, width)| == width
    ensures Line(bits, line, width)[x] == Grey(bits, line[ByteOf(bits, x)], PlaceOf(bits, x))
    decreases |line|
  {
    hide *;
    var n := Upto(PerByte(bits), width);
    UptoIs(PerByte(bits), width);
    PlaceIn(bits, width, x);
    LineBytesAre(bits, width);
    LineFirst(bits, line, width);
    GreysAre(bits, line[0], n);
    if width <= n {
      LineBytesAre(bits, width - n);
      LineLengthIs(bits, line[1..], 0);
    } else {
      LineAt(bits, line[1..], width - n, if x < n then 0 else x - n);
    }
  }

  lemma UptoIs(n: nat, limit: nat)
    ensures Upto(n, limit) == if n <= limit then n else limit
  {
  }

  lemma GreysAre(bits: nat, v: byte, n: nat)
    requires Depth(bits)
    ensures |Greys(bits, v, n)| == n && forall i :: 0 <= i < n ==> Greys(bits, v, n)[i] == Grey(bits, v, i)
  {
    hide Grey;
  }

  lemma {:induction false} LineLengthIs(bits: nat, line: seq<byte>, x: nat)
    requires Depth(bits) && LineBytes(bits, x) <= |line|
    ensures |Line(bits, line, x)| == x
    decreases |line|
  {
    hide *;
    var n := Upto(PerByte(bits), x);
    UptoIs(PerByte(bits), x);
    LineBytesAre(bits, x);
    LineBytesAre(bits, x - n);
    LineFirst(bits, line, x);
    if line != [] {
      GreysAre(bits, line[0], n);
      LineLengthIs(bits, line[1..], x - n);
    }
  }

  lemma {:induction false} ShownLength(bits: nat, width: nat, linelen: nat, data: seq<byte>, height: nat)
    requires Depth(bits) && |data| == Area(linelen, height) && LineBytes(bits, width) <= linelen
    ensures |Shown(bits, width, linelen, data, height)| == Area(width, height)
    decreases height
  {
    hide *;
    if height == 0 {
      AreaNext(width, 0, 1);
      NoRows(bits, width, linelen, data);
    } else {
      AreaNext(width, 0, height);
      AreaNext(linelen, 0, height);
      FirstRow(bits, width, linelen, data, height);
      LineLengthIs(bits, data[..linelen], width);
      ShownLength(bits, width, linelen, data[linelen..], height - 1);
    }
  }

  /** A file of this depth and size, with whole runs if it is run-length encoded; and the raw bytes it stands for. */
  predicate IsFile(p: seq<byte>, bits: nat, width: nat, height: nat) {
    && Readable(p) && DWordAt(p, 8) == width && DWordAt(p, 12) == height && DWordAt(p, 24) == bits
    && (DWordAt(p, 36) != 0 ==> WellFormed(DataOf(p)))
  }

  function RawBytes(p: seq<byte>): seq<byte>
    requires Readable(p) && (DWordAt(p, 36) != 0 ==> WellFormed(DataOf(p)))
  {
    if DWordAt(p, 36) != 0 then Expand(DataOf(p)) else DataOf(p)
  }

  /**
   * So at every depth, raw or run-length encoded, a file whose rows have enough bytes is accepted exactly when they
   * fill its raw bytes, and then shows each pixel of each row.
   */
  lemma FileShows(p: seq<byte>, bits: nat, width: nat, height: nat, x: nat, y: nat)
    requires IsFile(p, bits, width, height) && Area(width, height) <= INT_MAX && x < width && y < height
    requires LineBytes(bits, width) <= |RawBytes(p)| / height
    ensures var image, raw := Decode(p), RawBytes(p);
            var linelen := |raw| / height;
            && image.width == width && image.height == height
            && (image.ok <==> |raw| % height == 0)
            && (image.ok ==> && |image.out| == Area(width, height) && Area(width, y) + x < |image.out|
                             && Area(linelen, y) + ByteOf(bits, x) < |raw|
                             && image.out[Area(width, y) + x]
                                == Grey(bits, raw[Area(linelen, y) + ByteOf(bits, x)], PlaceOf(bits, x)))
  {
    var raw := RawBytes(p);
    DecodeIs(p, bits, width, height);
    RawPicture(bits, raw, width, height);
    WholeRows(|raw|, height);
    hide *;
    PixelShown(bits, width, |raw| / height, raw, height, x, y);
  }

  lemma PixelShown(bits: nat, width: nat, linelen: nat, raw: seq<byte>, height: nat, x: nat, y: nat)
    requires Depth(bits) && x < width && y < height && LineBytes(bits, width) <= linelen
    ensures var at, out := Area(linelen, y) + ByteOf(bits, x), Shown(bits, width, linelen, raw, height);
            Area(linelen, height) == |raw| ==>
              && |out| == Area(width, height) && Area(width, y) + x < |out| && at < |raw|
              && out[Area(width, y) + x] == Grey(bits, raw[at], PlaceOf(bits, x))
  {
    hide *;
    if Area(linelen, height) == |raw| {
      ShownAt(bits, width, linelen, raw, height, x, y);
    }
  }

  lemma DecodeIs(p: seq<byte>, bits: nat, width: nat, height: nat)
    requires IsFile(p, bits, width, height)
    ensures Depth(bits) && height > 0 && Readable(p) && (DWordAt(p, 36) != 0 ==> WellFormed(DataOf(p)))
    ensures var s := Decoded(bits, RawBytes(p), width, height, false); Decode(p) == Image(s.ok, width, height, s.out)
  {
    if DWordAt(p, 36) != 0 {
      RunsDecodeAsRaw(bits, DataOf(p), width, height);
    }
    hide DWordAt;
    hide Decoded;
    hide WellFormed;
    hide Expand;
  }

  // ---------------------------------------------------------------- the pixels the encoder packed

  lemma PackedParts(pixel: Source, y: nat, x: nat, n: nat)
    requires n > 0
    ensures Packed(pixel, y, x, n) % 4 == Level(pixel, x, y)
    ensures Packed(pixel, y, x, n) / 4 == Packed(pixel, y, x + 1, n - 1)
  {
    LevelRange(pixel, x, y);
    hide Level;
  }

  /** A pixel packed into a byte comes out again, at its grey level. */
  lemma {:induction false} PackedAt(pixel: Source, y: nat, x: nat, n: nat, i: nat)
    requires i < n <= 4
    ensures Packed(pixel, y, x, n) < 256 && Grey(2, Packed(pixel, y, x, n), i) == Level(pixel, x + i, y) * 85
    decreases n
  {
    PackedRange(pixel, y, x, n);
    PackedParts(pixel, y, x, n);
    hide Packed;
    hide Level;
    var v := Packed(pixel, y, x, n);
    if i == 0 {
      assert Above(v, 0) == v;
    } else {
      NextGrey(2, v, i - 1);
      hide Grey;
      PackedAt(pixel, y, x + 1, n - 1, i - 1);
    }
  }

  lemma RowByteAt(pixel: Source, width: nat, y: nat, x: nat)
    requires x < width
    ensures x / 4 < LineLength(width)
    ensures Grey(2, RowByte(pixel, width, y, x / 4), x % 4) == Level(pixel, x, y) * 85
  {
    var k := x / 4;
    PackedAt(pixel, y, 4 * k, Least(4, width - 4 * k), x % 4);
    hide Packed;
    hide Level;
    hide Grey;
  }

  lemma {:induction false} RowsAt(pixel: Source, width: nat, height: nat, y: nat, k: nat)
    requires y < height && k < LineLength(width)
    ensures var rows, at := Rows(pixel, width, height), y * LineLength(width) + k;
            |rows| == height * LineLength(width) && at < |rows| && rows[at] == RowByte(pixel, width, y, k)
    decreases height
  {
    RowsLength(pixel, width, height);
    RowsLength(pixel, width, height - 1);
    InPicture(y, LineLength(width), height, k);
    hide RowByte;
    if y < height - 1 {
      RowsAt(pixel, width, height - 1, y, k);
      hide LineLength;
    }
  }

  lemma ShownIsPicture(pixel: Source, width: nat, height: nat)
    requires 1 <= width && 1 <= height
    ensures Depth(2)
    ensures Shown(2, width, LineLength(width), Rows(pixel, width, height), height) == Picture(pixel, width, height)
  {
    var rows, l := Rows(pixel, width, height), LineLength(width);
    var shown, picture := Shown(2, width, l, rows, height), Picture(pixel, width, height);
    RowsLength(pixel, width, height);
    LineIsEnough(width);
    PictureLength(pixel, width, height);
    AreaIs(l, height);
    AreaIs(width, height);
    hide *;
    ShownLength(2, width, l, rows, height);
    forall n | 0 <= n < height * width ensures shown[n] == picture[n] {
      var x, y := Place(width, height, n);
      SamePixel(pixel, width, height, x, y);
    }
  }

  lemma AreaIs(width: nat, height: nat)
    ensures Area(width, height) == height * width
  {
  }

  lemma Place(width: nat, height: nat, n: nat) returns (x: nat, y: nat)
    requires 0 < width && n < height * width
    ensures n == y * width + x && x < width && y < height
  {
    x, y := n % width, n / width;
    Times(width, height, y);
    assert n == y * width + x;
  }

  lemma SamePixel(pixel: Source, width: nat, height: nat, x: nat, y: nat)
    requires x < width && y < height
    ensures var shown, picture := Shown(2, width, LineLength(width), Rows(pixel, width, height), height),
                                  Picture(pixel, width, height);
            y * width + x < |shown| == |picture| && shown[y * width + x] == picture[y * width + x]
  {
    var rows, l := Rows(pixel, width, height), LineLength(width);
    RowByteAt(pixel, width, y, x);
    RowsAt(pixel, width, height, y, x / 4);
    AreaIs(l, height);
    AreaIs(width, height);
    AreaIs(l, y);
    AreaIs(width, y);
    LineIsEnough(width);
    LevelIs(pixel, x, y);
    FourInAByte(x);
    hide *;
    ShownAt(2, width, l, rows, height, x, y);
    PictureAt(pixel, width, height, x, y);
  }

  lemma FourInAByte(x: nat)
    ensures ByteOf(2, x) == x / 4 && PlaceOf(2, x) == x % 4
  {
  }

  lemma LevelIs(pixel: Source, x: nat, y: nat)
    ensures Level(pixel, x, y) == pixel(x, y) / 85
  {
  }

  lemma LineIsEnough(width: nat)
    ensures Depth(2) && LineBytes(2, width) <= LineLength(width)
  {
  }

  lemma {:induction false} RowsLength(pixel: Source, width: nat, height: nat)
    ensures |Rows(pixel, width, height)| == height * LineLength(width)
  {
    hide RowByte;
    if height > 0 {
      RowsLength(pixel, width, height - 1);
      assert height * LineLength(width) == (height - 1) * LineLength(width) + LineLength(width);
    }
  }

  /** The sizes stay within the int and long arithmetic of the source. */
  predicate FitsInt(width: nat, height: nat) {
    width * height <= INT_MAX && HEADER + height * LineLength(width) <= INT_MAX
  }

  lemma ReadDWord(a: seq<byte>, v: nat, b: seq<byte>)
    requires v < WRAP
    ensures DWordAt(a + DWordBytes(v) + b, |a|) == v
  {
    DWordRoundTrip(v);
    DWordLength(v);
    var d := DWordBytes(v);
    var s := a + d + b;
    hide DWordBytes;
    assert s[|a|] == d[0] && s[|a| + 1] == d[1] && s[|a| + 2] == d[2] && s[|a| + 3] == d[3];
  }

  lemma DWordLength(v: int)
    ensures |DWordBytes(v)| == 4
  {
  }

  /** The fields of the header where the decoder looks for them. */
  lemma HeaderReads(pixel: Source, width: nat, height: nat)
    requires width < WRAP && height < WRAP && HEADER + |Rows(pixel, width, height)| < WRAP
    ensures var f, rows := File(pixel, width, height), Rows(pixel, width, height);
            && |f| == HEADER + |rows| && f[HEADER..] == rows
            && DWordAt(f, 0) == HEADER + |rows| && DWordAt(f, 4) == 0x28 && DWordAt(f, 8) == width
            && DWordAt(f, 12) == height && DWordAt(f, 24) == 2 && DWordAt(f, 36) == 0
  {
    hide *;
    var rows := Rows(pixel, width, height);
    var n := HEADER + |rows|;
    var d0, d1, d2, d3, d4, d5 := DWordBytes(n), DWordBytes(0x28), DWordBytes(width), DWordBytes(height),
        DWordBytes(0), DWordBytes(2);
    DWordLength(n);
    DWordLength(0x28);
    DWordLength(width);
    DWordLength(height);
    DWordLength(0);
    DWordLength(2);
    FileIs(pixel, width, height);
    FirstParts(d0, d1, d2, d3, d4, d5, rows);
    MiddleParts(d0, d1, d2, d3, d4, d5, rows);
    LastParts(d0, d1, d2, d3, d4, d5, rows);
    ReadDWord([], n, d1 + d2 + d3 + d4 + d4 + d5 + d4 + d4 + d4 + rows);
    ReadDWord(d0, 0x28, d2 + d3 + d4 + d4 + d5 + d4 + d4 + d4 + rows);
    ReadDWord(d0 + d1, width, d3 + d4 + d4 + d5 + d4 + d4 + d4 + rows);
    ReadDWord(d0 + d1 + d2, height, d4 + d4 + d5 + d4 + d4 + d4 + rows);
    ReadDWord(d0 + d1 + d2 + d3 + d4 + d4, 2, d4 + d4 + d4 + rows);
    ReadDWord(d0 + d1 + d2 + d3 + d4 + d4 + d5 + d4 + d4, 0, rows);
  }

  lemma FileIs(pixel: Source, width: nat, height: nat)
    ensures HEADER == 40
    ensures File(pixel, width, height)
         == DWordBytes(HEADER + |Rows(pixel, width, height)|)
            + (DWordBytes(0x28) + DWordBytes(width) + DWordBytes(height) + DWordBytes(0) + DWordBytes(0) + DWordBytes(2)
               + DWordBytes(0) + DWordBytes(0) + DWordBytes(0)) + Rows(pixel, width, height)
  {
    hide Rows;
    hide DWordBytes;
  }

  /** The file cut before and behind some of the numbers of the header. */
  lemma FirstParts(d0: seq<byte>, d1: seq<byte>, d2: seq<byte>, d3: seq<byte>, d4: seq<byte>, d5: seq<byte>,
                   rows: seq<byte>)
    ensures var f := d0 + (d1 + d2 + d3 + d4 + d4 + d5 + d4 + d4 + d4) + rows;
            && f == [] + d0 + (d1 + d2 + d3 + d4 + d4 + d5 + d4 + d4 + d4 + rows)
            && f == d0 + d1 + (d2 + d3 + d4 + d4 + d5 + d4 + d4 + d4 + rows)
  {
  }

  lemma MiddleParts(d0: seq<byte>, d1: seq<byte>, d2: seq<byte>, d3: seq<byte>, d4: seq<byte>, d5: seq<byte>,
                    rows: seq<byte>)
    ensures var f := d0 + (d1 + d2 + d3 + d4 + d4 + d5 + d4 + d4 + d4) + rows;
            && f == (d0 + d1) + d2 + (d3 + d4 + d4 + d5 + d4 + d4 + d4 + rows)
            && f == (d0 + d1 + d2) + d3 + (d4 + d4 + d5 + d4 + d4 + d4 + rows)
  {
  }

  lemma LastParts(d0: seq<byte>, d1: seq<byte>, d2: seq<byte>, d3: seq<byte>, d4: seq<byte>, d5: seq<byte>,
                  rows: seq<byte>)
    ensures var f := d0 + (d1 + d2 + d3 + d4 + d4 + d5 + d4 + d4 + d4) + rows;
            && f == (d0 + d1 + d2 + d3 + d4 + d4) + d5 + (d4 + d4 + d4 + rows)
            && f == (d0 + d1 + d2 + d3 + d4 + d4 + d5 + d4 + d4) + d4 + rows
            && f == (d0 + d1 + d2 + d3 + d4 + d4 + d5 + d4 + d4 + d4) + rows
  {
  }

  lemma Exact(height: nat, line: nat)
    requires height > 0
    ensures height * line / height == line
  {
    Multiple(line, height, 0);
    var q := height * line / height;
    assert height * line == height * q + height * line % height;
    Times(height, q, line);
    Times(height, line, q);
  }

  /**
   * Every picture of at least one row and column, encoded and decoded, comes back with its dimensions and
   * every pixel v as (v / 85) * 85.
   */
  lemma RoundTrip(pixel: Source, width: nat, height: nat)
    requires 1 <= width && 1 <= height && FitsInt(width, height)
    ensures Readable(File(pixel, width, height))
    ensures Decode(File(pixel, width, height)) == Image(true, width, height, Picture(pixel, width, height))
  {
    RowsFit(pixel, width, height);
    HeaderReads(pixel, width, height);
    RowsDecoded(pixel, width, height);
    hide *;
    DecodesData(File(pixel, width, height), Rows(pixel, width, height), width, height);
  }

  lemma DecodesData(f: seq<byte>, data: seq<byte>, width: nat, height: nat)
    requires |f| == HEADER + |data| < WRAP && f[HEADER..] == data && height > 0
    requires DWordAt(f, 0) == HEADER + |data| && DWordAt(f, 4) == 0x28 && DWordAt(f, 8) == width
    requires DWordAt(f, 12) == height && DWordAt(f, 24) == 2 && DWordAt(f, 36) == 0
    ensures Readable(f)
    ensures var s := Decoded(2, data, width, height, false); Decode(f) == Image(s.ok, width, height, s.out)
  {
    hide DWordAt;
    hide Decoded;
    assert f[HEADER..HEADER + |data|] == data;
  }

  lemma RowsFit(pixel: Source, width: nat, height: nat)
    requires 1 <= width && 1 <= height && FitsInt(width, height)
    ensures HEADER + |Rows(pixel, width, height)| <= INT_MAX && width < WRAP && height < WRAP
  {
    RowsLength(pixel, width, height);
    SizesFit(width, height);
    hide Rows;
    hide LineLength;
  }

  lemma RowsDecoded(pixel: Source, width: nat, height: nat)
    requires 1 <= width && 1 <= height && FitsInt(width, height)
    ensures var s := Decoded(2, Rows(pixel, width, height), width, height, false);
            s.ok && s.out == Picture(pixel, width, height)
  {
    RowsLength(pixel, width, height);
    SizesFit(width, height);
    AreaIs(width, height);
    LineIsEnough(width);
    hide *;
    var rows, l := Rows(pixel, width, height), LineLength(width);
    Exact(height, l);
    Multiple(l, height, 0);
    assert |rows| / height == l && |rows| % height == 0;
    ShownIsPicture(pixel, width, height);
    RawPicture(2, rows, width, height);
  }

  lemma SizesFit(width: nat, height: nat)
    requires 1 <= width && 1 <= height && FitsInt(width, height)
    ensures width <= INT_MAX && height <= INT_MAX && width * height <= INT_MAX
    ensures height * LineLength(width) <= INT_MAX - HEADER
  {
    assert width * height >= width by { Times(width, 0, height); }
    assert width * height >= height by { Times(height, 0, width); }
  }

  /** Pixel (x, y) of the decoded picture. */
  lemma {:induction false} PictureAt(pixel: Source, width: nat, height: nat, x: nat, y: nat)
    requires x < width && y < height
    ensures |Picture(pixel, width, height)| == height * width && y * width + x < height * width
    ensures Picture(pixel, width, height)[y * width + x] == pixel(x, y) / 85 * 85
    decreases height
  {
    PictureLength(pixel, width, height);
    PictureLength(pixel, width, height - 1);
    InPicture(y, width, height, x);
    if y < height - 1 {
      PictureAt(pixel, width, height - 1, x, y);
    }
  }

  lemma {:induction false} PictureLength(pixel: Source, width: nat, height: nat)
    ensures |Picture(pixel, width, height)| == height * width
  {
    if height > 0 {
      PictureLength(pixel, width, height - 1);
      assert height * width == (height - 1) * width + width;
    }
  }

  // ---------------------------------------------------------------- the decoder's loops

  /** The macro splitByte. */
  method WriteByte(g: Geometry, s: Scan, b: byte) returns (s': Scan)
    requires s.ok
    ensures s' == SplitByte(g, s, b)
  {
    s' := s;
    var v := b;
    if s.x < g.BytesPerLine() {
      var j := 0;
      while j < PerByte(g.bits)
        invariant 0 <= j <= PerByte(g.bits) && s'.ok && s'.x == s.x && g.xPixels > 0
        invariant Pixels(g, s', v, j) == Pixels(g, s, b, 0)
      {
        if j > 0 && s'.oidx % g.xPixels == 0 {
          break;
        } else if s'.oidx >= g.picsize {
          return s'.(ok := false);
        } else {
          s' := s'.(oidx := s'.oidx + 1, out := s'.out + [Shade(g.bits, v)]);
          v := Shifted(g.bits, v);
        }
        j := j + 1;
      }
      assert s' == Pixels(g, s, b, 0);
    }
    s' := s'.(x := if s'.x + 1 >= g.linelen then 0 else s'.x + 1);
  }

  lemma RawOneMore(g: Geometry, s: Scan, data: seq<byte>, start: nat, offset: nat)
    requires start <= offset < |data|
    ensures RawDecode(g, s, data[start..offset + 1]) == SplitByte(g, RawDecode(g, s, data[start..offset]), data[offset])
  {
    var t := RawDecode(g, s, data[start..offset]);
    assert data[start..offset + 1] == data[start..offset] + [data[offset]];
    RawSplit(g, s, data[start..offset], [data[offset]]);
    assert [data[offset]][1..] == [];
    assert RawDecode(g, t, [data[offset]]) == SplitByte(g, t, data[offset]);
    hide SplitByte;
  }

  /** Once a byte did not fit, the rest of the data changes nothing. */
  lemma RawStuck(g: Geometry, s: Scan, data: seq<byte>, start: nat, offset: nat, end: nat)
    requires start <= offset <= end <= |data| && !RawDecode(g, s, data[start..offset]).ok
    ensures RawDecode(g, s, data[start..end]) == RawDecode(g, s, data[start..offset])
  {
    assert data[start..end] == data[start..offset] + data[offset..end];
    RawSplit(g, s, data[start..offset], data[offset..end]);
    StuckStays(g, RawDecode(g, s, data[start..offset]), data[offset..end]);
  }

  method DecodeRaw(g: Geometry, data: seq<byte>) returns (s: Scan)
    ensures s == RawDecode(g, START, data)
  {
    s := START;
    var offset := 0;
    assert data[0..0] == [];
    while offset < |data|
      invariant 0 <= offset <= |data| && s.ok && s == RawDecode(g, START, data[0..offset])
    {
      var b := data[offset];
      RawOneMore(g, START, data, 0, offset);
      offset := offset + 1;
      s := WriteByte(g, s, b);
      if !s.ok {
        RawStuck(g, START, data, 0, offset, |data|);
        assert data[0..|data|] == data;
        return;
      }
    }
    assert data[0..|data|] == data;
  }

  /** n bytes as they stand; false when they do not fit the picture, or are not all there. */
  method LiteralRun(g: Geometry, data: seq<byte>, s0: Scan, start: nat, n: nat) returns (s: Scan, offset: nat)
    requires s0.ok && start <= |data|
    ensures var r := RawDecode(g, s0, data[start..Upto(start + n, |data|)]);
            s == if start + n <= |data| then r else r.(ok := false)
    ensures s.ok ==> offset == start + n
  {
    s, offset := s0, start;
    ghost var end := Upto(start + n, |data|);
    var i := 0;
    hide SplitByte;
    assert data[start..start] == [] && RawDecode(g, s0, []) == s0;
    hide RawDecode;
    while i < n
      invariant 0 <= i <= n && offset == start + i <= end && s.ok && s == RawDecode(g, s0, data[start..offset])
    {
      if offset >= |data| {
        assert offset == end;
        return s.(ok := false), offset;
      }
      var b2 := data[offset];
      RawOneMore(g, s0, data, start, offset);
      s := WriteByte(g, s, b2);
      i, offset := i + 1, offset + 1;
      if !s.ok {
        RawStuck(g, s0, data, start, offset, end);
        return;
      }
    }
  }

  lemma {:induction false} RepeatOneMore(c: byte, n: nat)
    ensures Repeat(c, n + 1) == Repeat(c, n) + [c]
  {
    if n > 0 {
      RepeatOneMore(c, n - 1);
    }
  }

  /** One byte n times; false when it does not fit the picture. */
  method RepeatedRun(g: Geometry, s0: Scan, b2: byte, n: nat) returns (s: Scan)
    requires s0.ok
    ensures s == RawDecode(g, s0, Repeat(b2, n))
  {
    s := s0;
    var i := 0;
    while i < n
      invariant 0 <= i <= n && s.ok && s == RawDecode(g, s0, Repeat(b2, i))
    {
      RepeatOneMore(b2, i);
      RawSplit(g, s0, Repeat(b2, i), [b2]);
      assert [b2][1..] == [];
      assert RawDecode(g, s, [b2]) == SplitByte(g, s, b2);
      s := WriteByte(g, s, b2);
      i := i + 1;
      if !s.ok {
        RepeatStuck(g, s0, b2, i, n);
        return;
      }
    }
  }

  lemma {:induction false} RepeatStuck(g: Geometry, s: Scan, c: byte, i: nat, n: nat)
    requires i <= n && !RawDecode(g, s, Repeat(c, i)).ok
    ensures RawDecode(g, s, Repeat(c, n)) == RawDecode(g, s, Repeat(c, i))
    decreases n
  {
    if i < n {
      RepeatStuck(g, s, c, i, n - 1);
      RepeatOneMore(c, n - 1);
      RawSplit(g, s, Repeat(c, n - 1), [c]);
      StuckStays(g, RawDecode(g, s, Repeat(c, i)), [c]);
    }
  }

  method CountPromised(data: seq<byte>) returns (i: nat)
    ensures i == Promised(data)
  {
    i := 0;
    var offset := 0;
    while offset < |data|
      invariant 0 <= offset
      invariant i + Promised(data[Upto(offset, |data|)..]) == Promised(data)
      decreases |data| - offset
    {
      var b := data[offset];
      ghost var before := offset;
      if b >= 0x80 {
        offset := offset + 0x100 - b + 1;
        i := i + 0x100 - b;
      } else {
        offset := offset + 2;
        i := i + b + 1;
      }
      assert data[before..][Upto(offset - before, |data| - before)..] == data[Upto(offset, |data|)..];
    }
  }

  lemma RunStuck(g: Geometry, s: Scan, data: seq<byte>)
    requires !s.ok
    ensures RunDecode(g, s, data) == s
  {
  }

  lemma LiteralStep(g: Geometry, s: Scan, data: seq<byte>, offset: nat)
    requires offset < |data| && data[offset] >= 128 && s.ok
    ensures var start, end := offset + 1, offset + 257 - data[offset];
            && (end <= |data|
                ==> RunDecode(g, s, data[offset..]) == RunDecode(g, RawDecode(g, s, data[start..end]), data[end..]))
            && (end > |data| ==> RunDecode(g, s, data[offset..]) == RawDecode(g, s, data[start..|data|]).(ok := false))
  {
    var rest, n := data[offset..], 257 - data[offset];
    hide RawDecode;
    assert rest[1..] == data[offset + 1..|data|];
    if |rest| >= n {
      assert rest[1..n] == data[offset + 1..offset + n] && rest[n..] == data[offset + n..];
    }
  }

  lemma RepeatStep(g: Geometry, s: Scan, data: seq<byte>, offset: nat)
    requires offset < |data| && data[offset] < 128 && s.ok
    ensures if offset + 2 <= |data|
            then RunDecode(g, s, data[offset..])
                 == RunDecode(g, RawDecode(g, s, Repeat(data[offset + 1], data[offset] + 1)), data[offset + 2..])
            else RunDecode(g, s, data[offset..]) == s.(ok := false)
  {
    var rest := data[offset..];
    hide RawDecode;
    hide Repeat;
    if |rest| >= 2 {
      assert rest[2..] == data[offset + 2..] && rest[1] == data[offset + 1];
    }
  }

  /** One run, from its count on. */
  method OneRun(g: Geometry, data: seq<byte>, s0: Scan, at: nat) returns (s: Scan, offset: nat)
    requires s0.ok && at < |data|
    ensures s.ok ==> at < offset <= |data| && RunDecode(g, s, data[offset..]) == RunDecode(g, s0, data[at..])
    ensures !s.ok ==> s == RunDecode(g, s0, data[at..])
  {
    hide SplitByte;
    offset := at;
    var b := data[offset];
    if b >= 0x80 {
      LiteralStep(g, s0, data, at);
      offset := offset + 1;
      s, offset := LiteralRun(g, data, s0, offset, 0x100 - b);
      if at + 257 - b <= |data| && !s.ok {
        RunStuck(g, s, data[at + 257 - b..]);
      }
    } else {
      RepeatStep(g, s0, data, at);
      offset := offset + 1;
      if offset >= |data| {
        return s0.(ok := false), offset;
      }
      var b2 := data[offset];
      s := RepeatedRun(g, s0, b2, b + 1);
      offset := offset + 1;
      if !s.ok {
        RunStuck(g, s, data[offset..]);
      }
    }
    hide RunDecode;
    hide RawDecode;
    hide Repeat;
  }

  method DecodeRuns(g: Geometry, data: seq<byte>) returns (s: Scan)
    ensures s == RunDecode(g, START, data)
  {
    s := START;
    var offset := 0;
    assert data[0..] == data;
    while offset < |data|
      invariant 0 <= offset <= |data| && s.ok && RunDecode(g, s, data[offset..]) == RunDecode(g, START, data)
      decreases |data| - offset
    {
      hide RunDecode;
      s, offset := OneRun(g, data, s, offset);
      if !s.ok {
        return;
      }
    }
    assert data[offset..] == [];
  }

  method DecodeData(bits: nat, data: seq<byte>, xPixels: nat, yPixels: nat, runs: bool) returns (s: Scan)
    requires yPixels > 0
    ensures s == Decoded(bits, data, xPixels, yPixels, runs)
  {
    hide RunDecode;
    hide RawDecode;
    hide Promised;
    var picsize := PictureSize(xPixels, yPixels);
    hide PictureSize;
    if runs {
      var i := CountPromised(data);
      s := DecodeRuns(Geometry(bits, xPixels, picsize, i / yPixels), data);
    } else {
      s := DecodeRaw(Geometry(bits, xPixels, picsize, |data| / yPixels), data);
    }
  }

  method DecodeBitmap(p: seq<byte>) returns (image: Image)
    requires Readable(p)
    ensures image == Decode(p)
  {
    hide DWordAt;
    hide Decoded;
    var datlen := (DWordAt(p, 0) - DWordAt(p, 4)) % WRAP;
    var width, height := DWordAt(p, 8), DWordAt(p, 12);
    var s := DecodeData(DWordAt(p, 24), p[HEADER..HEADER + datlen], width, height, DWordAt(p, 36) != 0);
    image := Image(s.ok, width, height, s.out);
  }
}
