/**
 * The frame check of lib/datalink.cc and lib/datalink.h.
 *
 * Binary polynomials are natural numbers (bit k is the coefficient of x^k).  The reference is
 * ordinary long division by x^16 + x^12 + x^5 + 1; the table-driven register is proved to hold
 * the remainder that this division defines.
 */
module Crc {
  import opened Bytes

  // x^16 + x^12 + x^5 + 1, section 2 of ITU-T Recommendation V.41.
  const GENERATOR: nat := 0x11021

  // ---------------------------------------------------------------- exclusive or

  function Xor(x: nat, y: nat): nat
    decreases x + y
  {
    if x == 0 && y == 0 then 0
    else 2 * Xor(x / 2, y / 2) + if x % 2 == y % 2 then 0 else 1
  }

  lemma {:induction false} XorZero(x: nat)
    ensures Xor(x, 0) == x && Xor(0, x) == x
  {
    if x != 0 {
      XorZero(x / 2);
    }
  }

  lemma {:induction false} XorSelf(x: nat)
    ensures Xor(x, x) == 0
  {
    if x != 0 {
      XorSelf(x / 2);
    }
  }

  lemma {:induction false} XorComm(x: nat, y: nat)
    ensures Xor(x, y) == Xor(y, x)
    decreases x + y
  {
    if x != 0 || y != 0 {
      XorComm(x / 2, y / 2);
    }
  }

  lemma {:induction false} XorSplit2(h: nat, l: nat, h': nat, l': nat)
    requires l < 2 && l' < 2
    ensures Xor(2 * h + l, 2 * h' + l') == 2 * Xor(h, h') + if l == l' then 0 else 1
    ensures Xor(l, l') == if l == l' then 0 else 1
  {
    assert (2 * h + l) / 2 == h && (2 * h' + l') / 2 == h';
    assert (2 * h + l) % 2 == l && (2 * h' + l') % 2 == l';
    XorZero(0);
  }

  lemma {:induction false} XorAssoc(x: nat, y: nat, z: nat)
    ensures Xor(Xor(x, y), z) == Xor(x, Xor(y, z))
    decreases x + y + z
  {
    hide Xor;
    if x == 0 && y == 0 {
      XorZero(z);
      XorZero(0);
    } else if z == 0 {
      XorZero(y);
      XorZero(Xor(x, y));
    } else {
      var a, b, c := x / 2, y / 2, z / 2;
      XorAssoc(a, b, c);
      XorSplit2(a, x % 2, b, y % 2);
      XorSplit2(b, y % 2, c, z % 2);
      XorSplit2(Xor(a, b), Xor(x % 2, y % 2), c, z % 2);
      XorSplit2(a, x % 2, Xor(b, c), Xor(y % 2, z % 2));
    }
  }

  lemma {:induction false} XorCancel(x: nat, y: nat)
    ensures Xor(Xor(x, y), y) == x
  {
    hide Xor;
    XorAssoc(x, y, y);
    XorSelf(y);
    XorZero(x);
  }

  /** Xor acts separately on the bits above and below a position; in steps of 2, 4, 8 and 16 bits. */
  lemma {:induction false} XorSplit4(h: nat, l: nat, h': nat, l': nat)
    requires l < 4 && l' < 4
    ensures Xor(l, l') < 4
    ensures Xor(h * 4 + l, h' * 4 + l') == Xor(h, h') * 4 + Xor(l, l')
  {
    hide Xor;
    XorSplit2(2 * h + l / 2, l % 2, 2 * h' + l' / 2, l' % 2);
    XorSplit2(h, l / 2, h', l' / 2);
    XorSplit2(l / 2, l % 2, l' / 2, l' % 2);
  }

  lemma {:induction false} XorSplit16(h: nat, l: nat, h': nat, l': nat)
    requires l < 16 && l' < 16
    ensures Xor(l, l') < 16
    ensures Xor(h * 16 + l, h' * 16 + l') == Xor(h, h') * 16 + Xor(l, l')
  {
    hide Xor;
    XorSplit4(4 * h + l / 4, l % 4, 4 * h' + l' / 4, l' % 4);
    XorSplit4(h, l / 4, h', l' / 4);
    XorSplit4(l / 4, l % 4, l' / 4, l' % 4);
  }

  lemma {:induction false} XorSplitByte(h: nat, l: nat, h': nat, l': nat)
    requires l < 256 && l' < 256
    ensures Xor(l, l') < 256
    ensures Xor(h * 256 + l, h' * 256 + l') == Xor(h, h') * 256 + Xor(l, l')
  {
    hide Xor;
    XorSplit16(16 * h + l / 16, l % 16, 16 * h' + l' / 16, l' % 16);
    XorSplit16(h, l / 16, h', l' / 16);
    XorSplit16(l / 16, l % 16, l' / 16, l' % 16);
  }

  lemma {:induction false} XorSplitWord(h: nat, l: nat, h': nat, l': nat)
    requires l < 65536 && l' < 65536
    ensures Xor(l, l') < 65536
    ensures Xor(h * 65536 + l, h' * 65536 + l') == Xor(h, h') * 65536 + Xor(l, l')
  {
    hide Xor;
    XorSplitByte(256 * h + l / 256, l % 256, 256 * h' + l' / 256, l' % 256);
    XorSplitByte(h, l / 256, h', l' / 256);
    XorSplitByte(l / 256, l % 256, l' / 256, l' % 256);
  }

  lemma {:induction false} XorByte(a: nat, b: nat)
    requires a < 256 && b < 256
    ensures Xor(a, b) < 256
  {
    XorSplitByte(0, a, 0, b);
  }

  lemma {:induction false} XorWord(a: nat, b: nat)
    requires a < 65536 && b < 65536
    ensures Xor(a, b) < 65536
  {
    XorSplitWord(0, a, 0, b);
  }

  // ---------------------------------------------------------------- long division

  /** Subtracting the generator from a 17-bit value. */
  lemma {:induction false} Subtract(t: nat)
    requires 65536 <= t < 131072
    ensures Xor(t, GENERATOR) == Xor(t - 65536, 0x1021) < 65536
    ensures Xor(Xor(t, GENERATOR), GENERATOR) == t
  {
    hide Xor;
    XorSplitWord(1, t - 65536, 1, 0x1021);
    XorSplit2(0, 1, 0, 1);
    XorSelf(1);
    XorCancel(t, GENERATOR);
  }

  /** One step of long division: bring down the next bit, subtract the generator if it fits. */
  function DivStep(r: nat, bit: nat): (r': nat)
    requires r < 65536 && bit < 2
    ensures r' < 65536
  {
    var t := 2 * r + bit;
    if t >= 65536 then
      Subtract(t);
      Xor(t, GENERATOR)
    else t
  }

  /** The remainder of n modulo the generator, by long division from the top bit. */
  function Rem(n: nat): (r: nat)
    ensures r < 65536
  {
    if n < 65536 then n else DivStep(Rem(n / 2), n % 2)
  }

  /** The product of q and the generator. */
  function Times(q: nat): nat {
    if q == 0 then 0 else Xor(2 * Times(q / 2), if q % 2 == 1 then GENERATOR else 0)
  }

  lemma {:induction false} RemStep(n: nat, bit: nat)
    requires bit < 2
    ensures Rem(2 * n + bit) == DivStep(Rem(n), bit)
  {
    hide Xor;
    assert (2 * n + bit) / 2 == n && (2 * n + bit) % 2 == bit;
  }

  /** Four ways two summands can need the generator subtracted. */
  lemma {:induction false} SubtractEither(s: nat, t: nat)
    ensures Xor(Xor(s, GENERATOR), t) == Xor(Xor(s, t), GENERATOR)
    ensures Xor(s, Xor(t, GENERATOR)) == Xor(Xor(s, t), GENERATOR)
    ensures Xor(Xor(s, GENERATOR), Xor(t, GENERATOR)) == Xor(s, t)
  {
    hide Xor;
    var g := GENERATOR;
    XorAssoc(s, t, g);
    XorAssoc(s, g, t);
    XorComm(g, t);
    XorAssoc(Xor(s, g), t, g);
    XorCancel(Xor(s, t), g);
  }

  lemma {:induction false} DivStepLinear(a: nat, x: nat, b: nat, y: nat)
    requires a < 65536 && b < 65536 && x < 2 && y < 2
    ensures Xor(a, b) < 65536 && Xor(x, y) < 2
    ensures DivStep(Xor(a, b), Xor(x, y)) == Xor(DivStep(a, x), DivStep(b, y))
  {
    hide Xor;
    XorWord(a, b);
    var s, t := 2 * a + x, 2 * b + y;
    XorSplit2(a, x, b, y);
    XorSplit2(0, x, 0, y);
    SubtractEither(s, t);
    XorSplitWord(s / 65536, s % 65536, t / 65536, t % 65536);
    XorSplit2(0, s / 65536, 0, t / 65536);
  }

  lemma {:induction false} RemLinear(a: nat, b: nat)
    ensures Rem(Xor(a, b)) == Xor(Rem(a), Rem(b))
    decreases a + b
  {
    hide Xor;
    if a < 65536 && b < 65536 {
      XorWord(a, b);
    } else {
      hide DivStep;
      RemLinear(a / 2, b / 2);
      XorSplit2(a / 2, a % 2, b / 2, b % 2);
      RemStep(a / 2, a % 2);
      RemStep(b / 2, b % 2);
      RemStep(Xor(a / 2, b / 2), Xor(a % 2, b % 2));
      DivStepLinear(Rem(a / 2), a % 2, Rem(b / 2), b % 2);
    }
  }

  lemma {:induction false} RemGenerator()
    ensures Rem(GENERATOR) == 0
    ensures Rem(65536) == 0x1021
  {
    hide Xor;
    RemStep(GENERATOR / 2, 1);
    XorSelf(GENERATOR);
    RemStep(32768, 0);
    Subtract(65536);
    XorZero(0x1021);
  }

  lemma {:induction false} RemTimes(q: nat)
    ensures Rem(Times(q)) == 0
  {
    hide Xor;
    if q != 0 {
      RemTimes(q / 2);
      var g := if q % 2 == 1 then GENERATOR else 0;
      RemLinear(2 * Times(q / 2), g);
      RemStep(Times(q / 2), 0);
      RemGenerator();
      XorZero(0);
    }
  }

  lemma {:induction false} DivisionExists(n: nat) returns (q: nat)
    ensures n == Xor(Times(q), Rem(n))
  {
    hide Xor;
    if n < 65536 {
      q := 0;
      XorZero(n);
    } else {
      var q1 := DivisionExists(n / 2);
      var t := 2 * Rem(n / 2) + n % 2;
      var p := 2 * Times(q1);
      XorSplit2(Times(q1), 0, Rem(n / 2), n % 2);
      assert Xor(p, t) == n;
      if t >= 65536 {
        q := 2 * q1 + 1;
        assert q / 2 == q1 && Times(q) == Xor(p, GENERATOR);
        SubtractEither(p, t);
      } else {
        q := 2 * q1;
        XorZero(p);
        assert q / 2 == q1 && Times(q) == p;
      }
    }
  }

  /** Rem is the remainder: the only value below 2^16 that differs from n by a multiple of the generator. */
  lemma RemainderIsUnique(n: nat, r: nat)
    ensures Rem(n) == r <==> r < 65536 && exists q: nat :: n == Xor(Times(q), r)
  {
    hide Xor;
    if Rem(n) == r {
      var q := DivisionExists(n);
    }
    if r < 65536 && exists q: nat :: n == Xor(Times(q), r) {
      var q: nat :| n == Xor(Times(q), r);
      RemLinear(Times(q), r);
      RemTimes(q);
      XorZero(r);
    }
  }

  // ---------------------------------------------------------------- the table and the register

  /** What entry b of the table must hold. */
  function TableEntry(b: nat): (t: nat)
    ensures t < 65536
  {
    Rem(b * 65536)
  }

  ghost predicate IsTable(table: seq<int>) {
    |table| == 256 && forall b :: 0 <= b < 256 ==> table[b] == TableEntry(b)
  }

  lemma {:induction false} EntryDoubles(i: nat)
    ensures TableEntry(2 * i) == DivStep(TableEntry(i), 0)
    ensures TableEntry(2 * i + 1) == Xor(TableEntry(2 * i), 0x1021)
  {
    hide Xor;
    hide DivStep;
    RemStep(i * 65536, 0);
    XorSplitWord(2 * i, 0, 1, 0);
    XorSplit2(i, 0, 0, 1);
    XorZero(i);
    XorZero(0);
    RemLinear(2 * i * 65536, 65536);
    RemGenerator();
  }

  /** The row derived from entry e: which of the two values is subtracted depends on the carry. */
  lemma {:induction false} DoublingStep(e: nat)
    requires e < 65536
    ensures DivStep(e, 0) == if e >= 0x8000 then Xor(2 * e % 65536, 0x1021) else 2 * e % 65536
    ensures Xor(DivStep(e, 0), 0x1021) == if e >= 0x8000 then 2 * e % 65536 else Xor(2 * e % 65536, 0x1021)
  {
    hide Xor;
    if e >= 0x8000 {
      Subtract(2 * e);
      XorCancel(2 * e % 65536, 0x1021);
    }
  }

  /** The constructor's loop: every pair of entries is derived from the entry of half its index. */
  method BuildTable(table: array<int>)
    requires table.Length == 256
    modifies table
    ensures IsTable(table[..])
  {
    hide Xor;
    hide Rem;
    hide DivStep;
    table[0] := 0;
    assert TableEntry(0) == 0 by { ZeroEntry(); }
    for i := 0 to 128
      invariant table[0] == TableEntry(0)
      invariant forall b :: 0 <= b < 2 * i ==> table[b] == TableEntry(b)
    {
      var e := table[i];
      assert e == TableEntry(i);
      var carry := e >= 0x8000;
      var tmp := 2 * e % 65536;
      DoublingStep(e);
      EntryDoubles(i);
      table[2 * i + if carry then 0 else 1] := Xor(tmp, 0x1021);
      table[2 * i + if carry then 1 else 0] := tmp;
    }
  }

  lemma {:induction false} ZeroEntry()
    ensures TableEntry(0) == 0
  {
  }

  /** One table-driven step of the 16-bit register. */
  function AddToCrc(table: seq<int>, crc: nat, a: byte): (crc': nat)
    requires IsTable(table) && crc < 65536
    ensures crc' < 65536
  {
    XorByte(crc / 256, a);
    var entry := table[Xor(crc / 256, a)];
    assert entry == TableEntry(Xor(crc / 256, a));
    XorWord((crc * 256) % 65536, entry);
    Xor((crc * 256) % 65536, entry)
  }

  /** The message read as one big binary number, first byte highest. */
  function Value(msg: seq<byte>): nat {
    if msg == [] then 0 else Value(msg[..|msg| - 1]) * 256 + msg[|msg| - 1]
  }

  /** The check value of a message: the remainder of message * x^16. */
  function CrcOf(msg: seq<byte>): (c: nat)
    ensures c < 65536
  {
    Rem(Value(msg) * 65536)
  }

  // Dividing after a shift only needs the remainder; shifts of 1, 2, 4, 8 bits.

  lemma {:induction false} RemShift1(n: nat)
    ensures Rem(n * 2) == Rem(Rem(n) * 2)
  {
    hide Xor;
    RemStep(n, 0);
    RemStep(Rem(n), 0);
  }

  lemma {:induction false} RemShift2(n: nat)
    ensures Rem(n * 4) == Rem(Rem(n) * 4)
  {
    hide *;
    RemShift1(n);
    RemShift1(n * 2);
    RemShift1(Rem(n) * 2);
    assert n * 2 * 2 == n * 4 && Rem(n) * 2 * 2 == Rem(n) * 4;
  }

  lemma {:induction false} RemShift4(n: nat)
    ensures Rem(n * 16) == Rem(Rem(n) * 16)
  {
    hide *;
    RemShift2(n);
    RemShift2(n * 4);
    RemShift2(Rem(n) * 4);
    assert n * 4 * 4 == n * 16 && Rem(n) * 4 * 4 == Rem(n) * 16;
  }

  lemma {:induction false} RemShift8(n: nat)
    ensures Rem(n * 256) == Rem(Rem(n) * 256)
  {
    hide *;
    RemShift4(n);
    RemShift4(n * 16);
    RemShift4(Rem(n) * 16);
    assert n * 16 * 16 == n * 256 && Rem(n) * 16 * 16 == Rem(n) * 256;
  }

  /** The table index folds the high register byte and the message byte together. */
  lemma {:induction false} EntryLinear(h: nat, a: nat)
    ensures TableEntry(Xor(h, a)) == Xor(TableEntry(h), TableEntry(a))
  {
    hide Xor;
    hide Rem;
    XorSplitWord(h, 0, a, 0);
    XorZero(0);
    RemLinear(h * 65536, a * 65536);
  }

  /** The table step advances the register by eight bits of the division. */
  lemma {:induction false} AddToCrcDivides(table: seq<int>, crc: nat, a: byte)
    requires IsTable(table) && crc < 65536
    ensures AddToCrc(table, crc, a) == Xor(Rem(crc * 256), TableEntry(a))
  {
    hide Xor;
    hide Rem;
    var h, l := crc / 256, crc % 256;
    XorByte(h, a);
    var lo := l * 256;
    assert (crc * 256) % 65536 == lo && crc * 256 == h * 65536 + lo;
    XorSplitWord(h, 0, 0, lo);
    XorZero(h);
    XorZero(lo);
    RemLinear(h * 65536, lo);
    RemSmall(lo);
    assert Rem(crc * 256) == Xor(TableEntry(h), lo);
    EntryLinear(h, a);
    XorComm(lo, TableEntry(Xor(h, a)));
    XorAssoc(TableEntry(h), TableEntry(a), lo);
    XorComm(TableEntry(a), lo);
    XorAssoc(TableEntry(h), lo, TableEntry(a));
  }

  lemma {:induction false} RemSmall(n: nat)
    requires n < 65536
    ensures Rem(n) == n
  {
  }

  /** The check value starts at 0, and is 0x1021 for the single byte 1. */
  lemma FirstChecks()
    ensures CrcOf([]) == 0 && CrcOf([1]) == 0x1021
  {
    RemGenerator();
    hide Xor;
    hide DivStep;
    assert [1][..0] == [] && Value([]) == 0;
    assert Value([1]) == 1;
    hide Value;
    assert Rem(0) == 0;
    hide Rem;
  }

  /** Feeding a message byte by byte keeps the register equal to the remainder. */
  lemma {:induction false} CrcOfSnoc(table: seq<int>, msg: seq<byte>, a: byte)
    requires IsTable(table)
    ensures AddToCrc(table, CrcOf(msg), a) == CrcOf(msg + [a])
  {
    hide Xor;
    hide Rem;
    hide AddToCrc;
    assert (msg + [a])[..|msg|] == msg;
    var v := Value(msg);
    assert Value(msg + [a]) == v * 256 + a;
    AddToCrcDivides(table, CrcOf(msg), a);
    RemShift8(v * 65536);
    assert v * 65536 * 256 == v * 256 * 65536;
    XorSplitByte(v, 0, 0, a);
    XorZero(v);
    XorZero(a);
    XorSplitWord(v * 256, 0, a, 0);
    XorZero(0);
    RemLinear(v * 256 * 65536, a * 65536);
  }

  // ---------------------------------------------------------------- error detection

  /** The generator is odd, so the parity of the new register tells whether it was subtracted. */
  lemma {:induction false} DoubleInjective(r: nat, s: nat)
    requires r < 65536 && s < 65536 && Rem(r * 2) == Rem(s * 2)
    ensures r == s
  {
    hide Xor;
    RemStep(r, 0);
    RemStep(s, 0);
    XorSplit2(r, 0, GENERATOR / 2, 1);
    XorSplit2(s, 0, GENERATOR / 2, 1);
    XorCancel(2 * r, GENERATOR);
    XorCancel(2 * s, GENERATOR);
  }

  lemma {:induction false} ShiftInjective2(r: nat, s: nat)
    requires r < 65536 && s < 65536 && Rem(r * 4) == Rem(s * 4)
    ensures r == s
  {
    hide *;
    RemShift1(r * 2);
    RemShift1(s * 2);
    assert r * 2 * 2 == r * 4 && s * 2 * 2 == s * 4;
    DoubleInjective(Rem(r * 2), Rem(s * 2));
    DoubleInjective(r, s);
  }

  lemma {:induction false} ShiftInjective4(r: nat, s: nat)
    requires r < 65536 && s < 65536 && Rem(r * 16) == Rem(s * 16)
    ensures r == s
  {
    hide *;
    RemShift2(r * 4);
    RemShift2(s * 4);
    assert r * 4 * 4 == r * 16 && s * 4 * 4 == s * 16;
    ShiftInjective2(Rem(r * 4), Rem(s * 4));
    ShiftInjective2(r, s);
  }

  lemma {:induction false} ShiftInjective8(r: nat, s: nat)
    requires r < 65536 && s < 65536 && Rem(r * 256) == Rem(s * 256)
    ensures r == s
  {
    hide *;
    RemShift4(r * 16);
    RemShift4(s * 16);
    assert r * 16 * 16 == r * 256 && s * 16 * 16 == s * 256;
    ShiftInjective4(Rem(r * 16), Rem(s * 16));
    ShiftInjective4(r, s);
  }

  lemma {:induction false} ShiftInjective16(r: nat, s: nat)
    requires r < 65536 && s < 65536 && Rem(r * 65536) == Rem(s * 65536)
    ensures r == s
  {
    hide *;
    RemShift8(r * 256);
    RemShift8(s * 256);
    assert r * 256 * 256 == r * 65536 && s * 256 * 256 == s * 65536;
    ShiftInjective8(Rem(r * 256), Rem(s * 256));
    ShiftInjective8(r, s);
  }

  /** Once two registers differ, no common suffix makes them meet again. */
  lemma {:induction false} SuffixKeepsDifference(table: seq<int>, p: seq<byte>, q: seq<byte>, s: seq<byte>)
    requires IsTable(table)
    requires CrcOf(p) != CrcOf(q)
    ensures CrcOf(p + s) != CrcOf(q + s)
  {
    hide Xor;
    hide CrcOf;
    hide AddToCrc;
    if s == [] {
      assert p + s == p && q + s == q;
    } else {
      var n := |s| - 1;
      var p', q', a := p + s[..n], q + s[..n], s[n];
      SuffixKeepsDifference(table, p, q, s[..n]);
      assert p + s == p' + [a] && q + s == q' + [a];
      CrcOfSnoc(table, p', a);
      CrcOfSnoc(table, q', a);
      AddToCrcDivides(table, CrcOf(p'), a);
      AddToCrcDivides(table, CrcOf(q'), a);
      XorCancel(Rem(CrcOf(p') * 256), TableEntry(a));
      XorCancel(Rem(CrcOf(q') * 256), TableEntry(a));
      if CrcOf(p + s) == CrcOf(q + s) {
        ShiftInjective8(CrcOf(p'), CrcOf(q'));
      }
    }
  }

  lemma {:induction false} ValueOfPair(p: seq<byte>, x: byte, y: byte)
    ensures Value(p + [x, y]) == Value(p) * 65536 + (x * 256 + y)
  {
    var m := p + [x, y];
    assert m[..|m| - 1] == p + [x];
    assert (p + [x])[..|p|] == p;
  }

  /** A register and two message bytes: the remainder separates any two different pairs. */
  lemma {:induction false} PairChangesCrc(p: seq<byte>, x: byte, y: byte, x': byte, y': byte)
    requires x != x' || y != y'
    ensures CrcOf(p + [x, y]) != CrcOf(p + [x', y'])
  {
    hide Xor;
    hide Rem;
    var v, d, d' := Value(p), x * 256 + y, x' * 256 + y';
    ValueOfPair(p, x, y);
    ValueOfPair(p, x', y');
    assert d != d';
    PairRegister(v, d);
    PairRegister(v, d');
    if CrcOf(p + [x, y]) == CrcOf(p + [x', y']) {
      var c := Rem(v * 65536);
      XorCancel(Rem(d * 65536), Rem(c * 65536));
      XorCancel(Rem(d' * 65536), Rem(c * 65536));
      ShiftInjective16(d, d');
    }
  }

  lemma {:induction false} PairRegister(v: nat, d: nat)
    requires d < 65536
    ensures Rem((v * 65536 + d) * 65536) == Xor(Rem(d * 65536), Rem(Rem(v * 65536) * 65536))
  {
    hide *;
    XorSplitWord(0, d, v, 0);
    XorZero(v);
    XorZero(d);
    assert v * 65536 + d == Xor(d, v * 65536);
    XorSplitWord(d, 0, v * 65536, 0);
    XorZero(0);
    RemLinear(d * 65536, v * 65536 * 65536);
    RemShift8(v * 65536);
    RemShift8(v * 65536 * 256);
    RemShift8(Rem(v * 65536) * 256);
    assert v * 65536 * 256 * 256 == v * 65536 * 65536;
    assert Rem(v * 65536) * 256 * 256 == Rem(v * 65536) * 65536;
  }

  lemma {:induction false} BurstDetected(p: seq<byte>, x: byte, y: byte, x': byte, y': byte, s: seq<byte>)
    requires x != x' || y != y'
    ensures CrcOf(p + [x, y] + s) != CrcOf(p + [x', y'] + s)
  {
    hide *;
    PairChangesCrc(p, x, y, x', y');
    var table := seq(256, b requires 0 <= b < 256 => TableEntry(b));
    TableExists(table);
    SuffixKeepsDifference(table, p + [x, y], p + [x', y'], s);
  }

  lemma {:induction false} TableExists(table: seq<int>)
    requires table == seq(256, b requires 0 <= b < 256 => TableEntry(b))
    ensures IsTable(table)
  {
  }

  /** Damage confined to two adjacent bytes of a payload of any length is always detected. */
  lemma {:induction false} TwoByteDamageDetected(m: seq<byte>, m': seq<byte>, k: nat)
    requires |m| == |m'| && m != m'
    requires forall i :: 0 <= i < |m| && i != k && i != k + 1 ==> m[i] == m'[i]
    ensures CrcOf(m) != CrcOf(m')
  {
    hide CrcOf;
    hide Xor;
    if |m| == 1 {
      SingleByteCrc(m[0]);
      SingleByteCrc(m'[0]);
      assert m == [m[0]] && m' == [m'[0]];
      if CrcOf(m) == CrcOf(m') {
        ShiftInjective16(m[0], m'[0]);
      }
    } else {
      var j := if k + 1 < |m| then k else |m| - 2;
      assert m == m[..j] + [m[j], m[j + 1]] + m[j + 2..];
      assert m' == m[..j] + [m'[j], m'[j + 1]] + m[j + 2..];
      BurstDetected(m[..j], m[j], m[j + 1], m'[j], m'[j + 1], m[j + 2..]);
    }
  }

  lemma {:induction false} SingleByteCrc(a: byte)
    ensures CrcOf([a]) == Rem(a * 65536)
  {
    hide Xor;
    hide Rem;
    assert Value([a][..0]) == 0;
  }
}
