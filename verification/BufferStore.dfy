/**
 * The byte container of lib/bufferstore.cc: an allocated array of which the bytes from `start` to `len`
 * are the content.
 */
module BufferStores {
  import opened Bytes

  const MIN_LEN: nat := 300

  // ---------------------------------------------------------------- words

  /** The low byte of a C integer, and the next ones: the shifts are arithmetic. */
  function LowByte(a: int): byte {
    a % 256
  }

  function WordBytes(a: int): seq<byte> {
    [LowByte(a), LowByte(a / 256)]
  }

  function DWordBytes(a: int): seq<byte> {
    [LowByte(a), LowByte(a / 0x100), LowByte(a / 0x1_0000), LowByte(a / 0x100_0000)]
  }

  /** The unsigned words at a position, low byte first. */
  function WordAt(s: seq<byte>, pos: nat): nat
    requires pos + 2 <= |s|
  {
    s[pos] as int + s[pos + 1] as int * 256
  }

  function DWordAt(s: seq<byte>, pos: nat): nat
    requires pos + 4 <= |s|
  {
    s[pos] as int + s[pos + 1] as int * 0x100 + s[pos + 2] as int * 0x1_0000 + s[pos + 3] as int * 0x100_0000
  }

  /** The same bits as a signed 32-bit number. */
  function SDWordAt(s: seq<byte>, pos: nat): int
    requires pos + 4 <= |s|
  {
    var v := DWordAt(s, pos);
    if v < 0x8000_0000 then v else v - 0x1_0000_0000
  }

  lemma Half16(a: int)
    ensures a % 256 + (a / 256) % 256 * 256 == a % 0x1_0000
  {
    var k, l := a / 256 / 256, a / 256 % 256;
    assert a == 0x1_0000 * k + (256 * l + a % 256);
  }

  lemma Half24(a: int)
    ensures a % 256 + (a / 256) % 0x1_0000 * 256 == a % 0x100_0000
  {
    var k, l := a / 256 / 0x1_0000, a / 256 % 0x1_0000;
    assert a == 0x100_0000 * k + (256 * l + a % 256);
  }

  lemma Half32(a: int)
    ensures a % 256 + (a / 256) % 0x100_0000 * 256 == a % 0x1_0000_0000
  {
    var k, l := a / 256 / 0x100_0000, a / 256 % 0x100_0000;
    assert a == 0x1_0000_0000 * k + (256 * l + a % 256);
  }

  /** The low byte comes first. */
  lemma LowByteFirst(a: int)
    ensures WordBytes(a) == [a % 0x100, a / 0x100 % 0x100]
    ensures DWordBytes(a) == [a % 0x100, a / 0x100 % 0x100, a / 0x1_0000 % 0x100, a / 0x100_0000 % 0x100]
  {
  }

  /** A word written reads back as its low 16 bits, negative ones included. */
  lemma WordRoundTrip(a: int)
    ensures WordAt(WordBytes(a), 0) == a % 0x1_0000
  {
    Half16(a);
  }

  /** A double word reads back as its low 32 bits; as a signed one, as itself when it fits. */
  lemma DWordRoundTrip(a: int)
    ensures DWordAt(DWordBytes(a), 0) == a % 0x1_0000_0000
    ensures -0x8000_0000 <= a < 0x8000_0000 ==> SDWordAt(DWordBytes(a), 0) == a
  {
    FourBytes(a);
    Signed32(a);
    assert DWordAt(DWordBytes(a), 0)
        == LowByte(a) as int + LowByte(a / 0x100) as int * 0x100 + LowByte(a / 0x1_0000) as int * 0x1_0000
           + LowByte(a / 0x100_0000) as int * 0x100_0000;
    hide DWordBytes;
    hide DWordAt;
    hide LowByte;
  }

  lemma FourBytes(a: int)
    ensures LowByte(a) as int + LowByte(a / 0x100) as int * 0x100 + LowByte(a / 0x1_0000) as int * 0x1_0000
            + LowByte(a / 0x100_0000) as int * 0x100_0000 == a % 0x1_0000_0000
  {
    var b, c := a / 256, a / 256 / 256;
    assert b / 256 == a / 0x1_0000 && c / 256 == a / 0x100_0000;
    Half16(c);
    Half24(b);
    Half32(a);
  }

  lemma Signed32(a: int)
    ensures -0x8000_0000 <= a < 0x8000_0000 ==> a % 0x1_0000_0000 == if a < 0 then a + 0x1_0000_0000 else a
  {
  }

  // ---------------------------------------------------------------- the class

  class BufferStore {
    var len: nat
    var lenAllocd: nat
    var start: nat
    var buff: array<byte>

    /** What every operation relies on; `start` may lie behind `len` only after a truncation. */
    ghost predicate Allocated()
      reads this
    {
      len <= lenAllocd == buff.Length
    }

    ghost predicate Valid()
      reads this
    {
      Allocated() && start <= len
    }

    /** Everything written, the discarded bytes included. */
    ghost function Raw(): (s: seq<byte>)
      requires Allocated()
      reads this, buff
    {
      buff[..len]
    }

    /** The content. */
    ghost function View(): (s: seq<byte>)
      requires Allocated()
      reads this, buff
    {
      if start > len then [] else buff[start..len]
    }

    constructor ()
      ensures Valid() && fresh(buff) && View() == [] && start == 0
    {
      len, lenAllocd, start := 0, 0, 0;
      buff := new byte[0];
    }

    constructor Copy(a: BufferStore)
      requires a.Allocated()
      ensures Valid() && fresh(buff) && View() == a.View() && start == 0
    {
      var n := if a.start > a.len then 0 else a.len - a.start;
      var allocd := if n > MIN_LEN then n else MIN_LEN;
      var bytes := if n > 0 then a.buff[a.start..a.start + n] else [];
      assert bytes == a.View();
      len, lenAllocd, start := n, allocd, 0;
      buff := new byte[allocd];
      new;
      Write(0, bytes);
      assert buff[0..n] == buff[..n] == bytes;
    }

    constructor From(bytes: seq<byte>)
      ensures Valid() && fresh(buff) && View() == bytes && start == 0
    {
      var allocd := if |bytes| > MIN_LEN then |bytes| else MIN_LEN;
      len, lenAllocd, start := |bytes|, allocd, 0;
      buff := new byte[allocd](i requires i >= 0 => if i < |bytes| then bytes[i] else 0);
    }

    /** memcpy to a place in the array. */
    method Write(at: nat, bytes: seq<byte>)
      requires at + |bytes| <= buff.Length
      modifies buff
      ensures buff[..at + |bytes|] == old(buff[..at]) + bytes
    {
      forall i | 0 <= i < |bytes| {
        buff[at + i] := bytes[i];
      }
    }

    /** Makes room for newLen bytes and one more, doubling the allocation; the content stays. */
    method CheckAllocd(newLen: nat)
      requires Allocated()
      modifies this`lenAllocd, this`buff
      ensures Allocated() && newLen < lenAllocd && old(lenAllocd) <= lenAllocd
      ensures buff == old(buff) || fresh(buff)
      ensures Raw() == old(Raw()) && View() == old(View())
      ensures newLen < old(lenAllocd) ==> lenAllocd == old(lenAllocd)
      ensures newLen >= old(lenAllocd) ==> lenAllocd <= MIN_LEN || lenAllocd <= 2 * newLen
    {
      if newLen >= lenAllocd {
        var allocd := lenAllocd;
        allocd := if allocd < MIN_LEN then MIN_LEN else allocd * 2;
        while newLen >= allocd
          invariant old(lenAllocd) <= allocd && MIN_LEN <= allocd
          invariant allocd <= MIN_LEN || allocd <= 2 * newLen
          decreases newLen - allocd
        {
          allocd := if allocd < MIN_LEN then MIN_LEN else allocd * 2;
        }
        var bigger := new byte[allocd];
        forall i | 0 <= i < buff.Length {
          bigger[i] := buff[i];
        }
        lenAllocd := allocd;
        buff := bigger;
      }
    }

    /** Bytes written behind the content, where there is room for them. */
    method Append(bytes: seq<byte>)
      requires Valid() && len + |bytes| <= lenAllocd
      modifies this`len, buff
      ensures Valid() && View() == old(View()) + bytes && Raw() == old(Raw()) + bytes
    {
      Write(len, bytes);
      len := len + |bytes|;
    }

    /** The assignment operator; assigning a buffer to itself changes nothing. */
    method Assign(a: BufferStore)
      requires Allocated() && a.Allocated() && (a != this ==> a.buff != buff)
      modifies this, buff
      ensures Allocated() && (a != this ==> Valid() && start == 0)
      ensures View() == old(a.View()) && (a != this ==> a.View() == old(a.View()))
      ensures buff == old(buff) || fresh(buff)
    {
      if this != a {
        var n := if a.start > a.len then 0 else a.len - a.start;
        CheckAllocd(n);
        len := n;
        Write(0, if n > 0 then a.buff[a.start..a.start + n] else []);
        start := 0;
      }
    }

    method Init()
      requires Allocated()
      modifies this`start, this`len
      ensures Valid() && View() == [] && start == 0
    {
      start, len := 0, 0;
    }

    method InitFrom(bytes: seq<byte>)
      requires Allocated()
      modifies this, buff
      ensures Valid() && View() == bytes && start == 0
      ensures buff == old(buff) || fresh(buff)
    {
      CheckAllocd(|bytes|);
      start := 0;
      len := |bytes|;
      Write(0, bytes);
    }

    function GetLen(): (n: nat)
      requires Allocated()
      reads this, buff
      ensures n == |View()|
    {
      if start > len then 0 else len - start
    }

    /** Right but after a truncation below `start`. */
    function Empty(): (b: bool)
      requires Allocated()
      reads this, buff
      ensures start <= len ==> b == (View() == [])
      ensures start > len ==> !b
    {
      len as int - start as int == 0
    }

    /** The source does not check the position: it must be in allocated memory. */
    function GetByte(pos: nat): (c: byte)
      requires Allocated() && pos + start < lenAllocd
      reads this, buff
      ensures pos < |View()| ==> c == View()[pos]
    {
      buff[pos + start]
    }

    function GetWord(pos: nat): (w: nat)
      requires Allocated() && pos + start + 1 < lenAllocd
      reads this, buff
      ensures pos + 2 <= |View()| ==> w == WordAt(View(), pos)
    {
      buff[pos + start] as int + buff[pos + start + 1] as int * 256
    }

    function GetDWord(pos: nat): (w: nat)
      requires Allocated() && pos + start + 3 < lenAllocd
      reads this, buff
      ensures pos + 4 <= |View()| ==> w == DWordAt(View(), pos)
    {
      buff[pos + start] as int + buff[pos + start + 1] as int * 0x100
      + buff[pos + start + 2] as int * 0x1_0000 + buff[pos + start + 3] as int * 0x100_0000
    }

    function GetSDWord(pos: nat): (w: int)
      requires Allocated() && pos + start + 3 < lenAllocd
      reads this, buff
      ensures pos + 4 <= |View()| ==> w == SDWordAt(View(), pos)
    {
      if GetDWord(pos) < 0x8000_0000 then GetDWord(pos) else GetDWord(pos) - 0x1_0000_0000
    }

    method DiscardFirstBytes(n: nat)
      requires Valid()
      modifies this`start
      ensures Valid() && View() == if n <= |old(View())| then old(View())[n..] else []
    {
      start := start + n;
      if start > len {
        start := len;
      }
    }

    /** `buff[len++] = c`. */
    method Put(c: byte)
      requires Valid() && len < lenAllocd
      modifies this`len, buff
      ensures Valid() && len == old(len) + 1 && View() == old(View()) + [c]
    {
      buff[len] := c;
      len := len + 1;
    }

    method AddByte(c: byte)
      requires Valid()
      modifies this, buff
      ensures Valid() && start == old(start) && View() == old(View()) + [c]
      ensures buff == old(buff) || fresh(buff)
    {
      CheckAllocd(len + 1);
      Put(c);
    }

    method AddBytes(bytes: seq<byte>)
      requires Valid()
      modifies this, buff
      ensures Valid() && start == old(start) && View() == old(View()) + bytes
      ensures buff == old(buff) || fresh(buff)
    {
      CheckAllocd(len + |bytes|);
      Append(bytes);
    }

    /** With the terminating zero byte. */
    method AddStringT(bytes: seq<byte>)
      requires Valid()
      modifies this, buff
      ensures Valid() && start == old(start) && View() == old(View()) + bytes + [0]
      ensures buff == old(buff) || fresh(buff)
    {
      AddBytes(bytes);
      AddByte(0);
    }

    /** Appends the content of a buffer, or its first maxLen bytes if that is less; a negative maxLen is no limit. */
    method AddBuff(s: BufferStore, maxLen: int)
      requires Valid() && s.Allocated() && (s != this ==> s.buff != buff)
      modifies this, buff
      ensures Valid() && start == old(start)
      ensures View() == old(View()) + if 0 <= maxLen < |old(s.View())| then old(s.View())[..maxLen] else old(s.View())
      ensures buff == old(buff) || fresh(buff)
      ensures s != this ==> s.Allocated() && s.View() == old(s.View())
    {
      var l: int := s.GetLen();
      CheckAllocd(len + l);
      if maxLen >= 0 && maxLen < l {
        l := maxLen;
      }
      WholeTake(s.View());
      AppendFrom(s, l);
    }

    /** Appends the first l bytes of the content of s. */
    method AppendFrom(s: BufferStore, l: nat)
      requires Valid() && s.Allocated() && l <= |s.View()| && len + l <= lenAllocd
      modifies this`len, buff
      ensures Valid() && View() == old(View()) + old(s.View())[..l]
    {
      ghost var view := View();
      if l > 0 {
        var bytes := s.buff[s.start..s.start + l];
        ghost var all := s.buff[..];
        assert bytes == all[s.start..s.start + l] && s.View() == all[s.start..s.len];
        TakeOfSlice(all, s.start, s.len, l);
        Append(bytes);
      } else {
        assert view + [] == view;
      }
    }

    method AddWord(a: int)
      requires Valid()
      modifies this, buff
      ensures Valid() && start == old(start) && View() == old(View()) + WordBytes(a)
      ensures buff == old(buff) || fresh(buff)
    {
      CheckAllocd(len + 2);
      Put(LowByte(a));
      Put(LowByte(a / 256));
    }

    method AddDWord(a: int)
      requires Valid()
      modifies this, buff
      ensures Valid() && start == old(start) && View() == old(View()) + DWordBytes(a)
      ensures buff == old(buff) || fresh(buff)
    {
      hide LowByte;
      CheckAllocd(len + 4);
      ghost var view := View();
      var b0, b1, b2, b3 := LowByte(a), LowByte(a / 0x100), LowByte(a / 0x1_0000), LowByte(a / 0x100_0000);
      Put(b0);
      Put(b1);
      Put(b2);
      Put(b3);
      OneByOne(view, b0, b1, b2, b3);
    }

    /** Cuts what was written, not the content; TruncateNeeds says when the two agree. */
    method Truncate(newLen: nat)
      requires Allocated()
      modifies this`len
      ensures Allocated() && Raw() == Cut(old(Raw()), newLen)
      ensures View() == Content(Cut(old(Raw()), newLen), start)
      ensures old(Valid()) ==>
                (View() == Cut(old(View()), newLen)
                 <==> start == 0 || newLen == 0 || newLen >= |old(Raw())| || old(View()) == [])
      ensures old(Valid()) ==> (Valid() <==> start <= newLen || newLen >= old(len))
    {
      ghost var raw := Raw();
      if newLen < len {
        len := newLen;
      }
      if start <= |raw| {
        TruncateNeeds(raw, start, newLen);
      }
    }

    /** memmove of everything written, n places up. */
    method Shift(n: nat)
      requires len + n <= buff.Length
      modifies buff
      ensures buff[n..len + n] == old(buff[..len])
    {
      forall i | 0 <= i < len {
        buff[i + n] := buff[i];
      }
    }

    /**
     * Shifts everything written and puts the byte before it; the content gets, before it, the byte itself if
     * nothing was discarded, and otherwise the byte discarded last.
     */
    method PrependByte(c: byte)
      requires Valid()
      modifies this, buff
      ensures Valid() && start == old(start) && Raw() == [c] + old(Raw())
      ensures View() == [if start == 0 then c else old(Raw())[start - 1]] + old(View())
      ensures buff == old(buff) || fresh(buff)
    {
      CheckAllocd(len + 1);
      ghost var raw := Raw();
      Shift(1);
      len := len + 1;
      buff[0] := c;
      assert buff[1..len] == raw;
      FirstAndRest(buff, len);
      FromStart(buff, start, len);
      PrependedByte(raw, start, c);
    }

    method PrependWord(a: int)
      requires Valid()
      modifies this, buff
      ensures Valid() && start == old(start) && Raw() == WordBytes(a) + old(Raw())
      ensures start == 0 ==> View() == WordBytes(a) + old(View())
      ensures buff == old(buff) || fresh(buff)
    {
      CheckAllocd(len + 2);
      ghost var raw := Raw();
      Shift(2);
      len := len + 2;
      buff[0] := LowByte(a);
      buff[1] := LowByte(a / 256);
      assert buff[2..len] == raw;
      assert Raw() == WordBytes(a) + raw;
    }
  }

  lemma FirstAndRest(a: array<byte>, n: nat)
    requires 1 <= n <= a.Length
    ensures a[..n] == [a[0]] + a[1..n]
  {
  }

  lemma FromStart(a: array<byte>, start: nat, n: nat)
    requires start <= n <= a.Length
    ensures a[start..n] == a[..n][start..]
  {
  }

  lemma TakeOfSlice(s: seq<byte>, from: nat, to: nat, n: nat)
    requires from + n <= to <= |s|
    ensures s[from..to][..n] == s[from..from + n]
  {
  }

  function Cut(s: seq<byte>, n: nat): seq<byte> {
    if n < |s| then s[..n] else s
  }

  /** What was written, without what was discarded. */
  function Content(raw: seq<byte>, start: nat): seq<byte> {
    if start > |raw| then [] else raw[start..]
  }

  /**
   * Cutting what was written cuts the content to the new length exactly when nothing was discarded or all of
   * it, or the new length is 0 or not below what was written.
   */
  lemma TruncateNeeds(raw: seq<byte>, start: nat, newLen: nat)
    requires start <= |raw|
    ensures Content(Cut(raw, newLen), start) == Cut(raw[start..], newLen)
            <==> start == 0 || newLen == 0 || newLen >= |raw| || start == |raw|
  {
    if 0 < newLen < |raw| && 0 < start < |raw| {
      assert |Cut(raw[start..], newLen)| == (if newLen < |raw| - start then newLen else |raw| - start);
      assert |Content(Cut(raw, newLen), start)| == (if start > newLen then 0 else newLen - start);
    }
  }

  /** So a call that cuts a byte too many: two bytes, one discarded, cut to one. */
  lemma TruncateCutsTooMuch(b: byte, c: byte)
    ensures Content(Cut([b, c], 1), 1) == [] && Cut([b, c][1..], 1) == [c]
  {
    assert [b, c][1..] == [c];
  }

  lemma PrependedByte(raw: seq<byte>, start: nat, c: byte)
    requires start <= |raw|
    ensures ([c] + raw)[start..] == [if start == 0 then c else raw[start - 1]] + raw[start..]
  {
  }

  /** The content gets the byte before it exactly when nothing was discarded, or that byte last. */
  lemma PrependByteNeeds(raw: seq<byte>, start: nat, c: byte)
    requires start <= |raw|
    ensures ([c] + raw)[start..] == [c] + raw[start..] <==> start == 0 || raw[start - 1] == c
  {
    PrependedByte(raw, start, c);
    var x := if start == 0 then c else raw[start - 1];
    assert ([x] + raw[start..])[0] == x && ([c] + raw[start..])[0] == c;
  }

  /**
   * The content gets the word before it exactly when nothing was discarded, or just its two bytes last; or,
   * after a single discarded byte, when that and both bytes of the word are the same.
   */
  lemma PrependWordNeeds(raw: seq<byte>, start: nat, a: int)
    requires start <= |raw|
    ensures (WordBytes(a) + raw)[start..] == WordBytes(a) + raw[start..]
            <==> start == 0
                 || (start == 1 && raw[0] == LowByte(a) == LowByte(a / 256))
                 || (start >= 2 && raw[start - 2..start] == WordBytes(a))
  {
    hide LowByte;
    var lo, hi := LowByte(a), LowByte(a / 256);
    var all := [lo, hi] + raw;
    if start == 1 {
      assert all[1..] == [hi, raw[0]] + raw[1..];
      assert all[1..][0] == hi && all[1..][1] == raw[0];
      assert ([lo, hi] + raw[1..])[0] == lo && ([lo, hi] + raw[1..])[1] == hi;
    } else if start >= 2 {
      assert all[start..] == raw[start - 2..start] + raw[start..];
      assert (raw[start - 2..start] + raw[start..])[..2] == raw[start - 2..start];
      assert ([lo, hi] + raw[start..])[..2] == [lo, hi];
    }
  }

  lemma WholeTake(s: seq<byte>)
    ensures s[..|s|] == s
  {
  }

  lemma OneByOne(s: seq<byte>, b0: byte, b1: byte, b2: byte, b3: byte)
    ensures s + [b0] + [b1] + [b2] + [b3] == s + [b0, b1, b2, b3]
  {
  }
}
