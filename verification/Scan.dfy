/**
 * The scan of lib/datalink.cc:422-541 on values: what is left to do between two bytes, the loops one byte at
 * a time with the index as the code keeps it, and what happens when they miss the end of the data.
 */
module Scanning {
  import opened Bytes
  import opened Crc
  import opened Framing
  import opened Ring

  /** What is left to do: the parser, the bytes it has still to look at, and how many are not yet consumed. */
  datatype Job = Job(place: Parser, rest: seq<byte>, unread: nat)

  /** Hunting looks at the byte and starts again behind it. */
  predicate Rejects(q: Parser, c: byte) {
    q.Hunting() && Step(q, c) == Hunt
  }

  /** The last byte is one that hunting rejects. */
  predicate LastByteRejected(p: Parser, s: seq<byte>)
    decreases |s|
  {
    if s == [] then false
    else if |s| == 1 then Rejects(p, s[0])
    else LastByteRejected(Step(p, s[0]), s[1..])
  }

  /** How many bytes are not consumed once all of s has been looked at: the end of a frame consumes it. */
  function Kept(p: Parser, s: seq<byte>, unread: nat): nat
    decreases |s|
  {
    if s == [] then unread
    else Kept(Step(p, s[0]), s[1..], if p.CheckLow? then |s| - 1 else unread)
  }

  /** Scanning from a, and having handed on `out` on the way, b is what is left to do. */
  ghost predicate Carries(a: Job, out: seq<seq<byte>>, b: Job) {
    && Output(a.place, a.rest) == out + Output(b.place, b.rest)
    && Run(a.place, a.rest) == Run(b.place, b.rest)
    && Kept(a.place, a.rest, a.unread) == Kept(b.place, b.rest, b.unread)
    && (b.rest != [] ==> LastByteRejected(a.place, a.rest) == LastByteRejected(b.place, b.rest))
  }

  lemma {:induction false} CarriesStart(a: Job)
    ensures Carries(a, [], a)
  {
    assert [] + Output(a.place, a.rest) == Output(a.place, a.rest);
  }

  lemma {:induction false} CarriesByte(a: Job, out: seq<seq<byte>>, q: Parser, c: byte, t: seq<byte>, unread: nat)
    requires Carries(a, out, Job(q, [c] + t, unread))
    ensures Carries(a, out + Emits(q, c), Job(Step(q, c), t, if q.CheckLow? then |t| else unread))
    ensures t == [] && Rejects(q, c) ==> LastByteRejected(a.place, a.rest)
  {
    hide Step;
    hide Emits;
    hide Rejects;
    RunCons(q, c, t);
    assert ([c] + t)[1..] == t;
    assert out + (Emits(q, c) + Output(Step(q, c), t)) == out + Emits(q, c) + Output(Step(q, c), t);
  }

  /** Spelled out: what has been handed on is what the receiver makes of the bytes looked at. */
  lemma {:induction false} CarriesMeaning(a: Job, out: seq<seq<byte>>, b: Job)
    requires Carries(a, out, b)
    ensures Output(a.place, a.rest) == out + Output(b.place, b.rest) && Run(a.place, a.rest) == Run(b.place, b.rest)
    ensures out <= Output(a.place, a.rest)
    ensures Output(b.place, b.rest) == [] ==> out == Output(a.place, a.rest)
    ensures b.rest == [] ==> out == Output(a.place, a.rest) && b.unread == Kept(a.place, a.rest, a.unread)
    ensures b.rest != [] ==> LastByteRejected(a.place, a.rest) == LastByteRejected(b.place, b.rest)
  {
    if b.rest == [] {
      assert Output(b.place, b.rest) == [];
    }
    hide Output;
    hide Run;
  }

  /** When the data ended in q, nothing is left to deliver from wherever the scan will resume. */
  lemma {:induction false} ScanEnded(a: Job, out: seq<seq<byte>>, q: Parser, unread: nat, b: Job)
    requires Carries(a, out, Job(q, [], unread)) && Carries(a, out, b)
    ensures Output(b.place, b.rest) == [] && out == Output(a.place, a.rest)
    ensures unread == Kept(a.place, a.rest, a.unread)
  {
    assert Output(q, []) == [];
    assert out + Output(b.place, b.rest) == out + [];
    assert |Output(b.place, b.rest)| == 0;
  }

  lemma NothingRejected(p: Parser)
    ensures !LastByteRejected(p, [])
  {
  }

  lemma {:induction false} RejectedSplit(p: Parser, s: seq<byte>, t: seq<byte>)
    requires t != []
    ensures LastByteRejected(p, s + t) == LastByteRejected(Run(p, s), t)
    decreases |s|
  {
    hide Step;
    hide Rejects;
    if s == [] {
      assert s + t == t;
    } else {
      RejectedSplit(Step(p, s[0]), s[1..], t);
      assert (s + t)[1..] == s[1..] + t;
    }
  }

  lemma {:induction false} RejectedRun(p: Parser, s: seq<byte>)
    requires LastByteRejected(p, s)
    ensures Run(p, s) == Hunt
    decreases |s|
  {
    hide Step;
    if |s| > 1 {
      RejectedRun(Step(p, s[0]), s[1..]);
    } else {
      assert s[1..] == [];
    }
  }

  lemma {:induction false} KeptSplit(p: Parser, s: seq<byte>, t: seq<byte>, unread: nat)
    ensures Kept(p, s + t, unread + |t|) == Kept(Run(p, s), t, Kept(p, s, unread) + |t|)
    decreases |s|
  {
    hide Step;
    if s == [] {
      assert s + t == t;
    } else {
      KeptSplit(Step(p, s[0]), s[1..], t, if p.CheckLow? then |s| - 1 else unread);
      assert (s + t)[1..] == s[1..] + t && (s + t)[0] == s[0];
    }
  }

  /** New bytes extend what arrived and what is left to look at in the same way. */
  lemma {:induction false} ArrivalKeepsStep(a: Job, out: seq<seq<byte>>, b: Job, data: seq<byte>)
    requires Carries(a, out, b)
    ensures Carries(Job(a.place, a.rest + data, a.unread + |data|), out, Job(b.place, b.rest + data, b.unread + |data|))
  {
    hide Output;
    hide Run;
    hide Kept;
    hide LastByteRejected;
    RunSplit(a.place, a.rest, data);
    RunSplit(b.place, b.rest, data);
    KeptSplit(a.place, a.rest, data, a.unread);
    KeptSplit(b.place, b.rest, data, b.unread);
    var o := Output(Run(b.place, b.rest), data);
    assert out + Output(b.place, b.rest) + o == out + (Output(b.place, b.rest) + o);
    if data == [] {
      assert a.rest + data == a.rest && b.rest + data == b.rest;
    } else {
      RejectedSplit(a.place, a.rest, data);
      RejectedSplit(b.place, b.rest, data);
    }
  }

  /** Two scans in a row. */
  lemma {:induction false} ScanKeepsStep(a: Job, out: seq<seq<byte>>, b: Job, out': seq<seq<byte>>, c: Job)
    requires Carries(a, out, b) && Carries(b, out', c)
    requires c.rest != [] ==> b.rest != []
    ensures Carries(a, out + out', c)
  {
    hide Output;
    hide Run;
    hide Kept;
    hide LastByteRejected;
    assert out + (out' + Output(c.place, c.rest)) == out + out' + Output(c.place, c.rest);
  }

  // ---------------------------------------------------------------- the loops, one byte at a time

  /**
   * Between two bytes: the parser and the index as the loops keep it.  While hunting, the index behind a
   * rejected byte is compared with the write index before it is taken modulo BUFLEN; otherwise after.
   */
  datatype Scan = Scan(q: Parser, p: nat)

  predicate AtEnd(a: Scan, inw: nat) {
    (if a.q == Hunt then a.p else a.p % BUFLEN) == inw
  }

  function Next(buf: seq<byte>, a: Scan): Scan
    requires |buf| >= BUFLEN
  {
    var i := a.p % BUFLEN;
    Scan(Step(a.q, buf[i]), if Rejects(a.q, buf[i]) then i + 1 else Inca(i, 1))
  }

  /** From a, the loops look at n bytes, not finding the end of the data before any of them, and are at b. */
  predicate Reaches(buf: seq<byte>, inw: nat, a: Scan, n: nat, b: Scan)
    requires |buf| >= BUFLEN
    decreases n
  {
    if n == 0 then a == b else !AtEnd(a, inw) && Reaches(buf, inw, Next(buf, a), n - 1, b)
  }

  /** The payloads handed on during n bytes. */
  function Handed(buf: seq<byte>, a: Scan, n: nat): seq<seq<byte>>
    requires |buf| >= BUFLEN
    decreases n
  {
    if n == 0 then [] else Emits(a.q, buf[a.p % BUFLEN]) + Handed(buf, Next(buf, a), n - 1)
  }

  /** The cells that hold data from index `from` to the write index. */
  predicate InData(i: nat, from: nat, inw: nat) {
    if from <= inw then from <= i < inw else from <= i < BUFLEN || i < inw
  }

  /** The index has not run past the data. */
  predicate OnTrack(buf: seq<byte>, inw: nat, a: Scan) {
    |buf| >= BUFLEN && inw < BUFLEN && a.p <= BUFLEN && (a.p == BUFLEN ==> a.q == Hunt && inw != 0)
  }

  lemma {:induction false} ReachesTwice(buf: seq<byte>, inw: nat, a: Scan, n: nat, b: Scan, m: nat, c: Scan)
    requires |buf| >= BUFLEN && Reaches(buf, inw, a, n, b) && Reaches(buf, inw, b, m, c)
    ensures Reaches(buf, inw, a, n + m, c) && Handed(buf, a, n + m) == Handed(buf, a, n) + Handed(buf, b, m)
    decreases n
  {
    hide Next;
    hide Emits;
    hide AtEnd;
    if n == 0 {
      assert Handed(buf, a, n + m) == [] + Handed(buf, b, m);
    } else {
      ReachesTwice(buf, inw, Next(buf, a), n - 1, b, m, c);
      var x := Emits(a.q, buf[a.p % BUFLEN]);
      assert x + (Handed(buf, Next(buf, a), n - 1) + Handed(buf, b, m))
             == x + Handed(buf, Next(buf, a), n - 1) + Handed(buf, b, m);
    }
  }

  lemma {:induction false} ReachesOnce(buf: seq<byte>, inw: nat, a: Scan)
    requires |buf| >= BUFLEN && !AtEnd(a, inw)
    ensures Reaches(buf, inw, a, 1, Next(buf, a)) && Handed(buf, a, 1) == Emits(a.q, buf[a.p % BUFLEN])
  {
    hide Next;
    hide Emits;
    assert Reaches(buf, inw, Next(buf, a), 0, Next(buf, a));
    assert Handed(buf, Next(buf, a), 0) == [];
  }

  /** The loops do one thing: before the end of a longer scan they were not at the end of the data. */
  lemma {:induction false} ReachesThrough(buf: seq<byte>, inw: nat, a: Scan, n: nat, b: Scan, m: nat, c: Scan)
    requires |buf| >= BUFLEN && Reaches(buf, inw, a, n, b) && Reaches(buf, inw, a, m, c) && n <= m
    ensures Reaches(buf, inw, b, m - n, c) && (n < m ==> !AtEnd(b, inw))
    decreases n
  {
    hide Next;
    hide AtEnd;
    if n > 0 {
      ReachesThrough(buf, inw, Next(buf, a), n - 1, b, m - 1, c);
    }
  }

  lemma InBuffer(buf: seq<byte>, inw: nat, q: Parser, from: nat)
    requires |buf| >= BUFLEN && inw < BUFLEN && from < BUFLEN
    ensures from % BUFLEN == from && OnTrack(buf, inw, Scan(q, from))
  {
  }

  lemma EmptyStored(buf: seq<byte>, p: nat)
    requires |buf| >= BUFLEN && p < BUFLEN
    ensures Stored(buf, p, p) == []
  {
  }

  /** One byte of data, unless it is the one case: a byte that hunting rejects in the last cell, and no data behind. */
  lemma {:induction false} OneByte(buf: seq<byte>, inw: nat, a: Scan)
    requires OnTrack(buf, inw, a) && !AtEnd(a, inw)
    requires inw == 0 ==> !LastByteRejected(a.q, Stored(buf, a.p % BUFLEN, inw))
    ensures var i, b := a.p % BUFLEN, Next(buf, a);
            && i != inw && OnTrack(buf, inw, b) && b.p % BUFLEN == Inca(i, 1)
            && Stored(buf, i, inw) == [buf[i]] + Stored(buf, b.p % BUFLEN, inw)
            && (inw == 0 ==> !LastByteRejected(b.q, Stored(buf, b.p % BUFLEN, inw)))
  {
    hide Step;
    hide Stored;
    var i, b := a.p % BUFLEN, Next(buf, a);
    StoredHead(buf, i, inw);
    var t := Stored(buf, Inca(i, 1), inw);
    assert ([buf[i]] + t)[1..] == t;
    EmptyStored(buf, 0);
  }

  /** As long as the one case does not come up, every byte looked at is one of the data. */
  lemma {:induction false} StaysInData(buf: seq<byte>, inw: nat, a: Scan, n: nat, b: Scan)
    requires OnTrack(buf, inw, a) && Reaches(buf, inw, a, n, b)
    requires inw == 0 ==> !LastByteRejected(a.q, Stored(buf, a.p % BUFLEN, inw))
    ensures AtEnd(b, inw) || InData(b.p % BUFLEN, a.p % BUFLEN, inw)
    decreases n
  {
    hide Stored;
    hide LastByteRejected;
    if n > 0 {
      OneByte(buf, inw, a);
      hide Next;
      StaysInData(buf, inw, Next(buf, a), n - 1, b);
    }
  }

  /** Where the loops are when the data has been looked at: its end, or past the end of the buffer. */
  function Behind(q: Parser, s: seq<byte>, inw: nat): Scan {
    Scan(Run(q, s), if inw == 0 && LastByteRejected(q, s) then BUFLEN else inw)
  }

  lemma OneMore(buf: seq<byte>, inw: nat, a: Scan, s: seq<byte>, e: Scan)
    requires |buf| >= BUFLEN && s != [] && s[0] == buf[a.p % BUFLEN] && !AtEnd(a, inw)
    requires var b := Next(buf, a);
             Reaches(buf, inw, b, |s| - 1, e) && Handed(buf, b, |s| - 1) == Output(b.q, s[1..])
    ensures Reaches(buf, inw, a, |s|, e) && Handed(buf, a, |s|) == Output(a.q, s)
    ensures Run(a.q, s) == Run(Next(buf, a).q, s[1..])
  {
    hide Step;
    hide Emits;
    hide AtEnd;
  }

  lemma NoBytes(buf: seq<byte>, inw: nat, a: Scan)
    requires |buf| >= BUFLEN
    ensures Reaches(buf, inw, a, 0, a) && Handed(buf, a, 0) == Output(a.q, []) == []
    ensures Run(a.q, []) == a.q
  {
  }

  lemma StoredRest(buf: seq<byte>, i: nat, inw: nat)
    requires |buf| >= BUFLEN && i < BUFLEN && inw < BUFLEN && Stored(buf, i, inw) != []
    ensures i != inw && Stored(buf, i, inw)[0] == buf[i] && Stored(buf, i, inw)[1..] == Stored(buf, Inca(i, 1), inw)
  {
    StoredLength(buf, i, inw);
    StoredHead(buf, i, inw);
    hide Stored;
    hide Inca;
    var t := Stored(buf, Inca(i, 1), inw);
    assert ([buf[i]] + t)[1..] == t;
  }

  lemma NextOnTrack(buf: seq<byte>, inw: nat, a: Scan)
    requires OnTrack(buf, inw, a) && a.p % BUFLEN != inw
    ensures !AtEnd(a, inw) && Next(buf, a).p % BUFLEN == Inca(a.p % BUFLEN, 1)
    ensures a.p % BUFLEN + 1 != BUFLEN || inw != 0 ==> OnTrack(buf, inw, Next(buf, a))
  {
    hide Step;
  }

  lemma BehindHead(buf: seq<byte>, inw: nat, a: Scan, s: seq<byte>)
    requires |buf| >= BUFLEN && s != [] && s[0] == buf[a.p % BUFLEN]
    requires s[1..] == [] && inw != 0 ==> Inca(a.p % BUFLEN, 1) == inw
    requires s[1..] == [] && inw == 0 ==> a.p % BUFLEN == BUFLEN - 1
    ensures Behind(a.q, s, inw) == if s[1..] == [] then Next(buf, a) else Behind(Next(buf, a).q, s[1..], inw)
  {
    hide Step;
    hide Rejects;
    var i, b := a.p % BUFLEN, Next(buf, a);
    assert Run(a.q, s) == Run(b.q, s[1..]);
    if s[1..] == [] {
      assert |s| == 1 && Run(b.q, []) == b.q;
      assert Inca(i, 1) == if i + 1 == BUFLEN then 0 else i + 1;
    }
  }

  /** All of the data is looked at first, and what is handed on is what the receiver makes of it. */
  lemma {:induction false} DataScanned(buf: seq<byte>, inw: nat, a: Scan)
    requires OnTrack(buf, inw, a)
    ensures var s := Stored(buf, a.p % BUFLEN, inw);
            && Reaches(buf, inw, a, |s|, Behind(a.q, s, inw)) && Handed(buf, a, |s|) == Output(a.q, s)
    decreases |Stored(buf, a.p % BUFLEN, inw)|
  {
    var s, b := Stored(buf, a.p % BUFLEN, inw), Next(buf, a);
    if s != [] {
      var i := a.p % BUFLEN;
      StoredRest(buf, i, inw);
      NextOnTrack(buf, inw, a);
      NextState(buf, a);
      StoredLength(buf, Inca(i, 1), inw);
      BehindHead(buf, inw, a, s);
      EmptyStored(buf, 0);
      assert i + 1 == BUFLEN ==> Inca(i, 1) == 0;
      hide *;
      if s[1..] == [] {
        NoBytes(buf, inw, b);
      } else {
        DataScanned(buf, inw, b);
      }
      OneMore(buf, inw, a, s, Behind(a.q, s, inw));
    } else {
      StoredLength(buf, a.p % BUFLEN, inw);
      NoBytes(buf, inw, a);
    }
  }

  lemma NextState(buf: seq<byte>, a: Scan)
    requires |buf| >= BUFLEN
    ensures Next(buf, a).q == Step(a.q, buf[a.p % BUFLEN])
  {
  }

  // ---------------------------------------------------------------- the missed end

  /** The loops look at a cell that holds none of the data from index `from` on. */
  ghost predicate ReadsOutside(buf: seq<byte>, inw: nat, q: Parser, from: nat)
    requires |buf| >= BUFLEN
  {
    exists n: nat, b: Scan ::
      Reaches(buf, inw, Scan(q, from), n, b) && !AtEnd(b, inw) && !InData(b.p % BUFLEN, from, inw)
  }

  /** The loops find the end of the data at some time. */
  ghost predicate Stops(buf: seq<byte>, inw: nat, a: Scan)
    requires |buf| >= BUFLEN
  {
    exists n: nat, b: Scan :: Reaches(buf, inw, a, n, b) && AtEnd(b, inw)
  }

  /** Exactly when the data ends with the buffer, in a byte that hunting rejects. */
  lemma LeavesTheData(buf: seq<byte>, inw: nat, q: Parser, from: nat)
    requires |buf| >= BUFLEN && inw < BUFLEN && from < BUFLEN
    ensures ReadsOutside(buf, inw, q, from) <==> inw == 0 && LastByteRejected(q, Stored(buf, from, inw))
  {
    var s := Stored(buf, from, inw);
    assert from % BUFLEN == from;
    if inw == 0 && LastByteRejected(q, s) {
      DataScanned(buf, inw, Scan(q, from));
      RejectedRun(q, s);
      assert from != 0;
      hide Reaches;
      assert !AtEnd(Scan(Hunt, BUFLEN), inw) && !InData(BUFLEN % BUFLEN, from, inw);
    } else {
      forall n: nat, b: Scan | Reaches(buf, inw, Scan(q, from), n, b) && !AtEnd(b, inw)
        ensures InData(b.p % BUFLEN, from, inw)
      {
        StaysInData(buf, inw, Scan(q, from), n, b);
      }
    }
  }

  /** From the index to the end of the buffer. */
  lemma {:induction false} ToTheEnd(buf: seq<byte>, a: Scan)
    requires |buf| >= BUFLEN && !AtEnd(a, 0)
    ensures var s := buf[a.p % BUFLEN..BUFLEN];
            && Reaches(buf, 0, a, |s|, Behind(a.q, s, 0)) && Handed(buf, a, |s|) == Output(a.q, s)
    decreases BUFLEN - a.p % BUFLEN
  {
    hide Step;
    hide Reaches;
    hide Handed;
    hide Output;
    hide Run;
    var i, b := a.p % BUFLEN, Next(buf, a);
    var s := buf[i..BUFLEN];
    assert s[0] == buf[i] && s[1..] == buf[i + 1..BUFLEN];
    if i + 1 == BUFLEN {
      assert s[1..] == [];
      NoBytes(buf, 0, b);
      OneMore(buf, 0, a, s, b);
    } else {
      ToTheEnd(buf, b);
      OneMore(buf, 0, a, s, Behind(b.q, s[1..], 0));
    }
  }

  const PASTTHEEND: Scan := Scan(Hunt, BUFLEN)

  /** Past the end the loops look at the whole buffer from a fresh hunt, and are past the end again or stop. */
  lemma Lap(buf: seq<byte>)
    requires |buf| >= BUFLEN
    ensures Reaches(buf, 0, PASTTHEEND, BUFLEN, Behind(Hunt, buf[..BUFLEN], 0))
    ensures Handed(buf, PASTTHEEND, BUFLEN) == Output(Hunt, buf[..BUFLEN])
    ensures LastByteRejected(Hunt, buf[..BUFLEN]) <==> Behind(Hunt, buf[..BUFLEN], 0) == PASTTHEEND
    ensures !LastByteRejected(Hunt, buf[..BUFLEN]) ==> AtEnd(Behind(Hunt, buf[..BUFLEN], 0), 0)
  {
    hide Reaches;
    hide Handed;
    hide Output;
    ToTheEnd(buf, PASTTHEEND);
    assert buf[0..BUFLEN] == buf[..BUFLEN];
    if LastByteRejected(Hunt, buf[..BUFLEN]) {
      RejectedRun(Hunt, buf[..BUFLEN]);
    }
  }

  lemma {:induction false} NeverAtEnd(buf: seq<byte>, n: nat, b: Scan)
    requires |buf| >= BUFLEN && LastByteRejected(Hunt, buf[..BUFLEN])
    requires Reaches(buf, 0, PASTTHEEND, n, b)
    ensures !AtEnd(b, 0)
    decreases n
  {
    hide Reaches;
    hide Handed;
    hide LastByteRejected;
    hide Output;
    Lap(buf);
    if n < BUFLEN {
      ReachesThrough(buf, 0, PASTTHEEND, n, b, BUFLEN, PASTTHEEND);
    } else {
      ReachesThrough(buf, 0, PASTTHEEND, BUFLEN, PASTTHEEND, n, b);
      NeverAtEnd(buf, n - BUFLEN, b);
    }
  }

  lemma StopsAt(buf: seq<byte>, inw: nat, a: Scan, n: nat, b: Scan)
    requires |buf| >= BUFLEN && Reaches(buf, inw, a, n, b) && AtEnd(b, inw)
    ensures Stops(buf, inw, a)
  {
    hide Reaches;
    hide AtEnd;
  }

  lemma NeverStops(buf: seq<byte>, a: Scan, n: nat)
    requires |buf| >= BUFLEN && LastByteRejected(Hunt, buf[..BUFLEN])
    requires Reaches(buf, 0, a, n, PASTTHEEND)
    ensures !Stops(buf, 0, a)
  {
    hide Reaches;
    hide AtEnd;
    hide LastByteRejected;
    forall m: nat, b: Scan | Reaches(buf, 0, a, m, b)
      ensures !AtEnd(b, 0)
    {
      if m < n {
        ReachesThrough(buf, 0, a, m, b, n, PASTTHEEND);
      } else {
        ReachesThrough(buf, 0, a, n, PASTTHEEND, m, b);
        NeverAtEnd(buf, m - n, b);
      }
    }
  }

  lemma BehindData(q: Parser, s: seq<byte>, inw: nat)
    requires inw < BUFLEN
    ensures if inw == 0 && LastByteRejected(q, s) then Behind(q, s, inw) == PASTTHEEND
            else AtEnd(Behind(q, s, inw), inw)
  {
    if inw == 0 && LastByteRejected(q, s) {
      RejectedRun(q, s);
    }
    hide LastByteRejected;
    hide Run;
  }

  /** They never stop exactly if, besides, hunting through the whole buffer rejects its last byte too. */
  lemma StopsExactly(buf: seq<byte>, inw: nat, q: Parser, from: nat)
    requires |buf| >= BUFLEN && inw < BUFLEN && from < BUFLEN
    ensures Stops(buf, inw, Scan(q, from))
            <==> !(inw == 0 && LastByteRejected(q, Stored(buf, from, inw)) && LastByteRejected(Hunt, buf[..BUFLEN]))
  {
    hide *;
    var a, s := Scan(q, from), Stored(buf, from, inw);
    InBuffer(buf, inw, q, from);
    DataScanned(buf, inw, a);
    BehindData(q, s, inw);
    if !(inw == 0 && LastByteRejected(q, s)) {
      StopsAt(buf, inw, a, |s|, Behind(q, s, inw));
    } else if LastByteRejected(Hunt, buf[..BUFLEN]) {
      NeverStops(buf, a, |s|);
    } else {
      Lap(buf);
      ReachesTwice(buf, 0, a, |s|, PASTTHEEND, BUFLEN, Behind(Hunt, buf[..BUFLEN], 0));
      StopsAt(buf, 0, a, |s| + BUFLEN, Behind(Hunt, buf[..BUFLEN], 0));
    }
  }

  function Copies<T>(s: seq<T>, k: nat): seq<T>
    decreases k
  {
    if k == 0 then [] else s + Copies(s, k - 1)
  }

  /** Every time round, all that is in the buffer is received again, whatever its age. */
  lemma {:induction false} RoundAndRound(buf: seq<byte>, k: nat)
    requires |buf| >= BUFLEN && LastByteRejected(Hunt, buf[..BUFLEN])
    ensures Reaches(buf, 0, PASTTHEEND, k * BUFLEN, PASTTHEEND)
    ensures Handed(buf, PASTTHEEND, k * BUFLEN) == Copies(Output(Hunt, buf[..BUFLEN]), k)
    decreases k
  {
    hide LastByteRejected;
    hide Output;
    hide Reaches;
    hide Handed;
    if k == 0 {
      NoBytes(buf, 0, PASTTHEEND);
    } else {
      RoundAndRound(buf, k - 1);
      Lap(buf);
      assert BUFLEN + (k - 1) * BUFLEN == k * BUFLEN;
      ReachesTwice(buf, 0, PASTTHEEND, BUFLEN, PASTTHEEND, (k - 1) * BUFLEN, PASTTHEEND);
    }
  }

  /** So, when they never stop: what the data holds is handed on once, and then the whole buffer over and over. */
  lemma HandedOnForever(buf: seq<byte>, q: Parser, from: nat, k: nat)
    requires |buf| >= BUFLEN && from < BUFLEN
    requires LastByteRejected(q, Stored(buf, from, 0)) && LastByteRejected(Hunt, buf[..BUFLEN])
    ensures var a, s := Scan(q, from), Stored(buf, from, 0);
            && Reaches(buf, 0, a, |s| + k * BUFLEN, PASTTHEEND)
            && Handed(buf, a, |s| + k * BUFLEN) == Output(q, s) + Copies(Output(Hunt, buf[..BUFLEN]), k)
  {
    hide *;
    var a, s := Scan(q, from), Stored(buf, from, 0);
    InBuffer(buf, 0, q, from);
    DataScanned(buf, 0, a);
    BehindData(q, s, 0);
    RoundAndRound(buf, k);
    ReachesTwice(buf, 0, a, |s|, PASTTHEEND, k * BUFLEN, PASTTHEEND);
  }

  lemma {:induction false} Junk(s: seq<byte>)
    requires SYN !in s
    ensures Run(Hunt, s) == Hunt && Output(Hunt, s) == [] && (s != [] ==> LastByteRejected(Hunt, s))
    decreases |s|
  {
    if s != [] {
      assert s[0] in s && s[1..] <= s[1..];
      assert SYN !in s[1..];
      assert Emits(Hunt, s[0]) == [];
      Junk(s[1..]);
    }
  }

  lemma NothingBefore<T>(s: seq<T>)
    ensures [] + s == s
  {
  }

  lemma StaleFrame(buf: seq<byte>, payload: seq<byte>, isEPOC: bool, junk: seq<byte>)
    requires |buf| >= BUFLEN && buf[..BUFLEN] == Frame(payload, isEPOC) + junk && junk != [] && SYN !in junk
    ensures 0 < |Frame(payload, isEPOC)| < BUFLEN && Stored(buf, |Frame(payload, isEPOC)|, 0) == junk
    ensures LastByteRejected(Hunt, buf[..BUFLEN]) && Output(Hunt, buf[..BUFLEN]) == [payload]
  {
    var frame := Frame(payload, isEPOC);
    FrameRoundTrip(payload, isEPOC);
    FrameLength(payload, isEPOC);
    hide Frame;
    Junk(junk);
    RunSplit(Hunt, frame, junk);
    RejectedSplit(Hunt, frame, junk);
    assert [payload] + [] == [payload];
    assert buf[|frame|..BUFLEN] == junk by {
      assert buf[|frame|..BUFLEN] == buf[..BUFLEN][|frame|..];
    }
    assert buf[..0] == [] && junk + [] == junk;
    hide Run;
    hide Output;
  }

  /**
   * A frame at the start of the buffer, long since received, and behind it bytes that are not the start of a
   * frame, up to the last cell: the scan of those bytes receives the frame again, and then over and over.
   */
  lemma StaleFrameComesBack(buf: seq<byte>, payload: seq<byte>, isEPOC: bool, junk: seq<byte>, k: nat)
    requires |buf| >= BUFLEN && buf[..BUFLEN] == Frame(payload, isEPOC) + junk && junk != [] && SYN !in junk
    ensures var a := Scan(Hunt, |Frame(payload, isEPOC)|);
            && Stored(buf, a.p, 0) == junk && LastByteRejected(Hunt, junk)
            && Reaches(buf, 0, a, |junk| + k * BUFLEN, PASTTHEEND)
            && Handed(buf, a, |junk| + k * BUFLEN) == Copies([payload], k)
  {
    hide *;
    StaleFrame(buf, payload, isEPOC, junk);
    Junk(junk);
    HandedOnForever(buf, Hunt, |Frame(payload, isEPOC)|, k);
    NothingBefore(Copies([payload], k));
  }

  // ---------------------------------------------------------------- a call, as a sequence of bytes looked at

  /** Where a call began, how many bytes it has looked at, and the payloads it has found. */
  datatype Trace = Trace(place: Parser, from: nat, unread: nat, steps: nat, out: seq<seq<byte>>)
  {
    function Start(buf: seq<byte>, inw: nat): Job
      requires |buf| >= BUFLEN && from < BUFLEN && inw < BUFLEN
    {
      Job(place, Stored(buf, from, inw), unread)
    }
  }

  /** The loops have got to index p in state q. */
  ghost predicate Now(t: Trace, buf: seq<byte>, inw: nat, q: Parser, p: nat, unread: nat) {
    && t.from < BUFLEN && OnTrack(buf, inw, Scan(q, p))
    && Carries(t.Start(buf, inw), t.out, Job(q, Stored(buf, p % BUFLEN, inw), unread))
    && Reaches(buf, inw, Scan(t.place, t.from), t.steps, Scan(q, p))
    && Handed(buf, Scan(t.place, t.from), t.steps) == t.out
  }

  lemma NowAtStart(buf: seq<byte>, inw: nat, q: Parser, p: nat, unread: nat)
    requires |buf| >= BUFLEN && inw < BUFLEN && p < BUFLEN
    ensures Now(Trace(q, p, unread, 0, []), buf, inw, q, p, unread)
  {
    CarriesStart(Job(q, Stored(buf, p, inw), unread));
    hide Carries;
    hide Stored;
    assert p % BUFLEN == p;
  }

  /** One more byte. */
  function More(t: Trace, q: Parser, c: byte): Trace {
    t.(steps := t.steps + 1, out := t.out + Emits(q, c))
  }

  lemma NowByte(t: Trace, buf: seq<byte>, inw: nat, q: Parser, p: nat, unread: nat)
    requires Now(t, buf, inw, q, p, unread) && !AtEnd(Scan(q, p), inw)
    requires inw == 0 ==> !LastByteRejected(t.place, Stored(buf, t.from, inw))
    ensures var i, b := p % BUFLEN, Next(buf, Scan(q, p));
            && |Stored(buf, b.p % BUFLEN, inw)| < |Stored(buf, i, inw)|
            && Now(More(t, q, buf[i]), buf, inw, b.q, b.p,
                   if q.CheckLow? then |Stored(buf, b.p % BUFLEN, inw)| else unread)
  {
    hide Stored;
    hide Emits;
    hide AtEnd;
    var a := Scan(q, p);
    var i, b := p % BUFLEN, Next(buf, a);
    StillNotRejected(t.Start(buf, inw), t.out, Job(q, Stored(buf, i, inw), unread));
    OneByte(buf, inw, a);
    CarriesByte(t.Start(buf, inw), t.out, q, buf[i], Stored(buf, b.p % BUFLEN, inw), unread);
    ReachesOnce(buf, inw, a);
    hide Reaches;
    hide Handed;
    hide Carries;
    hide OnTrack;
    ReachesTwice(buf, inw, Scan(t.place, t.from), t.steps, a, 1, b);
    hide LastByteRejected;
    assert b.q == Step(q, buf[i]);
  }

  lemma StillNotRejected(a: Job, out: seq<seq<byte>>, b: Job)
    requires Carries(a, out, b)
    ensures LastByteRejected(b.place, b.rest) ==> LastByteRejected(a.place, a.rest)
  {
    NothingRejected(b.place);
  }

  /** Traces of one call: nothing new has been handed on, or something may have been. */
  predicate Same(t: Trace, t': Trace) {
    t' == t.(steps := t'.steps)
  }

  predicate SameStart(t: Trace, t': Trace) {
    t' == t.(steps := t'.steps, out := t'.out)
  }

  lemma NoEmission(q: Parser, c: byte, out: seq<seq<byte>>)
    requires !q.CheckLow?
    ensures out + Emits(q, c) == out
  {
  }

  /** Hunting from index `from`, t was the scan before and t' is it now. */
  ghost predicate Hunted(t: Trace, t': Trace, buf: seq<byte>, inw: nat, from: nat, q: Parser, p: nat, unread: nat) {
    && Same(t, t') && Now(t', buf, inw, q, p, unread) && from < BUFLEN
    && |Stored(buf, Norm(p), inw)| <= |Stored(buf, from, inw)|
  }

  /** The byte hunting is looking for, and the state when it has seen it. */
  function Wanted(q: Parser): (byte, Parser) {
    match q
    case GotSyn => (DLE, GotDle)
    case GotDle => (STX, Body([], false))
    case _ => (SYN, GotSyn)
  }

  lemma NextHunting(buf: seq<byte>, q: Parser, p: nat)
    requires |buf| >= BUFLEN && q.Hunting()
    ensures var i, b := Norm(p), Next(buf, Scan(q, p));
            && Norm(b.p) == Norm(i + 1)
            && b == if buf[i] == Wanted(q).0 then Scan(Wanted(q).1, Norm(i + 1)) else Scan(Hunt, i + 1)
  {
  }

  /** One more byte: if it is not the one wanted, hunting starts again behind it, with the index as it is. */
  lemma HuntOne(t: Trace, t': Trace, buf: seq<byte>, inw: nat, from: nat, q: Parser, p: nat, unread: nat)
    requires Hunted(t, t', buf, inw, from, q, p, unread) && !AtEnd(Scan(q, p), inw) && q.Hunting()
    requires inw == 0 ==> !LastByteRejected(t.place, Stored(buf, t.from, inw))
    ensures var i, t'' := Norm(p), More(t', q, buf[Norm(p)]);
            && (if buf[i] == Wanted(q).0 then Hunted(t, t'', buf, inw, from, Wanted(q).1, Norm(i + 1), unread)
                else Hunted(t, t'', buf, inw, from, Hunt, i + 1, unread))
            && |Stored(buf, Norm(i + 1), inw)| < |Stored(buf, i, inw)|
  {
    NowByte(t', buf, inw, q, p, unread);
    NextHunting(buf, q, p);
    NoEmission(q, buf[Norm(p)], t'.out);
    hide Now;
    hide Stored;
    hide Emits;
    hide Next;
    hide Wanted;
    hide AtEnd;
    hide LastByteRejected;
  }

  /** One more byte of a frame. */
  lemma NowBody(t: Trace, buf: seq<byte>, inw: nat, q: Parser, p: nat, unread: nat)
    requires Now(t, buf, inw, q, p, unread) && p < BUFLEN && p != inw && !q.Hunting()
    requires inw == 0 ==> !LastByteRejected(t.place, Stored(buf, t.from, inw))
    ensures var p' := Inca(p, 1);
            && Now(More(t, q, buf[p]), buf, inw, Step(q, buf[p]), p',
                   if q.CheckLow? then |Stored(buf, p', inw)| else unread)
            && |Stored(buf, p', inw)| < |Stored(buf, p, inw)|
  {
    NextBody(buf, q, p, inw);
    hide *;
    NowByte(t, buf, inw, q, p, unread);
  }

  lemma NextBody(buf: seq<byte>, q: Parser, p: nat, inw: nat)
    requires |buf| >= BUFLEN && p < BUFLEN && !q.Hunting() && p != inw
    ensures Next(buf, Scan(q, p)) == Scan(Step(q, buf[p]), Inca(p, 1))
    ensures p % BUFLEN == p && Inca(p, 1) % BUFLEN == Inca(p, 1) && !AtEnd(Scan(q, p), inw)
  {
    hide Step;
  }

  /** The scan could be resumed hunting at index p. */
  ghost predicate Resumable(t: Trace, buf: seq<byte>, inw: nat, p: nat, from: nat, unread: nat) {
    && |buf| >= BUFLEN && p < BUFLEN && inw < BUFLEN && t.from < BUFLEN && from < BUFLEN
    && Carries(t.Start(buf, inw), t.out, Job(Hunt, Stored(buf, p, inw), unread))
    && |Stored(buf, p, inw)| <= |Stored(buf, from, inw)|
  }

  lemma ResumeHere(t: Trace, t': Trace, buf: seq<byte>, inw: nat, from: nat, p: nat, unread: nat)
    requires Hunted(t, t', buf, inw, from, Hunt, p, unread)
    ensures Resumable(t, buf, inw, Norm(p), from, unread)
  {
    hide Carries;
    hide Stored;
    hide Reaches;
    hide Handed;
  }

  lemma KeptThrough(a: Job, out: seq<seq<byte>>, b: Job)
    requires Carries(a, out, b)
    ensures Kept(a.place, a.rest, a.unread) == Kept(b.place, b.rest, b.unread)
  {
    hide Output;
    hide Run;
    hide LastByteRejected;
  }

  lemma RunThrough(a: Job, out: seq<seq<byte>>, b: Job)
    requires Carries(a, out, b)
    ensures Run(a.place, a.rest) == Run(b.place, b.rest)
  {
    hide Output;
    hide Kept;
    hide LastByteRejected;
  }

  /** The state in which the data ran out. */
  lemma EndsThere(a: Job, out: seq<seq<byte>>, q: Parser, unread: nat)
    requires Carries(a, out, Job(q, [], unread))
    ensures Run(a.place, a.rest) == q
  {
    RunThrough(a, out, Job(q, [], unread));
    assert Run(q, []) == q;
    hide Carries;
  }

  /** What it means to have got there. */
  lemma NowMeaning(t: Trace, buf: seq<byte>, inw: nat, q: Parser, p: nat, unread: nat)
    requires Now(t, buf, inw, q, p, unread)
    ensures t.from < BUFLEN && inw < BUFLEN && |buf| >= BUFLEN
    ensures Carries(t.Start(buf, inw), t.out, Job(q, Stored(buf, p % BUFLEN, inw), unread))
    ensures Reaches(buf, inw, Scan(t.place, t.from), t.steps, Scan(q, p))
    ensures Handed(buf, Scan(t.place, t.from), t.steps) == t.out
    ensures AtEnd(Scan(q, p), inw) ==> Carries(t.Start(buf, inw), t.out, Job(q, [], unread))
  {
    hide Carries;
    hide Reaches;
    hide Handed;
    if AtEnd(Scan(q, p), inw) {
      assert p % BUFLEN == inw;
      EmptyStored(buf, inw);
    }
  }

  // ---------------------------------------------------------------- clean lines

  /** No byte of s is rejected while hunting. */
  predicate Accepted(p: Parser, s: seq<byte>)
    decreases |s|
  {
    s == [] || (!Rejects(p, s[0]) && Accepted(Step(p, s[0]), s[1..]))
  }

  lemma {:induction false} AcceptedCons(p: Parser, c: byte, s: seq<byte>)
    ensures Accepted(p, [c] + s) <==> !Rejects(p, c) && Accepted(Step(p, c), s)
  {
    hide Step;
    assert ([c] + s)[1..] == s;
  }

  lemma {:induction false} AcceptedSplit(p: Parser, s: seq<byte>, t: seq<byte>)
    ensures Accepted(p, s + t) <==> Accepted(p, s) && Accepted(Run(p, s), t)
    decreases |s|
  {
    hide Step;
    if s == [] {
      assert s + t == t;
    } else {
      AcceptedSplit(Step(p, s[0]), s[1..], t);
      assert (s + t)[1..] == s[1..] + t;
    }
  }

  lemma {:induction false} AcceptedNotRejected(p: Parser, s: seq<byte>)
    requires Accepted(p, s)
    ensures !LastByteRejected(p, s)
    decreases |s|
  {
    hide Step;
    if s != [] {
      AcceptedNotRejected(Step(p, s[0]), s[1..]);
    }
  }

  /** Inside a frame nothing is rejected, whatever the bytes, up to the last check byte. */
  lemma {:induction false} BodyAccepted(rcv: seq<byte>, payload: seq<byte>, isEPOC: bool)
    ensures Accepted(Body(rcv, false), Stuff(payload, isEPOC))
    decreases |payload|
  {
    if payload != [] {
      var c := payload[0];
      ByteUnstuffs(rcv, c, isEPOC);
      BodyAccepted(rcv + [c], payload[1..], isEPOC);
      AcceptedSplit(Body(rcv, false), StuffByte(c, isEPOC), Stuff(payload[1..], isEPOC));
    }
  }

  lemma {:induction false} HeadAccepted()
    ensures Accepted(Hunt, [SYN, DLE, STX])
  {
    AcceptedCons(Hunt, SYN, [DLE, STX]);
    AcceptedCons(GotSyn, DLE, [STX]);
    AcceptedCons(GotDle, STX, []);
    assert [SYN, DLE, STX] == [SYN] + [DLE, STX] && [DLE, STX] == [DLE] + [STX] && [STX] == [STX] + [];
  }

  lemma {:induction false} TailAccepted(payload: seq<byte>, h: byte, l: byte)
    ensures Accepted(Body(payload, false), [DLE, ETX, h, l])
  {
    AcceptedCons(Body(payload, false), DLE, [ETX, h, l]);
    AcceptedCons(Body(payload, true), ETX, [h, l]);
    AcceptedCons(CheckHigh(payload), h, [l]);
    AcceptedCons(CheckLow(payload, h), l, []);
    assert [DLE, ETX, h, l] == [DLE] + [ETX, h, l];
    assert [ETX, h, l] == [ETX] + [h, l] && [h, l] == [h] + [l] && [l] == [l] + [];
  }

  lemma {:induction false} FrameAccepted(payload: seq<byte>, isEPOC: bool)
    ensures Accepted(Hunt, Frame(payload, isEPOC))
  {
    hide *;
    var head: seq<byte> := [SYN, DLE, STX];
    var body := Stuff(payload, isEPOC);
    var tail: seq<byte> := [DLE, ETX, CrcOf(payload) / 256, CrcOf(payload) % 256];
    HeadOpens();
    HeadAccepted();
    BodyAccepted([], payload, isEPOC);
    BodyUnstuffs([], payload, isEPOC);
    assert [] + payload == payload;
    TailAccepted(payload, CrcOf(payload) / 256, CrcOf(payload) % 256);
    AcceptedSplit(Hunt, head, body + tail);
    AcceptedSplit(Body([], false), body, tail);
    FrameParts(payload, isEPOC);
  }

  lemma FrameParts(payload: seq<byte>, isEPOC: bool)
    ensures Frame(payload, isEPOC)
         == [SYN, DLE, STX] + (Stuff(payload, isEPOC) + [DLE, ETX, CrcOf(payload) / 256, CrcOf(payload) % 256])
  {
    hide CrcOf;
    hide Stuff;
  }

  /** A whole frame is consumed. */
  lemma {:induction false} FrameConsumed(payload: seq<byte>, isEPOC: bool)
    ensures Kept(Hunt, Frame(payload, isEPOC), |Frame(payload, isEPOC)|) == 0
  {
    hide *;
    var head: seq<byte> := [SYN, DLE, STX];
    var body := Stuff(payload, isEPOC);
    var h: byte, l: byte := CrcOf(payload) / 256, CrcOf(payload) % 256;
    HeadOpens();
    BodyUnstuffs([], payload, isEPOC);
    assert [] + payload == payload;
    CheckReached(payload, h);
    RunSplit(Hunt, head, body);
    RunSplit(Hunt, head + body, [DLE, ETX, h]);
    var first := head + body + [DLE, ETX, h];
    KeptSplit(Hunt, first, [l], |first|);
    LastConsumes(payload, h, l, Kept(Hunt, first, |first|) + 1);
    FrameParts(payload, isEPOC);
    assert Frame(payload, isEPOC) == first + [l];
  }

  lemma CheckReached(payload: seq<byte>, h: byte)
    ensures Run(Body(payload, false), [DLE, ETX, h]) == CheckLow(payload, h)
  {
    RunPair(Body(payload, false), DLE, ETX);
    RunOne(CheckHigh(payload), h);
    RunSplit(Body(payload, false), [DLE, ETX], [h]);
    assert [DLE, ETX] + [h] == [DLE, ETX, h];
    hide Run;
  }

  lemma LastConsumes(payload: seq<byte>, h: byte, l: byte, unread: nat)
    ensures Kept(CheckLow(payload, h), [l], unread) == 0
  {
    assert [l][1..] == [];
  }

  lemma {:induction false} FramesAccepted(messages: seq<Message>)
    ensures Accepted(Hunt, Frames(messages))
  {
    hide Frame;
    hide CrcOf;
    if messages != [] {
      var m := messages[0];
      FrameAccepted(m.payload, m.isEPOC);
      FrameRoundTrip(m.payload, m.isEPOC);
      FramesAccepted(messages[1..]);
      AcceptedSplit(Hunt, Frame(m.payload, m.isEPOC), Frames(messages[1..]));
    }
  }

  /**
   * However much of a clean line has arrived: the scan can be called (its one bad case does not occur),
   * what it can deliver is a prefix of the payloads sent, and once everything has arrived it is all of them.
   */
  lemma CleanLine(messages: seq<Message>, arrived: seq<byte>)
    requires arrived <= Frames(messages)
    ensures !LastByteRejected(Hunt, arrived)
    ensures Output(Hunt, arrived) <= Payloads(messages)
    ensures arrived == Frames(messages) ==> Output(Hunt, arrived) == Payloads(messages)
  {
    hide *;
    var t := Frames(messages)[|arrived|..];
    assert Frames(messages) == arrived + t;
    FramesAccepted(messages);
    FramesRoundTrip(messages);
    AcceptedSplit(Hunt, arrived, t);
    AcceptedNotRejected(Hunt, arrived);
    RunSplit(Hunt, arrived, t);
  }
}
