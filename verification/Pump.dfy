/**
 * The input side of the pump thread (lib/datalink.cc:79-201) turn by turn: what is read when the port has bytes
 * ready, what is made of it, and when a full ring is never read into again.
 */
module Pumping {
  import opened Bytes
  import opened Crc
  import opened Framing
  import opened Ring
  import opened Scanning
  import opened DataLinks

  /** A turn: how many bytes the port has ready, and whether output is pending when the k-th frame ends. */
  datatype Turn = Turn(ready: nat, outputPending: nat -> bool)

  ghost predicate Uncut(outputPending: nat -> bool) {
    forall k :: !outputPending(k)
  }

  function Min(a: nat, b: nat): nat {
    if a < b then a else b
  }

  predicate HasSpace(link: DataLink)
    reads link
  {
    Inca(link.inWrite, 1) != link.inRead
  }

  /** What a turn reads of the bytes the port has ready: nothing into a full ring, else as many as are contiguous. */
  function Read(link: DataLink, port: seq<byte>): (data: seq<byte>)
    requires link.ValidBuffers()
    reads link, link.crcTable
    ensures |data| <= link.ReadCount() && data <= port && (!HasSpace(link) ==> data == [])
  {
    if HasSpace(link) then port[..Min(|port|, link.ReadCount())] else []
  }

  // ---------------------------------------------------------------- a frame that has only begun

  /** Inside a frame the receiver does not hunt. */
  lemma {:induction false} InsideFrame(rcv: seq<byte>, payload: seq<byte>, isEPOC: bool, h: byte, l: byte, x: seq<byte>)
    requires x < Stuff(payload, isEPOC) + [DLE, ETX, h, l]
    ensures !Run(Body(rcv, false), x).Hunting()
    decreases |payload|
  {
    if payload == [] {
      InsideTail(rcv, h, l, x);
    } else {
      var c, rest := payload[0], payload[1..];
      var s := StuffByte(c, isEPOC);
      if |x| < |s| {
        InsideByte(rcv, c, isEPOC, x);
      } else {
        var y := x[|s|..];
        assert x == s + y && y < Stuff(rest, isEPOC) + [DLE, ETX, h, l];
        hide Stuff;
        hide StuffByte;
        ByteUnstuffs(rcv, c, isEPOC);
        RunSplit(Body(rcv, false), s, y);
        InsideFrame(rcv + [c], rest, isEPOC, h, l, y);
      }
    }
  }

  lemma InsideTail(rcv: seq<byte>, h: byte, l: byte, x: seq<byte>)
    requires x < [DLE, ETX, h, l]
    ensures !Run(Body(rcv, false), x).Hunting()
  {
    assert x == [] || x == [DLE] || x == [DLE, ETX] || x == [DLE, ETX, h];
    var y := if |x| > 1 then x[1..] else [];
    var z := if |y| > 1 then y[1..] else [];
    assert x != [] ==> x == [DLE] + y;
    assert y != [] ==> y == [ETX] + z;
    assert z != [] ==> z == [h] + [];
    RunCons(Body(rcv, false), DLE, y);
    RunCons(Body(rcv, true), ETX, z);
    RunCons(CheckHigh(rcv), h, []);
  }

  lemma InsideByte(rcv: seq<byte>, c: byte, isEPOC: bool, x: seq<byte>)
    requires x < StuffByte(c, isEPOC)
    ensures !Run(Body(rcv, false), x).Hunting()
  {
    assert x == [] || x == [DLE];
    assert [DLE][1..] == [];
  }

  /** When three bytes of a clean line have arrived, a frame has been found: it has ended, or is being read. */
  lemma StartFound(messages: seq<Message>, arrived: seq<byte>)
    requires arrived <= Frames(messages) && |arrived| >= 3 && Output(Hunt, arrived) == []
    ensures !Run(Hunt, arrived).Hunting()
  {
    FramesFirst(messages);
    var m := messages[0];
    hide *;
    var f := Frame(m.payload, m.isEPOC);
    if |f| <= |arrived| {
      FrameRoundTrip(m.payload, m.isEPOC);
      var rest := arrived[|f|..];
      assert arrived == f + rest;
      RunSplit(Hunt, f, rest);
      assert false;
    } else {
      FrameBegun(m.payload, m.isEPOC, arrived);
    }
  }

  lemma FramesFirst(messages: seq<Message>)
    requires Frames(messages) != []
    ensures messages != [] && Frame(messages[0].payload, messages[0].isEPOC) <= Frames(messages)
  {
    hide Frame;
  }

  lemma FrameBegun(payload: seq<byte>, isEPOC: bool, x: seq<byte>)
    requires 3 <= |x| && x < Frame(payload, isEPOC)
    ensures !Run(Hunt, x).Hunting()
  {
    hide *;
    FrameParts(payload, isEPOC);
    var h: byte, l: byte := CrcOf(payload) / 256, CrcOf(payload) % 256;
    var head, body := [SYN, DLE, STX], Stuff(payload, isEPOC) + [DLE, ETX, h, l];
    var y := x[3..];
    Begun(head, body, x);
    HeadOpens();
    RunSplit(Hunt, head, y);
    InsideFrame([], payload, isEPOC, h, l, y);
  }

  lemma Begun(head: seq<byte>, body: seq<byte>, x: seq<byte>)
    requires |head| <= |x| && x < head + body
    ensures x == head + x[|head|..] && x[|head|..] < body
  {
  }

  /** No more is kept than was unread. */
  lemma {:induction false} KeptAtMost(p: Parser, s: seq<byte>, unread: nat)
    requires |s| <= unread
    ensures Kept(p, s, unread) <= unread
    decreases |s|
  {
    hide Step;
    if s != [] {
      KeptAtMost(Step(p, s[0]), s[1..], if p.CheckLow? then |s| - 1 else unread);
    }
  }

  /** What is kept of a clean line is the beginning of one frame. */
  lemma {:induction false} KeptShort(messages: seq<Message>, arrived: seq<byte>, longest: nat)
    requires arrived <= Frames(messages) && longest > 0
    requires forall m :: m in messages ==> |Frame(m.payload, m.isEPOC)| <= longest
    ensures Kept(Hunt, arrived, |arrived|) < longest
    decreases |messages|
  {
    hide Frame;
    if messages != [] {
      var m, rest := messages[0], messages[1..];
      var f := Frame(m.payload, m.isEPOC);
      if |f| <= |arrived| {
        var x := arrived[|f|..];
        assert arrived == f + x && x <= Frames(rest);
        FrameConsumed(m.payload, m.isEPOC);
        FrameRoundTrip(m.payload, m.isEPOC);
        KeptShort(rest, x, longest);
        hide *;
        KeptSplit(Hunt, f, x, |f|);
      } else {
        assert m in messages;
        KeptAtMost(Hunt, arrived, |arrived|);
      }
    }
  }

  // ---------------------------------------------------------------- turns

  /** A frame has been found on this line: the link does not look unstable. */
  lemma Steady(messages: seq<Message>, arrived: seq<byte>)
    requires arrived <= Frames(messages) && |arrived| > 15
    ensures Run(Hunt, arrived).Hunting() ==> Output(Hunt, arrived) != []
  {
    hide *;
    if Output(Hunt, arrived) == [] {
      StartFound(messages, arrived);
    }
  }

  /** One turn, when what is read leaves a cell free: the bytes arrive, and what is in the ring is looked at. */
  method OneTurn(link: DataLink, port: seq<byte>, outputPending: nat -> bool)
    returns (stable: bool, received: seq<seq<byte>>)
    requires link.ValidInput() && link.InStep() && |Read(link, port)| <= Free(link.inRead, link.inWrite)
    requires !LastByteRejected(Hunt, link.arrived + Read(link, port))
    modifies link, link.inBuffer
    ensures link.ValidInput() && link.InStep() && link.arrived == old(link.arrived + Read(link, port))
    ensures link.delivered == old(link.delivered) + received && link.delivered <= Output(Hunt, link.arrived)
    ensures |link.Unread()| <= old(|link.Unread()| + |Read(link, port)|)
    ensures Uncut(outputPending) ==>
              && link.delivered == Output(Hunt, link.arrived)
              && |link.Unread()| == Kept(Hunt, link.arrived, |link.arrived|)
    ensures link.justStarted ==> old(link.justStarted) && received == []
    ensures !stable ==> link.justStarted && |link.Unread()| > 15 && Run(Hunt, link.arrived).Hunting()
    ensures !stable ==> link.delivered == Output(Hunt, link.arrived)
  {
    hide CrcOf;
    hide IsTable;
    hide Output;
    hide Run;
    hide Kept;
    hide LastByteRejected;
    StoredLength(link.inBuffer[..], link.inRead, link.inWrite);
    hide Stored;
    hide Carries;
    hide Free;
    var data := Read(link, port);
    link.PumpRead(data);
    stable, received := true, [];
    if link.inRead != link.inWrite {
      stable, received := link.ProcessInputData(outputPending);
    } else {
      link.AllHandedOn();
    }
  }

  /** Reads are small enough, and nothing waits to be sent: the ring never fills. */
  ghost predicate Roomy(messages: seq<Message>, turns: seq<Turn>, longest: nat) {
    && longest > 0
    && (forall m :: m in messages ==> |Frame(m.payload, m.isEPOC)| <= longest)
    && (forall i :: 0 <= i < |turns| ==> turns[i].ready + longest <= BUFLEN && Uncut(turns[i].outputPending))
  }

  /** A turn on a clean line of which `got` bytes have been read. */
  method LineTurn(link: DataLink, ghost messages: seq<Message>, line: seq<byte>, got: nat, turn: Turn)
    returns (got': nat, received: seq<seq<byte>>, full: bool)
    requires link.ValidInput() && link.InStep() && line == Frames(messages) && got <= |line|
    requires link.arrived == line[..got] && |link.Unread()| <= got && (link.justStarted ==> link.delivered == [])
    modifies link, link.inBuffer
    ensures link.ValidInput() && link.InStep() && got' <= |line| && link.arrived == line[..got']
    ensures |link.Unread()| <= got' && (link.justStarted ==> link.delivered == [])
    ensures link.delivered == old(link.delivered) + received
    ensures !full ==> link.delivered <= Output(Hunt, line[..got'])
    ensures !full && Uncut(turn.outputPending) ==>
              && link.delivered == Output(Hunt, line[..got'])
              && |link.Unread()| == Kept(Hunt, line[..got'], got')
    ensures full ==> received == [] && old(|link.Unread()|) + turn.ready >= BUFLEN
  {
    hide CrcOf;
    hide IsTable;
    hide Stored;
    hide Output;
    hide Run;
    hide Kept;
    hide Carries;
    hide LastByteRejected;
    hide Frames;
    hide Free;
    hide Inca;
    var port := line[got..got + Min(turn.ready, |line| - got)];
    var size := |Read(link, port)|;
    RoomFor(link);
    got', received, full := got, [], size > Free(link.inRead, link.inWrite);
    if !full {
      got' := got + size;
      assert line[..got] + Read(link, port) == line[..got'];
      CleanLine(messages, line[..got']);
      var stable;
      stable, received := OneTurn(link, port, turn.outputPending);
      if !stable {
        Steady(messages, line[..got']);
        assert false;
      }
    }
  }

  lemma RoomFor(link: DataLink)
    requires link.ValidBuffers()
    ensures |link.Unread()| + Free(link.inRead, link.inWrite) == BUFLEN - 1
  {
    hide IsTable;
    StoredLength(link.inBuffer[..], link.inRead, link.inWrite);
    hide Stored;
    hide Free;
  }

  /**
   * The pump's turns from the start of a clean line, whatever the port has ready at each and whenever output is
   * pending, up to a read that would fill the ring to its last cell.  The link never looks unstable; the payloads
   * sent come in order; and when the line has been read and the last turn was not cut short, all of them have come.
   */
  method PumpLine(link: DataLink, ghost messages: seq<Message>, line: seq<byte>, turns: seq<Turn>, ghost longest: nat)
    returns (got: nat, received: seq<seq<byte>>, full: bool)
    requires link.ValidInput() && link.InStep() && link.arrived == [] && link.delivered == []
    requires link.inRead == link.inWrite && line == Frames(messages)
    modifies link, link.inBuffer
    ensures link.ValidInput() && link.InStep() && got <= |line| && link.arrived == line[..got]
    ensures link.delivered == received <= Payloads(messages)
    ensures !full && turns != [] && got == |line| && Uncut(turns[|turns| - 1].outputPending) ==>
              received == Payloads(messages)
    ensures Roomy(messages, turns, longest) ==> !full
  {
    hide CrcOf;
    hide IsTable;
    hide Stored;
    hide Output;
    hide Run;
    hide Kept;
    hide Carries;
    hide LastByteRejected;
    hide Frames;
    hide Payloads;
    got, received, full := 0, [], false;
    EmptyStored(link.inBuffer[..], link.inRead);
    CleanLine(messages, []);
    for i := 0 to |turns|
      invariant link.ValidInput() && link.InStep() && got <= |line| && link.arrived == line[..got]
      invariant link.delivered == received <= Payloads(messages) && |link.Unread()| <= got
      invariant link.justStarted ==> link.delivered == []
      invariant i > 0 && Uncut(turns[i - 1].outputPending) ==> received == Output(Hunt, line[..got])
      invariant Roomy(messages, turns, longest) ==> |link.Unread()| < longest
      modifies link, link.inBuffer
    {
      var frames;
      got, frames, full := LineTurn(link, messages, line, got, turns[i]);
      received := received + frames;
      if full {
        return;
      }
      CleanLine(messages, line[..got]);
      if Roomy(messages, turns, longest) {
        KeptShort(messages, line[..got], longest);
      }
    }
    CleanLine(messages, line[..got]);
    assert line[..|line|] == line;
  }

  // ---------------------------------------------------------------- a full ring

  lemma SpaceIsFree(link: DataLink)
    requires link.ValidBuffers()
    ensures HasSpace(link) <==> |link.Unread()| < BUFLEN - 1
    ensures |link.Unread()| < BUFLEN
  {
    hide IsTable;
    StoredLength(link.inBuffer[..], link.inRead, link.inWrite);
    hide Stored;
  }

  /**
   * A turn that finds the ring full reads nothing.  With nothing waiting to be sent, there is space afterwards if
   * and only if the end of some frame is among what has arrived since the last one.
   */
  method TurnWhenFull(link: DataLink, port: seq<byte>) returns (stable: bool, received: seq<seq<byte>>)
    requires link.ValidInput() && link.InStep() && !HasSpace(link) && !LastByteRejected(Hunt, link.arrived)
    modifies link, link.inBuffer
    ensures link.ValidInput() && link.InStep() && link.arrived == old(link.arrived)
    ensures HasSpace(link) <==> Kept(Hunt, link.arrived, |link.arrived|) < BUFLEN - 1
  {
    hide CrcOf;
    hide IsTable;
    hide Stored;
    hide Output;
    hide Run;
    hide Kept;
    hide Carries;
    hide LastByteRejected;
    hide Free;
    assert link.arrived + [] == link.arrived;
    stable, received := OneTurn(link, port, _ => false);
    SpaceIsFree(link);
  }

  /** No more of what arrived is left to keep than is unread. */
  lemma KeptIsUnread(link: DataLink)
    requires link.ValidInput() && link.InStep()
    ensures Kept(Hunt, link.arrived, |link.arrived|) <= |link.Unread()|
  {
    hide CrcOf;
    hide IsTable;
    hide Stored;
    hide Output;
    hide Run;
    hide Kept;
    hide LastByteRejected;
    KeptThrough(link.Arrived(), link.delivered, link.Todo());
    hide Carries;
    KeptAtMost(link.Place(), link.Rest(), |link.Unread()|);
  }

  /**
   * And if there is none, there never will be: no turn, whatever the port has ready and whatever waits to be sent,
   * reads or consumes a byte.  Only a link on which no frame has been seen since the start can still be reset.
   */
  method FullForever(link: DataLink, ports: seq<seq<byte>>, outputPending: (nat, nat) -> bool) returns (stable: bool)
    requires link.ValidInput() && link.InStep() && !HasSpace(link) && !LastByteRejected(Hunt, link.arrived)
    requires Kept(Hunt, link.arrived, |link.arrived|) == BUFLEN - 1
    modifies link, link.inBuffer
    ensures link.ValidInput() && link.InStep() && link.arrived == old(link.arrived)
    ensures !HasSpace(link) && |link.Unread()| == BUFLEN - 1
    ensures !old(link.justStarted) ==> stable && !link.justStarted
  {
    hide CrcOf;
    hide IsTable;
    hide Stored;
    hide Output;
    hide Run;
    hide Kept;
    hide Carries;
    hide LastByteRejected;
    hide Free;
    assert link.arrived + [] == link.arrived;
    stable := true;
    SpaceIsFree(link);
    KeptIsUnread(link);
    for i := 0 to |ports|
      invariant link.ValidInput() && link.InStep() && link.arrived == old(link.arrived)
      invariant !HasSpace(link) && |link.Unread()| == BUFLEN - 1
      invariant link.justStarted ==> old(link.justStarted)
      modifies link, link.inBuffer
    {
      var turn: nat := i;
      var frames;
      stable, frames := OneTurn(link, ports[i], (k: nat) => outputPending(turn, k));
      KeptIsUnread(link);
      SpaceIsFree(link);
      if !stable {
        return;
      }
    }
  }

  /** Such bytes are a frame's start with 4092 more behind it and no DLE among them. */
  lemma StallingBytes(x: seq<byte>)
    requires |x| == BUFLEN - 4 && DLE !in x
    ensures var s := [SYN, DLE, STX] + x; Kept(Hunt, s, |s|) == BUFLEN - 1 && !LastByteRejected(Hunt, s)
  {
    var head := [SYN, DLE, STX];
    hide *;
    KeptSplit(Hunt, head, x, 3);
    KeptAtMost(Hunt, head, 3);
    HeadOpens();
    HeadAccepted();
    HeadKept();
    LongBody([], x, |x| + 3);
    AcceptedSplit(Hunt, head, x);
    AcceptedNotRejected(Hunt, head + x);
  }

  lemma HeadKept()
    ensures Kept(Hunt, [SYN, DLE, STX], 3) == 3
  {
    var head: seq<byte> := [SYN, DLE, STX];
    assert head[1..] == [DLE, STX] && head[2..] == [STX] == head[1..][1..] && head[3..] == [] == head[2..][1..];
    assert Kept(GotDle, head[2..], 3) == Kept(Body([], false), head[3..], 3) == 3;
    assert Kept(GotSyn, head[1..], 3) == Kept(GotDle, head[2..], 3);
    assert Kept(Hunt, head, 3) == Kept(GotSyn, head[1..], 3);
  }

  lemma {:induction false} LongBody(rcv: seq<byte>, x: seq<byte>, unread: nat)
    requires DLE !in x
    ensures Kept(Body(rcv, false), x, unread) == unread && Accepted(Body(rcv, false), x)
    decreases |x|
  {
    if x != [] {
      assert x[0] in x && x == [x[0]] + x[1..];
      LongBody(rcv + [x[0]], x[1..], unread);
      AcceptedCons(Body(rcv, false), x[0], x[1..]);
    }
  }
}
