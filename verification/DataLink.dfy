/**
 * lib/datalink.cc as a class: the input ring with its resumable frame parser and the output ring
 * shared by the senders and the pump thread.
 */
module DataLinks {
  import opened Bytes
  import opened Crc
  import opened Framing
  import opened Ring
  import opened Scanning

  class DataLink {
    const crcTable: array<int>

    // reading from serial
    var esc: bool
    var justStarted: bool
    var rcv: seq<byte>
    var startPkt: int
    var lastSYN: int
    var crcIn: nat
    var inCRCstate: nat
    var receivedCRC: nat
    const inBuffer: array<byte>
    var inWrite: nat
    var inRead: nat

    // what the port has delivered since the last reset, and the payloads handed on
    ghost var arrived: seq<byte>
    ghost var delivered: seq<seq<byte>>

    // writing to serial
    var isCancelled: bool
    const outBuffer: array<byte>
    var outWrite: nat
    var outRead: nat

    // what has been accepted for sending since the last reset, in lock order, and what the port took
    ghost var accepted: seq<seq<byte>>
    ghost var written: seq<byte>

    ghost predicate ValidBuffers()
      reads this, crcTable
    {
      && inBuffer.Length == BUFLEN + 1 && outBuffer.Length == BUFLEN + 1
      && inBuffer != outBuffer && crcTable.Length == 256 && IsTable(crcTable[..])
      && inWrite < BUFLEN && inRead < BUFLEN && outWrite < BUFLEN && outRead < BUFLEN
    }

    /** The bytes read from the port and not yet consumed. */
    ghost function Unread(): seq<byte>
      requires ValidBuffers()
      reads this, crcTable, inBuffer
    {
      Stored(inBuffer[..], inRead, inWrite)
    }

    /** The parser's place between two calls. */
    ghost function Place(): Parser
      reads this
    {
      if startPkt < 0 then Hunt
      else if inCRCstate == 0 then Body(rcv, esc)
      else if inCRCstate == 1 then CheckHigh(rcv)
      else CheckLow(rcv, if receivedCRC < 65536 then receivedCRC / 256 else 0)
    }

    ghost predicate ValidInput()
      reads this, crcTable, inBuffer
    {
      && ValidBuffers()
      && lastSYN < BUFLEN
      && (startPkt >= 0 ==> lastSYN >= 0)
      && (lastSYN >= 0 ==> |Stored(inBuffer[..], lastSYN, inWrite)| <= |Unread()|)
      && (startPkt >= 0 ==>
            && crcIn == CrcOf(rcv) && inCRCstate <= 2
            && (inCRCstate == 2 ==> receivedCRC < 65536 && receivedCRC % 256 == 0))
    }

    /** The bytes still to be looked at, from the place where the last call stopped. */
    ghost function Rest(): seq<byte>
      requires ValidInput()
      reads this, crcTable, inBuffer
    {
      if lastSYN >= 0 then Stored(inBuffer[..], lastSYN, inWrite) else Unread()
    }

    /** Where the next call starts to look. */
    ghost function At(): nat
      requires ValidInput()
      reads this, crcTable, inBuffer
    {
      if lastSYN >= 0 then lastSYN else inRead
    }

    /** What is left to do. */
    ghost function Todo(): Job
      requires ValidInput()
      reads this, crcTable, inBuffer
    {
      Job(Place(), Rest(), |Unread()|)
    }

    /** Everything that arrived, as if nothing of it had been looked at. */
    ghost function Arrived(): Job
      reads this
    {
      Job(Hunt, arrived, |arrived|)
    }

    /**
     * The parser is in step with the line: what has been handed on, and what it will still make of the
     * bytes it holds, is what the byte-at-a-time receiver makes of everything that arrived.
     */
    ghost predicate InStep()
      requires ValidInput()
      reads this, crcTable, inBuffer
    {
      Carries(Arrived(), delivered, Todo())
    }

    ghost function Pending(): seq<byte>
      requires ValidBuffers()
      reads this, crcTable, outBuffer
    {
      Stored(outBuffer[..], outRead, outWrite)
    }

    ghost predicate ValidOutput()
      reads this, crcTable, outBuffer
    {
      ValidBuffers() && written + Pending() == Concat(accepted)
    }

    constructor ()
      ensures ValidInput() && InStep() && arrived == [] && delivered == [] && Place() == Hunt && Rest() == []
      ensures inRead == inWrite == 0
      ensures ValidOutput() && Pending() == [] && accepted == [] && written == []
      ensures fresh(inBuffer) && fresh(outBuffer) && fresh(crcTable)
      ensures justStarted && !isCancelled
    {
      esc, justStarted, rcv, startPkt, lastSYN := false, true, [], -1, -1;
      crcIn, inCRCstate, receivedCRC, inWrite, inRead := 0, 0, 0, 0, 0;
      isCancelled, outWrite, outRead := false, 0, 0;
      var table := new int[256];
      var ib := new byte[BUFLEN + 1];
      var ob := new byte[BUFLEN + 1];
      crcTable, inBuffer, outBuffer := table, ib, ob;
      accepted, written, arrived, delivered := [], [], [], [];
      new;
      BuildTable(table);
    }

    /** The buffers and the parser after `internalReset`. */
    method Reset()
      requires ValidBuffers()
      modifies this
      ensures ValidInput() && InStep() && arrived == [] && delivered == [] && Place() == Hunt && Rest() == []
      ensures ValidOutput() && Pending() == [] && accepted == [] && written == []
      ensures justStarted && isCancelled == old(isCancelled)
    {
      hide IsTable;
      hide CrcOf;
      hide LastByteRejected;
      hide Output;
      hide Run;
      hide Stored;
      hide Concat;
      ResetInput();
      ResetOutput();
    }

    method ResetInput()
      requires ValidBuffers()
      modifies this`inRead, this`inWrite, this`esc, this`lastSYN, this`startPkt, this`crcIn, this`justStarted,
               this`arrived, this`delivered
      ensures ValidInput() && InStep() && arrived == [] && delivered == [] && Place() == Hunt && Rest() == []
      ensures justStarted
    {
      hide CrcOf;
      hide IsTable;
      hide Carries;
      hide Stored;
      EmptyStored(inBuffer[..], 0);
      CarriesStart(Job(Hunt, [], 0));
      inRead, inWrite := 0, 0;
      esc := false;
      lastSYN, startPkt := -1, -1;
      crcIn := 0;
      justStarted := true;
      arrived, delivered := [], [];
    }

    method ResetOutput()
      requires ValidBuffers()
      modifies this`outRead, this`outWrite, this`accepted, this`written
      ensures ValidOutput() && Pending() == [] && accepted == [] && written == []
    {
      hide IsTable;
      hide Stored;
      outRead, outWrite := 0, 0;
      accepted, written := [], [];
      EmptyStored(outBuffer[..], 0);
      NothingYet();
    }

    // ---------------------------------------------------------------- output

    /** Assembles the frame around a payload. */
    method Assemble(b: seq<byte>, isEPOC: bool) returns (message: seq<byte>)
      requires ValidBuffers()
      ensures message == Frame(b, isEPOC)
    {
      hide CrcOf;
      hide AddToCrc;
      hide IsTable;
      hide Stuff;
      assert Stuff(b[..0], isEPOC) == [] by { StuffEmpty(isEPOC); }
      message := [0x16, 0x10, 0x02];
      var crcOut: nat := 0;
      assert CrcOf(b[..0]) == 0 by { EmptyCrc(); }
      for i := 0 to |b|
        invariant crcOut < 65536 && crcOut == CrcOf(b[..i])
        invariant message == [SYN, DLE, STX] + Stuff(b[..i], isEPOC)
      {
        var c := b[i];
        assert b[..i + 1] == b[..i] + [c];
        StuffSnoc(b[..i], c, isEPOC);
        if c == 0x03 {
          if isEPOC {
            message := message + [0x10];
            message := message + [0x04];
          } else {
            message := message + [c];
          }
        } else if c == 0x10 {
          message := message + [0x10];
          message := message + [0x10];
        } else {
          message := message + [c];
        }
        assert message == [SYN, DLE, STX] + (Stuff(b[..i], isEPOC) + StuffByte(c, isEPOC));
        CrcOfSnoc(crcTable[..], b[..i], c);
        crcOut := AddToCrc(crcTable[..], crcOut, c);
      }
      assert b[..|b|] == b;
      message := message + [0x10];
      message := message + [0x03];
      message := message + [crcOut / 256];
      message := message + [crcOut % 256];
    }

    /**
     * The part of `send` that runs under the output lock once its wait has ended: there is room for
     * the whole message, or the link is shutting down and the message is dropped.
     */
    method Enqueue(message: seq<byte>)
      requires ValidOutput()
      requires Free(outRead, outWrite) >= |message| || isCancelled
      modifies this`outWrite, this`accepted, outBuffer
      ensures ValidOutput()
      ensures old(isCancelled) ==> Pending() == old(Pending()) && accepted == old(accepted)
      ensures !old(isCancelled) ==>
                Pending() == old(Pending()) + message && accepted == old(accepted) + [message]
    {
      hide CrcOf;
      hide Concat;
      hide IsTable;
      hide Stored;
      hide Free;
      if isCancelled {
        return;
      }
      ghost var pending := Pending();
      Append(message);
      AcceptMessage(message, pending);
    }

    /** The loop that copies a message into the output ring. */
    method Append(message: seq<byte>)
      requires ValidBuffers() && Free(outRead, outWrite) >= |message|
      modifies this`outWrite, outBuffer
      ensures ValidBuffers() && Pending() == old(Pending()) + message
    {
      hide CrcOf;
      hide IsTable;
      hide Stored;
      StoredLength(outBuffer[..], outRead, outWrite);
      hide Free;
      ghost var pending := Pending();
      assert pending + message[..0] == pending;
      for i := 0 to |message|
        invariant ValidBuffers() && outRead == old(outRead)
        invariant Pending() == pending + message[..i] && |pending| + |message| < BUFLEN
        modifies this`outWrite, outBuffer
      {
        AppendByte(message[i]);
        assert message[..i + 1] == message[..i] + [message[i]];
      }
      assert message[..|message|] == message;
    }

    method AppendByte(c: byte)
      requires ValidBuffers() && |Pending()| + 1 < BUFLEN
      modifies this`outWrite, outBuffer
      ensures ValidBuffers() && Pending() == old(Pending()) + [c]
    {
      hide CrcOf;
      hide IsTable;
      hide Stored;
      ghost var before, w := outBuffer[..], outWrite;
      outBuffer[outWrite] := c;
      outWrite := Inca(outWrite, 1);
      assert outBuffer[..] == before[..w] + [c] + before[w + 1..];
      StoredAppend(before, outBuffer[..], outRead, w, [c]);
    }

    ghost method AcceptMessage(message: seq<byte>, before: seq<byte>)
      requires ValidBuffers() && written + before == Concat(accepted)
      requires Pending() == before + message
      modifies this`accepted
      ensures ValidOutput() && accepted == old(accepted) + [message]
    {
      ConcatSplit(accepted, [message]);
      assert Concat([message]) == message + Concat([message][1..]);
      accepted := accepted + [message];
      assert written + (before + message) == written + before + message;
    }

    /** How many bytes the pump offers to the port: what is contiguous in the buffer. */
    function WriteCount(): (n: nat)
      requires ValidBuffers()
      reads this, crcTable
      ensures n > 0 <==> outRead != outWrite
    {
      if outWrite >= outRead then outWrite - outRead else BUFLEN - outRead
    }

    /** The pump's write step, when the port takes `res` of the bytes offered. */
    method PumpWrite(res: nat) returns (bytes: seq<byte>)
      requires ValidOutput() && res <= WriteCount()
      modifies this`outRead, this`written
      ensures ValidOutput()
      ensures |bytes| == res && old(Pending()) == bytes + Pending()
      ensures written == old(written) + bytes
    {
      hide Concat;
      bytes := outBuffer[outRead..outRead + res];
      StoredDrop(outBuffer[..], outRead, outWrite, res);
      ghost var pending := Pending();
      assert pending == pending[..res] + pending[res..];
      outRead := Inca(outRead, res);
      written := written + bytes;
      assert written == old(written) + bytes;
      assert old(written) + (bytes + Pending()) == written + Pending();
    }

    /** `shutdown`: from now on senders drop their messages. */
    method Shutdown()
      requires ValidOutput()
      modifies this`isCancelled
      ensures ValidOutput() && isCancelled
    {
      isCancelled := true;
    }

    // ---------------------------------------------------------------- input

    /** How many bytes the pump asks the port for: the contiguous space. */
    function ReadCount(): (n: nat)
      requires ValidBuffers()
      reads this, crcTable
      ensures 0 < n <= BUFLEN
    {
      if inRead > inWrite then inRead - inWrite else BUFLEN - inWrite
    }

    /**
     * The pump's read step, when the port delivers `data`.  One cell must stay free for the bytes to
     * be visible: a read that fills the ring makes it look empty.
     */
    method PumpRead(data: seq<byte>)
      requires ValidInput() && InStep() && |data| <= ReadCount()
      modifies this`inWrite, this`arrived, inBuffer
      ensures ValidBuffers() && arrived == old(arrived) + data
      ensures inWrite == Inca(old(inWrite), |data|)
      ensures inBuffer[..] == old(inBuffer[..inWrite]) + data + old(inBuffer[inWrite + |data|..])
      ensures |old(Unread())| + |data| < BUFLEN ==>
                && ValidInput() && InStep()
                && Place() == old(Place()) && Rest() == old(Rest()) + data && Unread() == old(Unread()) + data
      ensures |old(Unread())| + |data| == BUFLEN ==> Unread() == []
    {
      hide CrcOf;
      hide IsTable;
      hide Stored;
      hide Carries;
      hide Inca;
      ghost var todo, was := Todo(), Arrived();
      StoreRead(data);
      arrived := arrived + data;
      ArrivalKeepsStep(was, delivered, todo, data);
    }

    /** Copies what was read into the ring and moves the write index. */
    method StoreRead(data: seq<byte>)
      requires ValidInput() && |data| <= ReadCount()
      modifies this`inWrite, inBuffer
      ensures ValidBuffers() && inWrite == Inca(old(inWrite), |data|)
      ensures inBuffer[..] == old(inBuffer[..inWrite]) + data + old(inBuffer[inWrite + |data|..])
      ensures |old(Unread())| + |data| < BUFLEN ==>
                && ValidInput() && Place() == old(Place())
                && Rest() == old(Rest()) + data && Unread() == old(Unread()) + data
      ensures |old(Unread())| + |data| == BUFLEN ==> Unread() == []
    {
      hide CrcOf;
      hide IsTable;
      hide Stored;
      ghost var before := inBuffer[..];
      var w := inWrite;
      Fill(data);
      inWrite := Inca(inWrite, |data|);
      StoredLength(before, inRead, w);
      if |Stored(before, inRead, w)| + |data| < BUFLEN {
        StoredAppend(before, inBuffer[..], inRead, w, data);
        if lastSYN >= 0 {
          StoredAppend(before, inBuffer[..], lastSYN, w, data);
        }
      } else {
        StoredLength(inBuffer[..], inRead, w);
        FullLooksEmpty(inBuffer[..], inRead, w, |data|);
      }
    }

    /** The port writes what it read straight into the ring. */
    method Fill(data: seq<byte>)
      requires inWrite + |data| <= inBuffer.Length
      modifies inBuffer
      ensures inBuffer[..] == old(inBuffer[..inWrite]) + data + old(inBuffer[inWrite + |data|..])
    {
      ghost var before := inBuffer[..];
      for i := 0 to |data|
        invariant inBuffer[..inWrite + i] == before[..inWrite] + data[..i]
        invariant inBuffer[inWrite + i..] == before[inWrite + i..]
      {
        inBuffer[inWrite + i] := data[i];
        assert data[..i + 1] == data[..i] + [data[i]];
        assert inBuffer[..inWrite + (i + 1)] == inBuffer[..inWrite + i] + [data[i]];
      }
      assert data[..|data|] == data;
      assert inBuffer[..] == inBuffer[..inWrite + |data|] + inBuffer[inWrite + |data|..];
    }

    /** A frame start has been seen; its body begins at p. */
    method OpenPacket(p: nat)
      requires ValidBuffers() && p < BUFLEN && |Stored(inBuffer[..], p, inWrite)| <= |Unread()|
      modifies this`esc, this`rcv, this`startPkt, this`lastSYN, this`crcIn, this`inCRCstate
      ensures ValidInput() && startPkt >= 0 && lastSYN == p && Place() == Body([], false)
    {
      hide CrcOf;
      hide Stored;
      lastSYN, startPkt := p, p;
      crcIn, inCRCstate := 0, 0;
      EmptyCrc();
      rcv := [];
      esc := false;
    }

    /**
     * The first loop of `processInputData`: look for SYN DLE STX from index `from`.  t is the scan so far;
     * q is the state reached when the data ran out, and syn is the last SYN seen, or -1.
     */
    method Hunting(inw: nat, from: nat, ghost t: Trace, ghost unread: nat)
      returns (found: bool, p: nat, syn: int, ghost q: Parser, ghost t': Trace)
      requires ValidBuffers() && inw < BUFLEN && from < BUFLEN
      requires Now(t, inBuffer[..], inw, Hunt, from, unread)
      requires inw == 0 ==> !LastByteRejected(t.place, Stored(inBuffer[..], t.from, inw))
      ensures Hunted(t, t', inBuffer[..], inw, from, if found then Body([], false) else q, p, unread)
      ensures found ==> p < BUFLEN && |Stored(inBuffer[..], p, inw)| < |Stored(inBuffer[..], from, inw)|
      ensures !found ==> AtEnd(Scan(q, p), inw) && q.Hunting()
      ensures -1 <= syn < BUFLEN && (syn >= 0 ==> Resumable(t, inBuffer[..], inw, syn, from, unread))
    {
      hide CrcOf;
      hide IsTable;
      hide Carries;
      hide Stored;
      hide LastByteRejected;
      hide Now;
      hide Norm;
      p := from;
      q := Hunt;
      found, syn := false, -1;
      t' := t;
      ghost var buf := inBuffer[..];
      assert Hunted(t, t', buf, inw, from, Hunt, p, unread);
      hide Same;
      hide More;
      hide Hunted;
      hide Resumable;
      while p != inw
        invariant p <= BUFLEN && !found && q == Hunt && -1 <= syn < BUFLEN
        invariant Hunted(t, t', buf, inw, from, Hunt, p, unread)
        invariant syn >= 0 ==> Resumable(t, buf, inw, syn, from, unread)
        decreases |Stored(buf, Norm(p), inw)|
      {
        ghost var was, at := t', p;
        p := Norm(p);
        found, p, t' := See(0x16, p, inw, from, Hunt, at, t, t', unread);
        if !found {
          continue;
        }
        syn := p - 1;
        ResumeHere(t, was, buf, inw, from, at, unread);
        p := Norm(p);
        if p == inw {
          found, q := false, GotSyn;
          break;
        }
        found, p, t' := See(0x10, p, inw, from, GotSyn, p, t, t', unread);
        if !found {
          continue;
        }
        p := Norm(p);
        if p == inw {
          found, q := false, GotDle;
          break;
        }
        found, p, t' := See(0x02, p, inw, from, GotDle, p, t, t', unread);
        if !found {
          continue;
        }
        p := Norm(p);
        break;
      }
    }

    /** Looks at one byte: is it c, the byte wanted in the hunting state q? */
    method See(c: byte, p: nat, inw: nat, ghost from: nat, ghost q: Parser, ghost at: nat,
               ghost t: Trace, ghost t': Trace, ghost unread: nat)
      returns (seen: bool, p': nat, ghost t'': Trace)
      requires ValidBuffers() && inw < BUFLEN && p == Norm(at) && q.Hunting() && c == Wanted(q).0
      requires Hunted(t, t', inBuffer[..], inw, from, q, at, unread) && !AtEnd(Scan(q, at), inw)
      requires inw == 0 ==> !LastByteRejected(t.place, Stored(inBuffer[..], t.from, inw))
      ensures p' == p + 1 <= BUFLEN && |Stored(inBuffer[..], Norm(p'), inw)| < |Stored(inBuffer[..], p, inw)|
      ensures seen ==> Hunted(t, t'', inBuffer[..], inw, from, Wanted(q).1, Norm(p'), unread)
      ensures !seen ==> Hunted(t, t'', inBuffer[..], inw, from, Hunt, p', unread)
    {
      hide CrcOf;
      hide IsTable;
      hide Stored;
      hide LastByteRejected;
      hide Norm;
      HuntOne(t, t', inBuffer[..], inw, from, q, at, unread);
      hide Hunted;
      hide AtEnd;
      t'' := More(t', q, inBuffer[p]);
      return inBuffer[p] == c, p + 1, t'';
    }

    /** Hunting, and what it leaves in the fields. */
    method FindStart(inw: nat, ghost t: Trace) returns (p: nat, ghost q: Parser, ghost t': Trace)
      requires ValidInput() && inWrite == inw && startPkt < 0
      requires Now(t, inBuffer[..], inw, Hunt, At(), |Unread()|)
      requires inw == 0 ==> !LastByteRejected(t.place, Stored(inBuffer[..], t.from, inw))
      modifies this`esc, this`rcv, this`startPkt, this`lastSYN, this`crcIn, this`inCRCstate
      ensures ValidInput() && Same(t, t') && t.from < BUFLEN
      ensures startPkt < 0 ==>
                && Now(t', inBuffer[..], inw, q, p, |Unread()|) && AtEnd(Scan(q, p), inw) && q.Hunting()
                && Carries(t.Start(inBuffer[..], inw), t.out, Todo()) && |Rest()| <= |old(Rest())|
      ensures startPkt >= 0 ==>
                && Place() == Body([], false) && p == At() && Now(t', inBuffer[..], inw, Place(), p, |Unread()|)
                && |Rest()| < |old(Rest())|
    {
      hide CrcOf;
      hide IsTable;
      hide Carries;
      hide Stored;
      hide LastByteRejected;
      hide Reaches;
      hide Handed;
      ghost var from := At();
      assert from % BUFLEN == from;
      NowMeaning(t, inBuffer[..], inw, Hunt, from, |Unread()|);
      hide Now;
      var found, syn;
      found, p, syn, q, t' := Hunting(inw, if lastSYN >= 0 then lastSYN else inRead, t, |Unread()|);
      if found {
        OpenPacket(p);
      } else if syn >= 0 {
        lastSYN := syn;
      }
    }

    /**
     * The second loop of `processInputData`: the bytes of a frame whose start has been seen, up to
     * its last check byte or the end of the data.
     */
    method ScanBody(inw: nat, from: nat, out: seq<seq<byte>>, ghost t: Trace)
      returns (ended: bool, out': seq<seq<byte>>, ghost t': Trace)
      requires ValidInput() && inWrite == inw && startPkt >= 0 && from == At() && t.out == out
      requires Now(t, inBuffer[..], inw, Place(), from, |Unread()|)
      requires inw == 0 ==> !LastByteRejected(t.place, Stored(inBuffer[..], t.from, inw))
      modifies this`esc, this`rcv, this`startPkt, this`lastSYN, this`crcIn, this`inCRCstate, this`receivedCRC,
               this`inRead, this`justStarted
      ensures ValidInput() && !justStarted
      ensures |Unread()| <= |old(Unread())|
      ensures SameStart(t, t') && t'.out == out'
      ensures Now(t', inBuffer[..], inw, Place(), At(), |Unread()|)
      ensures ended ==> startPkt < 0 && |Rest()| < |old(Rest())|
      ensures !ended ==> startPkt >= 0 && Rest() == [] && AtEnd(Scan(Place(), At()), inw)
    {
      hide CrcOf;
      hide IsTable;
      hide Carries;
      hide Stored;
      hide Now;
      hide LastByteRejected;
      hide Emits;
      justStarted := false;
      var p: nat := from;
      ended, out', t' := false, out, t;
      ghost var buf := inBuffer[..];
      while p != inw
        invariant p < BUFLEN && startPkt >= 0 && ValidInput() && !justStarted && inRead == old(inRead) && out' == out
        invariant Same(t, t') && Now(t', buf, inw, Place(), p, |Unread()|)
        invariant |Stored(buf, p, inw)| <= |old(Rest())| <= |Unread()|
        decreases |Stored(buf, p, inw)|
      {
        var c := inBuffer[p];
        NowBody(t', buf, inw, Place(), p, |Unread()|);
        t' := More(t', Place(), c);
        if inCRCstate == 2 {
          p := Inca(p, 1);
          out' := EndFrame(c, p, out);
          return true, out', t';
        }
        NoEmission(Place(), c, out);
        ConsumeByte(c);
        p := Inca(p, 1);
      }
      EmptyStored(buf, inw);
      lastSYN := p;
      assert p % BUFLEN == p;
    }

    /** The last check byte c of a frame; p is the index behind it. */
    method EndFrame(c: byte, p: nat, out: seq<seq<byte>>) returns (out': seq<seq<byte>>)
      requires ValidInput() && startPkt >= 0 && inCRCstate == 2 && p < BUFLEN
      modifies this`rcv, this`startPkt, this`lastSYN, this`inCRCstate, this`receivedCRC, this`inRead
      ensures ValidInput() && startPkt < 0 && lastSYN < 0 && inRead == p
      ensures out' == out + Emits(old(Place()), c)
    {
      hide CrcOf;
      hide Stored;
      receivedCRC := receivedCRC + c;
      inRead := p;
      startPkt, lastSYN := -1, -1;
      inCRCstate := 0;
      if receivedCRC == crcIn {
        out' := out + [rcv];
      } else {
        out' := out + [];
      }
      rcv := [];
    }

    /** The byte c inside a frame, before the last check byte. */
    method ConsumeByte(c: byte)
      requires ValidInput() && startPkt >= 0 && inCRCstate != 2
      modifies this`esc, this`rcv, this`crcIn, this`inCRCstate, this`receivedCRC
      ensures ValidInput() && Place() == Step(old(Place()), c)
    {
      hide CrcOf;
      hide AddToCrc;
      hide Stored;
      if inCRCstate == 0 {
        if esc {
          esc := false;
          if c == 0x03 {
            inCRCstate := 1;
          } else if c == 0x04 {
            AddByte(0x03);
          } else {
            AddByte(c);
          }
        } else if c == 0x10 {
          esc := true;
        } else {
          AddByte(c);
        }
      } else {
        receivedCRC := c * 256;
        inCRCstate := 2;
      }
    }

    method AddByte(c: byte)
      requires ValidBuffers() && crcIn == CrcOf(rcv)
      modifies this`rcv, this`crcIn
      ensures rcv == old(rcv) + [c] && crcIn == CrcOf(rcv)
    {
      hide CrcOf;
      CrcOfSnoc(crcTable[..], rcv, c);
      crcIn := AddToCrc(crcTable[..], crcIn, c);
      rcv := rcv + [c];
    }

    /**
     * `processInputData`: looks at everything in the ring, resuming where the last call stopped.
     * outputPending(k) is whether bytes are waiting to be sent when the k-th frame ends, in which
     * case the call returns early.  Otherwise everything is handed on, and what stays unread is
     * what arrived behind the last frame.
     */
    method ProcessInputData(outputPending: nat -> bool) returns (stable: bool, received: seq<seq<byte>>)
      requires ValidInput() && InStep() && inRead != inWrite
      requires inWrite == 0 ==> !LastByteRejected(Hunt, arrived)
      modifies this`esc, this`justStarted, this`rcv, this`startPkt, this`lastSYN, this`crcIn, this`inCRCstate,
               this`receivedCRC, this`inRead, this`delivered
      ensures ValidInput() && InStep() && |Unread()| <= |old(Unread())|
      ensures delivered == old(delivered) + received && delivered <= Output(Hunt, arrived)
      ensures delivered == Output(Hunt, arrived) || |Rest()| < |old(Rest())|
      ensures (forall k :: !outputPending(k)) ==>
                delivered == Output(Hunt, arrived) && |Unread()| == Kept(Hunt, arrived, |arrived|)
      ensures !stable ==> delivered == Output(Hunt, arrived) && Run(Hunt, arrived).Hunting()
      ensures stable <==> !(startPkt < 0 && justStarted && |Unread()| > 15)
      ensures justStarted ==> old(justStarted) && received == []
    {
      hide CrcOf;
      hide IsTable;
      hide Stored;
      hide Output;
      hide Run;
      hide Kept;
      hide LastByteRejected;
      hide Reaches;
      hide Handed;
      ghost var todo, was := Todo(), delivered;
      StillNotRejected(Arrived(), delivered, todo);
      RunThrough(Arrived(), delivered, todo);
      hide Carries;
      ghost var steps, stop;
      stable, received, steps, stop := ScanAvailable(outputPending);
      delivered := delivered + received;
      ScanKeepsStep(Arrived(), was, todo, received, Todo());
      CarriesMeaning(Arrived(), delivered, Todo());
      KeptThrough(Arrived(), was, todo);
    }

    /** No start of a frame was found: too many bytes since the start mean that the speed is wrong. */
    method LooksStable(inw: nat) returns (stable: bool)
      requires ValidBuffers() && inWrite == inw && (justStarted ==> inRead != inw)
      ensures stable <==> !(justStarted && |Unread()| > 15)
    {
      hide IsTable;
      hide CrcOf;
      StoredLength(inBuffer[..], inRead, inWrite);
      hide Stored;
      if justStarted {
        var rxAmount := if inw > inRead then inw - inRead else BUFLEN - inRead + inw;
        if rxAmount > 15 {
          return false;
        }
      }
      return true;
    }

    /** From `outerLoop` to the end of a frame or of the data; `stop` is how far the loops have got. */
    method Pass(inw: nat, out: seq<seq<byte>>, ghost t: Trace)
      returns (found: bool, ended: bool, out': seq<seq<byte>>, ghost t': Trace, ghost stop: Scan)
      requires ValidInput() && inWrite == inw && t.out == out
      requires Now(t, inBuffer[..], inw, Place(), At(), |Unread()|)
      requires inw == 0 ==> !LastByteRejected(t.place, Stored(inBuffer[..], t.from, inw))
      modifies this`esc, this`justStarted, this`rcv, this`startPkt, this`lastSYN, this`crcIn, this`inCRCstate,
               this`receivedCRC, this`inRead
      ensures ValidInput() && SameStart(t, t') && t'.out == out' && t.from < BUFLEN
      ensures Now(t', inBuffer[..], inw, stop.q, stop.p, |Unread()|)
      ensures ended ==> found && startPkt < 0 && stop == Scan(Place(), At()) && |Rest()| < |old(Rest())|
      ensures !ended ==> AtEnd(stop, inw) && Carries(t.Start(inBuffer[..], inw), out', Todo())
      ensures found ==> !justStarted && (!ended ==> startPkt >= 0 && Rest() == [])
      ensures !found ==> startPkt < 0 && justStarted == old(justStarted) && inRead == old(inRead)
      ensures !found ==> stop.q.Hunting() && out' == out
      ensures |Unread()| <= |old(Unread())| && |Rest()| <= |old(Rest())|
    {
      hide CrcOf;
      hide IsTable;
      hide Carries;
      hide Stored;
      hide Now;
      hide LastByteRejected;
      hide AtEnd;
      out', t' := out, t;
      var p := if lastSYN >= 0 then lastSYN else inRead;
      if startPkt < 0 {
        ghost var q;
        p, q, t' := FindStart(inw, t);
        if startPkt < 0 {
          return false, false, out, t', Scan(q, p);
        }
      }
      ended, out', t' := ScanBody(inw, p, out, t');
      stop := Scan(Place(), At());
      NowMeaning(t', inBuffer[..], inw, Place(), At(), |Unread()|);
      InBuffer(inBuffer[..], inw, Place(), At());
      return true, ended, out', t', stop;
    }

    /**
     * One call takes the steps of the loops from where the last one stopped, to the end of the data unless
     * bytes are waiting to be sent; what it hands on and what it leaves is what the receiver makes of the data.
     */
    method ScanAvailable(outputPending: nat -> bool)
      returns (stable: bool, received: seq<seq<byte>>, ghost steps: nat, ghost stop: Scan)
      requires ValidInput() && inRead != inWrite
      requires inWrite == 0 ==> !LastByteRejected(Place(), Rest())
      modifies this`esc, this`justStarted, this`rcv, this`startPkt, this`lastSYN, this`crcIn, this`inCRCstate,
               this`receivedCRC, this`inRead
      ensures ValidInput() && Carries(old(Todo()), received, Todo())
      ensures Reaches(inBuffer[..], inWrite, Scan(old(Place()), old(At())), steps, stop)
      ensures received == Handed(inBuffer[..], Scan(old(Place()), old(At())), steps)
      ensures (forall k :: !outputPending(k)) ==> AtEnd(stop, inWrite)
      ensures AtEnd(stop, inWrite) ==>
                && Output(Place(), Rest()) == []
                && |Unread()| == Kept(old(Place()), old(Rest()), |old(Unread())|)
      ensures AtEnd(stop, inWrite) || (stable && |Rest()| < |old(Rest())|)
      ensures Rest() != [] ==> old(Rest()) != []
      ensures stable <==> !(startPkt < 0 && justStarted && |Unread()| > 15)
      ensures justStarted ==> old(justStarted) && received == []
      ensures !stable ==> Run(old(Place()), old(Rest())).Hunting()
      ensures |Unread()| <= |old(Unread())| && |Rest()| <= |old(Rest())|
    {
      hide CrcOf;
      hide IsTable;
      hide Carries;
      hide Stored;
      hide Output;
      hide Run;
      hide Kept;
      hide Now;
      hide Reaches;
      hide Handed;
      hide LastByteRejected;
      hide AtEnd;
      var inw := inWrite;
      ghost var t := Trace(Place(), At(), |Unread()|, 0, []);
      received := [];
      var framesEnded: nat := 0;
      NowAtStart(inBuffer[..], inw, Place(), At(), |Unread()|);
      while true
        invariant ValidInput() && inWrite == inw && t.out == received
        invariant t.place == old(Place()) && t.from == old(At()) && t.unread == |old(Unread())|
        invariant Now(t, inBuffer[..], inw, Place(), At(), |Unread()|)
        invariant justStarted ==> old(justStarted) && inRead == old(inRead) && received == []
        invariant |Unread()| <= |old(Unread())| && |Rest()| <= |old(Rest())|
        decreases |Rest()|
      {
        var found, ended;
        found, ended, received, t, stop := Pass(inw, received, t);
        steps := t.steps;
        NowMeaning(t, inBuffer[..], inw, stop.q, stop.p, |Unread()|);
        if AtEnd(stop, inw) {
          ScanEnded(t.Start(inBuffer[..], inw), received, stop.q, |Unread()|, Todo());
        }
        if !found {
          EndsThere(t.Start(inBuffer[..], inw), received, stop.q, |Unread()|);
          stable := LooksStable(inw);
          return stable, received, steps, stop;
        }
        if !ended || outputPending(framesEnded) {
          return true, received, steps, stop;
        }
        framesEnded := framesEnded + 1;
      }
      assert false;
    }

    /** Nothing is unread: everything that arrived has been handed on. */
    lemma AllHandedOn()
      requires ValidInput() && InStep() && inRead == inWrite
      ensures delivered == Output(Hunt, arrived) && Unread() == [] == Rest()
      ensures Kept(Hunt, arrived, |arrived|) == 0
    {
      hide CrcOf;
      hide IsTable;
      EmptyStored(inBuffer[..], inRead);
      hide Stored;
      hide Output;
      hide Run;
      hide Kept;
      hide LastByteRejected;
      KeptThrough(Arrived(), delivered, Todo());
      CarriesMeaning(Arrived(), delivered, Todo());
      hide Carries;
      assert Rest() == [];
      KeptOfNothing(Place());
    }

    /**
     * The pump thread's calls while nothing new arrives, up to a number of them; outputPending(i, k) is whether
     * bytes are waiting to be sent when the k-th frame of the i-th call ends.  The thread stops calling when the
     * ring is empty, and resets the line when it looks unstable.
     */
    method Drain(calls: nat, outputPending: (nat, nat) -> bool) returns (stable: bool, received: seq<seq<byte>>)
      requires ValidInput() && InStep()
      requires inWrite == 0 ==> !LastByteRejected(Hunt, arrived)
      modifies this`esc, this`justStarted, this`rcv, this`startPkt, this`lastSYN, this`crcIn, this`inCRCstate,
               this`receivedCRC, this`inRead, this`delivered
      ensures ValidInput() && InStep()
      ensures delivered == old(delivered) + received && delivered <= Output(Hunt, arrived)
      ensures calls > |old(Rest())| ==> delivered == Output(Hunt, arrived)
    {
      hide CrcOf;
      hide IsTable;
      hide Stored;
      hide Output;
      hide Kept;
      hide Carries;
      hide LastByteRejected;
      stable, received := true, [];
      CarriesMeaning(Arrived(), delivered, Todo());
      for i := 0 to calls
        invariant ValidInput() && InStep()
        invariant delivered == old(delivered) + received && delivered <= Output(Hunt, arrived)
        invariant delivered == Output(Hunt, arrived) || |Rest()| + i <= |old(Rest())|
      {
        if inRead == inWrite {
          AllHandedOn();
          return;
        }
        var frames;
        var call: nat := i;
        stable, frames := ProcessInputData((k: nat) => outputPending(call, k));
        Regrouped(old(delivered), received, frames);
        received := received + frames;
        if !stable {
          return;
        }
      }
    }

    /** On a clean line that is every payload sent, once and in order, however often the calls return early. */
    method DrainCleanLine(ghost messages: seq<Message>, calls: nat, outputPending: (nat, nat) -> bool)
      returns (stable: bool, received: seq<seq<byte>>)
      requires ValidInput() && InStep() && arrived == Frames(messages)
      modifies this`esc, this`justStarted, this`rcv, this`startPkt, this`lastSYN, this`crcIn, this`inCRCstate,
               this`receivedCRC, this`inRead, this`delivered
      ensures ValidInput() && InStep() && delivered == old(delivered) + received
      ensures delivered <= Payloads(messages)
      ensures calls > |old(Rest())| ==> delivered == Payloads(messages)
    {
      hide CrcOf;
      hide IsTable;
      hide Stored;
      hide Output;
      hide Carries;
      hide LastByteRejected;
      hide Frames;
      hide Payloads;
      CleanLine(messages, arrived);
      stable, received := Drain(calls, outputPending);
    }
  }

  // ---------------------------------------------------------------- the missed end

  /**
   * The case that `processInputData` requires away comes up: a link receives a frame, hands it on, and then
   * bytes arrive that fill the buffer to its last cell and start no frame.  Nothing more is due to anyone,
   * but the loops of the next call run past the end and hand on the old payload over and over.
   */
  method DeliversAgain(payload: seq<byte>, isEPOC: bool, junk: seq<byte>) returns (link: DataLink)
    requires junk != [] && SYN !in junk && |Frame(payload, isEPOC)| + |junk| == BUFLEN
    ensures fresh(link) && link.ValidInput() && link.InStep() && link.inRead != link.inWrite == 0
    ensures link.arrived == Frame(payload, isEPOC) + junk
    ensures link.delivered == [payload] == Output(Hunt, link.arrived)
    ensures LastByteRejected(Hunt, link.arrived) && link.Place() == Hunt
    ensures forall k: nat ::
              && Reaches(link.inBuffer[..], 0, Scan(Hunt, link.At()), |junk| + k * BUFLEN, PASTTHEEND)
              && Handed(link.inBuffer[..], Scan(Hunt, link.At()), |junk| + k * BUFLEN) == Copies([payload], k)
  {
    hide Frame;
    hide Reaches;
    hide Handed;
    hide Output;
    hide LastByteRejected;
    hide Copies;
    hide IsTable;
    hide CrcOf;
    hide Stored;
    hide Carries;
    link := new DataLink();
    ReceiveFrame(link, payload, isEPOC);
    ReceiveJunk(link, payload, isEPOC, junk);
    StaleFrame(link.inBuffer[..], payload, isEPOC, junk);
    forall k: nat
      ensures Reaches(link.inBuffer[..], 0, Scan(Hunt, link.At()), |junk| + k * BUFLEN, PASTTHEEND)
      ensures Handed(link.inBuffer[..], Scan(Hunt, link.At()), |junk| + k * BUFLEN) == Copies([payload], k)
    {
      StaleFrameComesBack(link.inBuffer[..], payload, isEPOC, junk, k);
    }
  }

  /** A frame comes in whole at the start of the buffer and is handed on. */
  method ReceiveFrame(link: DataLink, payload: seq<byte>, isEPOC: bool)
    requires link.ValidInput() && link.InStep() && link.arrived == [] && link.delivered == [] && link.Place() == Hunt
             && link.Rest() == []
    requires link.inRead == link.inWrite == 0 && |Frame(payload, isEPOC)| < BUFLEN
    modifies link, link.inBuffer
    ensures link.ValidInput() && link.InStep() && link.arrived == Frame(payload, isEPOC) && link.delivered == [payload]
    ensures link.Place() == Hunt && link.Rest() == [] && link.Unread() == []
    ensures link.At() == link.inRead == link.inWrite == |Frame(payload, isEPOC)|
    ensures link.inBuffer[..|Frame(payload, isEPOC)|] == Frame(payload, isEPOC)
  {
    var frame := Frame(payload, isEPOC);
    FrameLength(payload, isEPOC);
    FrameRoundTrip(payload, isEPOC);
    FrameConsumed(payload, isEPOC);
    hide CrcOf;
    hide IsTable;
    hide Frame;
    hide Output;
    hide Kept;
    hide LastByteRejected;
    StoredLength(link.inBuffer[..], 0, 0);
    hide Stored;
    link.PumpRead(frame);
    assert [] + frame == frame;
    var _, _ := link.ProcessInputData(_ => false);
    CarriesMeaning(link.Arrived(), link.delivered, link.Todo());
    StoredLength(link.inBuffer[..], link.inRead, link.inWrite);
    StoredLength(link.inBuffer[..], link.At(), link.inWrite);
  }

  /** Bytes that start no frame come in behind it and fill the buffer to its last cell. */
  method ReceiveJunk(link: DataLink, payload: seq<byte>, isEPOC: bool, junk: seq<byte>)
    requires link.ValidInput() && link.InStep() && link.arrived == Frame(payload, isEPOC) && link.delivered == [payload]
    requires link.Place() == Hunt && link.Rest() == [] && link.Unread() == []
    requires link.At() == link.inRead == link.inWrite == |Frame(payload, isEPOC)|
    requires link.inBuffer[..|Frame(payload, isEPOC)|] == Frame(payload, isEPOC)
    requires junk != [] && SYN !in junk && |Frame(payload, isEPOC)| + |junk| == BUFLEN
    modifies link, link.inBuffer
    ensures link.ValidInput() && link.InStep() && link.arrived == Frame(payload, isEPOC) + junk
            && link.delivered == [payload]
    ensures link.Place() == Hunt && link.At() == link.inRead == |Frame(payload, isEPOC)| && link.inWrite == 0
    ensures link.inBuffer[..BUFLEN] == Frame(payload, isEPOC) + junk
  {
    hide CrcOf;
    hide IsTable;
    hide Frame;
    hide Output;
    hide Run;
    hide Kept;
    hide LastByteRejected;
    hide Stored;
    hide Carries;
    FrameLength(payload, isEPOC);
    link.PumpRead(junk);
  }

  lemma StuffEmpty(isEPOC: bool)
    ensures Stuff([], isEPOC) == []
  {
  }

  lemma KeptOfNothing(p: Parser)
    ensures Kept(p, [], 0) == 0
  {
  }

  lemma {:induction false} EmptyCrc()
    ensures CrcOf([]) == 0
  {
  }

  lemma NothingYet()
    ensures Concat<byte>([]) == []
  {
  }
}
