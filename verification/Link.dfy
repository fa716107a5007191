/** lib/link.cc as a class.  Each method is proved to compute the function of the same name in LinkSpec. */
module Links {
  import opened Bytes
  import opened Packets
  import Spec = LinkSpec

  type Element = Spec.Element
  type LinkType = Spec.LinkType

  class Link {
    const env: Spec.Env

    var txSequence: int
    var rxSequence: int
    var seqMask: int
    var maxOutstanding: nat
    var failed: bool
    var linkType: LinkType
    var ackWaitQueue: seq<Element>
    var holdQueue: seq<seq<byte>>
    var waitQueue: seq<seq<byte>>
    const xoff: array<bool>

    // the data link below (whether it reports failure, the frames given to it), NCP above, the clock
    var lineDown: bool
    var line: seq<Spec.Sent>
    var ncp: seq<seq<byte>>
    var readings: nat

    // history
    ghost var numbered: seq<Spec.Numbered>
    ghost var accepted: seq<seq<byte>>
    ghost var gaveUp: nat
    var queued: seq<seq<byte>>

    ghost function Stopped(): set<byte>
      requires xoff.Length == 256
      reads xoff
    {
      set c: byte | 0 <= c < 256 && xoff[c]
    }

    ghost function Abs(): Spec.State
      requires xoff.Length == 256
      reads this, xoff
    {
      Spec.State(txSequence, rxSequence, seqMask, maxOutstanding, failed, linkType, ackWaitQueue, holdQueue, waitQueue,
                 Stopped(), lineDown, readings, line, ncp, numbered, accepted, gaveUp, queued)
    }

    ghost predicate Valid()
      reads this, xoff
    {
      xoff.Length == 256 && Spec.Sane(Abs())
    }

    /** The link as constructed: the defaults of the header, then a link request. */
    constructor (env: Spec.Env)
      ensures Valid() && this.env == env && fresh(xoff)
      ensures Abs() == Spec.SendReqReq(Spec.State(1, -1, 7, 1, false, Spec.UnknownLink, [], [], [], {},
                                                  false, 0, [], [], [], [], 0, []), env)
    {
      this.env := env;
      txSequence, rxSequence, seqMask, maxOutstanding := 1, -1, 7, 1;
      failed, linkType := false, Spec.UnknownLink;
      ackWaitQueue, holdQueue, waitQueue := [], [], [];
      xoff := new bool[256](_ => false);
      lineDown, line, ncp, readings := false, [], [], 0;
      numbered, accepted, gaveUp, queued := [], [], 0, [];
      new;
      assert Stopped() == {};
      SendReqReq();
    }

    // ---------------------------------------------------------------- helpers

    method HasFailed() returns (f: bool)
      requires Valid()
      modifies this`failed
      ensures Valid() && Abs() == Spec.HasFailed(old(Abs())) && f == failed
    {
      hide Stopped;
      failed := failed || lineDown;
      f := failed;
    }

    method GetTimeOfDay() returns (t: int)
      requires Valid()
      modifies this`readings
      ensures Valid() && Abs() == old(Abs()).(readings := old(readings) + 1) && t == env.clock(old(readings))
    {
      hide Stopped;
      t := env.clock(readings);
      readings := readings + 1;
    }

    /** Hands a frame to the data link. */
    method Output(f: Spec.Frame)
      requires Valid()
      modifies this`line
      ensures Valid() && Abs() == Spec.Emit(old(Abs()), f)
    {
      hide Stopped;
      line := line + [Spec.Sent(f.data, linkType == Spec.Epoc, f.serial)];
    }

    method PurgeAllQueues()
      requires Valid()
      modifies this`ackWaitQueue, this`holdQueue
      ensures Valid() && Abs() == Spec.PurgeAllQueues(old(Abs()))
    {
      hide Stopped;
      ackWaitQueue := [];
      holdQueue := [];
    }

    /** Queues an element for acknowledgement and sends its frame. */
    method Await(seqNr: int, txcount: nat, data: seq<byte>)
      requires Valid()
      modifies this`readings, this`ackWaitQueue, this`line, this`queued
      ensures Valid() && Abs() == Spec.Await(old(Abs()), env, seqNr, txcount, data)
    {
      hide Stopped;
      var stamp := GetTimeOfDay();
      var serial := |queued|;
      ackWaitQueue := ackWaitQueue + [Spec.Element(seqNr, txcount, stamp, data, serial)];
      queued := queued + [data];
      Output(Spec.Frame(data, serial));
    }

    // ---------------------------------------------------------------- control packets

    method SendAck()
      requires Valid()
      modifies this`failed, this`line
      ensures Valid() && Abs() == Spec.SendAck(old(Abs()))
    {
      hide Stopped;
      var f := HasFailed();
      if f {
        return;
      }
      var nr := rxSequence;
      var tmp: seq<byte> := [];
      if nr > 7 {
        var hseq := nr / 8;
        var lseq := nr % 8 + 8;
        var word := hseq * 256 + lseq;
        tmp := [word % 256, word / 256 % 256] + tmp;
      } else {
        tmp := [nr % 256] + tmp;
      }
      AckBytes(nr);
      Output(Spec.Frame(tmp, Spec.ACK));
    }

    method SendReqCon()
      requires Valid()
      modifies this`failed, this`readings, this`ackWaitQueue, this`line, this`queued
      ensures Valid() && Abs() == Spec.SendReqCon(old(Abs()), env)
    {
      hide Stopped;
      var f := HasFailed();
      if f {
        return;
      }
      Await(0, Spec.CONNECT_RETRIES, [0x24] + env.magic);
    }

    method SendReqReq()
      requires Valid()
      modifies this`failed, this`readings, this`ackWaitQueue, this`line, this`queued
      ensures Valid() && Abs() == Spec.SendReqReq(old(Abs()), env)
    {
      hide Stopped;
      var f := HasFailed();
      if f {
        return;
      }
      Await(0, Spec.CONNECT_RETRIES, [0x21]);
    }

    // ---------------------------------------------------------------- sending data

    method Send(buf: seq<byte>)
      requires Valid()
      modifies this
      ensures Valid() && Abs() == Spec.Send(old(Abs()), env, buf)
    {
      hide Stopped;
      if |buf| > 300 {
        failed := true;
      } else {
        Transmit(buf);
      }
    }

    method Transmit(buf: seq<byte>)
      requires Valid()
      modifies this
      ensures Valid() && Abs() == Spec.Transmit(old(Abs()), env, buf)
    {
      hide Spec.Number;
      var f := HasFailed();
      if f {
        return;
      }
      var remoteChan := ByteAt(buf, 0, env.stale);
      if xoff[remoteChan] {
        holdQueue := holdQueue + [buf];
        return;
      }
      assert remoteChan !in Stopped();
      hide Stopped;
      if |ackWaitQueue| >= maxOutstanding {
        waitQueue := waitQueue + [buf];
        return;
      }
      Number(buf);
    }

    /** The packet gets the next number, is queued for acknowledgement, and goes out. */
    method Number(buf: seq<byte>)
      requires Valid()
      modifies this
      ensures Valid() && Abs() == Spec.Number(old(Abs()), env, buf)
    {
      hide Stopped;
      hide Spec.Await;
      var nr := txSequence;
      txSequence := (txSequence + 1) % (seqMask + 1);
      numbered := numbered + [Spec.Numbered(buf, env.clock(readings))];
      if buf == [] {
        Await(nr, Spec.CONNECT_RETRIES, [(0x20 + nr) % 256]);
      } else {
        var header := DataHeader(nr);
        Await(nr, Spec.RETRIES, header + buf);
      }
    }

    static method DataHeader(nr: nat) returns (header: seq<byte>)
      requires nr <= MAX_SEQ
      ensures forall buf {:trigger DataFrame(nr, buf)} :: header + buf == DataFrame(nr, buf)
    {
      if nr > 7 {
        var hseq := nr / 8;
        var lseq := 0x30 + (nr % 8 + 8);
        var word := hseq * 256 + lseq;
        header := [word % 256, word / 256 % 256];
      } else {
        header := [0x30 + nr];
      }
    }

    /** Transmits the moved packets, in order. */
    method TransmitAll(bufs: seq<seq<byte>>)
      requires Valid()
      modifies this
      ensures Valid() && Abs() == Spec.TransmitAll(old(Abs()), env, bufs)
    {
      hide Stopped;
      ghost var goal := Spec.TransmitAll(Abs(), env, bufs);
      for i := 0 to |bufs|
        invariant Valid() && Spec.TransmitAll(Abs(), env, bufs[i..]) == goal
      {
        assert bufs[i..][1..] == bufs[i + 1..];
        hide Spec.Transmit;
        Transmit(bufs[i]);
      }
    }

    method TransmitHoldQueue(channel: byte)
      requires Valid()
      modifies this
      ensures Valid() && Abs() == Spec.TransmitHoldQueue(old(Abs()), env, channel)
    {
      hide Stopped;
      hide Spec.TransmitAll;
      hide Spec.ForChannel;
      var tmpQueue := MoveHeld(channel);
      TransmitAll(tmpQueue);
    }

    /** Moves the held packets of a channel to a temporary queue. */
    method MoveHeld(channel: byte) returns (tmpQueue: seq<seq<byte>>)
      modifies this`holdQueue
      ensures holdQueue == Spec.ForChannel(old(holdQueue), channel, env.stale, false)
      ensures tmpQueue == Spec.ForChannel(old(holdQueue), channel, env.stale, true)
    {
      ghost var stale := env.stale;
      ghost var q0 := holdQueue;
      tmpQueue := [];
      var i := 0;
      while i < |holdQueue|
        invariant 0 <= i <= |holdQueue|
        invariant Moved(q0, holdQueue[..i], tmpQueue, holdQueue[i..], channel, stale)
        decreases |holdQueue| - i
      {
        ghost var q := holdQueue;
        MovedNext(q0, q, i, tmpQueue, channel, stale);
        hide Moved;
        if ByteAt(holdQueue[i], 0, env.stale) == channel {
          tmpQueue := tmpQueue + [holdQueue[i]];
          holdQueue := holdQueue[..i] + holdQueue[i + 1..];
          assert holdQueue[..i] == q[..i] && holdQueue[i..] == q[i + 1..];
        } else {
          i := i + 1;
        }
      }
      assert holdQueue[i..] == [] && holdQueue[..i] == holdQueue;
    }

    method TransmitWaitQueue()
      requires Valid()
      modifies this
      ensures Valid() && Abs() == Spec.TransmitWaitQueue(old(Abs()), env)
    {
      hide Stopped;
      var tmpQueue := waitQueue;
      waitQueue := [];
      TransmitAll(tmpQueue);
    }

    /** Older packets are acknowledged implicitly. */
    method MultiAck(refstamp: int)
      modifies this`ackWaitQueue
      ensures ackWaitQueue == Spec.NotOlder(old(ackWaitQueue), refstamp)
    {
      var i := 0;
      ghost var q0 := ackWaitQueue;
      while i < |ackWaitQueue|
        invariant 0 <= i <= |ackWaitQueue|
        invariant ackWaitQueue[..i] + Spec.NotOlder(ackWaitQueue[i..], refstamp) == Spec.NotOlder(q0, refstamp)
        decreases |ackWaitQueue| - i
      {
        ghost var q := ackWaitQueue;
        assert q[i..][1..] == q[i + 1..];
        if ackWaitQueue[i].stamp < refstamp {
          ackWaitQueue := ackWaitQueue[..i] + ackWaitQueue[i + 1..];
          assert ackWaitQueue[..i] == q[..i] && ackWaitQueue[i..] == q[i + 1..];
        } else {
          assert q[..i + 1] == q[..i] + [q[i]];
          i := i + 1;
        }
      }
      assert ackWaitQueue[i..] == [] && ackWaitQueue[..i] == ackWaitQueue;
    }

    // ---------------------------------------------------------------- receiving

    method FindNumber(nr: int) returns (i: nat)
      requires Valid()
      ensures i == Spec.Find(ackWaitQueue, nr)
    {
      i := 0;
      while i < |ackWaitQueue|
        invariant i <= |ackWaitQueue| && Spec.Find(ackWaitQueue, nr) == i + Spec.Find(ackWaitQueue[i..], nr)
      {
        if ackWaitQueue[i].seqNr == nr {
          break;
        }
        assert ackWaitQueue[i..][1..] == ackWaitQueue[i + 1..];
        i := i + 1;
      }
    }

    method FindReqReq() returns (i: nat)
      requires Valid()
      ensures i == Spec.FindReqReq(ackWaitQueue, env.stale)
    {
      i := 0;
      while i < |ackWaitQueue|
        invariant i <= |ackWaitQueue|
        invariant Spec.FindReqReq(ackWaitQueue, env.stale) == i + Spec.FindReqReq(ackWaitQueue[i..], env.stale)
      {
        if ackWaitQueue[i].seqNr == 0 && ByteAt(ackWaitQueue[i].data, 0, env.stale) == 0x21 {
          break;
        }
        assert ackWaitQueue[i..][1..] == ackWaitQueue[i + 1..];
        i := i + 1;
      }
    }

    method Receive(buff: seq<byte>)
      requires Valid()
      modifies this, xoff
      ensures Valid() && Abs() == Spec.Receive(old(Abs()), env, buff)
    {
      hide Stopped;
      hide Spec.ReceiveData;
      hide Spec.ReceiveAck;
      hide Spec.ReceiveNewLink;
      var first := ByteAt(buff, 0, env.stale);
      var kind := first / 16;
      var nr: nat := first % 16;
      var rest;
      if nr >= 8 {
        var tseq := ByteAt(buff, 1, env.stale);
        rest := Discard(buff, 2);
        nr := tseq * 8 + nr % 8;
      } else {
        rest := Discard(buff, 1);
      }
      if kind == 3 {
        ReceiveData(nr, rest);
      } else if kind == 0 {
        ReceiveAck(nr);
      } else if kind == 2 {
        ReceiveNewLink(nr);
      } else if kind == 1 {
        failed := true;
      }
    }

    method ReceiveData(nr: nat, payload: seq<byte>)
      requires Valid()
      modifies this, xoff
      ensures Valid() && Abs() == Spec.ReceiveData(old(Abs()), env, nr, payload)
    {
      hide Stopped;
      hide Spec.SendAck;
      hide Spec.Dispatch;
      if (rxSequence + 1) % (seqMask + 1) == nr {
        rxSequence := rxSequence + 1;
        rxSequence := rxSequence % (seqMask + 1);
        accepted := accepted + [payload];
        SendAck();
        Dispatch(payload);
      } else {
        SendAck();
      }
    }

    /** Flow control frames are for the link itself, everything else goes to NCP. */
    method Dispatch(payload: seq<byte>)
      requires Valid()
      modifies this, xoff
      ensures Valid() && Abs() == Spec.Dispatch(old(Abs()), env, payload)
    {
      hide Stopped;
      hide Spec.TransmitHoldQueue;
      if |payload| == 3 && payload[0] == 0 {
        if payload[2] == 1 {
          SetXoff(payload[1], true);
        } else if payload[2] == 2 {
          SetXoff(payload[1], false);
          TransmitHoldQueue(payload[1]);
        } else {
          ncp := ncp + [payload];
        }
      } else {
        ncp := ncp + [payload];
      }
    }

    method SetXoff(channel: byte, on: bool)
      requires Valid()
      modifies xoff
      ensures Valid()
      ensures Abs() == old(Abs()).(xoff := if on then old(Stopped()) + {channel} else old(Stopped()) - {channel})
    {
      xoff[channel] := on;
      assert Stopped() == if on then old(Stopped()) + {channel} else old(Stopped()) - {channel};
    }

    method ReceiveAck(nr: nat)
      requires Valid()
      modifies this
      ensures Valid() && Abs() == Spec.ReceiveAck(old(Abs()), env, nr)
    {
      hide Stopped;
      hide Spec.AckFound;
      hide Spec.AckUnmatched;
      hide Spec.TransmitWaitQueue;
      hide Spec.Find;
      var i := FindNumber(nr);
      if i < |ackWaitQueue| {
        AckFound(i);
        TransmitWaitQueue();
      } else {
        ResendNext(nr);
      }
    }

    method AckFound(i: nat)
      requires Valid() && i < |ackWaitQueue|
      modifies this
      ensures Valid() && Abs() == Spec.AckFound(old(Abs()), i)
    {
      hide Stopped;
      hide Spec.NotOlder;
      var nr, refstamp := ackWaitQueue[i].seqNr, ackWaitQueue[i].stamp;
      ackWaitQueue := ackWaitQueue[..i] + ackWaitQueue[i + 1..];
      if linkType == Spec.UnknownLink && nr == 0 {
        PeerIsSibo();
      }
      MultiAck(refstamp);
    }

    /** The peer has turned out to speak SIBO: our request was packet 0, and nothing else is queued. */
    method PeerIsSibo()
      requires Valid()
      modifies this
      ensures Valid()
      ensures Abs() == Spec.PurgeAllQueues(Spec.SetLink(old(Abs()), Spec.Sibo).(rxSequence := 0, txSequence := 1))
    {
      hide Stopped;
      SetLink(Spec.Sibo);
      rxSequence := 0;
      txSequence := 1;
      PurgeAllQueues();
    }

    /** The branch for an ack that matches nothing: the next packet is sent again at once. */
    method ResendNext(nr: nat)
      requires Valid()
      modifies this
      ensures Valid() && Abs() == Spec.AckUnmatched(old(Abs()), env, nr)
    {
      hide Stopped;
      hide Spec.Find;
      hide Spec.Emit;
      var now := GetTimeOfDay();
      var i := FindNumber(nr + 1);
      if i < |ackWaitQueue| {
        ResendOrDrop(i, now);
      }
    }

    /** Element i goes out again, or is given up when it has no retries left. */
    method ResendOrDrop(i: nat, now: int)
      requires Valid() && i < |ackWaitQueue|
      modifies this`ackWaitQueue, this`gaveUp, this`line
      ensures Valid()
      ensures var s, el := old(Abs()), old(ackWaitQueue)[i];
              var el' := el.(txcount := el.txcount - 1, stamp := now);
              Abs() == if el.txcount == 0 then s.(ackWaitQueue := Spec.Erase(s.ackWaitQueue, i), gaveUp := s.gaveUp + 1)
                       else Spec.Emit(s.(ackWaitQueue := s.ackWaitQueue[i := el']), Spec.Frame(el.data, el.serial))
    {
      hide Stopped;
      hide Spec.Emit;
      var el := ackWaitQueue[i];
      if el.txcount == 0 {
        ackWaitQueue := ackWaitQueue[..i] + ackWaitQueue[i + 1..];
        gaveUp := gaveUp + 1;
      } else {
        ackWaitQueue := ackWaitQueue[i := el.(txcount := el.txcount - 1, stamp := now)];
        Output(Spec.Frame(el.data, el.serial));
      }
    }

    method ReceiveNewLink(nr: nat)
      requires Valid()
      modifies this
      ensures Valid() && Abs() == Spec.ReceiveNewLink(old(Abs()), env, nr)
    {
      hide Stopped;
      hide Spec.SendAck;
      hide Spec.SendReqCon;
      hide Spec.FindReqReq;
      var conFound := false;
      var i := FindReqReq();
      if nr > 3 {
        // may be a link confirm packet
        if i < |ackWaitQueue| {
          conFound := true;
          ConfirmEpoc(i);
        }
      }
      if conFound {
        SendAck();
      } else if nr > 0 {
        AnswerEpoc();
      } else {
        AnswerSibo();
      }
    }

    /** The answer to our link request has come: the request leaves the queue, and EPOC numbers begin. */
    method ConfirmEpoc(i: nat)
      requires Valid() && i < |ackWaitQueue|
      modifies this
      ensures Valid()
      ensures Abs() == Spec.SetLink(old(Abs()).(ackWaitQueue := Spec.Erase(old(ackWaitQueue), i)), Spec.Epoc)
                       .(rxSequence := 0, txSequence := 1)
    {
      hide Stopped;
      ackWaitQueue := ackWaitQueue[..i] + ackWaitQueue[i + 1..];
      SetLink(Spec.Epoc);
      rxSequence := 0;
      txSequence := 1;
    }

    method AnswerEpoc()
      requires Valid()
      modifies this
      ensures Valid()
      ensures Abs() == Spec.SendReqCon(Spec.SetLink(old(Abs()), Spec.Epoc).(rxSequence := 0, txSequence := 0), env)
    {
      hide Stopped;
      hide Spec.SendReqCon;
      rxSequence, txSequence := 0, 0;
      SetLink(Spec.Epoc);
      SendReqCon();
    }

    method AnswerSibo()
      requires Valid()
      modifies this
      ensures Valid()
      ensures var sibo := Spec.SetLink(old(Abs()), Spec.Sibo).(rxSequence := 0, txSequence := 1);
              Abs() == Spec.SendAck(Spec.PurgeAllQueues(sibo))
    {
      hide Stopped;
      hide Spec.SendAck;
      PeerIsSibo();
      SendAck();
    }

    /** SIBO has 3-bit numbers and a window of 1, EPOC 11-bit numbers and a window of 8. */
    method SetLink(t: LinkType)
      requires t != Spec.UnknownLink && xoff.Length == 256
      modifies this`linkType, this`failed, this`seqMask, this`maxOutstanding
      ensures Abs() == Spec.SetLink(old(Abs()), t)
    {
      hide Stopped;
      ghost var stopped := Stopped();
      linkType, failed := t, false;
      seqMask := if t == Spec.Sibo then 7 else 0x7ff;
      maxOutstanding := if t == Spec.Sibo then 1 else 8;
      assert Stopped() == stopped;
    }

    // ---------------------------------------------------------------- timer, reset, purge

    method Retransmit(expired: int)
      requires Valid()
      modifies this
      ensures Valid() && Abs() == Spec.Retransmit(old(Abs()), env, expired)
    {
      hide Stopped;
      hide Spec.EmitAll;
      hide Spec.Retried;
      hide Spec.Resent;
      hide Spec.TimedOut;
      var f := HasFailed();
      if f {
        PurgeAllQueues();
        return;
      }
      var now := GetTimeOfDay();
      var pendingData, timedOut := RetryExpired(expired, now);
      if timedOut {
        failed := true;
      }
      OutputAll(pendingData);
    }

    /** Expired packets are removed when their retries ran out, else re-stamped and collected for sending. */
    method RetryExpired(expired: int, now: int) returns (pendingData: seq<Spec.Frame>, timedOut: bool)
      modifies this`ackWaitQueue
      ensures ackWaitQueue == Spec.Retried(old(ackWaitQueue), expired, now)
      ensures pendingData == Spec.Resent(old(ackWaitQueue), expired)
      ensures timedOut <==> Spec.TimedOut(old(ackWaitQueue), expired)
    {
      hide Spec.Retried;
      hide Spec.Resent;
      hide Spec.TimedOut;
      hide RetryDone;
      pendingData, timedOut := [], false;
      var queue := ackWaitQueue;
      ghost var q0 := queue;
      var i := 0;
      RetryStart(q0, expired, now);
      while i < |queue|
        invariant 0 <= i <= |queue|
        invariant RetryDone(q0, queue, i, pendingData, timedOut, expired, now)
        decreases |queue| - i
      {
        RetryStep(q0, queue, i, pendingData, timedOut, expired, now);
        var el := queue[i];
        if el.stamp < expired {
          if el.txcount == 0 {
            timedOut := true;
            queue := queue[..i] + queue[i + 1..];
          } else {
            queue := queue[i := el.(txcount := el.txcount - 1, stamp := now)];
            pendingData := pendingData + [Spec.Frame(el.data, el.serial)];
            i := i + 1;
          }
        } else {
          i := i + 1;
        }
      }
      RetryEnd(q0, queue, pendingData, timedOut, expired, now);
      ackWaitQueue := queue;
    }

    method OutputAll(frames: seq<Spec.Frame>)
      requires Valid()
      modifies this`line
      ensures Valid() && Abs() == Spec.EmitAll(old(Abs()), frames)
    {
      hide Stopped;
      ghost var goal := Spec.EmitAll(Abs(), frames);
      for i := 0 to |frames|
        invariant Valid() && Spec.EmitAll(Abs(), frames[i..]) == goal
      {
        assert frames[i..][1..] == frames[i + 1..];
        Output(frames[i]);
      }
    }

    method PurgeQueue(channel: byte)
      requires Valid()
      modifies this`ackWaitQueue, this`holdQueue
      ensures Valid() && Abs() == Spec.PurgeQueue(old(Abs()), env, channel)
    {
      hide Stopped;
      hide Spec.WithoutFirstByte;
      hide Spec.ForChannel;
      PurgeAwaiting(channel);
      var purged := MoveHeld(channel);
    }

    method PurgeAwaiting(channel: byte)
      modifies this`ackWaitQueue
      ensures ackWaitQueue == Spec.WithoutFirstByte(old(ackWaitQueue), channel, env.stale)
    {
      ghost var stale := env.stale;
      var i := 0;
      ghost var q0 := ackWaitQueue;
      while i < |ackWaitQueue|
        invariant 0 <= i <= |ackWaitQueue|
        invariant ackWaitQueue[..i] + Spec.WithoutFirstByte(ackWaitQueue[i..], channel, stale)
               == Spec.WithoutFirstByte(q0, channel, stale)
        decreases |ackWaitQueue| - i
      {
        WithoutOne(ackWaitQueue, i, channel, stale);
        if ByteAt(ackWaitQueue[i].data, 0, env.stale) == channel {
          ackWaitQueue := ackWaitQueue[..i] + ackWaitQueue[i + 1..];
        } else {
          i := i + 1;
        }
      }
      assert ackWaitQueue[i..] == [] && ackWaitQueue[..i] == ackWaitQueue;
    }

    method Reset()
      requires xoff.Length == 256
      modifies this, xoff
      ensures Valid() && Abs() == Spec.Reset(old(Abs()), env)
    {
      hide Stopped;
      hide Spec.SendReqReq;
      AllOn();
      Clear();
      SendReqReq();
    }

    method Clear()
      requires xoff.Length == 256 && Stopped() == {}
      modifies this
      ensures Valid() && Abs() == Spec.Cleared(old(Abs()))
    {
      hide Stopped;
      ClearModes();
      PurgeAllQueues();
    }

    method ClearModes()
      requires xoff.Length == 256
      modifies this`txSequence, this`rxSequence, this`failed, this`seqMask, this`maxOutstanding, this`linkType
      ensures Valid()
      ensures Abs() == old(Abs()).(txSequence := 1, rxSequence := -1, failed := false, seqMask := 7,
                                   maxOutstanding := 1, linkType := Spec.UnknownLink)
    {
      hide Stopped;
      ghost var stopped := Stopped();
      txSequence, rxSequence, failed, seqMask := 1, -1, false, 7;
      maxOutstanding, linkType := 1, Spec.UnknownLink;
      assert Stopped() == stopped;
    }

    /** No channel is stopped any more. */
    method AllOn()
      requires xoff.Length == 256
      modifies xoff
      ensures Stopped() == {} && Abs() == old(Abs()).(xoff := {})
    {
      for i := 0 to 256
        invariant forall c :: 0 <= c < i ==> !xoff[c]
      {
        xoff[i] := false;
      }
      assert Stopped() == {};
    }

    /** Packets are waiting for an acknowledgement on a link that has not failed. */
    method StuffToSend() returns (result: bool)
      requires Valid()
      ensures result <==> !Abs().failed && Abs().ackWaitQueue != []
    {
      result := !failed && |ackWaitQueue| != 0;
    }
  }

  /** Some packets of the queue q0 have been taken, some kept, and the rest is still to be looked at. */
  ghost predicate Moved(q0: seq<seq<byte>>, kept: seq<seq<byte>>, taken: seq<seq<byte>>, rest: seq<seq<byte>>,
                        channel: byte, stale: byte)
  {
    && taken + Spec.ForChannel(rest, channel, stale, true) == Spec.ForChannel(q0, channel, stale, true)
    && kept + Spec.ForChannel(rest, channel, stale, false) == Spec.ForChannel(q0, channel, stale, false)
  }

  lemma MovedNext(q0: seq<seq<byte>>, q: seq<seq<byte>>, i: nat, taken: seq<seq<byte>>, channel: byte, stale: byte)
    requires i < |q| && Moved(q0, q[..i], taken, q[i..], channel, stale)
    ensures if ByteAt(q[i], 0, stale) == channel
            then Moved(q0, q[..i], taken + [q[i]], q[i + 1..], channel, stale)
            else Moved(q0, q[..i + 1], taken, q[i + 1..], channel, stale)
  {
    hide ByteAt;
    var yes := Spec.ForChannel(q[i + 1..], channel, stale, true);
    var no := Spec.ForChannel(q[i + 1..], channel, stale, false);
    assert q[i..][1..] == q[i + 1..] && q[i..][0] == q[i];
    if ByteAt(q[i], 0, stale) == channel {
      assert Spec.ForChannel(q[i..], channel, stale, true) == [q[i]] + yes;
      assert Spec.ForChannel(q[i..], channel, stale, false) == [] + no == no;
      hide Spec.ForChannel;
      assert taken + [q[i]] + yes == taken + ([q[i]] + yes);
    } else {
      assert Spec.ForChannel(q[i..], channel, stale, true) == [] + yes == yes;
      assert Spec.ForChannel(q[i..], channel, stale, false) == [q[i]] + no;
      hide Spec.ForChannel;
      assert q[..i + 1] + no == q[..i] + ([q[i]] + no);
    }
  }

  /** The timer has handled the first i elements of what is left of the queue q0. */
  ghost predicate RetryDone(q0: seq<Element>, queue: seq<Element>, i: nat, pending: seq<Spec.Frame>, timedOut: bool,
                            expired: int, now: int)
    requires i <= |queue|
  {
    && Spec.Retried(q0, expired, now) == queue[..i] + Spec.Retried(queue[i..], expired, now)
    && Spec.Resent(q0, expired) == pending + Spec.Resent(queue[i..], expired)
    && Spec.TimedOut(q0, expired) == (timedOut || Spec.TimedOut(queue[i..], expired))
  }

  lemma RetryStart(q0: seq<Element>, expired: int, now: int)
    ensures RetryDone(q0, q0, 0, [], false, expired, now)
  {
    assert q0[0..] == q0;
  }

  lemma RetryEnd(q0: seq<Element>, queue: seq<Element>, pending: seq<Spec.Frame>, timedOut: bool, expired: int,
                 now: int)
    requires RetryDone(q0, queue, |queue|, pending, timedOut, expired, now)
    ensures queue == Spec.Retried(q0, expired, now) && pending == Spec.Resent(q0, expired)
    ensures timedOut == Spec.TimedOut(q0, expired)
  {
    assert queue[|queue|..] == [] && queue[..|queue|] == queue;
  }

  /** The header of an acknowledgement as `sendAck` puts it together. */
  lemma AckBytes(nr: int)
    requires -1 <= nr <= MAX_SEQ
    ensures var word := nr / 8 * 256 + (nr % 8 + 8);
            AckFrame(nr) == if nr > 7 then [word % 256, word / 256 % 256] + [] else [nr % 256] + []
  {
  }

  /** The element at i goes or stays. */
  lemma WithoutOne(q: seq<Element>, i: nat, channel: int, stale: byte)
    requires i < |q|
    ensures var out := Spec.WithoutFirstByte(q[i..], channel, stale);
            var rest := Spec.WithoutFirstByte(q[i + 1..], channel, stale);
            var q' := q[..i] + q[i + 1..];
            if ByteAt(q[i].data, 0, stale) == channel
            then q'[..i] + Spec.WithoutFirstByte(q'[i..], channel, stale) == q[..i] + out
            else q[..i + 1] + rest == q[..i] + out
  {
    var x, t := q[i], q[i + 1..];
    assert q[i..] == [x] + t && ([x] + t)[1..] == t;
    var rest := Spec.WithoutFirstByte(t, channel, stale);
    assert Spec.WithoutFirstByte([x] + t, channel, stale)
        == (if ByteAt(x.data, 0, stale) == channel then [] else [x]) + rest;
    hide *;
    if ByteAt(x.data, 0, stale) == channel {
      assert (q[..i] + t)[..i] == q[..i] && (q[..i] + t)[i..] == t && [] + rest == rest;
    } else {
      assert q[..i + 1] == q[..i] + [x];
      Regrouped(q[..i], [x], rest);
    }
  }

  lemma RetryStep(q0: seq<Element>, queue: seq<Element>, i: nat, pending: seq<Spec.Frame>, timedOut: bool,
                  expired: int, now: int)
    requires i < |queue| && RetryDone(q0, queue, i, pending, timedOut, expired, now)
    ensures var el := queue[i];
            if el.stamp >= expired then RetryDone(q0, queue, i + 1, pending, timedOut, expired, now)
            else if el.txcount == 0 then
              RetryDone(q0, queue[..i] + queue[i + 1..], i, pending, true, expired, now)
            else
              RetryDone(q0, queue[i := el.(txcount := el.txcount - 1, stamp := now)], i + 1,
                        pending + [Spec.Frame(el.data, el.serial)], timedOut, expired, now)
  {
    var el, t := queue[i], queue[i + 1..];
    assert queue[i..] == [el] + t && queue[i..][1..] == t;
    var r, f := Spec.Retried(t, expired, now), Spec.Resent(t, expired);
    RetryFirst(el, t, expired, now);
    hide Spec.Retried;
    hide Spec.Resent;
    hide Spec.TimedOut;
    if el.stamp >= expired {
      assert queue[..i + 1] == queue[..i] + [el];
      Regrouped(queue[..i], [el], r);
      assert [] + f == f;
    } else if el.txcount == 0 {
      var queue' := queue[..i] + t;
      assert queue'[..i] == queue[..i] && queue'[i..] == t && [] + r == r && [] + f == f;
    } else {
      var el' := el.(txcount := el.txcount - 1, stamp := now);
      var queue' := queue[i := el'];
      assert queue'[..i + 1] == queue[..i] + [el'] && queue'[i + 1..] == t;
      Regrouped(queue[..i], [el'], r);
      Regrouped(pending, [Spec.Frame(el.data, el.serial)], f);
    }
  }

  lemma RetryFirst(el: Element, t: seq<Element>, expired: int, now: int)
    ensures Spec.Retried([el] + t, expired, now) == Spec.Surviving(el, expired, now) + Spec.Retried(t, expired, now)
    ensures Spec.Resent([el] + t, expired)
         == (if el.stamp < expired && el.txcount != 0 then [Spec.Frame(el.data, el.serial)] else [])
            + Spec.Resent(t, expired)
    ensures Spec.TimedOut([el] + t, expired) == ((el.stamp < expired && el.txcount == 0) || Spec.TimedOut(t, expired))
  {
    assert ([el] + t)[1..] == t;
  }
}
