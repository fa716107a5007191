/**
 * What single frames, calls and timers do to a link (lib/link.cc), byte for byte: the frames of the wire are given
 * by their bytes here.  And the handshake with a SIBO machine, after which the first packet of each side arrives.
 */
module LinkEvents {
  import opened Bytes
  import opened Packets
  import opened LinkSpec
  import opened LinkModes
  import opened LinkQueues
  import opened LinkLimits
  import opened Stack

  // ---------------------------------------------------------------- the start

  /** A new link asks for a connection, and knows nothing of its peer. */
  lemma NewLinkAsks(e: Env)
    ensures var s := Initial(e);
            && Asking(s) && s.linkType == UnknownLink && s.seqMask == 7 && s.maxOutstanding == 1
            && s.txSequence == 1 && s.rxSequence == -1
            && s.ackWaitQueue == [Element(0, 4, e.clock(0), [0x21], 0)] && s.line == [Sent([0x21], false, 0)]
  {
  }

  /** So does a link that is reset, if its line is up; only the packets that wait are still there. */
  lemma ResetAsks(s: State, e: Env)
    ensures var s', r := Reset(s, e), |s.queued|;
            && s'.linkType == UnknownLink && s'.seqMask == 7 && s'.maxOutstanding == 1
            && s'.txSequence == 1 && s'.rxSequence == -1 && s'.failed == s.lineDown
            && s'.xoff == {} && s'.holdQueue == [] && s'.waitQueue == s.waitQueue
            && s'.ackWaitQueue == (if s.lineDown then [] else [Element(0, 4, e.clock(s.readings), [0x21], r)])
            && s'.line == s.line + (if s.lineDown then [] else [Sent([0x21], false, r)])
  {
    assert s.line + [] == s.line;
  }

  // ---------------------------------------------------------------- the handshake

  /** The link is in SIBO mode from the start of a session. */
  function SiboMode(s: State): State {
    s.(linkType := Sibo, seqMask := 7, maxOutstanding := 1, failed := false, rxSequence := 0, txSequence := 1)
  }

  /** The request of a SIBO machine: its mode, empty queues, and acknowledgement 0. */
  lemma SiboRequest(w: State, e: Env, rest: seq<byte>)
    requires Sane(w)
    ensures var w1 := SiboMode(w).(ackWaitQueue := [], holdQueue := []);
            Receive(w, e, [0x20] + rest)
            == (if w.lineDown then w1.(failed := true) else w1.(line := w.line + [Sent([0], false, ACK)]))
  {
    assert Decode([0x20] + rest, e.stale) == NewLink(0);
    assert AckFrame(0) == [0];
    hide Decode;
    hide AckFrame;
  }

  /** The request of an EPOC machine, or one that answers no request of ours: its mode, and our confirmation. */
  lemma EpocRequest(w: State, e: Env, n: nat, rest: seq<byte>)
    requires Sane(w) && 1 <= n <= 7
    requires n > 3 ==> forall el :: el in w.ackWaitQueue ==> !(el.seqNr == 0 && ByteAt(el.data, 0, e.stale) == 0x21)
    ensures var r, con := |w.queued|, [0x24] + e.magic;
            var w1 := w.(linkType := Epoc, seqMask := 0x7ff, maxOutstanding := 8, failed := false,
                         rxSequence := 0, txSequence := 0);
            Receive(w, e, [0x20 + n] + rest)
            == (if w.lineDown then w1.(failed := true)
                else w1.(ackWaitQueue := w.ackWaitQueue + [Element(0, 4, e.clock(w.readings), con, r)],
                         readings := w.readings + 1, queued := w.queued + [con],
                         line := w.line + [Sent(con, true, r)]))
  {
    assert Decode([0x20 + n] + rest, e.stale) == NewLink(n);
    hide Decode;
    if n > 3 {
      NoRequestQueued(w.ackWaitQueue, e.stale);
    }
    hide FindReqReq;
  }

  lemma {:induction false} NoRequestQueued(q: seq<Element>, stale: byte)
    requires forall el :: el in q ==> !(el.seqNr == 0 && ByteAt(el.data, 0, stale) == 0x21)
    ensures FindReqReq(q, stale) == |q|
    decreases |q|
  {
    if q != [] {
      assert q[0] in q;
      hide ByteAt;
      NoRequestQueued(q[1..], stale);
    }
  }

  lemma {:induction false} RequestAt(pre: seq<Element>, x: Element, tail: seq<Element>, stale: byte)
    requires x.seqNr == 0 && ByteAt(x.data, 0, stale) == 0x21
    requires forall el :: el in pre ==> !(el.seqNr == 0 && ByteAt(el.data, 0, stale) == 0x21)
    ensures FindReqReq(pre + [x] + tail, stale) == |pre| && Erase(pre + [x] + tail, |pre|) == pre + tail
    decreases |pre|
  {
    var q := pre + [x] + tail;
    hide ByteAt;
    if pre == [] {
      assert q[0] == x;
    } else {
      RequestAt(pre[1..], x, tail, stale);
      assert q[0] == pre[0] && pre[0] in pre && q[1..] == pre[1..] + [x] + tail;
    }
  }

  /** The confirmation of our request, wherever it is queued: EPOC mode, and acknowledgement 0. */
  lemma Confirmed(s: State, e: Env, n: nat, rest: seq<byte>, pre: seq<Element>, x: Element, tail: seq<Element>)
    requires Sane(s) && 4 <= n <= 7 && s.ackWaitQueue == pre + [x] + tail
    requires x.seqNr == 0 && ByteAt(x.data, 0, e.stale) == 0x21
    requires forall el :: el in pre ==> !(el.seqNr == 0 && ByteAt(el.data, 0, e.stale) == 0x21)
    ensures var s1 := s.(linkType := Epoc, seqMask := 0x7ff, maxOutstanding := 8, failed := false,
                         rxSequence := 0, txSequence := 1, ackWaitQueue := pre + tail);
            Receive(s, e, [0x20 + n] + rest)
            == (if s.lineDown then s1.(failed := true) else s1.(line := s.line + [Sent([0], true, ACK)]))
  {
    assert Decode([0x20 + n] + rest, e.stale) == NewLink(n);
    assert AckFrame(0) == [0];
    RequestAt(pre, x, tail, e.stale);
    hide Decode;
    hide AckFrame;
    hide FindReqReq;
    hide Erase;
    hide ByteAt;
  }

  /** Acknowledgement 0 while the peer is unknown: it is a SIBO machine.  What waited is transmitted. */
  lemma SiboFound(s: State, e: Env, rest: seq<byte>, i: nat)
    requires Sane(s) && s.linkType == UnknownLink && i < |s.ackWaitQueue| && s.ackWaitQueue[i].seqNr == 0
    ensures Receive(s, e, [0] + rest) == TransmitWaitQueue(SiboMode(s).(ackWaitQueue := [], holdQueue := []), e)
  {
    assert Decode([0] + rest, e.stale) == Ack(0);
    var j := Find(s.ackWaitQueue, 0);
    assert j <= i;
    assert NotOlder([], s.ackWaitQueue[j].stamp) == [];
    hide Decode;
    hide Find;
    hide Erase;
    hide NotOlder;
    hide TransmitWaitQueue;
  }

  /** In a session an acknowledgement does not touch mode and receive number. */
  lemma AckKeepsMode(s: State, e: Env, number: nat)
    requires Sane(s) && s.linkType != UnknownLink
    ensures var s' := ReceiveAck(s, e, number);
            && s'.linkType == s.linkType && s'.seqMask == s.seqMask && s'.maxOutstanding == s.maxOutstanding
            && s'.rxSequence == s.rxSequence
  {
    var i := Find(s.ackWaitQueue, number);
    hide Find;
    hide TransmitAll;
    hide NotOlder;
    hide Erase;
    if i < |s.ackWaitQueue| {
      TransmitAllMode(AckFound(s, i).(waitQueue := []), e, s.waitQueue);
    }
  }

  lemma {:induction false} TransmitAllMode(s: State, e: Env, bufs: seq<seq<byte>>)
    requires Sane(s)
    ensures var s' := TransmitAll(s, e, bufs);
            && s'.linkType == s.linkType && s'.seqMask == s.seqMask && s'.maxOutstanding == s.maxOutstanding
            && s'.rxSequence == s.rxSequence
    decreases |bufs|
  {
    if bufs != [] {
      TransmitAllMode(Transmit(s, e, bufs[0]), e, bufs[1..]);
    }
  }

  /**
   * A link that asks, and one that a SIBO machine asks, with nothing pending: the answer of the second tells the
   * first that its peer speaks SIBO, and both are in step, in both directions.
   */
  lemma SiboHandshake(i: State, w: State, ei: Env, ew: Env)
    requires Asking(i) && i.linkType == UnknownLink && Quiet(w)
    ensures var w1 := Receive(w, ew, [0x20]);
            var i1 := Receive(i, ei, LastFrame(w1));
            && LastFrame(w1) == [0]
            && w1.linkType == Sibo == i1.linkType && w1.seqMask == 7 == i1.seqMask
            && w1.maxOutstanding == 1 == i1.maxOutstanding
            && w1.txSequence == 1 == i1.txSequence && w1.rxSequence == 0 == i1.rxSequence
            && InStep(i1, w1) && InStep(w1, i1)
  {
    assert [0x20] + [] == [0x20] && [0] + [] == [0];
    SiboRequest(w, ew, []);
    SiboFound(i, ei, [], 0);
    hide Receive;
  }

  /** So a first packet from each side arrives, and is acknowledged. */
  lemma SiboFirstPackets(i: State, w: State, ei: Env, ew: Env, buf: seq<byte>, answer: seq<byte>)
    requires Asking(i) && i.linkType == UnknownLink && Quiet(w) && Ordinary(buf) && Ordinary(answer)
    ensures var w1 := Receive(w, ew, [0x20]);
            var i1 := Receive(i, ei, LastFrame(w1));
            var there := Exchange(i1, w1, ei, ew, buf);
            var back := Exchange(there.1, there.0, ew, ei, answer);
            && there.1.ncp == w1.ncp + [buf] && back.1.ncp == i1.ncp + [answer]
            && InStep(back.1, back.0) && InStep(back.0, back.1)
  {
    hide Ordinary;
    SiboHandshake(i, w, ei, ew);
    var w1 := Receive(w, ew, [0x20]);
    var i1 := Receive(i, ei, LastFrame(w1));
    hide *;
    BothWays(i1, w1, ei, ew, buf);
    var there := Exchange(i1, w1, ei, ew, buf);
    BothWays(there.1, there.0, ew, ei, answer);
  }

  /** An exchange one way leaves the other way as it was. */
  lemma BothWays(a: State, b: State, ea: Env, eb: Env, buf: seq<byte>)
    requires InStep(a, b) && InStep(b, a) && Ordinary(buf)
    ensures var r := Exchange(a, b, ea, eb, buf);
            && InStep(r.0, r.1) && InStep(r.1, r.0) && r.1.ncp == b.ncp + [buf] && r.0.ncp == a.ncp
  {
    hide *;
    InStepMeans(a, b);
    InStepMeans(b, a);
    ExchangeWorks(a, b, ea, eb, buf);
    ExchangeIs(a, b, ea, eb, buf);
    SentOther(a, ea, buf);
    TakenOther(b, eb, a.txSequence, buf);
    StillOther(b, a, Receive(b, eb, DataFrame(a.txSequence, buf)), Send(a, ea, buf).(ackWaitQueue := []));
  }

  lemma SentOther(a: State, e: Env, buf: seq<byte>)
    requires CanSend(a) && CanTake(a) && Ordinary(buf)
    ensures var a' := Send(a, e, buf).(ackWaitQueue := []);
            && CanTake(a') && a'.rxSequence == a.rxSequence && a'.ncp == a.ncp
            && a'.linkType == a.linkType && a'.seqMask == a.seqMask
  {
    SendNow(a, e, buf);
    hide Send;
    hide Masked;
    hide Since;
    hide DataFrame;
  }

  lemma TakenOther(b: State, e: Env, number: nat, buf: seq<byte>)
    requires CanSend(b) && CanTake(b) && Ordinary(buf) && number == Masked(b.rxSequence + 1, b.seqMask)
    requires number <= MAX_SEQ
    ensures var b' := Receive(b, e, DataFrame(number, buf));
            && CanSend(b') && b'.txSequence == b.txSequence && b'.linkType == b.linkType && b'.seqMask == b.seqMask
  {
    ReceiveNow(b, e, number, buf);
    hide Receive;
    hide Since;
    hide DataFrame;
    hide AckFrame;
  }

  lemma StillOther(b: State, a: State, b': State, a': State)
    requires InStep(b, a) && CanSend(b') && CanTake(a')
    requires b'.txSequence == b.txSequence && b'.linkType == b.linkType && b'.seqMask == b.seqMask
    requires a'.rxSequence == a.rxSequence && a'.linkType == a.linkType && a'.seqMask == a.seqMask
    ensures InStep(b', a')
  {
    hide CanSend;
    hide CanTake;
    hide Masked;
  }

  // ---------------------------------------------------------------- other frames

  /** A disconnect fails the link, and a frame of unknown type does nothing. */
  lemma OtherFrames(s: State, e: Env, f: seq<byte>)
    requires Sane(s) && f != []
    ensures 0x10 <= f[0] < 0x20 ==> Receive(s, e, f) == s.(failed := true)
    ensures f[0] >= 0x40 ==> Receive(s, e, f) == s
  {
  }

  /** An unmatched acknowledgement sends the packet after it again, with a new stamp, or gives it up. */
  lemma SentAgain(s: State, e: Env, number: nat, pre: seq<Element>, x: Element, tail: seq<Element>)
    requires Sane(s) && s.ackWaitQueue == pre + [x] + tail && x.seqNr == number + 1
    requires forall el :: el in s.ackWaitQueue ==> el.seqNr != number
    requires forall el :: el in pre ==> el.seqNr != number + 1
    ensures var s', x' := ReceiveAck(s, e, number), x.(txcount := x.txcount - 1, stamp := e.clock(s.readings));
            s' == if x.txcount == 0 then
                    s.(readings := s.readings + 1, ackWaitQueue := pre + tail, gaveUp := s.gaveUp + 1)
                  else
                    s.(readings := s.readings + 1, ackWaitQueue := pre + [x'] + tail,
                       line := s.line + [Sent(x.data, s.linkType == Epoc, x.serial)])
  {
    var q, x' := s.ackWaitQueue, x.(txcount := x.txcount - 1, stamp := e.clock(s.readings));
    NoneFound(q, number);
    FirstFound(pre, x, tail, number + 1);
    hide Find;
    assert q[|pre|] == x && q[|pre| := x'] == pre + [x'] + tail && Erase(q, |pre|) == pre + tail;
    hide Erase;
  }

  lemma {:induction false} NoneFound(q: seq<Element>, number: nat)
    requires forall el :: el in q ==> el.seqNr != number
    ensures Find(q, number) == |q|
    decreases |q|
  {
    if q != [] {
      assert q[0] in q;
      NoneFound(q[1..], number);
    }
  }

  lemma {:induction false} FirstFound(pre: seq<Element>, x: Element, tail: seq<Element>, number: nat)
    requires x.seqNr == number && forall el :: el in pre ==> el.seqNr != number
    ensures Find(pre + [x] + tail, number) == |pre|
    decreases |pre|
  {
    var q := pre + [x] + tail;
    if pre == [] {
      assert q[0] == x;
    } else {
      FirstFound(pre[1..], x, tail, number);
      assert q[0] == pre[0] && pre[0] in pre && q[1..] == pre[1..] + [x] + tail;
    }
  }

  /**
   * XON on a link that is up: the channel is let go, and its held packets leave the hold queue; the first of them
   * that the window admits are numbered, the others wait, behind what waits already.
   */
  lemma LetGo(s: State, e: Env, c: byte)
    requires Sane(s) && !s.failed && !s.lineDown
    ensures var number := Masked(s.rxSequence + 1, s.seqMask);
            var s', mine := ReceiveData(s, e, number, [0, c, 2]), ForChannel(s.holdQueue, c, e.stale, true);
            var k := Admitted(s, |mine|);
            && !s'.failed && s'.xoff == s.xoff - {c} && s'.holdQueue == ForChannel(s.holdQueue, c, e.stale, false)
            && PayloadsOf(s'.numbered) == PayloadsOf(s.numbered) + mine[..k]
            && s'.waitQueue == s.waitQueue + mine[k..]
            && s'.ncp == s.ncp
  {
    var number := Masked(s.rxSequence + 1, s.seqMask);
    var s1 := SendAck(s.(rxSequence := number, accepted := s.accepted + [[0, c, 2]]));
    var s2 := s1.(xoff := s1.xoff - {c});
    hide ForChannel;
    hide TransmitAll;
    hide PayloadsOf;
    hide AckFrame;
    HoldQueueAdmits(s2, e, c);
    LetGoNcp(s2, e, c);
  }

  lemma LetGoNcp(s: State, e: Env, c: byte)
    requires Sane(s)
    ensures TransmitHoldQueue(s, e, c).ncp == s.ncp
  {
    TransmitAllNcp(s.(holdQueue := ForChannel(s.holdQueue, c, e.stale, false)), e,
                   ForChannel(s.holdQueue, c, e.stale, true));
    hide TransmitAll;
    hide ForChannel;
  }

  lemma {:induction false} TransmitAllNcp(s: State, e: Env, bufs: seq<seq<byte>>)
    requires Sane(s)
    ensures TransmitAll(s, e, bufs).ncp == s.ncp
    decreases |bufs|
  {
    if bufs != [] {
      TransmitAllNcp(Transmit(s, e, bufs[0]), e, bufs[1..]);
    }
  }

  /** Purging a channel keeps exactly the held packets and the unacknowledged frames with another first byte. */
  lemma Purged(s: State, e: Env, c: byte)
    ensures var s' := PurgeQueue(s, e, c);
            && s' == s.(ackWaitQueue := s'.ackWaitQueue, holdQueue := s'.holdQueue)
            && (forall buf :: buf in s'.holdQueue <==> buf in s.holdQueue && ByteAt(buf, 0, e.stale) != c)
            && (forall x :: x in s'.ackWaitQueue <==> x in s.ackWaitQueue && ByteAt(x.data, 0, e.stale) != c)
  {
    hide ByteAt;
    forall buf ensures buf in ForChannel(s.holdQueue, c, e.stale, false)
                       <==> buf in s.holdQueue && ByteAt(buf, 0, e.stale) != c {
      HeldPurged(s.holdQueue, c, e.stale, buf);
    }
    forall x ensures x in WithoutFirstByte(s.ackWaitQueue, c, e.stale)
                     <==> x in s.ackWaitQueue && ByteAt(x.data, 0, e.stale) != c {
      SentPurged(s.ackWaitQueue, c, e.stale, x);
    }
    hide ForChannel;
    hide WithoutFirstByte;
  }

  lemma {:induction false} HeldPurged(q: seq<seq<byte>>, c: byte, stale: byte, buf: seq<byte>)
    ensures buf in ForChannel(q, c, stale, false) <==> buf in q && ByteAt(buf, 0, stale) != c
    decreases |q|
  {
    if q != [] {
      hide ByteAt;
      HeldPurged(q[1..], c, stale, buf);
      FirstOrRest(q);
    }
  }

  lemma {:induction false} SentPurged(q: seq<Element>, c: byte, stale: byte, x: Element)
    ensures x in WithoutFirstByte(q, c, stale) <==> x in q && ByteAt(x.data, 0, stale) != c
    decreases |q|
  {
    if q != [] {
      hide ByteAt;
      SentPurged(q[1..], c, stale, x);
      FirstOrRest(q);
    }
  }

  // ---------------------------------------------------------------- sending

  /** An empty buffer becomes a request with the low byte of 32 plus its number, and four retries. */
  lemma EmptyBuffer(s: State, e: Env)
    requires Sane(s) && !s.failed && !s.lineDown && e.stale !in s.xoff && |s.ackWaitQueue| < s.maxOutstanding
    ensures var s', n := Send(s, e, []), s.txSequence;
            && s'.txSequence == (n + 1) % (s.seqMask + 1)
            && s'.ackWaitQueue
               == s.ackWaitQueue + [Element(n, 4, e.clock(s.readings), [(32 + n) % 256], |s.queued|)]
            && s'.line == s.line + [Sent([(32 + n) % 256], s.linkType == Epoc, |s.queued|)]
  {
  }

  /** Sending fails a link exactly when it or its line has failed, or the packet is longer than 300 bytes. */
  lemma SendFails(s: State, e: Env, buf: seq<byte>)
    requires Sane(s)
    ensures Send(s, e, buf).failed <==> s.failed || s.lineDown || |buf| > 300
    ensures Send(s, e, buf).failed ==> Send(s, e, buf) == s.(failed := true)
  {
    hide DataFrame;
    hide RequestFrame;
  }

  /** A failed link, or one whose line has failed, sends nothing on a call, a timer or a data packet. */
  lemma SilentWhenDown(s: State, e: Env, op: Op)
    requires Sane(s) && (s.failed || s.lineDown)
    requires op.Submit? || op.Timer? || (op.Arrive? && Decode(op.frame, e.stale).Data?)
    ensures Apply(s, e, op).line == s.line && (op.Submit? || op.Timer? ==> Apply(s, e, op).failed)
    ensures op.Timer? ==> Apply(s, e, op) == s.(failed := true, ackWaitQueue := [], holdQueue := [])
  {
    match op {
      case Submit(_) =>
      case Timer(_) =>
      case Arrive(f) =>
        hide Decode;
        var p := Decode(f, e.stale);
        SilentData(s, e, p.number, p.payload);
        hide ReceiveData;
      case _ =>
    }
  }

  lemma SilentData(s: State, e: Env, number: nat, payload: seq<byte>)
    requires Sane(s) && (s.failed || s.lineDown)
    ensures ReceiveData(s, e, number, payload).line == s.line
  {
    var s1 := SendAck(s.(rxSequence := Masked(s.rxSequence + 1, s.seqMask), accepted := s.accepted + [payload]));
    if |payload| == 3 {
      var s2 := s1.(xoff := s1.xoff - {payload[1]});
      SilentAll(s2.(holdQueue := ForChannel(s2.holdQueue, payload[1], e.stale, false)), e,
                ForChannel(s2.holdQueue, payload[1], e.stale, true));
    }
    hide TransmitAll;
    hide ForChannel;
  }

  lemma {:induction false} SilentAll(s: State, e: Env, bufs: seq<seq<byte>>)
    requires Sane(s) && (s.failed || s.lineDown)
    ensures TransmitAll(s, e, bufs).line == s.line
    decreases |bufs|
  {
    if bufs != [] {
      SilentAll(Transmit(s, e, bufs[0]), e, bufs[1..]);
    }
  }

  // ---------------------------------------------------------------- the timer

  /** What becomes of an element. */
  predicate Left(x: Element, y: Element, expired: int, now: int) {
    if x.stamp >= expired then y == x else x.txcount != 0 && y == x.(txcount := x.txcount - 1, stamp := now)
  }

  predicate Repeats(x: Element, f: Sent, expired: int, isEPOC: bool) {
    x.stamp < expired && x.txcount != 0 && f == Sent(x.data, isEPOC, x.serial)
  }

  /**
   * The timer on a link that is up: it fails the link exactly when a packet has expired without retries left; it
   * sends exactly the expired packets with retries, and each of them is queued with the time and one retry less.
   */
  lemma TimerDecides(s: State, e: Env, expired: int) returns (sent: seq<Sent>)
    requires !s.failed && !s.lineDown
    ensures var s', q, now := Retransmit(s, e, expired), s.ackWaitQueue, e.clock(s.readings);
            && (s'.failed <==> exists x :: x in q && x.stamp < expired && x.txcount == 0)
            && s'.line == s.line + sent
            && (forall f :: f in sent <==> exists x :: x in q && Repeats(x, f, expired, s.linkType == Epoc))
            && (forall y :: y in s'.ackWaitQueue <==> exists x :: x in q && Left(x, y, expired, now))
  {
    var q, now, isEPOC := s.ackWaitQueue, e.clock(s.readings), s.linkType == Epoc;
    var s1 := s.(readings := s.readings + 1, failed := TimedOut(q, expired), ackWaitQueue := Retried(q, expired, now));
    sent := SentAll(s1, Resent(q, expired));
    assert HasFailed(s) == s;
    hide EmitAll;
    ExpiredAndOut(q, expired);
    forall f ensures f in sent <==> exists x :: x in q && Repeats(x, f, expired, isEPOC) {
      ResentAre(q, expired, f, isEPOC);
      hide Resent;
    }
    forall y ensures y in Retried(q, expired, now) <==> exists x :: x in q && Left(x, y, expired, now) {
      RetriedAre(q, expired, now, y);
    }
    hide Retried;
    hide TimedOut;
    hide Left;
    hide Repeats;
  }

  lemma {:induction false} SentAll(s: State, frames: seq<Frame>) returns (sent: seq<Sent>)
    ensures EmitAll(s, frames) == s.(line := s.line + sent)
    ensures forall f :: f in sent <==> f.isEPOC == (s.linkType == Epoc) && Frame(f.data, f.serial) in frames
    decreases |frames|
  {
    if frames == [] {
      sent := [];
      assert s.line + [] == s.line;
    } else {
      var x, rest := frames[0], frames[1..];
      var more := SentAll(Emit(s, x), rest);
      var first := Sent(x.data, s.linkType == Epoc, x.serial);
      sent := [first] + more;
      assert frames == [x] + rest;
      assert s.line + [first] + more == s.line + sent;
      hide EmitAll;
    }
  }

  lemma {:induction false} ExpiredAndOut(q: seq<Element>, expired: int)
    ensures TimedOut(q, expired) <==> exists x :: x in q && x.stamp < expired && x.txcount == 0
    decreases |q|
  {
    if q != [] {
      assert q == [q[0]] + q[1..];
      ExpiredAndOut(q[1..], expired);
    }
  }

  lemma {:induction false} ResentAre(q: seq<Element>, expired: int, f: Sent, isEPOC: bool)
    ensures f.isEPOC == isEPOC && Frame(f.data, f.serial) in Resent(q, expired)
            <==> exists x :: x in q && Repeats(x, f, expired, isEPOC)
    decreases |q|
  {
    if q != [] {
      var x, rest, g := q[0], q[1..], Frame(f.data, f.serial);
      ResentAre(rest, expired, f, isEPOC);
      FirstOrRest(q);
      assert Repeats(x, f, expired, isEPOC)
        <==> f.isEPOC == isEPOC && x.stamp < expired && x.txcount != 0 && g == Frame(x.data, x.serial);
      assert g in Resent(q, expired)
        <==> (x.stamp < expired && x.txcount != 0 && g == Frame(x.data, x.serial)) || g in Resent(rest, expired);
      hide Resent;
      hide Repeats;
    }
  }

  lemma FirstOrRest<T>(q: seq<T>)
    requires q != []
    ensures forall x :: x in q <==> x == q[0] || x in q[1..]
  {
    assert q == [q[0]] + q[1..];
  }

  lemma {:induction false} RetriedAre(q: seq<Element>, expired: int, now: int, y: Element)
    ensures y in Retried(q, expired, now) <==> exists x :: x in q && Left(x, y, expired, now)
    decreases |q|
  {
    if q != [] {
      RetriedAre(q[1..], expired, now, y);
      FirstOrRest(q);
      assert y in Retried(q, expired, now) <==> Left(q[0], y, expired, now) || y in Retried(q[1..], expired, now);
      hide Retried;
      hide Left;
    }
  }
}
