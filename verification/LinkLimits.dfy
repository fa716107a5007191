/**
 * Where the link (lib/link.cc) does not do what one would expect, and exactly when it does: the
 * acknowledgement by time stamp, the packet given up silently, flow control against the wait queue
 * (when that keeps a channel's order is in LinkChannels), the first packet after answering a handshake,
 * and the purge of one channel.
 */
module LinkLimits {
  import opened Bytes
  import opened Packets
  import opened LinkSpec
  import opened LinkQueues
  import opened Network

  // ---------------------------------------------------------------- acknowledgement by time stamp

  predicate NoneOlder(q: seq<Element>, refstamp: int) {
    forall i :: 0 <= i < |q| ==> q[i].stamp >= refstamp
  }

  lemma {:induction false} NotOlderAll(q: seq<Element>, refstamp: int)
    ensures |NotOlder(q, refstamp)| <= |q|
    ensures NotOlder(q, refstamp) == q <==> NoneOlder(q, refstamp)
    ensures |NotOlder(q, refstamp)| == |q| <==> NoneOlder(q, refstamp)
  {
    if q != [] {
      var t := q[1..];
      NotOlderAll(t, refstamp);
      assert q == [q[0]] + t;
      assert NoneOlder(q, refstamp) ==> q[0].stamp >= refstamp && NoneOlder(t, refstamp);
      assert q[0].stamp >= refstamp && NoneOlder(t, refstamp) ==> NoneOlder(q, refstamp) by {
        assert forall i :: 1 <= i < |q| ==> q[i] == t[i - 1];
      }
    }
  }

  lemma {:induction false} NotOlderSplit(q: seq<Element>, r: seq<Element>, refstamp: int)
    ensures NotOlder(q + r, refstamp) == NotOlder(q, refstamp) + NotOlder(r, refstamp)
    decreases |q|
  {
    if q == [] {
      assert q + r == r;
    } else {
      assert (q + r)[1..] == q[1..] + r && (q + r)[0] == q[0];
      NotOlderSplit(q[1..], r, refstamp);
      var h := if q[0].stamp < refstamp then [] else [q[0]];
      var t, u := NotOlder(q[1..], refstamp), NotOlder(r, refstamp);
      assert NotOlder(q + r, refstamp) == h + NotOlder(q[1..] + r, refstamp);
      hide NotOlder;
      assert h + (t + u) == h + t + u;
    }
  }

  /**
   * An acknowledgement of the packet at i leaves every packet numbered after it in the queue exactly when
   * none of those was last transmitted before it.  (Otherwise a packet the peer has not got is forgotten.)
   */
  lemma AckKeepsLaterPackets(s: State, i: nat)
    requires Sane(s) && s.linkType != UnknownLink && i < |s.ackWaitQueue|
    ensures var q := s.ackWaitQueue;
            AckFound(s, i).ackWaitQueue == NotOlder(q[..i], q[i].stamp) + q[i + 1..]
            <==> NoneOlder(q[i + 1..], q[i].stamp)
  {
    var q := s.ackWaitQueue;
    NotOlderSplit(q[..i], q[i + 1..], q[i].stamp);
    NotOlderAll(q[i + 1..], q[i].stamp);
    hide NotOlder;
    hide NoneOlder;
  }

  /** A link whose line is up, in an EPOC session, with nothing pending. */
  predicate Idle(s: State) {
    && Sane(s) && s.seqMask == MAX_SEQ && s.maxOutstanding == 8 && s.linkType == Epoc && s.rxSequence >= 0
    && !s.failed && !s.lineDown && s.xoff == {} && s.ackWaitQueue == [] && s.waitQueue == [] && s.holdQueue == []
  }

  function LastFrame(s: State): seq<byte> {
    if s.line == [] then [] else s.line[|s.line| - 1].data
  }

  /** What `transmit` does on an idle link with room: the second of two packets included. */
  lemma TransmitNow(s: State, e: Env, buf: seq<byte>)
    requires Sane(s) && !s.failed && !s.lineDown && s.xoff == {} && |s.ackWaitQueue| < s.maxOutstanding && buf != []
    ensures var s' := Transmit(s, e, buf);
            && s'.ackWaitQueue == s.ackWaitQueue + [Element(s.txSequence, 8, e.clock(s.readings),
                                                            DataFrame(s.txSequence, buf), |s.queued|)]
            && LastFrame(s') == DataFrame(s.txSequence, buf)
            && s' == s.(txSequence := (s.txSequence + 1) % (s.seqMask + 1), readings := s.readings + 1,
                        ackWaitQueue := s'.ackWaitQueue, line := s'.line, queued := s'.queued,
                        numbered := s.numbered + [Numbered(buf, e.clock(s.readings))])
  {
    hide DataFrame;
  }

  /** An ordinary packet that is next in sequence is accepted and acknowledged by its number. */
  lemma ReceiveNext(b: State, e: Env, number: nat, payload: seq<byte>)
    requires Sane(b) && !b.failed && !b.lineDown && payload != [] && payload[0] != 0
    requires number == (b.rxSequence + 1) % (b.seqMask + 1)
    ensures var b' := Receive(b, e, DataFrame(number, payload));
            b'.accepted == b.accepted + [payload] && LastFrame(b') == AckFrame(number) && b'.rxSequence == number
  {
    DataFrameDecodes(number, payload, e.stale);
    hide DataFrame;
    hide AckFrame;
    hide Decode;
  }

  /** Any other number is answered with an acknowledgement of the last packet accepted. */
  lemma ReceiveOther(b: State, e: Env, number: nat, payload: seq<byte>)
    requires Sane(b) && !b.failed && !b.lineDown && number <= MAX_SEQ && b.rxSequence >= 0
    requires number != (b.rxSequence + 1) % (b.seqMask + 1)
    ensures var b' := Receive(b, e, DataFrame(number, payload));
            b'.accepted == b.accepted && b'.ncp == b.ncp && LastFrame(b') == AckFrame(b.rxSequence)
  {
    DataFrameDecodes(number, payload, e.stale);
    hide DataFrame;
    hide AckFrame;
    hide Decode;
  }

  /** The timer's check, with what it keeps. */
  function Tick(s: State, e: Env, expired: int): (s': State)
    requires Sane(s)
    ensures Sane(s')
  {
    RetransmitSane(s, e, expired);
    Retransmit(s, e, expired)
  }

  /** Of two queued packets the timer sends the older one again. */
  lemma RetransmitFirst(s: State, e: Env, expired: int)
    requires Sane(s) && !s.failed && !s.lineDown && |s.ackWaitQueue| == 2
    requires s.ackWaitQueue[0].txcount == 8 && s.ackWaitQueue[0].stamp < expired <= s.ackWaitQueue[1].stamp
    ensures var s', q := Retransmit(s, e, expired), s.ackWaitQueue;
            && s'.ackWaitQueue == [q[0].(txcount := 7, stamp := e.clock(s.readings)), q[1]]
            && LastFrame(s') == q[0].data
            && s' == s.(readings := s.readings + 1, ackWaitQueue := s'.ackWaitQueue, line := s'.line)
  {
    var q := s.ackWaitQueue;
    assert q[1..][0] == q[1] && q[1..][1..] == [] && q == [q[0], q[1]];
    RetriedPair(q[0], q[1], expired, e.clock(s.readings));
    hide Retried;
    hide Resent;
    hide TimedOut;
    var s1 := s.(readings := s.readings + 1, failed := TimedOut(q, expired),
                 ackWaitQueue := Retried(q, expired, e.clock(s.readings)));
    var f := Frame(q[0].data, q[0].serial);
    assert [f][1..] == [];
    assert EmitAll(s1, [f]) == Emit(s1, f);
    assert HasFailed(s) == s;
  }

  lemma RetriedPair(x: Element, y: Element, expired: int, now: int)
    requires x.txcount == 8 && x.stamp < expired <= y.stamp
    ensures Retried([x, y], expired, now) == [x.(txcount := 7, stamp := now), y]
    ensures Resent([x, y], expired) == [Frame(x.data, x.serial)] && !TimedOut([x, y], expired)
  {
    assert [x, y][1..] == [y];
    RetriedNone(y, expired, now);
  }

  lemma RetriedNone(y: Element, expired: int, now: int)
    requires expired <= y.stamp
    ensures Retried([y], expired, now) == [y] && Resent([y], expired) == [] && !TimedOut([y], expired)
  {
    assert [y][1..] == [];
    assert !TimedOut([], expired);
    assert Retried([], expired, now) == [] && Resent([], expired) == [];
  }

  /** The acknowledgement of the first of two packets, sent after the second, takes both. */
  lemma AckTakesBoth(s: State, e: Env, x: Element, y: Element)
    requires Sane(s) && s.linkType == Epoc && s.ackWaitQueue == [x, y] && s.waitQueue == []
    requires 0 <= x.seqNr <= MAX_SEQ && y.stamp < x.stamp
    ensures Receive(s, e, AckFrame(x.seqNr)).ackWaitQueue == []
    ensures Receive(s, e, AckFrame(x.seqNr)).numbered == s.numbered
  {
    AckFrameDecodes(x.seqNr, e.stale);
    hide AckFrame;
    hide Decode;
    assert Find([x, y], x.seqNr) == 0;
    assert Erase([x, y], 0) == [y];
    assert NotOlder([y], x.stamp) == [] by { assert [y][1..] == []; }
    hide NotOlder;
    hide Find;
    hide Erase;
  }

  /**
   * Window 8: two packets are sent and both are lost; the timer finds only the first one expired and sends
   * it again; the peer takes it and acknowledges it -- and the second packet, never received, is forgotten.
   */
  lemma ForgottenPacket(a: State, b: State, e: Env, eb: Env, first: seq<byte>, second: seq<byte>, expired: int)
    requires Idle(a) && Idle(b) && a.txSequence == (b.rxSequence + 1) % (MAX_SEQ + 1)
    requires first != [] && first[0] != 0 && second != []
    requires e.clock(a.readings) < expired <= e.clock(a.readings + 1) < e.clock(a.readings + 2)
    ensures
      var a2 := Transmit(Transmit(a, e, first), e, second);
      var a3 := Tick(a2, e, expired);
      var b1 := Receive(b, eb, LastFrame(a3));
      var a4 := Receive(a3, e, LastFrame(b1));
      && b1.accepted == b.accepted + [first]
      && PayloadsOf(a4.numbered) == PayloadsOf(a.numbered) + [first, second]
      && a4.ackWaitQueue == []
  {
    var a1 := Transmit(a, e, first);
    var a2 := Transmit(a1, e, second);
    TransmitNow(a, e, first);
    TransmitNow(a1, e, second);
    hide Transmit;
    RetransmitFirst(a2, e, expired);
    hide Retransmit;
    var a3 := Tick(a2, e, expired);
    ReceiveNext(b, eb, a.txSequence, first);
    AckTakesBoth(a3, e, a3.ackWaitQueue[0], a3.ackWaitQueue[1]);
    NumberedOneMore(a.numbered, Numbered(first, e.clock(a.readings)));
    NumberedOneMore(a1.numbered, Numbered(second, e.clock(a1.readings)));
    assert PayloadsOf(a.numbered) + [first] + [second] == PayloadsOf(a.numbered) + [first, second];
    hide Receive;
    hide DataFrame;
    hide AckFrame;
    hide PayloadsOf;
    hide LastFrame;
  }

  // ---------------------------------------------------------------- the packet given up silently

  /** Whatever is submitted next is numbered after all that waits. */
  ghost predicate KeepsTurn(s: State, e: Env)
    requires Sane(s)
  {
    forall buf :: Stream(Transmit(s, e, buf)) == Stream(s) + [buf]
  }

  /** With no channel stopped, that is so exactly when packets only wait while the window is full. */
  lemma TurnNeedsFullWindow(s: State, e: Env)
    requires Sane(s) && !s.failed && !s.lineDown && s.xoff == {} && s.holdQueue == []
    ensures KeepsTurn(s, e) <==> Tight(s)
  {
    if Tight(s) {
      forall buf ensures Stream(Transmit(s, e, buf)) == Stream(s) + [buf] {
        TransmitAdmits(s, e, buf);
        hide Transmit;
        AdmitsInOrder(s, Transmit(s, e, buf).(linkType := s.linkType), [buf]);
      }
    } else {
      var buf: seq<byte> := [0] + s.waitQueue[0];
      TransmitAdmits(s, e, buf);
      var s' := Transmit(s, e, buf);
      hide Transmit;
      assert [buf][..1] == [buf] && [buf][1..] == [];
      var n := |PayloadsOf(s.numbered)|;
      assert Stream(s')[n] == buf;
      assert (Stream(s) + [buf])[n] == s.waitQueue[0];
    }
  }

  /**
   * An unmatched acknowledgement keeps the turn exactly when it does not drop a packet out of retries, or
   * nothing waits: otherwise it makes room without sending what waits, and the next packet overtakes.
   */
  lemma GiveUpLosesTurn(s: State, e: Env, number: nat)
    requires Sane(s) && !s.failed && !s.lineDown && Tight(s) && |s.ackWaitQueue| <= s.maxOutstanding
    ensures KeepsTurn(AckUnmatched(s, e, number), e)
            <==> AckUnmatched(s, e, number).gaveUp == s.gaveUp || s.waitQueue == []
  {
    hide Find;
    hide KeepsTurn;
    TurnNeedsFullWindow(AckUnmatched(s, e, number), e);
  }

  // ---------------------------------------------------------------- flow control against the wait queue

  /**
   * Window 1: a packet waits for the window, its channel is stopped, and a second packet of that channel is
   * held back; when the window opens the first one is held back too, behind the second, which overtakes it.
   */
  lemma StoppedChannelReorders(s: State, e: Env, channel: byte, first: seq<byte>, second: seq<byte>)
    requires Sane(s) && s.linkType == Sibo && s.maxOutstanding == 1 && !s.failed && !s.lineDown
    requires s.xoff == {} && s.holdQueue == [] && s.waitQueue == [] && |s.ackWaitQueue| == 1
             && s.ackWaitQueue[0].seqNr >= 0
    requires ByteAt(first, 0, e.stale) == channel == ByteAt(second, 0, e.stale)
    ensures
      var s1 := Transmit(s, e, first);
      var s2 := Dispatch(s1, e, [0, channel, 1]);
      var s3 := Transmit(s2, e, second);
      var s4 := ReceiveAck(s3, e, s.ackWaitQueue[0].seqNr);
      var s5 := Dispatch(s4, e, [0, channel, 2]);
      PayloadsOf(s5.numbered) == PayloadsOf(s.numbered) + [second] && s5.waitQueue == [first]
  {
    var s1 := Transmit(s, e, first);
    assert s1 == s.(waitQueue := [first]);
    var s2 := Dispatch(s1, e, [0, channel, 1]);
    assert s2 == s1.(xoff := {channel});
    var s3 := Transmit(s2, e, second);
    assert s3 == s2.(holdQueue := [second]);
    var s4 := ReceiveAck(s3, e, s.ackWaitQueue[0].seqNr);
    HeldBehind(s3, e, first, second);
    var s5 := s4.(xoff := {});
    LetGo(s5, e, channel, first, second);
    assert s4.xoff - {channel} == {};
    hide ReceiveAck;
    hide TransmitHoldQueue;
  }

  lemma HeldBehind(s: State, e: Env, first: seq<byte>, second: seq<byte>)
    requires Sane(s) && s.linkType == Sibo && !s.failed && !s.lineDown && ByteAt(first, 0, e.stale) in s.xoff
    requires s.holdQueue == [second] && s.waitQueue == [first] && |s.ackWaitQueue| == 1 && s.ackWaitQueue[0].seqNr >= 0
    ensures ReceiveAck(s, e, s.ackWaitQueue[0].seqNr)
            == s.(ackWaitQueue := [], waitQueue := [], holdQueue := [second, first])
  {
    var x := s.ackWaitQueue[0];
    assert s.ackWaitQueue == [x];
    assert Find([x], x.seqNr) == 0 && Erase([x], 0) == [] && NotOlder([], x.stamp) == [];
    var s1 := s.(ackWaitQueue := [], waitQueue := []);
    assert [first][1..] == [];
    assert TransmitAll(s1, e, [first]) == Transmit(s1, e, first);
    hide TransmitAll;
    hide NotOlder;
    hide Find;
    hide Erase;
    hide ByteAt;
  }

  lemma LetGo(s: State, e: Env, channel: byte, first: seq<byte>, second: seq<byte>)
    requires Sane(s) && !s.failed && !s.lineDown && s.maxOutstanding == 1 && s.ackWaitQueue == [] && s.waitQueue == []
    requires s.xoff == {} && s.holdQueue == [second, first]
    requires ByteAt(first, 0, e.stale) == channel == ByteAt(second, 0, e.stale)
    ensures PayloadsOf(TransmitHoldQueue(s, e, channel).numbered) == PayloadsOf(s.numbered) + [second]
    ensures TransmitHoldQueue(s, e, channel).waitQueue == [first]
  {
    HoldQueueAdmits(s, e, channel);
    assert [second, first][1..] == [first] && [first][1..] == [];
    assert ForChannel([first], channel, e.stale, true) == [first];
    assert ForChannel(s.holdQueue, channel, e.stale, true) == [second, first];
    hide ForChannel;
    hide TransmitHoldQueue;
    hide PayloadsOf;
    assert [second, first][..1] == [second];
  }

  // ---------------------------------------------------------------- the first packet after a handshake

  /**
   * Between idle EPOC ends, the next packet is accepted exactly when the sender's number is the one the
   * receiver expects.
   */
  lemma FirstPacketNeedsNumber(a: State, b: State, ea: Env, eb: Env, buf: seq<byte>)
    requires Idle(a) && Idle(b) && buf != [] && buf[0] != 0
    ensures Receive(b, eb, LastFrame(Transmit(a, ea, buf))).accepted == b.accepted + [buf]
            <==> a.txSequence == (b.rxSequence + 1) % (MAX_SEQ + 1)
  {
    TransmitNow(a, ea, buf);
    if a.txSequence == (b.rxSequence + 1) % (MAX_SEQ + 1) {
      ReceiveNext(b, eb, a.txSequence, buf);
    } else {
      ReceiveOther(b, eb, a.txSequence, buf);
      assert |b.accepted| != |b.accepted + [buf]|;
    }
    hide Receive;
    hide Transmit;
  }

  /** The end that answers a link request. */
  lemma Answers(w: State, e: Env)
    requires Sane(w) && !w.failed && !w.lineDown && w.ackWaitQueue == []
    ensures var w1 := Receive(w, e, [0x21]);
            && w1.ackWaitQueue == [Element(0, 4, e.clock(w.readings), [0x24] + e.magic, |w.queued|)]
            && LastFrame(w1) == [0x24] + e.magic
            && w1 == w.(linkType := Epoc, seqMask := MAX_SEQ, maxOutstanding := 8, rxSequence := 0, txSequence := 0,
                        readings := w.readings + 1, queued := w1.queued, ackWaitQueue := w1.ackWaitQueue,
                        line := w1.line)
  {
    assert Decode([0x21], e.stale) == NewLink(1);
  }

  /** The end that asked for the link, when the answer arrives. */
  lemma Asks(i: State, e: Env, magic: seq<byte>)
    requires Sane(i) && !i.failed && !i.lineDown
    requires |i.ackWaitQueue| == 1 && i.ackWaitQueue[0].seqNr == 0 && i.ackWaitQueue[0].data == [0x21]
    ensures var i1 := Receive(i, e, [0x24] + magic);
            && LastFrame(i1) == AckFrame(0)
            && i1 == i.(linkType := Epoc, seqMask := MAX_SEQ, maxOutstanding := 8, rxSequence := 0, txSequence := 1,
                        ackWaitQueue := [], line := i1.line)
  {
    assert Decode([0x24] + magic, e.stale) == NewLink(4);
    assert FindReqReq(i.ackWaitQueue, e.stale) == 0;
    assert Erase(i.ackWaitQueue, 0) == [];
    hide Decode;
    hide FindReqReq;
    hide Erase;
  }

  lemma AnswerAcknowledged(w: State, e: Env)
    requires Sane(w) && w.linkType == Epoc && |w.ackWaitQueue| == 1 && w.ackWaitQueue[0].seqNr == 0 && w.waitQueue == []
    ensures Receive(w, e, AckFrame(0)) == w.(ackWaitQueue := [])
  {
    AckFrameDecodes(0, e.stale);
    hide AckFrame;
    hide Decode;
    var x := w.ackWaitQueue[0];
    assert w.ackWaitQueue == [x];
    assert Find([x], 0) == 0 && Erase([x], 0) == [] && NotOlder([], x.stamp) == [];
    hide Find;
    hide Erase;
    hide NotOlder;
  }

  /** An end that waits for the answer to its link request, and nothing else. */
  predicate Asking(i: State) {
    && Sane(i) && !i.failed && !i.lineDown && i.xoff == {} && i.waitQueue == [] && i.holdQueue == []
    && |i.ackWaitQueue| == 1 && i.ackWaitQueue[0].seqNr == 0 && i.ackWaitQueue[0].data == [0x21]
  }

  /** An end with nothing pending, whatever its mode. */
  predicate Quiet(w: State) {
    && Sane(w) && !w.failed && !w.lineDown && w.xoff == {} && w.waitQueue == [] && w.holdQueue == []
    && w.ackWaitQueue == []
  }

  /** Both ends after the three frames of a handshake: the request, its answer, the acknowledgement. */
  function Opened(i: State, w: State, ei: Env, ew: Env): (r: (State, State))
    requires Sane(i) && Sane(w)
    ensures Sane(r.0) && Sane(r.1)
  {
    var w1 := Receive(w, ew, [0x21]);
    var i1 := Receive(i, ei, LastFrame(w1));
    (i1, Receive(w1, ew, LastFrame(i1)))
  }

  /** The handshake leaves both ends idle, but with different numbers. */
  lemma Handshake(i: State, w: State, ei: Env, ew: Env)
    requires Asking(i) && Quiet(w)
    ensures var r := Opened(i, w, ei, ew);
            && Idle(r.0) && r.0.txSequence == 1 && r.0.rxSequence == 0
            && Idle(r.1) && r.1.txSequence == 0 && r.1.rxSequence == 0
  {
    Answers(w, ew);
    Asks(i, ei, ew.magic);
    var w1 := Receive(w, ew, [0x21]);
    AnswerAcknowledged(w1, ew);
    hide Receive;
    hide LastFrame;
    hide AckFrame;
  }

  /** A packet numbered 0 to an end that expects 1 is rejected, and forgotten at the duplicate's acknowledgement. */
  lemma ZeroIsForgotten(a: State, b: State, ea: Env, eb: Env, buf: seq<byte>)
    requires Idle(a) && Idle(b) && a.txSequence == 0 && b.rxSequence == 0 && buf != []
    ensures
      var a1 := Transmit(a, ea, buf);
      var b1 := Receive(b, eb, LastFrame(a1));
      && b1.accepted == b.accepted && b1.ncp == b.ncp
      && Receive(a1, ea, LastFrame(b1)) == a1.(ackWaitQueue := [])
  {
    TransmitNow(a, ea, buf);
    ReceiveOther(b, eb, 0, buf);
    hide Transmit;
    AnswerAcknowledged(Transmit(a, ea, buf), ea);
    hide Receive;
    hide LastFrame;
    hide DataFrame;
    hide AckFrame;
  }

  /**
   * After a handshake, the end that asked has its first packet accepted; the first packet of the end that
   * answered is numbered 0 and lost without either end noticing.
   */
  lemma AnswererLosesFirstPacket(i: State, w: State, ei: Env, ew: Env, buf: seq<byte>)
    requires Asking(i) && Quiet(w) && buf != [] && buf[0] != 0
    ensures
      var (asker, answerer) := Opened(i, w, ei, ew);
      && Receive(answerer, ew, LastFrame(Transmit(asker, ei, buf))).accepted == answerer.accepted + [buf]
      && var sent := Transmit(answerer, ew, buf);
         var got := Receive(asker, ei, LastFrame(sent));
         got.accepted == asker.accepted && Receive(sent, ew, LastFrame(got)).ackWaitQueue == []
  {
    Handshake(i, w, ei, ew);
    hide Opened;
    var r := Opened(i, w, ei, ew);
    AfterHandshake(r.0, r.1, ei, ew, buf);
    hide *;
  }

  lemma OneIsAccepted(i: State, w: State, ei: Env, ew: Env, buf: seq<byte>)
    requires Idle(i) && i.txSequence == 1 && Idle(w) && w.rxSequence == 0 && buf != [] && buf[0] != 0
    ensures Receive(w, ew, LastFrame(Transmit(i, ei, buf))).accepted == w.accepted + [buf]
  {
    FirstPacketNeedsNumber(i, w, ei, ew, buf);
    hide *;
  }

  lemma AfterHandshake(i: State, w: State, ei: Env, ew: Env, buf: seq<byte>)
    requires Idle(i) && i.txSequence == 1 && i.rxSequence == 0 && buf != [] && buf[0] != 0
    requires Idle(w) && w.txSequence == 0 && w.rxSequence == 0
    ensures Receive(w, ew, LastFrame(Transmit(i, ei, buf))).accepted == w.accepted + [buf]
    ensures var sent := Transmit(w, ew, buf);
            var got := Receive(i, ei, LastFrame(sent));
            got.accepted == i.accepted && Receive(sent, ew, LastFrame(got)).ackWaitQueue == []
  {
    OneIsAccepted(i, w, ei, ew, buf);
    ZeroIsForgotten(w, i, ew, ei, buf);
    hide *;
  }

  // ---------------------------------------------------------------- purging one channel

  /**
   * Purging a channel drops an unacknowledged data packet exactly when the channel happens to equal the
   * packet's header byte; the channel the packet is for, in its payload, plays no part.
   */
  lemma PurgeLooksAtHeader(s: State, e: Env, el: Element, number: nat, payload: seq<byte>, channel: byte)
    requires el in s.ackWaitQueue && number <= MAX_SEQ && el.data == DataFrame(number, payload)
    ensures el in PurgeQueue(s, e, channel).ackWaitQueue
            <==> channel != (if number > 7 then 0x38 + number % 8 else 0x30 + number)
  {
    hide ForChannel;
    PurgedMembers(s.ackWaitQueue, channel, e.stale, el);
  }

  lemma {:induction false} PurgedMembers(q: seq<Element>, channel: int, stale: byte, el: Element)
    ensures el in WithoutFirstByte(q, channel, stale) <==> el in q && ByteAt(el.data, 0, stale) != channel
    decreases |q|
  {
    if q != [] {
      hide ByteAt;
      PurgedMembers(q[1..], channel, stale, el);
      assert el in q <==> el == q[0] || el in q[1..];
    }
  }
}
