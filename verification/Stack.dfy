/**
 * The layers together: a message is cut up by NCP, numbered by the link, framed by the data link, carried
 * as bytes, and goes the same way up on the other side.
 */
module Stack {
  import opened Bytes
  import opened Packets
  import opened LinkSpec
  import Framing
  import LinkFrames
  import LinkModes
  import Ncp
  import Ring

  // ---------------------------------------------------------------- the line

  /** The data link's view of what a link has sent: each frame with the stuffing in force at that time. */
  function Messages(sent: seq<Sent>): seq<Framing.Message> {
    if sent == [] then [] else [Framing.Message(sent[0].data, sent[0].isEPOC)] + Messages(sent[1..])
  }

  function FramesIn(sent: seq<Sent>): seq<seq<byte>> {
    if sent == [] then [] else [sent[0].data] + FramesIn(sent[1..])
  }

  /** The bytes on the serial line, and what the receiver makes of them, starting between two frames. */
  function Received(sent: seq<Sent>): seq<seq<byte>> {
    Framing.Output(Framing.Hunt, Framing.Frames(Messages(sent)))
  }

  /** A lossless line is transparent: whatever the link sends arrives frame by frame, in either stuffing. */
  lemma {:induction false} LineIsTransparent(sent: seq<Sent>)
    ensures Received(sent) == FramesIn(sent)
  {
    Framing.FramesRoundTrip(Messages(sent));
    hide Framing.Output;
    hide Framing.Frames;
    SameFrames(sent);
  }

  lemma {:induction false} SameFrames(sent: seq<Sent>)
    ensures Framing.Payloads(Messages(sent)) == FramesIn(sent)
  {
    if sent != [] {
      SameFrames(sent[1..]);
      assert Messages(sent)[1..] == Messages(sent[1..]);
    }
  }

  /**
   * In every run from the start of a link, whatever arrives, each frame handed to the data link makes at most
   * 611 bytes on the line, so the output ring has room for it once the pump has emptied it.
   */
  lemma EveryFrameFitsTheRing(e: Env, ops: seq<LinkModes.Op>, i: nat, at: nat)
    requires |e.magic| == 4 && Sane(LinkModes.Initial(e)) && i < |LinkModes.RunLink(LinkModes.Initial(e), e, ops).line|
    requires at < Ring.BUFLEN
    ensures var sent := LinkModes.RunLink(LinkModes.Initial(e), e, ops).line[i];
            |Framing.Frame(sent.data, sent.isEPOC)| <= 611 <= Ring.Free(at, at)
  {
    hide *;
    LinkFrames.EveryFrameIsKnown(e, ops, i);
    var sent := LinkModes.RunLink(LinkModes.Initial(e), e, ops).line[i];
    Framing.FrameLength(sent.data, sent.isEPOC);
    EmptyRing(at);
  }

  lemma EmptyRing(at: nat)
    requires at < Ring.BUFLEN
    ensures 2 * LinkFrames.FRAME + 7 == 611 <= Ring.Free(at, at)
  {
  }

  /** XOFF and XON for channel buf[1], which the link keeps to itself. */
  predicate FlowControl(buf: seq<byte>) {
    |buf| == 3 && buf[0] == 0 && (buf[2] == 1 || buf[2] == 2)
  }

  /** A packet of at most 300 bytes that is no flow control; other messages of the control channel are included. */
  predicate Ordinary(buf: seq<byte>) {
    buf != [] && |buf| <= 300 && !FlowControl(buf)
  }

  predicate AllOrdinary(bufs: seq<seq<byte>>) {
    forall i :: 0 <= i < |bufs| ==> Ordinary(bufs[i])
  }

  /** Every fragment from NCP passes the link's size check. */
  lemma FragmentsAreOrdinary(remote: byte, channel: byte, message: seq<byte>)
    requires remote != 0
    ensures AllOrdinary(Ncp.Fragments(remote, channel, message))
  {
    Ncp.FragmentsShape(remote, channel, message);
    hide Ncp.Fragments;
  }

  // ---------------------------------------------------------------- one packet across

  /** A link takes in the frames that arrive. */
  function TakeIn(s: State, e: Env, frames: seq<seq<byte>>): (s': State)
    requires Sane(s)
    ensures Sane(s')
    decreases |frames|
  {
    if frames == [] then s else TakeIn(Receive(s, e, frames[0]), e, frames[1..])
  }

  /** What a link has sent since an earlier state. */
  function Since(s: State, s': State): seq<Sent> {
    if |s.line| <= |s'.line| then s'.line[|s.line|..] else []
  }

  /** a sends a packet; its bytes reach b; what b sends reaches a. */
  function Exchange(a: State, b: State, ea: Env, eb: Env, buf: seq<byte>): (r: (State, State))
    requires Sane(a) && Sane(b)
    ensures Sane(r.0) && Sane(r.1)
  {
    var a1 := Send(a, ea, buf);
    var b1 := TakeIn(b, eb, Received(Since(a, a1)));
    (TakeIn(a1, ea, Received(Since(b, b1))), b1)
  }

  function ExchangeAll(a: State, b: State, ea: Env, eb: Env, bufs: seq<seq<byte>>): (r: (State, State))
    requires Sane(a) && Sane(b)
    ensures Sane(r.0) && Sane(r.1)
    decreases |bufs|
  {
    if bufs == [] then (a, b)
    else
      var r := Exchange(a, b, ea, eb, bufs[0]);
      ExchangeAll(r.0, r.1, ea, eb, bufs[1..])
  }

  /** A link in a session, up, with nothing pending and no channel stopped. */
  predicate CanSend(a: State) {
    && Sane(a) && a.linkType != UnknownLink && !a.failed && !a.lineDown && a.xoff == {} && a.maxOutstanding > 0
    && a.ackWaitQueue == [] && a.waitQueue == []
  }

  /** A link that is up and has been through a handshake. */
  predicate CanTake(b: State) {
    Sane(b) && !b.failed && !b.lineDown && b.rxSequence >= 0
  }

  /** Both links are in the same mode, SIBO or EPOC, and agree on the number of the next packet from a to b. */
  predicate InStep(a: State, b: State) {
    && CanSend(a) && CanTake(b) && a.linkType == b.linkType && a.seqMask == b.seqMask
    && a.txSequence == Masked(b.rxSequence + 1, b.seqMask)
  }

  lemma SendNow(a: State, e: Env, buf: seq<byte>)
    requires CanSend(a) && buf != [] && |buf| <= 300
    ensures var a' := Send(a, e, buf);
            && Since(a, a') == [Sent(DataFrame(a.txSequence, buf), a.linkType == Epoc, |a.queued|)]
            && |a'.ackWaitQueue| == 1 && a'.ackWaitQueue[0].seqNr == a.txSequence
            && a' == a.(txSequence := Masked(a.txSequence + 1, a.seqMask), readings := a.readings + 1,
                        ackWaitQueue := a'.ackWaitQueue, line := a'.line, queued := a'.queued, numbered := a'.numbered)
  {
    hide DataFrame;
  }

  lemma TakeOne(s: State, e: Env, frame: seq<byte>)
    requires Sane(s)
    ensures TakeIn(s, e, [frame]) == Receive(s, e, frame)
  {
    assert [frame][1..] == [];
    hide Receive;
    assert TakeIn(s, e, [frame]) == TakeIn(Receive(s, e, frame), e, []);
  }

  lemma OneArrives(f: Sent)
    ensures Received([f]) == [f.data]
  {
    LineIsTransparent([f]);
    assert [f][1..] == [];
    hide Received;
    assert FramesIn([f]) == [f.data];
  }

  lemma ReceiveNow(b: State, e: Env, number: nat, payload: seq<byte>)
    requires CanTake(b) && payload != [] && !FlowControl(payload)
    requires number == Masked(b.rxSequence + 1, b.seqMask)
    ensures var b' := Receive(b, e, DataFrame(number, payload));
            && Since(b, b') == [Sent(AckFrame(number), b.linkType == Epoc, ACK)]
            && b' == b.(rxSequence := number, accepted := b.accepted + [payload], ncp := b.ncp + [payload],
                        line := b'.line)
  {
    DataFrameDecodes(number, payload, e.stale);
    hide DataFrame;
    hide AckFrame;
    hide Decode;
  }

  lemma AckedNow(a: State, e: Env)
    requires Sane(a) && a.linkType != UnknownLink && |a.ackWaitQueue| == 1 && a.waitQueue == []
    requires 0 <= a.ackWaitQueue[0].seqNr <= MAX_SEQ
    ensures Receive(a, e, AckFrame(a.ackWaitQueue[0].seqNr)) == a.(ackWaitQueue := [])
  {
    var x := a.ackWaitQueue[0];
    AckFrameDecodes(x.seqNr, e.stale);
    hide AckFrame;
    hide Decode;
    assert a.ackWaitQueue == [x];
    assert Find([x], x.seqNr) == 0 && Erase([x], 0) == [] && NotOlder([], x.stamp) == [];
    hide Find;
    hide Erase;
    hide NotOlder;
  }

  lemma Crossing(a: State, b: State, ea: Env, eb: Env, buf: seq<byte>)
    requires InStep(a, b) && Ordinary(buf)
    ensures var n := a.txSequence;
            && TakeIn(b, eb, Received(Since(a, Send(a, ea, buf)))) == Receive(b, eb, DataFrame(n, buf))
            && Received(Since(b, Receive(b, eb, DataFrame(n, buf)))) == [AckFrame(n)]
  {
    var n := a.txSequence;
    SendNow(a, ea, buf);
    OneArrives(Sent(DataFrame(n, buf), a.linkType == Epoc, |a.queued|));
    TakeOne(b, eb, DataFrame(n, buf));
    ReceiveNow(b, eb, n, buf);
    OneArrives(Sent(AckFrame(n), b.linkType == Epoc, ACK));
    hide Send;
    hide Receive;
    hide TakeIn;
    hide Received;
    hide Since;
    hide DataFrame;
    hide AckFrame;
  }

  lemma ExchangeIs(a: State, b: State, ea: Env, eb: Env, buf: seq<byte>)
    requires InStep(a, b) && Ordinary(buf)
    ensures Exchange(a, b, ea, eb, buf)
            == (Send(a, ea, buf).(ackWaitQueue := []), Receive(b, eb, DataFrame(a.txSequence, buf)))
  {
    var n := a.txSequence;
    Crossing(a, b, ea, eb, buf);
    SendNow(a, ea, buf);
    TakeOne(Send(a, ea, buf), ea, AckFrame(n));
    AckedNow(Send(a, ea, buf), ea);
    hide Send;
    hide Receive;
    hide TakeIn;
    hide Received;
    hide Since;
    hide DataFrame;
    hide AckFrame;
  }

  lemma SenderAfter(a: State, e: Env, buf: seq<byte>)
    requires CanSend(a) && Ordinary(buf)
    ensures var a' := Send(a, e, buf).(ackWaitQueue := []);
            && CanSend(a') && a'.linkType == a.linkType && a'.seqMask == a.seqMask
            && a'.txSequence == Masked(a.txSequence + 1, a.seqMask)
  {
    SendNow(a, e, buf);
    hide Send;
    hide Masked;
    hide Since;
    hide DataFrame;
  }

  lemma TakerAfter(b: State, e: Env, number: nat, buf: seq<byte>)
    requires CanTake(b) && Ordinary(buf) && number == Masked(b.rxSequence + 1, b.seqMask)
    ensures var b' := Receive(b, e, DataFrame(number, buf));
            && CanTake(b') && b'.linkType == b.linkType && b'.seqMask == b.seqMask
            && b'.rxSequence == number && b'.ncp == b.ncp + [buf]
  {
    ReceiveNow(b, e, number, buf);
    hide Receive;
    hide Masked;
    hide Since;
    hide DataFrame;
    hide AckFrame;
  }

  /** A packet crosses: b hands it to its NCP, a forgets it, and both are in step again. */
  lemma ExchangeWorks(a: State, b: State, ea: Env, eb: Env, buf: seq<byte>)
    requires InStep(a, b) && Ordinary(buf)
    ensures var r := Exchange(a, b, ea, eb, buf);
            InStep(r.0, r.1) && r.1.ncp == b.ncp + [buf]
  {
    InStepMeans(a, b);
    var n := a.txSequence;
    var a', b' := Send(a, ea, buf).(ackWaitQueue := []), Receive(b, eb, DataFrame(n, buf));
    hide *;
    ExchangeIs(a, b, ea, eb, buf);
    SenderAfter(a, ea, buf);
    TakerAfter(b, eb, n, buf);
    StillInStep(a, b, a', b');
  }

  lemma InStepMeans(a: State, b: State)
    requires InStep(a, b)
    ensures CanSend(a) && CanTake(b) && a.linkType == b.linkType && a.seqMask == b.seqMask && Sane(a) && Sane(b)
    ensures 0 <= a.txSequence <= MAX_SEQ && a.txSequence == Masked(b.rxSequence + 1, b.seqMask)
  {
  }

  lemma StillInStep(a: State, b: State, a': State, b': State)
    requires InStep(a, b) && CanSend(a') && CanTake(b')
    requires a'.linkType == a.linkType && a'.seqMask == a.seqMask
             && a'.txSequence == Masked(a.txSequence + 1, a.seqMask)
    requires b'.linkType == b.linkType && b'.seqMask == b.seqMask && b'.rxSequence == a.txSequence
    ensures InStep(a', b')
  {
    hide CanSend;
    hide CanTake;
    hide Masked;
  }

  lemma {:induction false} AllCross(a: State, b: State, ea: Env, eb: Env, bufs: seq<seq<byte>>)
    requires Sane(a) && Sane(b) && InStep(a, b) && AllOrdinary(bufs)
    ensures var r := ExchangeAll(a, b, ea, eb, bufs);
            InStep(r.0, r.1) && r.1.ncp == b.ncp + bufs
    decreases |bufs|
  {
    hide InStep;
    hide Exchange;
    hide Ordinary;
    if bufs == [] {
      assert b.ncp + [] == b.ncp;
    } else {
      ExchangeWorks(a, b, ea, eb, bufs[0]);
      var r := Exchange(a, b, ea, eb, bufs[0]);
      AllCross(r.0, r.1, ea, eb, bufs[1..]);
      assert b.ncp + [bufs[0]] + bufs[1..] == b.ncp + bufs;
    }
  }

  /**
   * The whole stack is the identity on a lossless line: a message of any length, sent from any number in
   * either mode, is delivered whole to the channel it is for, and nothing else is delivered to anyone.
   */
  lemma MessageCrossesStack(a: State, b: State, ea: Env, eb: Env, peer: Ncp.State, remote: byte, channel: byte,
                            message: seq<byte>)
    requires InStep(a, b) && remote != 0
    requires Ncp.Sound(peer) && peer.version == Ncp.PV_SERIES_5 && peer.open[remote] && peer.pending[remote] == []
    ensures var r := ExchangeAll(a, b, ea, eb, Ncp.Fragments(remote, channel, message));
            && InStep(r.0, r.1) && b.ncp <= r.1.ncp
            && Ncp.ReceiveAll(peer, r.1.ncp[|b.ncp|..], eb.stale)
               == peer.(delivered := peer.delivered + [Ncp.Delivery(remote, message)])
  {
    var fs := Ncp.Fragments(remote, channel, message);
    FragmentsAreOrdinary(remote, channel, message);
    hide AllOrdinary;
    AllCross(a, b, ea, eb, fs);
    var r := ExchangeAll(a, b, ea, eb, fs);
    assert r.1.ncp[|b.ncp|..] == fs;
    Ncp.MessageReassembled(peer, remote, channel, message, eb.stale);
    assert [] + message == message && peer.pending[remote := []] == peer.pending;
    hide ExchangeAll;
    hide Ncp.ReceiveAll;
    hide Ncp.Fragments;
  }
}
