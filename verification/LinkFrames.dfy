/**
 * What the frames of one link (lib/link.cc) are, over every run: each one an acknowledgement or the frame of a
 * packet queued before, none larger than the data link can send.
 */
module LinkFrames {
  import opened Bytes
  import opened Packets
  import opened LinkSpec
  import opened LinkModes

  const PACKET: nat := 300                  // the limit of Link::send
  const FRAME: nat := 302                   // with the header

  /** The frame of the packet with a serial. */
  predicate Known(queued: seq<seq<byte>>, data: seq<byte>, serial: int) {
    0 <= serial < |queued| && queued[serial] == data
  }

  predicate Small(bufs: seq<seq<byte>>, n: nat) {
    forall i :: 0 <= i < |bufs| ==> |bufs[i]| <= n
  }

  predicate QueueKnown(queued: seq<seq<byte>>, q: seq<Element>) {
    forall i :: 0 <= i < |q| ==> Known(queued, q[i].data, q[i].serial)
  }

  predicate FramesKnown(queued: seq<seq<byte>>, frames: seq<Frame>) {
    forall i :: 0 <= i < |frames| ==> Known(queued, frames[i].data, frames[i].serial)
  }

  /** An acknowledgement has at most two bytes. */
  predicate SentKnown(queued: seq<seq<byte>>, x: Sent) {
    if x.serial == ACK then |x.data| <= 2 else Known(queued, x.data, x.serial)
  }

  predicate LineKnown(queued: seq<seq<byte>>, line: seq<Sent>) {
    forall i :: 0 <= i < |line| ==> SentKnown(queued, line[i])
  }

  predicate Sound(s: State) {
    && Small(s.holdQueue, PACKET) && Small(s.waitQueue, PACKET) && Small(s.queued, FRAME)
    && QueueKnown(s.queued, s.ackWaitQueue) && LineKnown(s.queued, s.line)
  }

  /** Only what these predicates speak of matters. */
  lemma SoundSame(s: State, s': State)
    requires Sound(s)
    requires s'.holdQueue == s.holdQueue && s'.waitQueue == s.waitQueue && s'.queued == s.queued
    requires s'.ackWaitQueue == s.ackWaitQueue && s'.line == s.line
    ensures Sound(s')
  {
  }

  lemma EmitSound(s: State, f: Frame)
    requires Sound(s) && SentKnown(s.queued, Sent(f.data, s.linkType == Epoc, f.serial))
    ensures Sound(Emit(s, f))
  {
    hide Small;
    hide QueueKnown;
    hide SentKnown;
    var x := Sent(f.data, s.linkType == Epoc, f.serial);
    forall i | 0 <= i < |s.line + [x]| ensures SentKnown(s.queued, (s.line + [x])[i]) {
      if i < |s.line| {
        assert (s.line + [x])[i] == s.line[i];
      }
    }
  }

  lemma OneMoreSmall(bufs: seq<seq<byte>>, b: seq<byte>, n: nat)
    requires Small(bufs, n) && |b| <= n
    ensures Small(bufs + [b], n)
  {
  }

  /** Queueing one more frame changes no earlier serial. */
  lemma StillKnown(queued: seq<seq<byte>>, x: seq<byte>, q: seq<Element>, line: seq<Sent>)
    requires QueueKnown(queued, q) && LineKnown(queued, line)
    ensures QueueKnown(queued + [x], q) && LineKnown(queued + [x], line)
  {
    forall i | 0 <= i < |line| ensures SentKnown(queued + [x], line[i]) {
      assert SentKnown(queued, line[i]);
    }
    forall i | 0 <= i < |q| ensures Known(queued + [x], q[i].data, q[i].serial) {
      assert Known(queued, q[i].data, q[i].serial);
    }
  }

  lemma AwaitSound(s: State, e: Env, seqNr: int, txcount: nat, data: seq<byte>)
    requires Sound(s) && |data| <= FRAME
    ensures Sound(Await(s, e, seqNr, txcount, data))
  {
    var n := |s.queued|;
    var el := Element(seqNr, txcount, e.clock(s.readings), data, n);
    var s1 := s.(ackWaitQueue := s.ackWaitQueue + [el], readings := s.readings + 1, queued := s.queued + [data]);
    StillKnown(s.queued, data, s.ackWaitQueue, s.line);
    OneMoreSmall(s.queued, data, FRAME);
    assert Known(s1.queued, data, n);
    hide Small;
    hide LineKnown;
    hide Known;
    assert QueueKnown(s1.queued, s1.ackWaitQueue);
    hide QueueKnown;
    EmitSound(s1, Frame(data, n));
  }

  lemma SendAckSound(s: State)
    requires Sound(s) && Sane(s)
    ensures Sound(SendAck(s))
  {
    var s1 := HasFailed(s);
    SoundSame(s, s1);
    hide Sound;
    EmitSound(s1, Frame(AckFrame(s.rxSequence), ACK));
  }

  lemma ReqSound(s: State, e: Env)
    requires Sound(s) && |e.magic| == 4
    ensures Sound(SendReqReq(s, e)) && Sound(SendReqCon(s, e))
  {
    var s1 := HasFailed(s);
    SoundSame(s, s1);
    hide Sound;
    AwaitSound(s1, e, 0, CONNECT_RETRIES, [0x21]);
    AwaitSound(s1, e, 0, CONNECT_RETRIES, [0x24] + e.magic);
    hide Await;
  }

  lemma TransmitSound(s: State, e: Env, buf: seq<byte>)
    requires Sound(s) && Sane(s) && |buf| <= PACKET
    ensures Sound(Transmit(s, e, buf))
  {
    var s1 := HasFailed(s);
    SoundSame(s, s1);
    OneMoreSmall(s.holdQueue, buf, PACKET);
    OneMoreSmall(s.waitQueue, buf, PACKET);
    NumberSound(s1, e, buf);
    hide Number;
    hide Small;
    hide QueueKnown;
    hide LineKnown;
    hide ByteAt;
  }

  lemma NumberSound(s: State, e: Env, buf: seq<byte>)
    requires Sound(s) && Sane(s) && |buf| <= PACKET
    ensures Sound(Number(s, e, buf))
  {
    var n := s.txSequence;
    var s1 := s.(txSequence := Masked(n + 1, s.seqMask), numbered := s.numbered + [Numbered(buf, e.clock(s.readings))]);
    SoundSame(s, s1);
    DataFrameDecodes(n, buf, 0);
    hide Sound;
    if buf == [] {
      AwaitSound(s1, e, n, CONNECT_RETRIES, RequestFrame(n));
    } else {
      AwaitSound(s1, e, n, RETRIES, DataFrame(n, buf));
    }
    hide Await;
    hide DataFrame;
  }

  lemma {:induction false} TransmitAllSound(s: State, e: Env, bufs: seq<seq<byte>>)
    requires Sound(s) && Sane(s) && Small(bufs, PACKET)
    ensures Sound(TransmitAll(s, e, bufs))
    decreases |bufs|
  {
    hide Sound;
    hide Transmit;
    if bufs != [] {
      TransmitSound(s, e, bufs[0]);
      TransmitAllSound(Transmit(s, e, bufs[0]), e, bufs[1..]);
    }
  }

  lemma {:induction false} ForChannelSmall(q: seq<seq<byte>>, channel: byte, stale: byte, yes: bool)
    requires Small(q, PACKET)
    ensures Small(ForChannel(q, channel, stale, yes), PACKET)
    decreases |q|
  {
    if q != [] {
      hide ByteAt;
      var t := ForChannel(q[1..], channel, stale, yes);
      ForChannelSmall(q[1..], channel, stale, yes);
      assert [q[0]] + t == [q[0]] + t && [] + t == t;
    }
  }

  lemma EraseKnown(queued: seq<seq<byte>>, q: seq<Element>, i: nat)
    requires QueueKnown(queued, q) && i < |q|
    ensures QueueKnown(queued, Erase(q, i))
  {
    hide Known;
    var r := Erase(q, i);
    assert forall j :: 0 <= j < |r| ==> r[j] == q[if j < i then j else j + 1];
  }

  lemma {:induction false} NotOlderKnown(queued: seq<seq<byte>>, q: seq<Element>, ref: int)
    requires QueueKnown(queued, q)
    ensures QueueKnown(queued, NotOlder(q, ref))
    decreases |q|
  {
    if q != [] {
      hide Known;
      NotOlderKnown(queued, q[1..], ref);
      KnownHead(queued, q[0], NotOlder(q[1..], ref));
      assert [] + NotOlder(q[1..], ref) == NotOlder(q[1..], ref);
    }
  }

  lemma KnownHead(queued: seq<seq<byte>>, el: Element, q: seq<Element>)
    requires Known(queued, el.data, el.serial) && QueueKnown(queued, q)
    ensures QueueKnown(queued, [el] + q)
  {
    hide Known;
    assert forall j :: 0 < j < |[el] + q| ==> ([el] + q)[j] == q[j - 1];
  }

  lemma {:induction false} WithoutFirstByteKnown(queued: seq<seq<byte>>, q: seq<Element>, channel: int, stale: byte)
    requires QueueKnown(queued, q)
    ensures QueueKnown(queued, WithoutFirstByte(q, channel, stale))
    decreases |q|
  {
    if q != [] {
      hide Known;
      hide ByteAt;
      var t := WithoutFirstByte(q[1..], channel, stale);
      WithoutFirstByteKnown(queued, q[1..], channel, stale);
      KnownHead(queued, q[0], t);
      assert [] + t == t;
    }
  }

  lemma KnownFrame(queued: seq<seq<byte>>, f: Frame, frames: seq<Frame>)
    requires Known(queued, f.data, f.serial) && FramesKnown(queued, frames)
    ensures FramesKnown(queued, [f] + frames)
  {
    hide Known;
    assert forall j :: 0 < j < |[f] + frames| ==> ([f] + frames)[j] == frames[j - 1];
  }

  lemma NothingFirst<T>(s: seq<T>)
    ensures [] + s == s
  {
  }

  /** The timer keeps the frames and serials of what it keeps, and sends only those. */
  lemma {:induction false} RetriedKnown(queued: seq<seq<byte>>, q: seq<Element>, expired: int, now: int)
    requires QueueKnown(queued, q)
    ensures QueueKnown(queued, Retried(q, expired, now)) && FramesKnown(queued, Resent(q, expired))
    decreases |q|
  {
    if q != [] {
      hide Known;
      var el, t, u := q[0], Retried(q[1..], expired, now), Resent(q[1..], expired);
      RetriedKnown(queued, q[1..], expired, now);
      var el' := el.(txcount := el.txcount - 1, stamp := now);
      KnownHead(queued, el, t);
      KnownHead(queued, el', t);
      KnownFrame(queued, Frame(el.data, el.serial), u);
      NothingFirst(t);
      NothingFirst(u);
      hide QueueKnown;
      hide FramesKnown;
    }
  }

  lemma {:induction false} EmitAllSound(s: State, frames: seq<Frame>)
    requires Sound(s) && FramesKnown(s.queued, frames)
    ensures Sound(EmitAll(s, frames))
    decreases |frames|
  {
    if frames != [] {
      assert Known(s.queued, frames[0].data, frames[0].serial);
      EmitSound(s, frames[0]);
      hide Sound;
      hide Known;
      EmitAllSound(Emit(s, frames[0]), frames[1..]);
    }
  }

  lemma RetransmitSound(s: State, e: Env, expired: int)
    requires Sound(s)
    ensures Sound(Retransmit(s, e, expired))
  {
    var s1 := HasFailed(s);
    var q, now := s1.ackWaitQueue, e.clock(s1.readings);
    RetriedKnown(s.queued, q, expired, now);
    hide Small;
    hide LineKnown;
    hide FramesKnown;
    hide Retried;
    hide Resent;
    hide TimedOut;
    hide EmitAll;
    var s2 := s1.(readings := s1.readings + 1, failed := TimedOut(q, expired),
                  ackWaitQueue := Retried(q, expired, now));
    assert Sound(s2);
    EmitAllSound(s2, Resent(q, expired));
    assert Small([], PACKET) by { NothingSmall(); }
  }

  lemma NothingSmall()
    ensures Small([], PACKET)
  {
  }

  lemma DataSound(s: State, e: Env, number: nat, payload: seq<byte>)
    requires Sound(s) && Sane(s)
    ensures Sound(ReceiveData(s, e, number, payload))
  {
    var next := Masked(s.rxSequence + 1, s.seqMask);
    var s1 := s.(rxSequence := next, accepted := s.accepted + [payload]);
    SoundSame(s, s1);
    SendAckSound(s);
    SendAckSound(s1);
    DispatchSound(SendAck(s1), e, payload);
    hide Sound;
    hide SendAck;
    hide Dispatch;
  }

  lemma DispatchSound(s: State, e: Env, payload: seq<byte>)
    requires Sound(s) && Sane(s)
    ensures Sound(Dispatch(s, e, payload))
  {
    if |payload| == 3 && payload[0] == 0 && payload[2] == 2 {
      var c := payload[1];
      var s1 := s.(xoff := s.xoff - {c}, holdQueue := ForChannel(s.holdQueue, c, e.stale, false));
      ForChannelSmall(s.holdQueue, c, e.stale, true);
      ForChannelSmall(s.holdQueue, c, e.stale, false);
      assert Sound(s1);
      TransmitAllSound(s1, e, ForChannel(s.holdQueue, c, e.stale, true));
      hide TransmitAll;
      hide ForChannel;
      hide Small;
    } else {
      SoundSame(s, Dispatch(s, e, payload));
    }
    hide Sound;
  }

  lemma AckFoundSound(s: State, i: nat)
    requires Sound(s) && Sane(s) && i < |s.ackWaitQueue|
    ensures Sound(AckFound(s, i))
  {
    var q := s.ackWaitQueue;
    EraseKnown(s.queued, q, i);
    NotOlderKnown(s.queued, Erase(q, i), q[i].stamp);
    NothingNotOlder(q[i].stamp);
    NothingSmall();
    hide Small;
    hide LineKnown;
    hide NotOlder;
    hide Erase;
  }

  lemma AckUnmatchedSound(s: State, e: Env, number: nat)
    requires Sound(s)
    ensures Sound(AckUnmatched(s, e, number))
  {
    var q, i := s.ackWaitQueue, Find(s.ackWaitQueue, number + 1);
    if i < |q| {
      EraseKnown(s.queued, q, i);
      var el := q[i];
      var s1 := s.(readings := s.readings + 1,
                   ackWaitQueue := q[i := el.(txcount := el.txcount - 1, stamp := e.clock(s.readings))]);
      assert Known(s.queued, el.data, el.serial);
      hide Small;
      hide LineKnown;
      hide Known;
      assert Sound(s1);
      EmitSound(s1, Frame(el.data, el.serial));
    }
    hide Emit;
    hide Find;
    hide Erase;
  }

  lemma AckSound(s: State, e: Env, number: nat)
    requires Sound(s) && Sane(s)
    ensures Sound(ReceiveAck(s, e, number))
  {
    var i := Find(s.ackWaitQueue, number);
    AckUnmatchedSound(s, e, number);
    hide AckUnmatched;
    hide TransmitAll;
    hide Find;
    if i < |s.ackWaitQueue| {
      AckFoundSound(s, i);
      var s1 := AckFound(s, i);
      NothingSmall();
      hide AckFound;
      assert Sound(s1.(waitQueue := []));
      TransmitAllSound(s1.(waitQueue := []), e, s1.waitQueue);
    }
    hide Sound;
  }

  lemma NewLinkSound(s: State, e: Env, number: nat)
    requires Sound(s) && Sane(s) && |e.magic| == 4
    ensures Sound(ReceiveNewLink(s, e, number))
  {
    var i := FindReqReq(s.ackWaitQueue, e.stale);
    NothingSmall();
    hide SendAck;
    hide SendReqCon;
    hide FindReqReq;
    if number > 3 && i < |s.ackWaitQueue| {
      EraseKnown(s.queued, s.ackWaitQueue, i);
      hide Erase;
      var s1 := SetLink(s.(ackWaitQueue := Erase(s.ackWaitQueue, i)), Epoc).(rxSequence := 0, txSequence := 1);
      assert Sound(s1);
      SendAckSound(s1);
    } else if number > 0 {
      var s1 := SetLink(s, Epoc).(rxSequence := 0, txSequence := 0);
      SoundSame(s, s1);
      ReqSound(s1, e);
    } else {
      var s1 := PurgeAllQueues(SetLink(s, Sibo).(rxSequence := 0, txSequence := 1));
      assert Sound(s1);
      SendAckSound(s1);
    }
    hide Sound;
  }

  lemma ApplySound(s: State, e: Env, op: Op)
    requires Sound(s) && Sane(s) && |e.magic| == 4
    ensures Sound(Apply(s, e, op))
  {
    match op {
      case Submit(buf) =>
        SoundSame(s, s.(failed := true));
        if |buf| <= PACKET {
          TransmitSound(s, e, buf);
        }
        hide Transmit;
        hide Sound;
      case Arrive(frame) =>
        match Decode(frame, e.stale) {
          case Data(number, payload) => DataSound(s, e, number, payload);
          case Ack(number) => AckSound(s, e, number);
          case NewLink(number) => NewLinkSound(s, e, number);
          case Disconnect => SoundSame(s, s.(failed := true));
          case Unknown =>
        }
        hide ReceiveData;
        hide ReceiveAck;
        hide ReceiveNewLink;
        hide Sound;
      case Timer(expired) =>
        RetransmitSound(s, e, expired);
        hide Retransmit;
        hide Sound;
      case LineStatus(down) =>
        SoundSame(s, s.(lineDown := down));
      case DoReset =>
        NothingSmall();
        assert Sound(Cleared(s));
        ReqSound(Cleared(s), e);
        hide SendReqReq;
        hide Sound;
      case Purge(channel) =>
        WithoutFirstByteKnown(s.queued, s.ackWaitQueue, channel, e.stale);
        ForChannelSmall(s.holdQueue, channel, e.stale, false);
        hide Small;
        hide LineKnown;
        hide WithoutFirstByte;
        hide ForChannel;
    }
  }

  lemma {:induction false} RunSound(s: State, e: Env, ops: seq<Op>)
    requires Sound(s) && Sane(s) && |e.magic| == 4
    ensures Sound(RunLink(s, e, ops))
    decreases |ops|
  {
    hide Sound;
    hide Apply;
    if ops != [] {
      ApplySound(s, e, ops[0]);
      ApplySane(s, e, ops[0]);
      RunSound(Apply(s, e, ops[0]), e, ops[1..]);
    }
  }

  /**
   * In every run from the start of a link, whatever arrives, each frame sent is an acknowledgement or the
   * frame of the packet queued under its serial, and has at most 302 bytes.
   */
  lemma EveryFrameIsKnown(e: Env, ops: seq<Op>, i: nat)
    requires |e.magic| == 4 && Sane(Initial(e)) && i < |RunLink(Initial(e), e, ops).line|
    ensures var s := RunLink(Initial(e), e, ops);
            && (s.line[i].serial == ACK || Known(s.queued, s.line[i].data, s.line[i].serial))
            && |s.line[i].data| <= FRAME
  {
    InitialSound(e);
    RunSound(Initial(e), e, ops);
    hide Initial;
    hide RunLink;
    var s := RunLink(Initial(e), e, ops);
    assert SentKnown(s.queued, s.line[i]);
  }

  lemma InitialSound(e: Env)
    requires |e.magic| == 4
    ensures Sound(Initial(e))
  {
    ReqSound(State(1, -1, 7, 1, false, UnknownLink, [], [], [], {}, false, 0, [], [], [], [], 0, []), e);
    hide SendReqReq;
    hide SendReqCon;
  }
}
