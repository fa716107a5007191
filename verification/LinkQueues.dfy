/**
 * What happens to the packets given to one link (lib/link.cc): none is lost or doubled between the
 * hold queue, the wait queue and the numbered ones, and in what order they are numbered.
 */
module LinkQueues {
  import opened Bytes
  import opened Packets
  import opened LinkSpec
  import opened LinkModes
  import Network

  /** Operations within one session: no reset, no purge, no handshake, no disconnect. */
  predicate InSession(op: Op, stale: byte) {
    match op
    case Submit(_) => true
    case Timer(_) => true
    case LineStatus(_) => true
    case Arrive(frame) =>
      var p := Decode(frame, stale);
      p.Data? || p.Ack? || p.Unknown?
    case DoReset => false
    case Purge(_) => false
  }

  predicate SessionRun(ops: seq<Op>, stale: byte) {
    forall i :: 0 <= i < |ops| ==> InSession(ops[i], stale)
  }

  /** The packets an operation submits. */
  function Given(op: Op): seq<seq<byte>> {
    if op.Submit? then [op.buf] else []
  }

  function Submitted(ops: seq<Op>): seq<seq<byte>> {
    if ops == [] then [] else Given(ops[0]) + Submitted(ops[1..])
  }

  function PayloadsOf(ns: seq<Numbered>): seq<seq<byte>> {
    if ns == [] then [] else PayloadsOf(ns[..|ns| - 1]) + [ns[|ns| - 1].payload]
  }

  /** Where the packets of a link are: held back by flow control, waiting for the window, or numbered. */
  ghost function Bag(s: State): multiset<seq<byte>> {
    multiset(s.holdQueue) + multiset(s.waitQueue) + multiset(PayloadsOf(s.numbered))
  }

  // ---------------------------------------------------------------- conservation

  /** From s to s' nothing happened to the packets, but that those in `bufs` joined; or the link failed. */
  ghost predicate Conserves(s: State, s': State, bufs: seq<seq<byte>>) {
    && s'.linkType == s.linkType && s'.maxOutstanding == s.maxOutstanding
    && (s.failed ==> s'.failed)
    && (!s'.failed ==> Bag(s') == Bag(s) + multiset(bufs))
  }

  lemma ConservesTwice(s: State, s': State, s'': State, bufs: seq<seq<byte>>, bufs': seq<seq<byte>>)
    requires Conserves(s, s', bufs) && Conserves(s', s'', bufs')
    ensures Conserves(s, s'', bufs + bufs')
  {
    hide Bag;
  }

  lemma ConservesAfter(s: State, s': State, s'': State)
    requires Conserves(s, s', []) && Conserves(s', s'', [])
    ensures Conserves(s, s'', [])
  {
    hide Bag;
  }

  lemma ConservesNothing(s: State, s': State)
    requires s'.linkType == s.linkType && s'.maxOutstanding == s.maxOutstanding && (s.failed ==> s'.failed)
    requires s'.holdQueue == s.holdQueue && s'.waitQueue == s.waitQueue && s'.numbered == s.numbered
    ensures Conserves(s, s', [])
  {
    hide PayloadsOf;
  }

  lemma NumberedOneMore(ns: seq<Numbered>, n: Numbered)
    ensures PayloadsOf(ns + [n]) == PayloadsOf(ns) + [n.payload]
  {
    assert (ns + [n])[..|ns|] == ns;
  }

  lemma NumberConserves(s: State, e: Env, buf: seq<byte>)
    requires Sane(s)
    ensures Conserves(s, Number(s, e, buf), [buf])
  {
    NumberedOneMore(s.numbered, Numbered(buf, e.clock(s.readings)));
    hide PayloadsOf;
    hide DataFrame;
    hide RequestFrame;
  }

  lemma TransmitConserves(s: State, e: Env, buf: seq<byte>)
    requires Sane(s)
    ensures Conserves(s, Transmit(s, e, buf), [buf])
  {
    var s1 := HasFailed(s);
    hide Number;
    hide ByteAt;
    if s1.failed {
    } else if ByteAt(buf, 0, e.stale) in s1.xoff {
      OneMore(s.holdQueue, buf, multiset(s.waitQueue), multiset(PayloadsOf(s.numbered)));
    } else if |s1.ackWaitQueue| >= s1.maxOutstanding {
      OneMore(s.waitQueue, buf, multiset(s.holdQueue), multiset(PayloadsOf(s.numbered)));
    } else {
      hide Bag;
      NumberConserves(s1, e, buf);
    }
    hide PayloadsOf;
  }

  /** A packet joins one of the three places where packets are. */
  lemma OneMore(q: seq<seq<byte>>, buf: seq<byte>, m: multiset<seq<byte>>, n: multiset<seq<byte>>)
    ensures multiset(q + [buf]) + m + n == multiset(q) + m + n + multiset([buf])
    ensures m + multiset(q + [buf]) + n == m + multiset(q) + n + multiset([buf])
  {
  }

  lemma {:induction false} TransmitAllConserves(s: State, e: Env, bufs: seq<seq<byte>>)
    requires Sane(s)
    ensures Conserves(s, TransmitAll(s, e, bufs), bufs)
    decreases |bufs|
  {
    if bufs == [] {
      ConservesNothing(s, s);
    } else {
      var s1 := Transmit(s, e, bufs[0]);
      TransmitConserves(s, e, bufs[0]);
      TransmitAllConserves(s1, e, bufs[1..]);
      assert [bufs[0]] + bufs[1..] == bufs;
      hide Conserves;
      hide Transmit;
      ConservesTwice(s, s1, TransmitAll(s, e, bufs), [bufs[0]], bufs[1..]);
    }
  }

  /** Taking one channel's packets out of a queue splits it in two. */
  lemma {:induction false} ForChannelSplits(q: seq<seq<byte>>, channel: byte, stale: byte)
    ensures multiset(q)
            == multiset(ForChannel(q, channel, stale, true)) + multiset(ForChannel(q, channel, stale, false))
    decreases |q|
  {
    if q != [] {
      var t := q[1..];
      ForChannelSplits(t, channel, stale);
      assert q == [q[0]] + t;
      assert multiset(q) == multiset([q[0]]) + multiset(t);
      hide ByteAt;
      ForChannelHead(q, channel, stale);
      hide ForChannel;
    }
  }

  lemma ForChannelHead(q: seq<seq<byte>>, channel: byte, stale: byte)
    requires q != []
    ensures var yes, no := ForChannel(q[1..], channel, stale, true), ForChannel(q[1..], channel, stale, false);
            if ByteAt(q[0], 0, stale) == channel
            then ForChannel(q, channel, stale, true) == [q[0]] + yes && ForChannel(q, channel, stale, false) == no
            else ForChannel(q, channel, stale, true) == yes && ForChannel(q, channel, stale, false) == [q[0]] + no
  {
  }

  /** All the buffers of a queue are for the channel, or none is. */
  predicate Only(q: seq<seq<byte>>, channel: byte, stale: byte, yes: bool) {
    forall i :: 0 <= i < |q| ==> (ByteAt(q[i], 0, stale) == channel) == yes
  }

  lemma OnlyMore(b: seq<byte>, q: seq<seq<byte>>, channel: byte, stale: byte, yes: bool)
    requires (ByteAt(b, 0, stale) == channel) == yes && Only(q, channel, stale, yes)
    ensures Only([b] + q, channel, stale, yes)
  {
    hide ByteAt;
    assert forall i :: 0 < i < |[b] + q| ==> ([b] + q)[i] == q[i - 1];
  }

  lemma {:induction false} ForChannelOnly(q: seq<seq<byte>>, channel: byte, stale: byte, yes: bool)
    ensures Only(ForChannel(q, channel, stale, yes), channel, stale, yes)
    decreases |q|
  {
    if q != [] {
      var t := ForChannel(q[1..], channel, stale, yes);
      ForChannelOnly(q[1..], channel, stale, yes);
      hide ByteAt;
      hide Only;
      if (ByteAt(q[0], 0, stale) == channel) == yes {
        OnlyMore(q[0], t, channel, stale, yes);
        assert ForChannel(q, channel, stale, yes) == [q[0]] + t;
      } else {
        assert ForChannel(q, channel, stale, yes) == t;
      }
    }
  }

  lemma HoldQueueConserves(s: State, e: Env, channel: byte)
    requires Sane(s)
    ensures Conserves(s, TransmitHoldQueue(s, e, channel), [])
  {
    var yes := ForChannel(s.holdQueue, channel, e.stale, true);
    var no := ForChannel(s.holdQueue, channel, e.stale, false);
    ForChannelSplits(s.holdQueue, channel, e.stale);
    TransmitAllConserves(s.(holdQueue := no), e, yes);
    hide PayloadsOf;
    hide ForChannel;
    hide TransmitAll;
  }

  lemma WaitQueueConserves(s: State, e: Env)
    requires Sane(s)
    ensures Conserves(s, TransmitWaitQueue(s, e), [])
  {
    TransmitAllConserves(s.(waitQueue := []), e, s.waitQueue);
    hide PayloadsOf;
    hide TransmitAll;
  }

  lemma SendAckConserves(s: State)
    requires Sane(s)
    ensures Conserves(s, SendAck(s), [])
  {
    hide AckFrame;
    ConservesNothing(s, SendAck(s));
  }

  lemma DataConserves(s: State, e: Env, number: nat, payload: seq<byte>)
    requires Sane(s)
    ensures Conserves(s, ReceiveData(s, e, number, payload), [])
  {
    hide Conserves;
    var next := Masked(s.rxSequence + 1, s.seqMask);
    if next == number {
      var s1 := s.(rxSequence := next, accepted := s.accepted + [payload]);
      var s2 := SendAck(s1);
      var s3 := Dispatch(s2, e, payload);
      ConservesNothing(s, s1);
      SendAckConserves(s1);
      DispatchConserves(s2, e, payload);
      hide SendAck;
      hide Dispatch;
      ConservesAfter(s, s1, s2);
      ConservesAfter(s, s2, s3);
    } else {
      SendAckConserves(s);
    }
  }

  lemma DispatchConserves(s: State, e: Env, payload: seq<byte>)
    requires Sane(s)
    ensures Conserves(s, Dispatch(s, e, payload), [])
  {
    hide Conserves;
    hide TransmitHoldQueue;
    if |payload| == 3 && payload[0] == 0 && payload[2] == 2 {
      var s1 := s.(xoff := s.xoff - {payload[1]});
      ConservesNothing(s, s1);
      HoldQueueConserves(s1, e, payload[1]);
      ConservesAfter(s, s1, TransmitHoldQueue(s1, e, payload[1]));
    } else {
      ConservesNothing(s, Dispatch(s, e, payload));
    }
  }

  lemma AckConserves(s: State, e: Env, number: nat)
    requires Sane(s) && s.linkType != UnknownLink
    ensures Conserves(s, ReceiveAck(s, e, number), [])
  {
    hide Conserves;
    hide TransmitAll;
    hide NotOlder;
    hide Find;
    var i := Find(s.ackWaitQueue, number);
    if i < |s.ackWaitQueue| {
      var s1 := AckFound(s, i);
      ConservesNothing(s, s1);
      WaitQueueConserves(s1, e);
      ConservesAfter(s, s1, TransmitWaitQueue(s1, e));
    } else {
      ConservesNothing(s, AckUnmatched(s, e, number));
    }
  }

  lemma TimerConserves(s: State, e: Env, expired: int)
    requires Sane(s)
    ensures Conserves(s, Retransmit(s, e, expired), [])
    ensures !Retransmit(s, e, expired).failed ==>
              && Retransmit(s, e, expired).xoff == s.xoff
              && Retransmit(s, e, expired).gaveUp == s.gaveUp
              && !TimedOut(s.ackWaitQueue, expired)
              && Retransmit(s, e, expired).ackWaitQueue
                 == Retried(s.ackWaitQueue, expired, e.clock(s.readings))
  {
    hide Conserves;
    hide TimedOut;
    var s1 := HasFailed(s);
    if s1.failed {
      FailedConserves(s, Retransmit(s, e, expired));
    } else {
      var q := s1.ackWaitQueue;
      var s2 := s1.(readings := s1.readings + 1, failed := TimedOut(q, expired),
                    ackWaitQueue := Retried(q, expired, e.clock(s1.readings)));
      EmitAllLine(s2, Resent(q, expired));
      hide EmitAll;
      hide Retried;
      hide Resent;
      ConservesNothing(s, Retransmit(s, e, expired));
    }
  }

  lemma FailedConserves(s: State, s': State)
    requires s'.linkType == s.linkType && s'.maxOutstanding == s.maxOutstanding && s'.failed
    ensures Conserves(s, s', [])
  {
    hide Bag;
  }

  lemma ApplyConserves(s: State, e: Env, op: Op)
    requires Sane(s) && s.linkType != UnknownLink && InSession(op, e.stale)
    ensures Conserves(s, Apply(s, e, op), Given(op))
  {
    hide Bag;
    match op {
      case Submit(buf) =>
        hide Transmit;
        TransmitConserves(s, e, buf);
      case Timer(expired) =>
        hide Retransmit;
        TimerConserves(s, e, expired);
      case LineStatus(down) =>
        ConservesNothing(s, s.(lineDown := down));
      case Arrive(frame) =>
        hide ReceiveData;
        hide ReceiveAck;
        match Decode(frame, e.stale) {
          case Data(number, payload) => DataConserves(s, e, number, payload);
          case Ack(number) => AckConserves(s, e, number);
          case _ => ConservesNothing(s, s);
        }
    }
  }

  /**
   * In every run within a session that does not end in failure, each packet submitted is in exactly one of
   * the hold queue, the wait queue and the numbered packets, as often as it was submitted.
   */
  lemma {:induction false} RunConserves(s: State, e: Env, ops: seq<Op>)
    requires Sane(s) && s.linkType != UnknownLink && SessionRun(ops, e.stale)
    ensures Conserves(s, RunLink(s, e, ops), Submitted(ops))
    decreases |ops|
  {
    if ops == [] {
      ConservesNothing(s, s);
    } else {
      assert InSession(ops[0], e.stale);
      ApplyConserves(s, e, ops[0]);
      var s1 := Apply(s, e, ops[0]);
      assert forall i :: 0 <= i < |ops[1..]| ==> ops[1..][i] == ops[i + 1];
      assert s1.linkType == s.linkType;
      ApplySane(s, e, ops[0]);
      RunConserves(s1, e, ops[1..]);
      hide Conserves;
      hide Apply;
      ConservesTwice(s, s1, RunLink(s, e, ops), Given(ops[0]), Submitted(ops[1..]));
    }
  }

  // ---------------------------------------------------------------- order

  function Min(a: int, b: int): int {
    if a < b then a else b
  }

  /** How many more packets the window admits. */
  function Admitted(s: State, n: nat): (k: nat)
    ensures k <= n
  {
    if |s.ackWaitQueue| >= s.maxOutstanding then 0 else Min(n, s.maxOutstanding - |s.ackWaitQueue|)
  }

  predicate Open(s: State, bufs: seq<seq<byte>>, stale: byte) {
    forall i :: 0 <= i < |bufs| ==> ByteAt(bufs[i], 0, stale) !in s.xoff
  }

  /** On a link that is up: what the window admits is numbered, the rest waits, all in order. */
  predicate Admits(s: State, s': State, bufs: seq<seq<byte>>) {
    var k := Admitted(s, |bufs|);
    && s'.maxOutstanding == s.maxOutstanding && s'.xoff == s.xoff && s'.holdQueue == s.holdQueue
    && s'.failed == s.failed && s'.lineDown == s.lineDown && s'.gaveUp == s.gaveUp
    && |s'.ackWaitQueue| == |s.ackWaitQueue| + k
    && PayloadsOf(s'.numbered) == PayloadsOf(s.numbered) + bufs[..k]
    && s'.waitQueue == s.waitQueue + bufs[k..]
  }

  lemma TransmitAdmits(s: State, e: Env, buf: seq<byte>)
    requires Sane(s) && !s.failed && !s.lineDown && ByteAt(buf, 0, e.stale) !in s.xoff
    ensures Admits(s, Transmit(s, e, buf), [buf])
  {
    NumberedOneMore(s.numbered, Numbered(buf, e.clock(s.readings)));
    hide PayloadsOf;
    hide DataFrame;
    hide RequestFrame;
    hide ByteAt;
    assert [buf][..0] == [] && [buf][0..] == [buf] && [buf][..1] == [buf] && [buf][1..] == [];
  }

  lemma AdmitsMore(s: State, s': State, s'': State, buf: seq<byte>, bufs: seq<seq<byte>>)
    requires Admits(s, s', [buf]) && Admits(s', s'', bufs)
    ensures Admits(s, s'', [buf] + bufs)
  {
    hide PayloadsOf;
    var all := [buf] + bufs;
    var k, k', k'' := Admitted(s, 1), Admitted(s', |bufs|), Admitted(s, |all|);
    assert k'' == k + k';
    if k == 0 {
      assert [buf][0..] == [buf] && bufs[0..] == bufs && all[0..] == all;
      assert s''.waitQueue == s.waitQueue + [buf] + bufs;
    } else {
      assert [buf][..1] == [buf] && [buf][1..] == [];
      assert all[..k''] == [buf] + bufs[..k'] && all[k''..] == bufs[k'..];
    }
  }

  lemma {:induction false} TransmitAllAdmits(s: State, e: Env, bufs: seq<seq<byte>>)
    requires Sane(s) && !s.failed && !s.lineDown && Open(s, bufs, e.stale)
    ensures Admits(s, TransmitAll(s, e, bufs), bufs)
    decreases |bufs|
  {
    if bufs == [] {
      assert bufs[..0] == [] && bufs[0..] == [];
    } else {
      var s1 := Transmit(s, e, bufs[0]);
      TransmitAdmits(s, e, bufs[0]);
      hide Transmit;
      hide PayloadsOf;
      TransmitAllAdmits(s1, e, bufs[1..]);
      AdmitsMore(s, s1, TransmitAll(s1, e, bufs[1..]), bufs[0], bufs[1..]);
      assert [bufs[0]] + bufs[1..] == bufs;
    }
  }

  /**
   * When a channel is let go, its held packets leave in the order they were submitted: the first ones are
   * numbered, the others join the end of the wait queue; the packets of other channels stay, in order.
   */
  lemma HoldQueueAdmits(s: State, e: Env, channel: byte)
    requires Sane(s) && !s.failed && !s.lineDown && channel !in s.xoff
    ensures Admits(s.(holdQueue := ForChannel(s.holdQueue, channel, e.stale, false)), TransmitHoldQueue(s, e, channel),
                   ForChannel(s.holdQueue, channel, e.stale, true))
  {
    ForChannelOnly(s.holdQueue, channel, e.stale, true);
    hide ByteAt;
    assert Open(s.(holdQueue := ForChannel(s.holdQueue, channel, e.stale, false)),
                ForChannel(s.holdQueue, channel, e.stale, true), e.stale);
    hide Open;
    hide Admits;
    hide ForChannel;
    hide TransmitAll;
    TransmitAllAdmits(s.(holdQueue := ForChannel(s.holdQueue, channel, e.stale, false)), e,
                      ForChannel(s.holdQueue, channel, e.stale, true));
  }

  /** Packets only wait while the window is full, and none is held back. */
  predicate Tight(s: State) {
    s.holdQueue == [] && s.xoff == {} && (s.waitQueue != [] ==> |s.ackWaitQueue| >= s.maxOutstanding)
  }

  /** The numbered packets in order, then those that wait. */
  function Stream(s: State): seq<seq<byte>> {
    PayloadsOf(s.numbered) + s.waitQueue
  }

  /** From s to s' the packets in `bufs` joined the end; or the link failed, or gave up a packet. */
  predicate InOrder(s: State, s': State, bufs: seq<seq<byte>>) {
    && (s.failed ==> s'.failed) && s.gaveUp <= s'.gaveUp
    && (s'.failed || s'.gaveUp > s.gaveUp
        || (s'.linkType == s.linkType && Tight(s') && Stream(s') == Stream(s) + bufs))
  }

  lemma InOrderAfter(s: State, s': State, s'': State)
    requires InOrder(s, s', []) && InOrder(s', s'', [])
    ensures InOrder(s, s'', [])
  {
    hide Tight;
    assert Stream(s) + [] + [] == Stream(s) + [];
    hide Stream;
  }

  /** Packets that find every earlier one numbered, or the window full, keep the order. */
  lemma AdmitsInOrder(s: State, s': State, bufs: seq<seq<byte>>)
    requires Tight(s) && Admits(s, s', bufs) && s'.linkType == s.linkType
    ensures InOrder(s, s', bufs)
  {
    hide PayloadsOf;
    var k := Admitted(s, |bufs|);
    assert bufs == bufs[..k] + bufs[k..];
    if s.waitQueue == [] {
      assert Stream(s') == PayloadsOf(s.numbered) + bufs[..k] + bufs[k..];
      assert Stream(s) == PayloadsOf(s.numbered);
    } else {
      assert k == 0 && bufs[..0] == [] && bufs[0..] == bufs;
    }
  }

  lemma TransmitAllLinkType(s: State, e: Env, bufs: seq<seq<byte>>)
    requires Sane(s)
    ensures TransmitAll(s, e, bufs).linkType == s.linkType
    ensures s.failed ==> TransmitAll(s, e, bufs).failed
  {
    TransmitAllConserves(s, e, bufs);
    hide TransmitAll;
    hide Bag;
  }

  lemma {:induction false} TransmitAllFails(s: State, e: Env, bufs: seq<seq<byte>>)
    requires Sane(s) && (s.failed || s.lineDown)
    ensures bufs != [] ==> TransmitAll(s, e, bufs).failed
    ensures TransmitAll(s, e, bufs).gaveUp == s.gaveUp
    decreases |bufs|
  {
    if bufs != [] {
      var s1 := Transmit(s, e, bufs[0]);
      assert s1.failed && s1.gaveUp == s.gaveUp;
      TransmitAllFails(s1, e, bufs[1..]);
      TransmitAllLinkType(s1, e, bufs[1..]);
    }
  }

  lemma AllInOrder(s: State, e: Env, bufs: seq<seq<byte>>)
    requires Sane(s) && Tight(s)
    ensures InOrder(s, TransmitAll(s, e, bufs), bufs)
  {
    TransmitAllLinkType(s, e, bufs);
    if s.failed || s.lineDown {
      TransmitAllFails(s, e, bufs);
      if bufs == [] {
        assert Stream(s) + bufs == Stream(s);
      }
      hide Stream;
      hide Tight;
    } else {
      TransmitAllAdmits(s, e, bufs);
      hide TransmitAll;
      AdmitsInOrder(s, TransmitAll(s, e, bufs), bufs);
      hide InOrder;
      hide Tight;
    }
  }

  /** Nothing happens to the packets, and no more room appears in the window than before. */
  lemma NothingInOrder(s: State, s': State)
    requires Tight(s)
    requires s'.linkType == s.linkType && s'.gaveUp == s.gaveUp && (s.failed ==> s'.failed)
    requires s'.failed || (
      && s'.numbered == s.numbered && s'.waitQueue == s.waitQueue && s'.holdQueue == s.holdQueue
      && s'.xoff == s.xoff && s'.maxOutstanding == s.maxOutstanding && |s'.ackWaitQueue| == |s.ackWaitQueue|)
    ensures InOrder(s, s', [])
  {
    assert Stream(s) + [] == Stream(s);
    hide PayloadsOf;
  }

  predicate SetsXoff(op: Op, stale: byte) {
    op.Arrive? &&
    var p := Decode(op.frame, stale);
    p.Data? && |p.payload| == 3 && p.payload[0] == 0 && p.payload[2] == 1
  }

  /** A data packet that is next in sequence. */
  predicate Takes(s: State, op: Op, stale: byte)
    requires Sane(s)
  {
    op.Arrive? &&
    var p := Decode(op.frame, stale);
    p.Data? && p.number == Masked(s.rxSequence + 1, s.seqMask)
  }

  lemma SendAckInOrder(s: State)
    requires Sane(s) && Tight(s)
    ensures InOrder(s, SendAck(s), [])
    ensures SendAck(s).ackWaitQueue == s.ackWaitQueue && SendAck(s).gaveUp == s.gaveUp
    ensures Tight(SendAck(s))
  {
    hide InOrder;
    hide AckFrame;
    NothingInOrder(s, SendAck(s));
  }

  lemma DispatchInOrder(s: State, e: Env, payload: seq<byte>)
    requires Sane(s) && Tight(s)
    requires !(|payload| == 3 && payload[0] == 0 && payload[2] == 1)
    ensures InOrder(s, Dispatch(s, e, payload), [])
  {
    hide InOrder;
    hide TransmitAll;
    if |payload| == 3 && payload[0] == 0 && payload[2] == 2 {
      var s1 := s.(xoff := s.xoff - {payload[1]});
      assert s1 == s;
      assert s.(holdQueue := []) == s;
      AllInOrder(s, e, []);
    } else {
      NothingInOrder(s, Dispatch(s, e, payload));
    }
  }

  lemma DataInOrder(s: State, e: Env, number: nat, payload: seq<byte>)
    requires Sane(s) && Tight(s)
    requires number == Masked(s.rxSequence + 1, s.seqMask) ==> !(|payload| == 3 && payload[0] == 0 && payload[2] == 1)
    ensures InOrder(s, ReceiveData(s, e, number, payload), [])
  {
    hide InOrder;
    var next := Masked(s.rxSequence + 1, s.seqMask);
    if next == number {
      var s1 := s.(rxSequence := next, accepted := s.accepted + [payload]);
      var s2 := SendAck(s1);
      var s3 := Dispatch(s2, e, payload);
      NothingInOrder(s, s1);
      SendAckInOrder(s1);
      hide SendAck;
      DispatchInOrder(s2, e, payload);
      hide Dispatch;
      hide Tight;
      InOrderAfter(s, s1, s2);
      InOrderAfter(s, s2, s3);
    } else {
      SendAckInOrder(s);
    }
  }

  /** An acknowledgement makes room, and the waiting packets take it before any later one can. */
  lemma AckInOrder(s: State, e: Env, number: nat)
    requires Sane(s) && s.linkType != UnknownLink && Tight(s)
    ensures InOrder(s, ReceiveAck(s, e, number), [])
  {
    hide TransmitAll;
    hide NotOlder;
    hide Find;
    hide PayloadsOf;
    var i := Find(s.ackWaitQueue, number);
    if i < |s.ackWaitQueue| {
      var s1 := AckFound(s, i).(waitQueue := []);
      AllInOrder(s1, e, s.waitQueue);
      assert PayloadsOf(s.numbered) + [] + s.waitQueue == PayloadsOf(s.numbered) + s.waitQueue + [];
    } else {
      hide InOrder;
      UnmatchedInOrder(s, e, number);
    }
  }

  lemma UnmatchedInOrder(s: State, e: Env, number: nat)
    requires Tight(s)
    ensures InOrder(s, AckUnmatched(s, e, number), [])
  {
    hide Find;
    hide Stream;
    hide Tight;
    var i := Find(s.ackWaitQueue, number + 1);
    var s' := AckUnmatched(s, e, number);
    if i == |s.ackWaitQueue| || s.ackWaitQueue[i].txcount != 0 {
      hide InOrder;
      NothingInOrder(s, s');
    }
  }

  lemma {:induction false} RetriedLength(q: seq<Element>, expired: int, now: int)
    requires !TimedOut(q, expired)
    ensures |Retried(q, expired, now)| == |q|
    decreases |q|
  {
    if q != [] {
      RetriedLength(q[1..], expired, now);
    }
  }

  lemma TimerInOrder(s: State, e: Env, expired: int)
    requires Sane(s) && Tight(s)
    ensures InOrder(s, Retransmit(s, e, expired), [])
  {
    hide TimedOut;
    hide Retried;
    hide Resent;
    hide InOrder;
    TimerConserves(s, e, expired);
    hide Conserves;
    var s1, s' := HasFailed(s), Retransmit(s, e, expired);
    if !s1.failed {
      var q := s1.ackWaitQueue;
      EmitAllLine(s1.(readings := s1.readings + 1, failed := TimedOut(q, expired),
                      ackWaitQueue := Retried(q, expired, e.clock(s1.readings))), Resent(q, expired));
      hide EmitAll;
      if !s'.failed {
        RetriedLength(q, expired, e.clock(s1.readings));
      }
    }
    NothingInOrder(s, s');
  }

  lemma ApplyInOrder(s: State, e: Env, op: Op)
    requires Sane(s) && s.linkType != UnknownLink && Tight(s)
    requires InSession(op, e.stale) && !(Takes(s, op, e.stale) && SetsXoff(op, e.stale))
    ensures InOrder(s, Apply(s, e, op), Given(op))
  {
    match op {
      case Submit(buf) =>
        if |buf| <= 300 {
          hide Transmit;
          AllInOrder(s, e, [buf]);
          assert [buf][1..] == [];
        }
      case Timer(expired) =>
        hide Retransmit;
        TimerInOrder(s, e, expired);
      case LineStatus(down) =>
        NothingInOrder(s, s.(lineDown := down));
      case Arrive(frame) =>
        hide ReceiveData;
        hide ReceiveAck;
        hide InOrder;
        match Decode(frame, e.stale) {
          case Data(number, payload) => DataInOrder(s, e, number, payload);
          case Ack(number) => AckInOrder(s, e, number);
          case _ => NothingInOrder(s, s);
        }
    }
  }

  lemma ApplyGaveUp(s: State, e: Env, op: Op)
    requires Sane(s)
    requires InSession(op, e.stale)
    ensures s.gaveUp <= Apply(s, e, op).gaveUp
  {
    match op {
      case Submit(_) =>
      case Timer(expired) =>
        hide Retransmit;
        Network.RetransmitSane(s, e, expired);
      case LineStatus(_) =>
      case Arrive(frame) =>
        hide Receive;
        Network.ReceiveGaveUp(s, e, frame);
    }
  }

  lemma {:induction false} RunGaveUp(s: State, e: Env, ops: seq<Op>)
    requires Sane(s) && SessionRun(ops, e.stale)
    ensures s.gaveUp <= RunLink(s, e, ops).gaveUp
    decreases |ops|
  {
    if ops != [] {
      assert InSession(ops[0], e.stale);
      ApplyGaveUp(s, e, ops[0]);
      ApplySane(s, e, ops[0]);
      hide Apply;
      assert forall i :: 0 <= i < |ops[1..]| ==> ops[1..][i] == ops[i + 1];
      RunGaveUp(Apply(s, e, ops[0]), e, ops[1..]);
    }
  }

  /** A run that ends well did not fail or give up in its first step. */
  lemma ApplyStays(s: State, e: Env, ops: seq<Op>)
    requires ops != [] && Sane(s) && s.linkType != UnknownLink && SessionRun(ops, e.stale)
    requires !RunLink(s, e, ops).failed && RunLink(s, e, ops).gaveUp == s.gaveUp
    ensures var s1 := Apply(s, e, ops[0]); s1.linkType == s.linkType && !s1.failed && s1.gaveUp == s.gaveUp
  {
    var rest := ops[1..];
    assert InSession(ops[0], e.stale);
    assert forall i :: 0 <= i < |rest| ==> rest[i] == ops[i + 1];
    ApplyConserves(s, e, ops[0]);
    ApplyGaveUp(s, e, ops[0]);
    ApplySane(s, e, ops[0]);
    hide Apply;
    hide Bag;
    RunConserves(Apply(s, e, ops[0]), e, rest);
    RunGaveUp(Apply(s, e, ops[0]), e, rest);
  }

  lemma FirstInOrder(s: State, e: Env, ops: seq<Op>)
    requires ops != [] && Sane(s) && s.linkType != UnknownLink && Tight(s) && SessionRun(ops, e.stale)
    requires !SetsXoff(ops[0], e.stale)
    requires !RunLink(s, e, ops).failed && RunLink(s, e, ops).gaveUp == s.gaveUp
    ensures var s1 := Apply(s, e, ops[0]);
            s1.linkType == s.linkType && Tight(s1) && s1.gaveUp == s.gaveUp && Stream(s1) == Stream(s) + Given(ops[0])
  {
    assert InSession(ops[0], e.stale);
    ApplyInOrder(s, e, ops[0]);
    ApplyStays(s, e, ops);
    hide Apply;
    hide RunLink;
    hide Stream;
    hide Tight;
    hide Given;
    hide SetsXoff;
  }

  /** No operation of the run stops a channel. */
  predicate NoStops(ops: seq<Op>, stale: byte) {
    forall i :: 0 <= i < |ops| ==> !SetsXoff(ops[i], stale)
  }

  lemma RestOfRun(ops: seq<Op>, stale: byte)
    requires ops != [] && SessionRun(ops, stale) && NoStops(ops, stale)
    ensures SessionRun(ops[1..], stale) && NoStops(ops[1..], stale) && !SetsXoff(ops[0], stale)
  {
    hide InSession;
    hide SetsXoff;
    assert forall i :: 0 <= i < |ops[1..]| ==> ops[1..][i] == ops[i + 1];
  }

  lemma StreamTwice(s: State, s1: State, s': State, given: seq<seq<byte>>, rest: seq<seq<byte>>)
    requires Stream(s1) == Stream(s) + given && Stream(s') == Stream(s1) + rest
    ensures Stream(s') == Stream(s) + (given + rest)
  {
    hide Stream;
  }

  /**
   * Within a session in which no channel is stopped, packets are numbered in the order they were
   * submitted, and those not numbered yet wait in that order, unless the link fails or gives up a packet.
   */
  lemma {:induction false} RunInOrder(s: State, e: Env, ops: seq<Op>)
    requires Sane(s) && s.linkType != UnknownLink && Tight(s) && SessionRun(ops, e.stale) && NoStops(ops, e.stale)
    requires var s' := RunLink(s, e, ops); !s'.failed && s'.gaveUp == s.gaveUp
    ensures Stream(RunLink(s, e, ops)) == Stream(s) + Submitted(ops)
    ensures Tight(RunLink(s, e, ops))
    decreases |ops|
  {
    if ops == [] {
      assert Stream(s) + [] == Stream(s);
    } else {
      hide Stream;
      hide Tight;
      hide Apply;
      hide SessionRun;
      hide NoStops;
      hide SetsXoff;
      RestOfRun(ops, e.stale);
      FirstInOrder(s, e, ops);
      ApplySane(s, e, ops[0]);
      var s1 := Apply(s, e, ops[0]);
      RunInOrder(s1, e, ops[1..]);
      StreamTwice(s, s1, RunLink(s, e, ops), Given(ops[0]), Submitted(ops[1..]));
    }
  }
}
