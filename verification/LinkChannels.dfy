/**
 * The order of one channel's packets through flow control (lib/link.cc:466-559): kept in every run in which
 * the channel is never stopped while one of its packets waits for the window, and, when the waiting packets of
 * a stopped channel are put aside, kept exactly if none waits or none is held already.
 */
module LinkChannels {
  import opened Bytes
  import opened Packets
  import opened LinkSpec
  import opened LinkModes
  import opened LinkQueues
  import Arq

  /** The packets of a channel among others, in order. */
  function Of(bufs: seq<seq<byte>>, c: byte, stale: byte): seq<seq<byte>> {
    ForChannel(bufs, c, stale, true)
  }

  /** A channel's packets in the order they should be sent: numbered, waiting for the window, held back. */
  function ChannelStream(s: State, c: byte, stale: byte): seq<seq<byte>> {
    Of(PayloadsOf(s.numbered), c, stale) + Of(s.waitQueue, c, stale) + Of(s.holdQueue, c, stale)
  }

  /** Packets only wait while the window is full, and of one channel either none is held back or none waits. */
  predicate Orderly(s: State, c: byte, stale: byte) {
    && (s.waitQueue != [] ==> |s.ackWaitQueue| >= s.maxOutstanding)
    && (Of(s.holdQueue, c, stale) != [] ==> c in s.xoff)
    && (c in s.xoff ==> Of(s.waitQueue, c, stale) == [])
  }

  // ---------------------------------------------------------------- filters

  /** The first buffer, if it is wanted. */
  function HeadFor(q: seq<seq<byte>>, c: byte, stale: byte, yes: bool): seq<seq<byte>>
    requires q != []
  {
    if (ByteAt(q[0], 0, stale) == c) == yes then [q[0]] else []
  }

  lemma HeadForFirst(q: seq<seq<byte>>, c: byte, stale: byte, yes: bool)
    requires q != []
    ensures ForChannel(q, c, stale, yes) == HeadFor(q, c, stale, yes) + ForChannel(q[1..], c, stale, yes)
  {
    hide ByteAt;
  }

  lemma {:induction false} ForChannelSplit(a: seq<seq<byte>>, b: seq<seq<byte>>, c: byte, stale: byte, yes: bool)
    ensures ForChannel(a + b, c, stale, yes) == ForChannel(a, c, stale, yes) + ForChannel(b, c, stale, yes)
    decreases |a|
  {
    if a == [] {
      assert a + b == b;
    } else {
      ForChannelSplit(a[1..], b, c, stale, yes);
      HeadOfBoth(a, b);
      var head := HeadFor(a, c, stale, yes);
      assert head == HeadFor(a + b, c, stale, yes);
      HeadForFirst(a, c, stale, yes);
      HeadForFirst(a + b, c, stale, yes);
      hide *;
      Regrouped(head, ForChannel(a[1..], c, stale, yes), ForChannel(b, c, stale, yes));
    }
  }

  lemma OfOne(buf: seq<byte>, c: byte, stale: byte)
    ensures Of([buf], c, stale) == if ByteAt(buf, 0, stale) == c then [buf] else []
  {
    assert [buf][1..] == [];
    assert ForChannel([], c, stale, true) == [];
  }

  lemma OfNone(c: byte, stale: byte)
    ensures Of([], c, stale) == []
  {
  }

  /** Taking out one channel: of that channel nothing is left and all is taken, of another all is left. */
  lemma {:induction false} OfParts(q: seq<seq<byte>>, c: byte, d: byte, stale: byte)
    ensures Of(ForChannel(q, d, stale, false), c, stale) == if c == d then [] else Of(q, c, stale)
    ensures Of(ForChannel(q, d, stale, true), c, stale) == if c == d then Of(q, c, stale) else []
    decreases |q|
  {
    if q != [] {
      var b, t := q[0], q[1..];
      OfParts(t, c, d, stale);
      ForChannelHead(q, d, stale);
      ForChannelHead(q, c, stale);
      OfOne(b, c, stale);
      ForChannelSplit([b], ForChannel(t, d, stale, true), c, stale, true);
      ForChannelSplit([b], ForChannel(t, d, stale, false), c, stale, true);
      hide ByteAt;
      hide ForChannel;
    } else {
      OfNone(c, stale);
    }
  }

  // ---------------------------------------------------------------- one packet

  /** From s to s' the channel's packets in `bufs` joined the end; or the link failed, or gave up a packet. */
  predicate Ordered(s: State, s': State, c: byte, stale: byte, bufs: seq<seq<byte>>) {
    && (s.failed ==> s'.failed) && s.gaveUp <= s'.gaveUp
    && (s'.failed || s'.gaveUp > s.gaveUp
        || (s'.linkType == s.linkType && Orderly(s', c, stale)
            && ChannelStream(s', c, stale) == ChannelStream(s, c, stale) + Of(bufs, c, stale)))
  }

  lemma OrderedTwice(s: State, s': State, s'': State, c: byte, stale: byte, bufs: seq<seq<byte>>, bufs': seq<seq<byte>>)
    requires Ordered(s, s', c, stale, bufs)
    requires s'.failed ==> s''.failed
    requires s'.gaveUp <= s''.gaveUp
    requires !s'.failed && s'.gaveUp == s.gaveUp ==> Ordered(s', s'', c, stale, bufs')
    ensures Ordered(s, s'', c, stale, bufs + bufs')
  {
    ForChannelSplit(bufs, bufs', c, stale, true);
    hide Orderly;
    var x, y, z := ChannelStream(s, c, stale), Of(bufs, c, stale), Of(bufs', c, stale);
    assert x + y + z == x + (y + z);
    hide ChannelStream;
    hide ForChannel;
  }

  lemma NumberedMore(ns: seq<Numbered>, n: Numbered, c: byte, stale: byte)
    ensures Of(PayloadsOf(ns + [n]), c, stale) == Of(PayloadsOf(ns), c, stale) + Of([n.payload], c, stale)
  {
    NumberedOneMore(ns, n);
    ForChannelSplit(PayloadsOf(ns), [n.payload], c, stale, true);
    hide PayloadsOf;
    hide ForChannel;
  }

  lemma OfMore(bufs: seq<seq<byte>>, buf: seq<byte>, c: byte, stale: byte)
    ensures Of(bufs + [buf], c, stale) == Of(bufs, c, stale) + Of([buf], c, stale)
  {
    ForChannelSplit(bufs, [buf], c, stale, true);
    hide ForChannel;
  }

  /** A packet is numbered, waits or is held: always behind those of its channel. */
  lemma TransmitOrdered(s: State, e: Env, buf: seq<byte>, c: byte)
    requires Sane(s) && Orderly(s, c, e.stale)
    ensures Ordered(s, Transmit(s, e, buf), c, e.stale, [buf])
  {
    var stale, s1 := e.stale, HasFailed(s);
    NumberedMore(s.numbered, Numbered(buf, e.clock(s.readings)), c, stale);
    OfMore(s.waitQueue, buf, c, stale);
    OfMore(s.holdQueue, buf, c, stale);
    OfOne(buf, c, stale);
    OfNone(c, stale);
    hide Of;
    hide PayloadsOf;
    hide ByteAt;
    hide DataFrame;
    hide RequestFrame;
    Behind(Of(PayloadsOf(s.numbered), c, stale), Of(s.waitQueue, c, stale), Of(s.holdQueue, c, stale),
           Of([buf], c, stale));
  }

  /** Whichever of the last parts is empty, joining before or behind it is the same. */
  lemma Behind(n: seq<seq<byte>>, w: seq<seq<byte>>, h: seq<seq<byte>>, b: seq<seq<byte>>)
    ensures w == [] && h == [] ==> (n + b) + w + h == n + w + h + b
    ensures h == [] || b == [] ==> n + (w + b) + h == n + w + h + b
    ensures n + w + (h + b) == n + w + h + b
    ensures b == [] ==> (n + b) + w + h == n + w + h + b
  {
  }

  lemma {:induction false} TransmitAllOrdered(s: State, e: Env, bufs: seq<seq<byte>>, c: byte)
    requires Sane(s) && Orderly(s, c, e.stale)
    ensures Ordered(s, TransmitAll(s, e, bufs), c, e.stale, bufs)
    decreases |bufs|
  {
    if bufs == [] {
      OfNone(c, e.stale);
      assert ChannelStream(s, c, e.stale) + [] == ChannelStream(s, c, e.stale);
      hide ForChannel;
    } else {
      var s1, s' := Transmit(s, e, bufs[0]), TransmitAll(s, e, bufs);
      TransmitOrdered(s, e, bufs[0], c);
      TransmitAllLinkType(s1, e, bufs[1..]);
      Arq.TransmitAllGaveUp(s1, e, bufs[1..]);
      if !s1.failed && s1.gaveUp == s.gaveUp {
        assert Orderly(s1, c, e.stale);
        hide Orderly;
        TransmitAllOrdered(s1, e, bufs[1..], c);
      }
      assert [bufs[0]] + bufs[1..] == bufs;
      hide Transmit;
      hide Ordered;
      OrderedTwice(s, s1, s', c, e.stale, [bufs[0]], bufs[1..]);
    }
  }

  // ---------------------------------------------------------------- putting a stopped channel's packets aside

  /** The packets of a stopped channel are held, in order, and nothing else happens to that channel. */
  lemma {:induction false} StoppedAreHeld(s: State, e: Env, bufs: seq<seq<byte>>, c: byte)
    requires Sane(s) && !s.failed && !s.lineDown && c in s.xoff
    ensures var s' := TransmitAll(s, e, bufs);
            && Of(s'.holdQueue, c, e.stale) == Of(s.holdQueue, c, e.stale) + Of(bufs, c, e.stale)
            && Of(s'.waitQueue, c, e.stale) == Of(s.waitQueue, c, e.stale)
            && Of(PayloadsOf(s'.numbered), c, e.stale) == Of(PayloadsOf(s.numbered), c, e.stale)
    decreases |bufs|
  {
    if bufs == [] {
      OfNone(c, e.stale);
      assert Of(s.holdQueue, c, e.stale) + [] == Of(s.holdQueue, c, e.stale);
    } else {
      var s1 := Transmit(s, e, bufs[0]);
      StoppedIsHeld(s, e, bufs[0], c);
      OfFirst(bufs, c, e.stale);
      hide Transmit;
      hide Of;
      hide PayloadsOf;
      StoppedAreHeld(s1, e, bufs[1..], c);
      Regrouped(Of(s.holdQueue, c, e.stale), Of([bufs[0]], c, e.stale), Of(bufs[1..], c, e.stale));
    }
  }

  lemma OfFirst(bufs: seq<seq<byte>>, c: byte, stale: byte)
    requires bufs != []
    ensures Of(bufs, c, stale) == Of([bufs[0]], c, stale) + Of(bufs[1..], c, stale)
  {
    ForChannelSplit([bufs[0]], bufs[1..], c, stale, true);
    assert [bufs[0]] + bufs[1..] == bufs;
    hide ForChannel;
  }

  lemma StoppedIsHeld(s: State, e: Env, buf: seq<byte>, c: byte)
    requires Sane(s) && !s.failed && !s.lineDown && c in s.xoff
    ensures var s' := Transmit(s, e, buf);
            && !s'.failed && !s'.lineDown && s'.xoff == s.xoff
            && Of(s'.holdQueue, c, e.stale) == Of(s.holdQueue, c, e.stale) + Of([buf], c, e.stale)
            && Of(s'.waitQueue, c, e.stale) == Of(s.waitQueue, c, e.stale)
            && Of(PayloadsOf(s'.numbered), c, e.stale) == Of(PayloadsOf(s.numbered), c, e.stale)
  {
    NumberedMore(s.numbered, Numbered(buf, e.clock(s.readings)), c, e.stale);
    ForChannelSplit(s.waitQueue, [buf], c, e.stale, true);
    ForChannelSplit(s.holdQueue, [buf], c, e.stale, true);
    OfOne(buf, c, e.stale);
    hide ForChannel;
    hide PayloadsOf;
    hide ByteAt;
    hide DataFrame;
    hide RequestFrame;
  }

  /** Sending what waits, the channel being stopped, keeps its order exactly when the two parts commute. */
  lemma PuttingAsideOrder(s: State, e: Env, c: byte)
    requires Sane(s) && !s.failed && !s.lineDown && c in s.xoff
    ensures var w, h := Of(s.waitQueue, c, e.stale), Of(s.holdQueue, c, e.stale);
            ChannelStream(TransmitWaitQueue(s, e), c, e.stale) == ChannelStream(s, c, e.stale) <==> h + w == w + h
  {
    var s1 := s.(waitQueue := []);
    StoppedAreHeld(s1, e, s.waitQueue, c);
    OfNone(c, e.stale);
    hide Of;
    hide PayloadsOf;
    hide TransmitAll;
    SwappedEnds(Of(PayloadsOf(s.numbered), c, e.stale), Of(s.waitQueue, c, e.stale), Of(s.holdQueue, c, e.stale));
  }

  lemma SwappedEnds(n: seq<seq<byte>>, w: seq<seq<byte>>, h: seq<seq<byte>>)
    ensures n + [] + (h + w) == n + w + h <==> h + w == w + h
  {
    var x, y := h + w, w + h;
    assert n + [] + x == n + x && n + w + h == n + y;
    assert (n + x)[|n|..] == x && (n + y)[|n|..] == y;
  }

  /** For distinct packets that is: exactly when none of them waits, or none is held already. */
  lemma PuttingAsideKeepsOrder(s: State, e: Env, c: byte)
    requires Sane(s) && !s.failed && !s.lineDown && c in s.xoff
    requires forall b :: b in Of(s.waitQueue, c, e.stale) ==> b !in Of(s.holdQueue, c, e.stale)
    ensures ChannelStream(TransmitWaitQueue(s, e), c, e.stale) == ChannelStream(s, c, e.stale)
            <==> Of(s.waitQueue, c, e.stale) == [] || Of(s.holdQueue, c, e.stale) == []
  {
    PuttingAsideOrder(s, e, c);
    var w, h := Of(s.waitQueue, c, e.stale), Of(s.holdQueue, c, e.stale);
    hide Of;
    hide ChannelStream;
    if w == [] || h == [] {
      assert h + w == w + h;
    } else {
      assert (w + h)[0] == w[0] && (h + w)[0] == h[0];
      assert w[0] in w && h[0] in h;
    }
  }

  // ---------------------------------------------------------------- the operations

  /** Nothing happens to the packets, and the window does not open. */
  lemma NothingOrdered(s: State, s': State, c: byte, stale: byte)
    requires Orderly(s, c, stale)
    requires s'.linkType == s.linkType && s'.gaveUp == s.gaveUp && (s.failed ==> s'.failed)
    requires s'.failed || (
      && s'.numbered == s.numbered && s'.waitQueue == s.waitQueue && s'.holdQueue == s.holdQueue
      && s'.xoff == s.xoff && s'.maxOutstanding == s.maxOutstanding && |s'.ackWaitQueue| == |s.ackWaitQueue|)
    ensures Ordered(s, s', c, stale, [])
  {
    OfNone(c, stale);
    assert ChannelStream(s, c, stale) + [] == ChannelStream(s, c, stale);
    hide Of;
  }

  /** A channel is let go: its held packets go behind the others of it, which are all numbered. */
  lemma HoldQueueOrdered(s: State, e: Env, d: byte, c: byte)
    requires Sane(s) && Orderly(s, c, e.stale)
    ensures Ordered(s, TransmitHoldQueue(s.(xoff := s.xoff - {d}), e, d), c, e.stale, [])
  {
    var stale := e.stale;
    var s1 := s.(xoff := s.xoff - {d}, holdQueue := ForChannel(s.holdQueue, d, stale, false));
    var mine := ForChannel(s.holdQueue, d, stale, true);
    OfParts(s.holdQueue, c, d, stale);
    OfNone(c, stale);
    assert Orderly(s1, c, stale);
    TransmitAllOrdered(s1, e, mine, c);
    HeldBehind(s, s1, mine, c, stale, d == c);
    hide Of;
    hide Orderly;
    hide ForChannel;
    hide TransmitAll;
    hide ChannelStream;
  }

  /** Moving what is held of the channel, or nothing, to the end changes nothing in its stream. */
  lemma HeldBehind(s: State, s1: State, mine: seq<seq<byte>>, c: byte, stale: byte, all: bool)
    requires s1.numbered == s.numbered && s1.waitQueue == s.waitQueue
    requires Of(s1.holdQueue, c, stale) == if all then [] else Of(s.holdQueue, c, stale)
    requires Of(mine, c, stale) == if all then Of(s.holdQueue, c, stale) else []
    ensures ChannelStream(s1, c, stale) + Of(mine, c, stale) == ChannelStream(s, c, stale) + []
  {
    hide Of;
    hide PayloadsOf;
    var n, w, h := Of(PayloadsOf(s.numbered), c, stale), Of(s.waitQueue, c, stale), Of(s.holdQueue, c, stale);
    assert n + w + [] + h == n + w + h + [];
    assert n + w + h + [] == n + w + h;
  }

  lemma DispatchOrdered(s: State, e: Env, payload: seq<byte>, c: byte)
    requires Sane(s) && Orderly(s, c, e.stale)
    requires |payload| == 3 && payload[0] == 0 && payload[2] == 1 && payload[1] == c
             ==> Of(s.waitQueue, c, e.stale) == []
    ensures Ordered(s, Dispatch(s, e, payload), c, e.stale, [])
  {
    if |payload| == 3 && payload[0] == 0 && payload[2] == 2 {
      HoldQueueOrdered(s, e, payload[1], c);
      hide Ordered;
      hide TransmitHoldQueue;
    } else if |payload| == 3 && payload[0] == 0 && payload[2] == 1 {
      OfNone(c, e.stale);
      assert ChannelStream(s, c, e.stale) + [] == ChannelStream(s, c, e.stale);
      hide Of;
    } else {
      NothingOrdered(s, Dispatch(s, e, payload), c, e.stale);
    }
  }

  lemma OrderedAfter(s: State, s': State, s'': State, c: byte, stale: byte)
    requires Ordered(s, s', c, stale, []) && Ordered(s', s'', c, stale, [])
    ensures Ordered(s, s'', c, stale, [])
  {
    OrderedTwice(s, s', s'', c, stale, [], []);
    var none: seq<seq<byte>> := [];
    assert none + none == none;
  }

  lemma DataOrdered(s: State, e: Env, number: nat, payload: seq<byte>, c: byte)
    requires Sane(s) && Orderly(s, c, e.stale)
    requires number == Masked(s.rxSequence + 1, s.seqMask) && |payload| == 3 && payload[0] == 0 && payload[2] == 1
             && payload[1] == c
             ==> Of(s.waitQueue, c, e.stale) == []
    ensures Ordered(s, ReceiveData(s, e, number, payload), c, e.stale, [])
  {
    var next := Masked(s.rxSequence + 1, s.seqMask);
    hide AckFrame;
    hide Of;
    if next == number {
      var s1 := SendAck(s.(rxSequence := next, accepted := s.accepted + [payload]));
      NothingOrdered(s, s1, c, e.stale);
      assert Sane(s1) && s1.waitQueue == s.waitQueue;
      hide Ordered;
      hide Orderly;
      hide Dispatch;
      hide SendAck;
      DispatchOrdered(s1, e, payload, c);
      OrderedAfter(s, s1, Dispatch(s1, e, payload), c, e.stale);
    } else {
      NothingOrdered(s, SendAck(s), c, e.stale);
    }
  }

  lemma AckOrdered(s: State, e: Env, number: nat, c: byte)
    requires Sane(s) && s.linkType != UnknownLink && Orderly(s, c, e.stale)
    ensures Ordered(s, ReceiveAck(s, e, number), c, e.stale, [])
  {
    var i := Find(s.ackWaitQueue, number);
    hide Find;
    hide NotOlder;
    if i < |s.ackWaitQueue| {
      AckFoundOrdered(s, e, i, c);
      hide Ordered;
      hide AckFound;
      hide TransmitWaitQueue;
    } else {
      UnmatchedOrdered(s, e, number, c);
      hide Ordered;
    }
  }

  lemma AckFoundOrdered(s: State, e: Env, i: nat, c: byte)
    requires Sane(s) && s.linkType != UnknownLink && Orderly(s, c, e.stale) && i < |s.ackWaitQueue|
    ensures Ordered(s, TransmitWaitQueue(AckFound(s, i), e), c, e.stale, [])
  {
    hide NotOlder;
    var s1 := AckFound(s, i).(waitQueue := []);
    OfNone(c, e.stale);
    hide ForChannel;
    TransmitAllOrdered(s1, e, s.waitQueue, c);
    var n, w, h := Of(PayloadsOf(s.numbered), c, e.stale), Of(s.waitQueue, c, e.stale), Of(s.holdQueue, c, e.stale);
    assert ChannelStream(s1, c, e.stale) == n + [] + h;
    assert w == [] || h == [];
    assert n + [] + h + w == n + w + h + [];
    hide Of;
    hide Orderly;
    hide PayloadsOf;
    hide TransmitAll;
  }

  lemma UnmatchedOrdered(s: State, e: Env, number: nat, c: byte)
    requires Orderly(s, c, e.stale)
    ensures Ordered(s, AckUnmatched(s, e, number), c, e.stale, [])
  {
    hide Find;
    var i := Find(s.ackWaitQueue, number + 1);
    var s' := AckUnmatched(s, e, number);
    if i == |s.ackWaitQueue| || s.ackWaitQueue[i].txcount != 0 {
      NothingOrdered(s, s', c, e.stale);
    }
    hide Orderly;
    hide ChannelStream;
    hide Of;
  }

  lemma TimerOrdered(s: State, e: Env, expired: int, c: byte)
    requires Sane(s) && Orderly(s, c, e.stale)
    ensures Ordered(s, Retransmit(s, e, expired), c, e.stale, [])
  {
    TimerConserves(s, e, expired);
    hide Conserves;
    var s1, s' := HasFailed(s), Retransmit(s, e, expired);
    if !s1.failed {
      var q := s1.ackWaitQueue;
      EmitAllLine(s1.(readings := s1.readings + 1, failed := TimedOut(q, expired),
                      ackWaitQueue := Retried(q, expired, e.clock(s1.readings))), Resent(q, expired));
      if !s'.failed {
        RetriedLength(q, expired, e.clock(s1.readings));
      }
    }
    hide EmitAll;
    hide TimedOut;
    hide Retried;
    hide Resent;
    hide Ordered;
    hide Orderly;
    NothingOrdered(s, s', c, e.stale);
  }

  /** The channel is stopped while one of its packets waits for the window. */
  predicate StopsWaiting(s: State, op: Op, c: byte, stale: byte)
    requires Sane(s)
  {
    && Takes(s, op, stale) && SetsXoff(op, stale) && Decode(op.frame, stale).payload[1] == c
    && Of(s.waitQueue, c, stale) != []
  }

  lemma ApplyOrdered(s: State, e: Env, op: Op, c: byte)
    requires Sane(s) && s.linkType != UnknownLink && Orderly(s, c, e.stale)
    requires InSession(op, e.stale) && !StopsWaiting(s, op, c, e.stale)
    ensures Ordered(s, Apply(s, e, op), c, e.stale, Given(op))
  {
    hide Of;
    match op {
      case Submit(buf) =>
        TransmitOrdered(s, e, buf, c);
        hide Transmit;
        hide Orderly;
        hide ChannelStream;
      case Timer(expired) =>
        TimerOrdered(s, e, expired, c);
        hide Retransmit;
        hide Ordered;
      case LineStatus(down) =>
        NothingOrdered(s, s.(lineDown := down), c, e.stale);
      case Arrive(frame) =>
        hide ReceiveData;
        hide ReceiveAck;
        hide Masked;
        match Decode(frame, e.stale) {
          case Data(number, payload) => DataOrdered(s, e, number, payload, c);
          case Ack(number) => AckOrdered(s, e, number, c);
          case _ => NothingOrdered(s, s, c, e.stale);
        }
        hide Ordered;
    }
  }

  // ---------------------------------------------------------------- runs

  /** At no time of the run is the channel stopped while one of its packets waits. */
  predicate NeverStopsWaiting(s: State, e: Env, ops: seq<Op>, c: byte)
    requires Sane(s)
    decreases |ops|
  {
    ops == [] ||
    (ApplySane(s, e, ops[0]);
     !StopsWaiting(s, ops[0], c, e.stale) && NeverStopsWaiting(Apply(s, e, ops[0]), e, ops[1..], c))
  }

  lemma FirstOrdered(s: State, e: Env, ops: seq<Op>, c: byte)
    requires ops != [] && Sane(s) && s.linkType != UnknownLink && Orderly(s, c, e.stale) && SessionRun(ops, e.stale)
    requires !StopsWaiting(s, ops[0], c, e.stale)
    requires !RunLink(s, e, ops).failed && RunLink(s, e, ops).gaveUp == s.gaveUp
    ensures var s1 := Apply(s, e, ops[0]);
            && s1.linkType == s.linkType && Orderly(s1, c, e.stale) && s1.gaveUp == s.gaveUp
            && ChannelStream(s1, c, e.stale) == ChannelStream(s, c, e.stale) + Of(Given(ops[0]), c, e.stale)
  {
    assert InSession(ops[0], e.stale);
    ApplyOrdered(s, e, ops[0], c);
    ApplyStays(s, e, ops);
    hide Apply;
    hide RunLink;
    hide Orderly;
    hide ChannelStream;
    hide Given;
    hide Of;
  }

  lemma RestInSession(ops: seq<Op>, stale: byte)
    requires ops != [] && SessionRun(ops, stale)
    ensures SessionRun(ops[1..], stale)
  {
    hide InSession;
    assert forall i :: 0 <= i < |ops[1..]| ==> ops[1..][i] == ops[i + 1];
  }

  /**
   * Within a session, whatever channels are stopped and let go: the packets of a channel are numbered in the
   * order they were submitted, those that wait come next and those held back last, in every run in which the
   * channel is not stopped while one of its packets waits; unless the link fails or gives up a packet.
   */
  lemma {:induction false} RunKeepsChannelOrder(s: State, e: Env, ops: seq<Op>, c: byte)
    requires Sane(s) && s.linkType != UnknownLink && Orderly(s, c, e.stale) && SessionRun(ops, e.stale)
    requires NeverStopsWaiting(s, e, ops, c)
    requires var s' := RunLink(s, e, ops); !s'.failed && s'.gaveUp == s.gaveUp
    ensures Orderly(RunLink(s, e, ops), c, e.stale)
    ensures ChannelStream(RunLink(s, e, ops), c, e.stale)
         == ChannelStream(s, c, e.stale) + Of(Submitted(ops), c, e.stale)
    decreases |ops|
  {
    hide Orderly;
    hide ChannelStream;
    hide StopsWaiting;
    hide Apply;
    if ops == [] {
      OfNone(c, e.stale);
      hide ForChannel;
      assert ChannelStream(s, c, e.stale) + [] == ChannelStream(s, c, e.stale);
    } else {
      FirstOrdered(s, e, ops, c);
      RestInSession(ops, e.stale);
      ApplySane(s, e, ops[0]);
      hide SessionRun;
      var s1, rest := Apply(s, e, ops[0]), ops[1..];
      RunKeepsChannelOrder(s1, e, rest, c);
      ForChannelSplit(Given(ops[0]), Submitted(rest), c, e.stale, true);
      hide ForChannel;
      var x, y, z := ChannelStream(s, c, e.stale), Of(Given(ops[0]), c, e.stale), Of(Submitted(rest), c, e.stale);
      assert x + y + z == x + (y + z);
    }
  }
}
