/**
 * Two link endpoints (lib/link.cc) joined by two lossy FIFO lines: whatever is lost and whenever the
 * timers fire, each side accepts a prefix of what the other side numbered.
 */
module Arq {
  import opened Bytes
  import opened Packets
  import opened LinkSpec
  import opened Window
  import opened Stamps

  // ---------------------------------------------------------------- frames on a line

  /** A data packet or an acknowledgement with a number below m, complete with its header. */
  predicate Wire(m: nat, f: seq<byte>) {
    && |f| > 0 && (f[0] % 16 >= 8 ==> |f| >= 2)
    && match Decode(f, 0)
      case Data(n, _) => n < m
      case Ack(n) => n < m
      case _ => false
  }

  predicate LineOk(m: nat, line: seq<seq<byte>>) {
    forall i :: 0 <= i < |line| ==> Wire(m, line[i])
  }

  function DataOf(f: seq<byte>): seq<Packet> {
    if Decode(f, 0).Data? then [Decode(f, 0)] else []
  }

  function AckOf(f: seq<byte>): seq<nat> {
    if Decode(f, 0).Ack? then [Decode(f, 0).number] else []
  }

  /** The data packets on a line, in order; and the acknowledged numbers. */
  function Datas(line: seq<seq<byte>>): seq<Packet> {
    if line == [] then [] else DataOf(line[0]) + Datas(line[1..])
  }

  function Acks(line: seq<seq<byte>>): seq<nat> {
    if line == [] then [] else AckOf(line[0]) + Acks(line[1..])
  }

  lemma FlowSplit(l: seq<seq<byte>>, l': seq<seq<byte>>)
    ensures Datas(l + l') == Datas(l) + Datas(l')
    ensures Acks(l + l') == Acks(l) + Acks(l')
  {
    DatasSplit(l, l');
    AcksSplit(l, l');
  }

  lemma {:induction false} DatasSplit(l: seq<seq<byte>>, l': seq<seq<byte>>)
    ensures Datas(l + l') == Datas(l) + Datas(l')
  {
    hide DataOf;
    if l == [] {
      assert l + l' == l';
    } else {
      DatasSplit(l[1..], l');
      HeadOfBoth(l, l');
      Regrouped(DataOf(l[0]), Datas(l[1..]), Datas(l'));
    }
  }

  lemma {:induction false} AcksSplit(l: seq<seq<byte>>, l': seq<seq<byte>>)
    ensures Acks(l + l') == Acks(l) + Acks(l')
  {
    hide AckOf;
    if l == [] {
      assert l + l' == l';
    } else {
      AcksSplit(l[1..], l');
      HeadOfBoth(l, l');
      Regrouped(AckOf(l[0]), Acks(l[1..]), Acks(l'));
    }
  }

  lemma FlowOne(f: seq<byte>)
    ensures Datas([f]) == DataOf(f) && Acks([f]) == AckOf(f)
  {
    hide DataOf;
    hide AckOf;
    assert [f][1..] == [];
  }

  /** A frame on its own line reads the same whatever lies in memory behind it. */
  lemma WireDecodes(m: nat, f: seq<byte>, stale: byte)
    requires Wire(m, f)
    ensures Decode(f, stale) == Decode(f, 0)
  {
  }

  lemma DataFrameWire(m: nat, n: nat, payload: seq<byte>)
    requires n < m <= MAX_SEQ + 1
    ensures Wire(m, DataFrame(n, payload)) && Decode(DataFrame(n, payload), 0) == Data(n, payload)
  {
    DataFrameDecodes(n, payload, 0);
  }

  lemma AckFrameWire(m: nat, n: nat)
    requires n < m <= MAX_SEQ + 1
    ensures Wire(m, AckFrame(n)) && Decode(AckFrame(n), 0) == Ack(n)
  {
    AckFrameDecodes(n, 0);
  }

  // ---------------------------------------------------------------- one endpoint

  /** Within a session every packet numbered is queued once, so serials and numbers run in parallel. */
  function SenderOf(s: State): Sender {
    Sender(s.numbered, s.ackWaitQueue, s.failed, |s.queued| - |s.numbered|)
  }

  /** The numbers and modes of an endpoint in a running session. */
  ghost predicate Running(p: Params, s: State)
    requires Fits(p)
  {
    && s.seqMask == p.m - 1 && s.maxOutstanding == p.w && s.linkType == (if p == SIBO then Sibo else Epoc)
    && s.txSequence == (|s.numbered| + 1) % p.m && s.rxSequence == |s.accepted| % p.m
    && (forall b :: b in s.holdQueue ==> b != [])
    && (forall b :: b in s.waitQueue ==> b != [])
  }

  lemma RunningSane(p: Params, s: State)
    requires Fits(p) && Running(p, s)
    ensures Sane(s)
  {
  }

  ghost predicate Clocked(p: Params, s: State, e: Env, gave: set<int>)
    requires Fits(p) && QueueOk(p, SenderOf(s))
  {
    p == EPOC ==>
      Increasing(e.clock) && |gave| <= GIVEUPS && (s.failed || StampsOk(SenderOf(s), gave, e.clock, s.readings))
  }

  /**
   * What surrounds an endpoint: the peer's sending side, what the peer has accepted, the data and
   * acknowledgements on their way to the peer, and those on their way here; and which packets were given up,
   * here and there.
   */
  datatype Around = Around(peer: Sender, taken: seq<seq<byte>>, dataOut: seq<Packet>, ackIn: seq<nat>,
                           dataIn: seq<Packet>, ackOut: seq<nat>, mine: set<int>, theirs: set<int>)

  ghost predicate Good(p: Params, e: Env, s: State, w: Around) {
    && Fits(p) && Running(p, s)
    && Core(p, SenderOf(s), w.taken, w.dataOut, w.ackIn)
    && Core(p, w.peer, s.accepted, w.dataIn, w.ackOut)
    && Clocked(p, s, e, w.mine)
    && GivenUp(p.m, |s.numbered| + 1, w.mine, |w.taken| + 1, w.ackIn)
    && GivenUp(p.m, w.peer.Next(), w.theirs, |s.accepted| + 1, w.ackOut)
  }

  lemma GoodMeans(p: Params, e: Env, s: State, w: Around)
    requires Good(p, e, s, w)
    ensures Fits(p) && (p.m == 8 || p.m == 2048) && Running(p, s)
    ensures Core(p, SenderOf(s), w.taken, w.dataOut, w.ackIn) && Core(p, w.peer, s.accepted, w.dataIn, w.ackOut)
    ensures QueueOk(p, SenderOf(s)) && Clocked(p, s, e, w.mine)
    ensures GivenUp(p.m, |s.numbered| + 1, w.mine, |w.taken| + 1, w.ackIn)
    ensures GivenUp(p.m, w.peer.Next(), w.theirs, |s.accepted| + 1, w.ackOut)
  {
    hide Running;
    hide Clocked;
    hide GivenUp;
    hide QueueOk;
  }

  lemma GoodIf(p: Params, e: Env, s: State, w: Around)
    requires Fits(p) && Running(p, s)
    requires Core(p, SenderOf(s), w.taken, w.dataOut, w.ackIn) && Core(p, w.peer, s.accepted, w.dataIn, w.ackOut)
    requires QueueOk(p, SenderOf(s)) && Clocked(p, s, e, w.mine)
    requires GivenUp(p.m, |s.numbered| + 1, w.mine, |w.taken| + 1, w.ackIn)
    requires GivenUp(p.m, w.peer.Next(), w.theirs, |s.accepted| + 1, w.ackOut)
    ensures Good(p, e, s, w)
  {
    hide Core;
    hide Running;
    hide Clocked;
    hide GivenUp;
  }

  lemma RunningSame(p: Params, s: State, s': State)
    requires Fits(p) && Running(p, s)
    requires s' == s.(ackWaitQueue := s'.ackWaitQueue, readings := s'.readings, gaveUp := s'.gaveUp,
                      failed := s'.failed)
    ensures Running(p, s')
  {
  }

  lemma ClockedMeans(p: Params, s: State, e: Env, gave: set<int>)
    requires Fits(p) && QueueOk(p, SenderOf(s)) && Clocked(p, s, e, gave) && p == EPOC && !s.failed
    ensures Increasing(e.clock) && |gave| <= GIVEUPS && StampsOk(SenderOf(s), gave, e.clock, s.readings)
  {
    hide StampsOk;
    hide QueueOk;
  }

  lemma ClockedIf(p: Params, s: State, s': State, e: Env, gave: set<int>, gave': set<int>)
    requires Fits(p) && QueueOk(p, SenderOf(s)) && Clocked(p, s, e, gave) && QueueOk(p, SenderOf(s'))
    requires p == EPOC ==> |gave'| <= GIVEUPS && (s'.failed || StampsOk(SenderOf(s'), gave', e.clock, s'.readings))
    ensures Clocked(p, s', e, gave')
  {
    hide StampsOk;
    hide QueueOk;
  }

  /** The surroundings after frames have left. */
  function Out(w: Around, frames: seq<seq<byte>>): Around {
    w.(dataOut := w.dataOut + Datas(frames), ackOut := w.ackOut + Acks(frames))
  }

  function News(s: State, s': State): seq<seq<byte>>
    requires |s.line| <= |s'.line|
  {
    seq(|s'.line| - |s.line|, i requires 0 <= i < |s'.line| - |s.line| => s'.line[|s.line| + i].data)
  }

  /** From s to s' an endpoint stays good, its new frames are well-formed, and nothing is given up. */
  ghost predicate Keeps(p: Params, e: Env, s: State, s': State, w: Around) {
    && Fits(p) && s.line <= s'.line && LineOk(p.m, News(s, s'))
    && Good(p, e, s', Out(w, News(s, s')))
  }

  lemma OutNothing(w: Around)
    ensures Out(w, []) == w
  {
    assert Datas([]) == [] && Acks([]) == [];
    assert w.dataOut + [] == w.dataOut && w.ackOut + [] == w.ackOut;
  }

  lemma KeepsSame(p: Params, e: Env, s: State, w: Around)
    requires Good(p, e, s, w)
    ensures Keeps(p, e, s, s, w)
  {
    hide Core;
    hide GivenUp;
    hide Running;
    hide Clocked;
    assert News(s, s) == [];
    assert Out(w, []) == w;
  }

  lemma KeepsTrans(p: Params, e: Env, s: State, s': State, s'': State, w: Around)
    requires Keeps(p, e, s, s', w) && Keeps(p, e, s', s'', Out(w, News(s, s')))
    ensures Keeps(p, e, s, s'', w)
  {
    hide Good;
    hide Datas;
    hide Acks;
    hide Wire;
    var f, g, h := News(s, s'), News(s', s''), News(s, s'');
    assert h == f + g;
    FlowSplit(f, g);
    assert w.dataOut + Datas(f) + Datas(g) == w.dataOut + (Datas(f) + Datas(g));
    assert w.ackOut + Acks(f) + Acks(g) == w.ackOut + (Acks(f) + Acks(g));
  }

  // ---------------------------------------------------------------- changes that send nothing

  /** Only the waiting packets, flow control and failure flags, and the clock move. */
  ghost predicate Quiet(s: State, s': State) {
    && s'.txSequence == s.txSequence && s'.rxSequence == s.rxSequence && s'.seqMask == s.seqMask
    && s'.maxOutstanding == s.maxOutstanding && s'.linkType == s.linkType
    && s'.ackWaitQueue == s.ackWaitQueue && s'.line == s.line
    && s'.numbered == s.numbered && s'.accepted == s.accepted && s'.queued == s.queued
    && (s.failed ==> s'.failed) && s.readings <= s'.readings
    && (forall b :: b in s'.holdQueue ==> b != [])
    && (forall b :: b in s'.waitQueue ==> b != [])
  }

  lemma QuietKeeps(p: Params, e: Env, s: State, s': State, w: Around)
    requires Good(p, e, s, w) && Quiet(s, s')
    ensures Keeps(p, e, s, s', w)
  {
    QueueStems(p, SenderOf(s));
    CoreQueue(p, SenderOf(s), SenderOf(s'), w.taken, w.dataOut, w.ackIn);
    hide Core;
    hide GivenUp;
    assert News(s, s') == [];
    assert Out(w, []) == w;
    if p == EPOC && !s'.failed {
      hide StampsOk;
      hide QueueOk;
      StampsLater(SenderOf(s), w.mine, e.clock, s.readings, s'.readings);
    }
  }

  lemma QueueStems(p: Params, x: Sender)
    requires Fits(p) && QueueOk(p, x)
    ensures forall q :: q in x.queue ==> Stems(x.queue, q)
  {
    hide DataFrame;
    forall q | q in x.queue ensures Stems(x.queue, q) {
      assert Queued(p, x, q);
    }
  }

  // ---------------------------------------------------------------- sending

  /** One frame leaves: what the surroundings gain. */
  lemma OneFrame(p: Params, e: Env, s: State, s': State, f: seq<byte>, w: Around, w': Around)
    requires Fits(p) && |s'.line| == |s.line| + 1 && s.line <= s'.line && s'.line[|s.line|].data == f && Wire(p.m, f)
    requires w' == w.(dataOut := w.dataOut + DataOf(f), ackOut := w.ackOut + AckOf(f))
    requires Good(p, e, s', w')
    ensures Keeps(p, e, s, s', w)
  {
    hide Good;
    hide Wire;
    hide DataOf;
    hide AckOf;
    assert News(s, s') == [f];
    FlowOne(f);
  }

  lemma HasFailedKeeps(p: Params, e: Env, s: State, w: Around)
    requires Good(p, e, s, w)
    ensures Keeps(p, e, s, HasFailed(s), w) && Good(p, e, HasFailed(s), w)
  {
    hide Core;
    hide GivenUp;
    hide Clocked;
    QuietKeeps(p, e, s, HasFailed(s), w);
    assert News(s, HasFailed(s)) == [];
    assert Out(w, []) == w;
  }

  lemma SendAckKeeps(p: Params, e: Env, s: State, w: Around)
    requires Good(p, e, s, w) && Sane(s)
    ensures Keeps(p, e, s, SendAck(s), w)
  {
    hide *;
    HasFailedKeeps(p, e, s, w);
    var s1 := HasFailed(s);
    GoodMeans(p, e, s1, w);
    SendAckIs(p, s);
    if !s1.failed {
      var s', n := SendAck(s), |s.accepted| % p.m;
      var w' := w.(ackOut := w.ackOut + [n]);
      CoreAckSent(p, w.peer, s.accepted, w.dataIn, w.ackOut);
      GivenUpAckSent(p, w.peer, s.accepted, w.dataIn, w.ackOut, w.theirs);
      GoodIf(p, e, s1, w');
      GoodLine(p, e, s1, s', w');
      AckFrameWire(p.m, n);
      AckGains(w, n);
      OneFrame(p, e, s1, s', AckFrame(n), w, w');
      KeepsFrom(p, e, s, s1, s', w);
    }
  }

  lemma SendAckIs(p: Params, s: State)
    requires Fits(p) && Running(p, HasFailed(s)) && Sane(s)
    ensures p.m <= MAX_SEQ + 1 && |s.accepted| % p.m < p.m
    ensures var s1, n, s' := HasFailed(s), |s.accepted| % p.m, SendAck(s);
            && s1.line == s.line && s1.accepted == s.accepted
            && if s1.failed then s' == s1
               else
                 && s' == s1.(line := s'.line)
                 && s.line <= s'.line && |s'.line| == |s.line| + 1 && s'.line[|s.line|].data == AckFrame(n)
  {
    hide AckFrame;
  }

  lemma AckGains(w: Around, n: nat)
    requires n <= MAX_SEQ && Decode(AckFrame(n), 0) == Ack(n)
    ensures w.(ackOut := w.ackOut + [n])
         == w.(dataOut := w.dataOut + DataOf(AckFrame(n)), ackOut := w.ackOut + AckOf(AckFrame(n)))
  {
    hide AckFrame;
    hide Decode;
    assert w.dataOut + [] == w.dataOut;
  }

  lemma DataGains(w: Around, n: nat, payload: seq<byte>)
    requires n <= MAX_SEQ && Decode(DataFrame(n, payload), 0) == Data(n, payload)
    ensures w.(dataOut := w.dataOut + [Data(n, payload)])
         == w.(dataOut := w.dataOut + DataOf(DataFrame(n, payload)), ackOut := w.ackOut + AckOf(DataFrame(n, payload)))
  {
    hide DataFrame;
    hide Decode;
    assert w.ackOut + [] == w.ackOut;
  }

  /** What has been sent already does not matter. */
  lemma GoodLine(p: Params, e: Env, s: State, s': State, w: Around)
    requires Good(p, e, s, w) && s' == s.(line := s'.line)
    ensures Good(p, e, s', w)
  {
    hide Core;
    hide GivenUp;
    hide StampsOk;
  }

  /** In EPOC the window rule leaves room for what may be sent again; in SIBO the queue is empty. */
  lemma RoomToNumber(p: Params, e: Env, s: State, w: Around)
    requires Good(p, e, s, w) && !s.failed && |s.ackWaitQueue| < s.maxOutstanding
    ensures forall q :: q in s.ackWaitQueue && q.txcount > 0 ==>
              SenderOf(s).Next() + 1 <= ElementIdx(SenderOf(s), q) + p.d
  {
    if p == EPOC {
      hide QueueOk;
      hide StampsOk;
      Room(SenderOf(s), w.mine, e.clock, s.readings);
    }
  }

  lemma NumberKeeps(p: Params, e: Env, s: State, w: Around, buf: seq<byte>)
    requires Good(p, e, s, w) && Sane(s) && !s.failed && |s.ackWaitQueue| < s.maxOutstanding && buf != []
    ensures Keeps(p, e, s, Number(s, e, buf), w)
  {
    hide *;
    var s' := Number(s, e, buf);
    var n, x, x', now := s.txSequence, SenderOf(s), SenderOf(s'), e.clock(s.readings);
    RoomToNumber(p, e, s, w);
    GoodMeans(p, e, s, w);
    var el := NumberIs(p, e, s, buf);
    var w' := w.(dataOut := w.dataOut + [Data(n, buf)]);
    CoreNumber(p, x, x', w.taken, w.dataOut, w.ackIn, el, Numbered(buf, now));
    QueueOfCore(p, x', w.taken, w'.dataOut, w.ackIn);
    GivenUpNumber(p, x, w.taken, w.dataOut, w.ackIn, w.mine);
    if p == EPOC {
      ClockedMeans(p, s, e, w.mine);
      StampsNumber(x, x', w.mine, e.clock, s.readings, el, Numbered(buf, now));
    }
    ClockedIf(p, s, s', e, w.mine, w.mine);
    GoodIf(p, e, s', w');
    DataFrameWire(p.m, n, buf);
    DataGains(w, n, buf);
    OneFrame(p, e, s, s', DataFrame(n, buf), w, w');
  }

  lemma NumberIs(p: Params, e: Env, s: State, buf: seq<byte>) returns (el: Element)
    requires Fits(p) && Running(p, s) && Sane(s) && !s.failed && |s.ackWaitQueue| < s.maxOutstanding && buf != []
    ensures var s', n, x, now := Number(s, e, buf), s.txSequence, SenderOf(s), e.clock(s.readings);
            && x.queue == s.ackWaitQueue && 0 <= n < p.m <= MAX_SEQ + 1
            && x.Next() == |s.numbered| + 1 == |s'.numbered|
            && el == Element(n, RETRIES, now, DataFrame(n, buf), |s.queued|)
            && Numbers(p, x, SenderOf(s'), el, Numbered(buf, now))
            && NumberedAs(x, SenderOf(s'), now, el, Numbered(buf, now))
            && Running(p, s') && s'.accepted == s.accepted && s'.readings == s.readings + 1
            && s.line <= s'.line && |s'.line| == |s.line| + 1 && s'.line[|s.line|].data == DataFrame(n, buf)
  {
    hide DataFrame;
    el := Element(s.txSequence, RETRIES, e.clock(s.readings), DataFrame(s.txSequence, buf), |s.queued|);
    ModSucc(p.m, |s.numbered| + 1);
  }

  lemma QueueOfCore(p: Params, x: Sender, accepted: seq<seq<byte>>, data: seq<Packet>, acks: seq<nat>)
    requires Fits(p) && Core(p, x, accepted, data, acks)
    ensures QueueOk(p, x)
  {
  }

  lemma TransmitKeeps(p: Params, e: Env, s: State, w: Around, buf: seq<byte>)
    requires Good(p, e, s, w) && Sane(s) && buf != []
    ensures Keeps(p, e, s, Transmit(s, e, buf), w)
  {
    var s1, s' := HasFailed(s), Transmit(s, e, buf);
    HasFailedKeeps(p, e, s, w);
    if s1.failed {
    } else if ByteAt(buf, 0, e.stale) in s1.xoff || |s1.ackWaitQueue| >= s1.maxOutstanding {
      hide Core;
      hide GivenUp;
      hide Clocked;
      QuietKeeps(p, e, s, s', w);
    } else {
      hide Core;
      hide GivenUp;
      hide Clocked;
      hide Number;
      NumberKeeps(p, e, s1, w, buf);
      assert News(s, s1) == [];
      OutNothing(w);
      hide Good;
      KeepsTrans(p, e, s, s1, s', w);
    }
  }

  lemma {:induction false} TransmitAllKeeps(p: Params, e: Env, s: State, w: Around, bufs: seq<seq<byte>>)
    requires Good(p, e, s, w) && Sane(s)
    requires forall i :: 0 <= i < |bufs| ==> bufs[i] != []
    ensures Keeps(p, e, s, TransmitAll(s, e, bufs), w)
    decreases |bufs|
  {
    hide Good;
    hide Transmit;
    if bufs == [] {
      KeepsSame(p, e, s, w);
    } else {
      var s1 := Transmit(s, e, bufs[0]);
      TransmitKeeps(p, e, s, w, bufs[0]);
      TransmitAllKeeps(p, e, s1, Out(w, News(s, s1)), bufs[1..]);
      KeepsTrans(p, e, s, s1, TransmitAll(s, e, bufs), w);
    }
  }

  lemma {:induction false} ForChannelMembers(q: seq<seq<byte>>, channel: byte, stale: byte, yes: bool)
    ensures forall b :: b in ForChannel(q, channel, stale, yes) ==> b in q
  {
    if q != [] {
      ForChannelMembers(q[1..], channel, stale, yes);
    }
  }

  lemma TransmitHoldQueueKeeps(p: Params, e: Env, s: State, w: Around, channel: byte)
    requires Good(p, e, s, w) && Sane(s)
    ensures Keeps(p, e, s, TransmitHoldQueue(s, e, channel), w)
  {
    ForChannelMembers(s.holdQueue, channel, e.stale, true);
    ForChannelMembers(s.holdQueue, channel, e.stale, false);
    var s1 := s.(holdQueue := ForChannel(s.holdQueue, channel, e.stale, false));
    var mine := ForChannel(s.holdQueue, channel, e.stale, true);
    hide ForChannel;
    hide Core;
    hide GivenUp;
    hide Clocked;
    QuietKeeps(p, e, s, s1, w);
    assert News(s, s1) == [];
    OutNothing(w);
    forall i | 0 <= i < |mine| ensures mine[i] != [] {
      assert mine[i] in mine;
      assert mine[i] in s.holdQueue;
    }
    hide Good;
    hide TransmitAll;
    TransmitAllKeeps(p, e, s1, w, mine);
    KeepsTrans(p, e, s, s1, TransmitHoldQueue(s, e, channel), w);
  }

  lemma TransmitWaitQueueKeeps(p: Params, e: Env, s: State, w: Around)
    requires Good(p, e, s, w) && Sane(s)
    ensures Keeps(p, e, s, TransmitWaitQueue(s, e), w)
  {
    var s1 := s.(waitQueue := []);
    hide Core;
    hide GivenUp;
    hide Clocked;
    QuietKeeps(p, e, s, s1, w);
    assert News(s, s1) == [];
    OutNothing(w);
    forall i | 0 <= i < |s.waitQueue| ensures s.waitQueue[i] != [] {
      assert s.waitQueue[i] in s.waitQueue;
    }
    hide Good;
    hide TransmitAll;
    TransmitAllKeeps(p, e, s1, w, s.waitQueue);
    KeepsTrans(p, e, s, s1, TransmitWaitQueue(s, e), w);
  }

  // ---------------------------------------------------------------- receiving data

  lemma DispatchKeeps(p: Params, e: Env, s: State, w: Around, payload: seq<byte>)
    requires Good(p, e, s, w) && Sane(s)
    ensures Keeps(p, e, s, Dispatch(s, e, payload), w)
  {
    hide Core;
    hide GivenUp;
    hide Clocked;
    hide TransmitHoldQueue;
    if |payload| == 3 && payload[0] == 0 && payload[2] == 2 {
      var s1 := s.(xoff := s.xoff - {payload[1]});
      QuietKeeps(p, e, s, s1, w);
      assert News(s, s1) == [];
      OutNothing(w);
      TransmitHoldQueueKeeps(p, e, s1, w, payload[1]);
      hide Good;
      KeepsTrans(p, e, s, s1, Dispatch(s, e, payload), w);
    } else {
      QuietKeeps(p, e, s, Dispatch(s, e, payload), w);
    }
  }

  /** The first data packet on its way here is taken off the line and handled. */
  lemma ReceiveDataKeeps(p: Params, e: Env, s: State, w: Around, number: nat, payload: seq<byte>)
    requires Good(p, e, s, w) && Sane(s)
    requires w.dataIn != [] && w.dataIn[0] == Data(number, payload) && number < p.m
    ensures Keeps(p, e, s, ReceiveData(s, e, number, payload), w.(dataIn := w.dataIn[1..]))
  {
    hide *;
    GoodMeans(p, e, s, w);
    NextNumber(p, s);
    DataIs(s, e, number, payload);
    var w1 := w.(dataIn := w.dataIn[1..]);
    var next := (|s.accepted| + 1) % p.m;
    if next == number {
      var s1 := s.(rxSequence := next, accepted := s.accepted + [payload]);
      CoreAccept(p, w.peer, s.accepted, w.dataIn, w.ackOut);
      GivenUpAccept(p.m, w.peer.Next(), w.theirs, |s.accepted| + 1, w.ackOut);
      AcceptedSame(p, e, s, s1, payload, w.mine);
      GoodIf(p, e, s1, w1);
      var s2, s3 := SendAck(s1), ReceiveData(s, e, number, payload);
      SendAckKeeps(p, e, s1, w1);
      KeepsFrom(p, e, s, s1, s2, w1);
      KeepsGood(p, e, s, s2, w1);
      SendAckSane(s1);
      DispatchKeeps(p, e, s2, Out(w1, News(s, s2)), payload);
      KeepsTrans(p, e, s, s2, s3, w1);
    } else {
      DropFirst(w.dataIn);
      CoreLoseData(p, w.peer, s.accepted, w.dataIn, w.ackOut, 0);
      GoodIf(p, e, s, w1);
      SendAckKeeps(p, e, s, w1);
    }
  }

  lemma DropFirst<T>(q: seq<T>)
    requires q != []
    ensures Erase(q, 0) == q[1..]
  {
  }

  lemma NextNumber(p: Params, s: State)
    requires Fits(p) && Running(p, s) && Sane(s)
    ensures Masked(s.rxSequence + 1, s.seqMask) == (|s.accepted| + 1) % p.m
  {
    ModSucc(p.m, |s.accepted|);
  }

  lemma DataIs(s: State, e: Env, number: nat, payload: seq<byte>)
    requires Sane(s)
    ensures var next := Masked(s.rxSequence + 1, s.seqMask);
            var s1 := s.(rxSequence := next, accepted := s.accepted + [payload]);
            && Sane(s1)
            && ReceiveData(s, e, number, payload)
               == if next == number then Dispatch(SendAck(s1), e, payload) else SendAck(s)
  {
    hide SendAck;
    hide Dispatch;
  }

  lemma AcceptedSame(p: Params, e: Env, s: State, s': State, payload: seq<byte>, gave: set<int>)
    requires Fits(p) && Running(p, s) && QueueOk(p, SenderOf(s)) && Clocked(p, s, e, gave)
    requires s' == s.(rxSequence := (|s.accepted| + 1) % p.m, accepted := s.accepted + [payload])
    ensures SenderOf(s') == SenderOf(s) && QueueOk(p, SenderOf(s')) && Clocked(p, s', e, gave) && Running(p, s')
  {
    hide StampsOk;
    hide QueueOk;
  }

  lemma KeepsGood(p: Params, e: Env, s: State, s': State, w: Around)
    requires Keeps(p, e, s, s', w)
    ensures s.line <= s'.line && Good(p, e, s', Out(w, News(s, s')))
  {
    hide Good;
    hide LineOk;
  }

  lemma SendAckSane(s: State)
    requires Sane(s)
    ensures Sane(SendAck(s))
  {
  }

  /** Nothing was sent before s1: what holds from s1 on holds from s on. */
  lemma KeepsFrom(p: Params, e: Env, s: State, s1: State, s2: State, w: Around)
    requires s1.line == s.line && Keeps(p, e, s1, s2, w)
    ensures Keeps(p, e, s, s2, w)
  {
    hide Good;
    assert News(s, s2) == News(s1, s2);
  }

  // ---------------------------------------------------------------- receiving acknowledgements

  /** When the first acknowledgement names a queued packet, or the one before it, it is not far behind the sender. */
  lemma Reached(p: Params, e: Env, s: State, w: Around, i: nat, ahead: nat)
    requires Good(p, e, s, w) && !s.failed && ahead <= 1
    requires w.ackIn != [] && i < |s.ackWaitQueue| && s.ackWaitQueue[i].seqNr == w.ackIn[0] + ahead
    ensures var x := SenderOf(s);
            && x.Next() <= Idx(p.m, x.Next(), w.ackIn[0]) + p.lead + 1
            && ElementIdx(x, s.ackWaitQueue[i]) <= Idx(p.m, x.Next(), w.ackIn[0]) + ahead
  {
    var x, el := SenderOf(s), s.ackWaitQueue[i];
    hide Idx;
    QueueOfCore(p, x, w.taken, w.dataOut, w.ackIn);
    AckMeansPacket(p, x, w.taken, w.dataOut, w.ackIn, el, ahead);
    assert AckInFlight(p, x, |w.taken| + 1, w.ackIn[0]) && Lag(p, x, |w.taken| + 1);
    hide Core;
    hide DataFrame;
    if p == EPOC {
      hide StampsOk;
      hide QueueOk;
      Close(x, w.mine, e.clock, s.readings, el, Idx(p.m, x.Next(), w.ackIn[0]), ahead);
    } else {
      assert Queued(p, x, el);
    }
  }

  lemma AckFoundKeeps(p: Params, e: Env, s: State, w: Around, number: nat, i: nat)
    requires Good(p, e, s, w) && Sane(s)
    requires w.ackIn != [] && w.ackIn[0] == number && i < |s.ackWaitQueue| && s.ackWaitQueue[i].seqNr == number
    ensures Good(p, e, AckFound(s, i), w.(ackIn := w.ackIn[1..]))
  {
    hide Core;
    hide GivenUp;
    hide NotOlder;
    hide QueueOk;
    hide StampsOk;
    hide Erase;
    var x, s' := SenderOf(s), AckFound(s, i);
    var ref := s.ackWaitQueue[i];
    var x' := Sender(x.numbered, NotOlder(Erase(s.ackWaitQueue, i), ref.stamp), x.failed, x.base);
    assert SenderOf(s') == x';
    if !s.failed {
      Reached(p, e, s, w, i, 0);
    }
    AckedSender(p, x, x', w, i);
    GivenUpErase(p.m, x.Next(), w.mine, |w.taken| + 1, w.ackIn, 0);
    QueueOfCore(p, x, w.taken, w.dataOut, w.ackIn);
    if p == EPOC && !s.failed {
      StampsMatch(x, x', w.mine, e.clock, s.readings, i);
    }
  }

  lemma AckedSender(p: Params, x: Sender, x': Sender, w: Around, i: nat)
    requires Fits(p) && Core(p, x, w.taken, w.dataOut, w.ackIn)
    requires w.ackIn != [] && i < |x.queue|
    requires x' == Sender(x.numbered, NotOlder(Erase(x.queue, i), x.queue[i].stamp), x.failed, x.base)
    requires !x.failed ==> x.Next() <= Idx(p.m, x.Next(), w.ackIn[0]) + p.lead + 1
    ensures Core(p, x', w.taken, w.dataOut, w.ackIn[1..]) && QueueOk(p, x')
  {
    hide Core;
    hide GivenUp;
    var q := Erase(x.queue, i);
    NotOlderMembers(q, x.queue[i].stamp);
    assert forall el :: el in q ==> el in x.queue;
    CoreAcked(p, x, x', w.taken, w.dataOut, w.ackIn);
    QueueOfCore(p, x', w.taken, w.dataOut, w.ackIn[1..]);
  }

  /** The least serial of a packet that may still be sent again. */
  function Limit(p: Params, s: State): int {
    SenderOf(s).Next() - p.d + SenderOf(s).base - 1
  }

  /** The frame is that of a queued packet that may still be sent again. */
  ghost predicate Sendable(q: seq<Element>, limit: int, f: Frame) {
    exists el :: el in q && el.data == f.data && el.serial >= limit
  }

  /** A queued frame goes out again. */
  lemma ResendKeeps(p: Params, e: Env, s: State, w: Around, f: Frame)
    requires Good(p, e, s, w) && Sendable(s.ackWaitQueue, Limit(p, s), f)
    ensures Keeps(p, e, s, Emit(s, f), w)
  {
    hide Core;
    hide GivenUp;
    hide QueueOk;
    hide StampsOk;
    var el :| el in s.ackWaitQueue && el.data == f.data && el.serial >= Limit(p, s);
    var d := ResendFlow(p, SenderOf(s), w, el);
    var w' := w.(dataOut := w.dataOut + [d]);
    QueueOfCore(p, SenderOf(s), w.taken, w.dataOut, w.ackIn);
    assert Good(p, e, Emit(s, f), w');
    assert w.ackOut + [] == w.ackOut;
    hide Good;
    hide Wire;
    OneFrame(p, e, s, Emit(s, f), f.data, w, w');
  }

  lemma ResendFlow(p: Params, x: Sender, w: Around, el: Element) returns (d: Packet)
    requires Fits(p) && Core(p, x, w.taken, w.dataOut, w.ackIn) && el in x.queue && x.Next() <= ElementIdx(x, el) + p.d
    ensures Wire(p.m, el.data) && Decode(el.data, 0) == d && d.Data?
    ensures Core(p, x, w.taken, w.dataOut + [d], w.ackIn)
  {
    assert Queued(p, x, el);
    CoreResend(p, x, w.taken, w.dataOut, w.ackIn, el);
    hide Core;
    d := Data(el.seqNr, x.numbered[ElementIdx(x, el) - 1].payload);
    DataFrameWire(p.m, el.seqNr, d.payload);
  }

  lemma {:induction false} EmitAllKeeps(p: Params, e: Env, s: State, w: Around, frames: seq<Frame>)
    requires Good(p, e, s, w)
    requires forall i :: 0 <= i < |frames| ==> Sendable(s.ackWaitQueue, Limit(p, s), frames[i])
    ensures Keeps(p, e, s, EmitAll(s, frames), w)
    decreases |frames|
  {
    hide Good;
    hide Sendable;
    if frames == [] {
      KeepsSame(p, e, s, w);
    } else {
      var s1 := Emit(s, frames[0]);
      ResendKeeps(p, e, s, w, frames[0]);
      EmitAllKeeps(p, e, s1, Out(w, News(s, s1)), frames[1..]);
      KeepsTrans(p, e, s, s1, EmitAll(s, frames), w);
    }
  }

  /** Queued elements were sent again (or dropped while the link failed); the frames follow separately. */
  lemma RestampedKeeps(p: Params, e: Env, s: State, s': State, w: Around)
    requires Good(p, e, s, w)
    requires s' == s.(ackWaitQueue := s'.ackWaitQueue, readings := s.readings + 1, failed := s'.failed)
    requires |s'.ackWaitQueue| <= |s.ackWaitQueue| && (s.failed ==> s'.failed)
    requires |s'.ackWaitQueue| == |s.ackWaitQueue| || s'.failed
    requires forall q' :: q' in s'.ackWaitQueue ==> Stems(s.ackWaitQueue, q')
    requires !s'.failed ==>
               forall i :: 0 <= i < |s.ackWaitQueue| ==>
                 Again(s.ackWaitQueue[i], s'.ackWaitQueue[i], e.clock(s.readings))
    ensures Good(p, e, s', w)
  {
    var x, x' := SenderOf(s), SenderOf(s');
    QueueOfCore(p, x, w.taken, w.dataOut, w.ackIn);
    CoreQueue(p, x, x', w.taken, w.dataOut, w.ackIn);
    hide Core;
    hide GivenUp;
    hide QueueOk;
    hide StampsOk;
    if p == EPOC && !s'.failed {
      StampsAgain(x, x', w.mine, e.clock, s.readings);
    }
  }

  lemma AckUnmatchedKeeps(p: Params, e: Env, s: State, w: Around, number: nat) returns (gave: set<int>)
    requires Good(p, e, s, w) && Sane(s)
    requires w.ackIn != [] && w.ackIn[0] == number
    requires var s' := AckUnmatched(s, e, number); p == EPOC ==> |w.mine| + s'.gaveUp - s.gaveUp <= GIVEUPS
    ensures Keeps(p, e, s, AckUnmatched(s, e, number), w.(ackIn := w.ackIn[1..], mine := gave))
    ensures |gave| <= |w.mine| + AckUnmatched(s, e, number).gaveUp - s.gaveUp
  {
    hide Core;
    hide GivenUp;
    hide Clocked;
    hide Running;
    hide Find;
    var s' := AckUnmatched(s, e, number);
    var w1 := w.(ackIn := w.ackIn[1..]);
    var i := Find(s.ackWaitQueue, number + 1);
    gave := w.mine;
    AckConsumed(p, e, s, w);
    if i == |s.ackWaitQueue| {
      IdleKeeps(p, e, s, w1);
    } else if s.ackWaitQueue[i].txcount == 0 {
      gave := GiveUpKeeps(p, e, s, w, number, i);
      hide Good;
      var w2 := w1.(mine := gave);
      assert News(s, s') == [];
      OutNothing(w2);
    } else {
      ResendNextKeeps(p, e, s, w1, i);
    }
  }

  lemma AckConsumed(p: Params, e: Env, s: State, w: Around)
    requires Good(p, e, s, w) && w.ackIn != []
    ensures Good(p, e, s, w.(ackIn := w.ackIn[1..]))
  {
    CoreLoseAck(p, SenderOf(s), w.taken, w.dataOut, w.ackIn, 0);
    GivenUpErase(p.m, SenderOf(s).Next(), w.mine, |w.taken| + 1, w.ackIn, 0);
    hide Core;
    hide GivenUp;
  }

  lemma IdleKeeps(p: Params, e: Env, s: State, w: Around)
    requires Good(p, e, s, w)
    ensures Keeps(p, e, s, s.(readings := s.readings + 1), w)
  {
    hide Core;
    hide GivenUp;
    hide Clocked;
    QuietKeeps(p, e, s, s.(readings := s.readings + 1), w);
  }

  /** Element i is sent again at once. */
  lemma ResendNextKeeps(p: Params, e: Env, s: State, w: Around, i: nat)
    requires Good(p, e, s, w) && i < |s.ackWaitQueue| && s.ackWaitQueue[i].txcount != 0
    ensures var el := s.ackWaitQueue[i];
            var q := s.ackWaitQueue[i := el.(txcount := el.txcount - 1, stamp := e.clock(s.readings))];
            Keeps(p, e, s, Emit(s.(ackWaitQueue := q, readings := s.readings + 1), Frame(el.data, el.serial)), w)
  {
    var el := s.ackWaitQueue[i];
    var el' := el.(txcount := el.txcount - 1, stamp := e.clock(s.readings));
    var s1 := s.(ackWaitQueue := s.ackWaitQueue[i := el'], readings := s.readings + 1);
    QueueCounts(p, e, s, w);
    OneRestamped(s.ackWaitQueue, i, el', e.clock(s.readings));
    hide Good;
    RestampedKeeps(p, e, s, s1, w);
    assert Sendable(s1.ackWaitQueue, Limit(p, s1), Frame(el.data, el.serial)) by { assert s1.ackWaitQueue[i] == el'; }
    ResendKeeps(p, e, s1, w, Frame(el.data, el.serial));
    KeepsFrom(p, e, s, s1, Emit(s1, Frame(el.data, el.serial)), w);
  }

  lemma OneRestamped(q: seq<Element>, i: nat, el': Element, now: int)
    requires i < |q| && q[i].txcount != 0 && el' == q[i].(txcount := q[i].txcount - 1, stamp := now)
    requires forall j :: 0 <= j < |q| ==> 0 <= q[j].txcount <= RETRIES
    ensures forall q' :: q' in q[i := el'] ==> Stems(q, q')
    ensures forall j :: 0 <= j < |q| ==> Again(q[j], q[i := el'][j], now)
  {
    forall q' | q' in q[i := el'] ensures Stems(q, q') {
      var j :| 0 <= j < |q| && q[i := el'][j] == q';
      assert q[j] in q && SentMore(q[j], q');
    }
  }

  /** Element i is given up, and remembered: from now on its packet is accounted for though it is not queued. */
  lemma GiveUpKeeps(p: Params, e: Env, s: State, w: Around, number: nat, i: nat) returns (gave: set<int>)
    requires Good(p, e, s, w)
    requires w.ackIn != [] && w.ackIn[0] == number && i < |s.ackWaitQueue| && s.ackWaitQueue[i].seqNr == number + 1
    requires p == EPOC ==> |w.mine| < GIVEUPS
    ensures Good(p, e, s.(readings := s.readings + 1, ackWaitQueue := Erase(s.ackWaitQueue, i), gaveUp := s.gaveUp + 1),
                 w.(ackIn := w.ackIn[1..], mine := gave))
    ensures |gave| <= |w.mine| + 1
  {
    hide *;
    var s' := s.(readings := s.readings + 1, ackWaitQueue := Erase(s.ackWaitQueue, i), gaveUp := s.gaveUp + 1);
    var x, x', k := SenderOf(s), SenderOf(s'), ElementIdx(SenderOf(s), s.ackWaitQueue[i]);
    GoodMeans(p, e, s, w);
    RunningSame(p, s, s');
    ErasedSender(s, s', i);
    if !s.failed {
      Reached(p, e, s, w, i, 1);
    }
    CoreAcked(p, x, x', w.taken, w.dataOut, w.ackIn);
    QueueOfCore(p, x, w.taken, w.dataOut, w.ackIn);
    QueueOfCore(p, x', w.taken, w.dataOut, w.ackIn[1..]);
    if p == EPOC && !s.failed {
      ClockedMeans(p, s, e, w.mine);
      GivenUpOne(p, x, w.taken, w.dataOut, w.ackIn, w.mine, k);
      StampsGiveUp(x, x', w.mine, e.clock, s.readings, i);
      gave := w.mine + {k};
      StampsLater(x', gave, e.clock, s.readings, s'.readings);
    } else {
      gave := w.mine;
      GivenUpErase(p.m, x.Next(), w.mine, |w.taken| + 1, w.ackIn, 0);
    }
    ClockedIf(p, s, s', e, w.mine, gave);
    GoodIf(p, e, s', w.(ackIn := w.ackIn[1..], mine := gave));
  }

  lemma ErasedSender(s: State, s': State, i: nat)
    requires i < |s.ackWaitQueue| && s'.numbered == s.numbered && s'.queued == s.queued && s'.failed == s.failed
    requires s'.ackWaitQueue == Erase(s.ackWaitQueue, i)
    ensures var x, x' := SenderOf(s), SenderOf(s');
            && x.queue == s.ackWaitQueue && x.numbered == s.numbered && x.failed == s.failed
            && x.Next() == |s.numbered| + 1 == x'.Next()
            && x' == Sender(x.numbered, Erase(x.queue, i), x.failed, x.base)
            && |x'.queue| < |x.queue| && forall q :: q in x'.queue ==> q in x.queue
  {
  }

  /** The first acknowledgement on its way here is taken off the line and handled. */
  lemma ReceiveAckKeeps(p: Params, e: Env, s: State, w: Around, number: nat) returns (gave: set<int>)
    requires Good(p, e, s, w) && Sane(s)
    requires w.ackIn != [] && w.ackIn[0] == number
    requires var s' := ReceiveAck(s, e, number); p == EPOC ==> |w.mine| + s'.gaveUp - s.gaveUp <= GIVEUPS
    ensures Keeps(p, e, s, ReceiveAck(s, e, number), w.(ackIn := w.ackIn[1..], mine := gave))
    ensures s.gaveUp <= ReceiveAck(s, e, number).gaveUp
    ensures |gave| <= |w.mine| + ReceiveAck(s, e, number).gaveUp - s.gaveUp
  {
    hide AckFound;
    hide AckUnmatched;
    hide TransmitWaitQueue;
    AckGaveUp(s, e, number);
    var i := Find(s.ackWaitQueue, number);
    if i < |s.ackWaitQueue| {
      var w1 := w.(ackIn := w.ackIn[1..]);
      var s1 := AckFound(s, i);
      AckFoundKeeps(p, e, s, w, number, i);
      TransmitWaitQueueKeeps(p, e, s1, w1);
      AckFoundLine(s, i);
      hide Good;
      KeepsFrom(p, e, s, s1, TransmitWaitQueue(s1, e), w1);
      gave := w.mine;
    } else {
      hide Good;
      gave := AckUnmatchedKeeps(p, e, s, w, number);
    }
  }

  lemma {:induction false} TransmitAllGaveUp(s: State, e: Env, bufs: seq<seq<byte>>)
    requires Sane(s)
    ensures TransmitAll(s, e, bufs).gaveUp == s.gaveUp
    decreases |bufs|
  {
    if bufs != [] {
      TransmitAllGaveUp(Transmit(s, e, bufs[0]), e, bufs[1..]);
    }
  }

  lemma AckGaveUp(s: State, e: Env, number: nat)
    requires Sane(s)
    ensures s.gaveUp <= ReceiveAck(s, e, number).gaveUp
  {
    hide TransmitAll;
    hide NotOlder;
    hide Find;
    var i := Find(s.ackWaitQueue, number);
    if i < |s.ackWaitQueue| {
      var s1 := AckFound(s, i);
      TransmitAllGaveUp(s1.(waitQueue := []), e, s1.waitQueue);
    }
  }

  lemma AckFoundLine(s: State, i: nat)
    requires Sane(s) && i < |s.ackWaitQueue|
    ensures AckFound(s, i).line == s.line
  {
  }

  // ---------------------------------------------------------------- the timer

  lemma RetriedSplit(q: seq<Element>, expired: int, now: int)
    requires q != []
    ensures Retried(q, expired, now) == Surviving(q[0], expired, now) + Retried(q[1..], expired, now)
    ensures TimedOut(q, expired) <==> Surviving(q[0], expired, now) == [] || TimedOut(q[1..], expired)
  {
  }

  lemma {:induction false} RetriedAgain(q: seq<Element>, expired: int, now: int)
    requires forall i :: 0 <= i < |q| ==> 0 <= q[i].txcount <= RETRIES
    ensures |Retried(q, expired, now)| <= |q|
    ensures !TimedOut(q, expired) ==>
              && |Retried(q, expired, now)| == |q|
              && forall i :: 0 <= i < |q| ==> Again(q[i], Retried(q, expired, now)[i], now)
  {
    if q != [] {
      var t := q[1..];
      RetriedAgain(t, expired, now);
      RetriedSplit(q, expired, now);
      hide Retried;
      hide TimedOut;
      var r, head := Retried(q, expired, now), Surviving(q[0], expired, now);
      if !TimedOut(q, expired) {
        assert |head| == 1 && Again(q[0], head[0], now);
        forall i | 0 <= i < |q| ensures Again(q[i], r[i], now) {
          if i > 0 {
            assert q[i] == t[i - 1] && r[i] == Retried(t, expired, now)[i - 1];
          }
        }
      }
    }
  }

  lemma {:induction false} RetriedStems(q: seq<Element>, expired: int, now: int)
    requires forall i :: 0 <= i < |q| ==> 0 <= q[i].txcount <= RETRIES
    ensures forall el :: el in Retried(q, expired, now) ==> Stems(q, el)
  {
    if q != [] {
      var t := q[1..];
      RetriedStems(t, expired, now);
      RetriedSplit(q, expired, now);
      hide Retried;
      forall el | el in Retried(q, expired, now) ensures Stems(q, el) {
        if el in Retried(t, expired, now) {
          var o :| o in t && SentMore(o, el);
          assert o in q;
        } else {
          assert el in Surviving(q[0], expired, now) && q[0] in q;
          assert SentMore(q[0], el);
        }
      }
    }
  }

  lemma {:induction false} ResentQueued(q: seq<Element>, expired: int, now: int, limit: int)
    requires forall el :: el in q && el.txcount != 0 ==> el.serial >= limit
    ensures forall f :: f in Resent(q, expired) ==> Sendable(Retried(q, expired, now), limit, f)
  {
    if q != [] {
      var t := q[1..];
      ResentQueued(t, expired, now, limit);
      RetriedSplit(q, expired, now);
      hide Retried;
      var r, head := Retried(q, expired, now), Surviving(q[0], expired, now);
      forall f | f in Resent(q, expired) ensures Sendable(r, limit, f) {
        if f in Resent(t, expired) {
          var el :| el in Retried(t, expired, now) && el.data == f.data && el.serial >= limit;
          assert el in r;
        } else {
          assert f.data == q[0].data && |head| == 1 && head[0].data == f.data && r[0] == head[0] && q[0] in q;
        }
      }
    }
  }

  lemma RetransmitKeeps(p: Params, e: Env, s: State, w: Around, expired: int)
    requires Good(p, e, s, w)
    ensures Keeps(p, e, s, Retransmit(s, e, expired), w)
  {
    hide *;
    var s1, s' := HasFailed(s), Retransmit(s, e, expired);
    HasFailedKeeps(p, e, s, w);
    RetransmitIs(s, e, expired);
    if s1.failed {
      PurgedKeeps(p, e, s1, w);
      KeepsIdle(p, e, s, s', w);
    } else {
      TimerKeeps(p, e, s1, w, expired);
      KeepsFrom(p, e, s, s1, s', w);
    }
  }

  lemma RetransmitIs(s: State, e: Env, expired: int)
    ensures var s1 := HasFailed(s);
            && s1.line == s.line
            && if s1.failed then Retransmit(s, e, expired) == PurgeAllQueues(s1) && PurgeAllQueues(s1).line == s.line
               else
                 var q := s1.ackWaitQueue;
                 Retransmit(s, e, expired)
                 == EmitAll(s1.(readings := s1.readings + 1, failed := TimedOut(q, expired),
                                ackWaitQueue := Retried(q, expired, e.clock(s1.readings))), Resent(q, expired))
  {
    hide EmitAll;
    hide TimedOut;
    hide Retried;
    hide Resent;
  }

  /** What sends nothing keeps what is good. */
  lemma KeepsIdle(p: Params, e: Env, s: State, s': State, w: Around)
    requires Good(p, e, s', w) && s'.line == s.line
    ensures Keeps(p, e, s, s', w)
  {
    assert Fits(p);
    hide Good;
    assert News(s, s') == [];
    OutNothing(w);
  }

  /** The timer on a link that has not failed. */
  lemma TimerKeeps(p: Params, e: Env, s: State, w: Around, expired: int)
    requires Good(p, e, s, w) && !s.failed
    ensures var q := s.ackWaitQueue;
            Keeps(p, e, s,
                  EmitAll(s.(readings := s.readings + 1, failed := TimedOut(q, expired),
                             ackWaitQueue := Retried(q, expired, e.clock(s.readings))), Resent(q, expired)), w)
  {
    hide Good;
    hide EmitAll;
    var q, now := s.ackWaitQueue, e.clock(s.readings);
    var s2 := s.(readings := s.readings + 1, failed := TimedOut(q, expired), ackWaitQueue := Retried(q, expired, now));
    QueueCounts(p, e, s, w);
    RetriedAgain(q, expired, now);
    RetriedStems(q, expired, now);
    ResentQueued(q, expired, now, Limit(p, s));
    hide Retried;
    hide Resent;
    hide TimedOut;
    RestampedKeeps(p, e, s, s2, w);
    var frames := Resent(q, expired);
    assert forall i :: 0 <= i < |frames| ==> frames[i] in frames;
    EmitAllKeeps(p, e, s2, w, frames);
    KeepsFrom(p, e, s, s2, EmitAll(s2, frames), w);
  }

  lemma QueueCounts(p: Params, e: Env, s: State, w: Around)
    requires Good(p, e, s, w)
    ensures forall i :: 0 <= i < |s.ackWaitQueue| ==> 0 <= s.ackWaitQueue[i].txcount <= RETRIES
    ensures forall el :: el in s.ackWaitQueue && el.txcount != 0 ==> el.serial >= Limit(p, s)
  {
    var x := SenderOf(s);
    QueueOfCore(p, x, w.taken, w.dataOut, w.ackIn);
    hide Core;
    hide GivenUp;
    hide DataFrame;
    forall el | el in x.queue ensures 0 <= el.txcount <= RETRIES && (el.txcount != 0 ==> el.serial >= Limit(p, s)) {
      assert Queued(p, x, el);
    }
  }

  lemma PurgedKeeps(p: Params, e: Env, s: State, w: Around)
    requires Good(p, e, s, w) && s.failed
    ensures Good(p, e, PurgeAllQueues(s), w)
  {
    CoreQueue(p, SenderOf(s), SenderOf(PurgeAllQueues(s)), w.taken, w.dataOut, w.ackIn);
    hide Core;
    hide GivenUp;
  }
}
