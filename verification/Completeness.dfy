/**
 * Nothing is left behind: when a run loses no frame, fails nowhere and gives nothing up, and no frame is on its way
 * any more, then every packet submitted has been handed up on the other side, and no link waits for anything.
 *
 * However many packets are out at once, the data frames on a line would bring the receiver exactly up to what the
 * sender has numbered; and of every packet that is queued though the peer has accepted it, an acknowledgement is on
 * its way back.
 */
module Completeness {
  import opened Bytes
  import opened Packets
  import opened LinkSpec
  import opened Window
  import opened Stamps
  import opened Arq
  import opened Network
  import opened LinkQueues
  import opened Stack
  import opened EndToEnd
  import Ncp

  /** The number expected after some data packets, when `next` is expected before them. */
  function Brings(m: nat, next: nat, data: seq<Packet>): nat
    requires m > 0
    decreases |data|
  {
    if data == [] then next
    else Brings(m, if data[0].Data? && data[0].number == next % m then next + 1 else next, data[1..])
  }

  lemma {:induction false} BringsSplit(m: nat, next: nat, data: seq<Packet>, more: seq<Packet>)
    requires m > 0
    ensures Brings(m, next, data + more) == Brings(m, Brings(m, next, data), more)
    decreases |data|
  {
    if data == [] {
      assert data + more == more;
    } else {
      BringsSplit(m, if data[0].Data? && data[0].number == next % m then next + 1 else next, data[1..], more);
      assert (data + more)[1..] == data[1..] + more;
    }
  }

  lemma BringsOne(m: nat, next: nat, d: Packet)
    requires m > 0
    ensures Brings(m, next, [d]) == if d.Data? && d.number == next % m then next + 1 else next
    ensures Brings(m, next, []) == next
  {
    assert [d][1..] == [];
  }

  // ---------------------------------------------------------------- what an operation adds for the peer

  predicate Rising(q: seq<Element>) {
    forall i, j :: 0 <= i < j < |q| ==> q[i].serial < q[j].serial
  }

  /** The queue is in the order in which packets were queued. */
  predicate Ranked(s: State) {
    Rising(s.ackWaitQueue) && (forall el :: el in s.ackWaitQueue ==> el.serial < |s.queued|)
  }

  /** What is queued was queued before, or is new. */
  ghost predicate Queues(s: State, s': State) {
    forall el :: el in s'.ackWaitQueue ==> el.serial >= |s.queued| || Stems(s.ackWaitQueue, el)
  }

  /** New frames bring a peer that has accepted everything numbered before to everything numbered since. */
  ghost predicate Sends(p: Params, s: State, s': State)
    requires Fits(p)
  {
    && s.line <= s'.line && s'.accepted == s.accepted
    && |s.queued| <= |s'.queued| && |s'.queued| - |s'.numbered| == |s.queued| - |s.numbered|
    && Brings(p.m, |s.numbered| + 1, Datas(News(s, s'))) == |s'.numbered| + 1
    && Queues(s, s') && (Ranked(s) ==> Ranked(s'))
  }

  lemma QueuesTwice(s: State, s': State, s'': State)
    requires Queues(s, s') && Queues(s', s'') && |s.queued| <= |s'.queued|
    ensures Queues(s, s'')
  {
    forall el | el in s''.ackWaitQueue && el.serial < |s.queued| ensures Stems(s.ackWaitQueue, el) {
      assert Stems(s'.ackWaitQueue, el);
      var q :| q in s'.ackWaitQueue && SentMore(q, el);
      assert Stems(s.ackWaitQueue, q);
    }
  }

  lemma NewsTwice(s: State, s': State, s'': State)
    requires s.line <= s'.line <= s''.line
    ensures News(s, s'') == News(s, s') + News(s', s'')
  {
  }

  lemma SendsTwice(p: Params, s: State, s': State, s'': State)
    requires Fits(p) && Sends(p, s, s') && Sends(p, s', s'')
    ensures Sends(p, s, s'')
  {
    NewsTwice(s, s', s'');
    FlowSplit(News(s, s'), News(s', s''));
    BringsSplit(p.m, |s.numbered| + 1, Datas(News(s, s')), Datas(News(s', s'')));
    QueuesTwice(s, s', s'');
    hide Queues;
    hide Ranked;
    hide Brings;
    hide Datas;
    hide News;
  }

  /** Nothing is sent, and the queue is what it was or part of it. */
  predicate Idle(s: State, s': State) {
    && s'.line == s.line && s'.accepted == s.accepted && s'.queued == s.queued && s'.numbered == s.numbered
    && s'.ackWaitQueue == s.ackWaitQueue
  }

  lemma IdleSends(p: Params, s: State, s': State)
    requires Fits(p) && Idle(s, s') && Counted(s)
    ensures Sends(p, s, s')
  {
    assert News(s, s') == [];
    BringsOne(p.m, |s.numbered| + 1, Data(0, []));
    CountedStems(s);
    hide Stems;
  }

  /** Retries are counted down to 0 only. */
  predicate Counted(s: State) {
    forall el :: el in s.ackWaitQueue ==> el.txcount >= 0
  }

  lemma CountedStems(s: State)
    requires Counted(s)
    ensures forall el :: el in s.ackWaitQueue ==> Stems(s.ackWaitQueue, el)
  {
  }

  lemma NumberSends(p: Params, e: Env, s: State, buf: seq<byte>)
    requires Fits(p) && Running(p, s) && Sane(s) && Counted(s) && buf != []
    ensures Sends(p, s, Number(s, e, buf)) && Running(p, Number(s, e, buf)) && Counted(Number(s, e, buf))
  {
    var s', n := Number(s, e, buf), s.txSequence;
    ModSucc(p.m, |s.numbered| + 1);
    NumberBrings(p, |s.numbered| + 1, buf);
    var el := Element(n, RETRIES, e.clock(s.readings), DataFrame(n, buf), |s.queued|);
    hide DataFrame;
    hide Brings;
    hide Datas;
    assert News(s, s') == [DataFrame(n, buf)];
    hide News;
    OneQueued(s, s', el);
    hide Queues;
    hide Ranked;
    hide Counted;
  }

  lemma OneQueued(s: State, s': State, el: Element)
    requires Counted(s) && el.serial == |s.queued| == |s'.queued| - 1 && el.txcount == RETRIES
    requires s'.ackWaitQueue == s.ackWaitQueue + [el]
    ensures Queues(s, s') && (Ranked(s) ==> Ranked(s')) && Counted(s')
  {
    CountedStems(s);
    OneBehind(s.ackWaitQueue, el);
    hide Stems;
    hide Rising;
  }

  lemma OneBehind(q: seq<Element>, el: Element)
    ensures forall x :: x in q + [el] ==> x in q || x == el
    ensures Rising(q) && (forall x :: x in q ==> x.serial < el.serial) ==> Rising(q + [el])
  {
  }

  lemma NumberBrings(p: Params, next: nat, buf: seq<byte>)
    requires Fits(p)
    ensures next % p.m <= MAX_SEQ && Brings(p.m, next, Datas([DataFrame(next % p.m, buf)])) == next + 1
  {
    var n := next % p.m;
    DataFrameWire(p.m, n, buf);
    FlowOne(DataFrame(n, buf));
    BringsOne(p.m, next, Data(n, buf));
    hide DataFrame;
    hide Brings;
    hide Datas;
    hide Decode;
    hide Wire;
  }

  lemma TransmitSends(p: Params, e: Env, s: State, buf: seq<byte>)
    requires Fits(p) && Running(p, s) && Sane(s) && Counted(s) && buf != [] && !Transmit(s, e, buf).failed
    ensures var s' := Transmit(s, e, buf); Sends(p, s, s') && Running(p, s') && Counted(s')
  {
    hide Sends;
    hide Number;
    assert HasFailed(s) == s;
    if ByteAt(buf, 0, e.stale) in s.xoff || |s.ackWaitQueue| >= s.maxOutstanding {
      IdleSends(p, s, Transmit(s, e, buf));
    } else {
      NumberSends(p, e, s, buf);
    }
  }

  lemma {:induction false} TransmitAllSends(p: Params, e: Env, s: State, bufs: seq<seq<byte>>)
    requires Fits(p) && Running(p, s) && Sane(s) && Counted(s) && !TransmitAll(s, e, bufs).failed
    requires forall i :: 0 <= i < |bufs| ==> bufs[i] != []
    ensures Sends(p, s, TransmitAll(s, e, bufs))
    decreases |bufs|
  {
    hide Sends;
    hide Transmit;
    hide Running;
    hide Counted;
    if bufs == [] {
      IdleSends(p, s, s);
    } else {
      var s1 := Transmit(s, e, bufs[0]);
      TransmitAllLinkType(s1, e, bufs[1..]);
      TransmitSends(p, e, s, bufs[0]);
      TransmitAllSends(p, e, s1, bufs[1..]);
      SendsTwice(p, s, s1, TransmitAll(s1, e, bufs[1..]));
    }
  }

  // ---------------------------------------------------------------- frames sent again

  /** The frame is that of a packet whose number is not the next one. */
  predicate Repeat(p: Params, s: State, f: seq<byte>)
    requires Fits(p)
  {
    var d := Decode(f, 0);
    d.Data? && d.number != (|s.numbered| + 1) % p.m
  }

  lemma ModApart(m: nat, a: nat, b: nat)
    requires (m == 8 || m == 2048) && a < b < a + m
    ensures a % m != b % m
  {
  }

  /** What may be sent again is at most d behind the next number, and so has another number. */
  lemma QueuedRepeats(p: Params, s: State, el: Element)
    requires Fits(p) && Queued(p, SenderOf(s), el) && SenderOf(s).Next() <= ElementIdx(SenderOf(s), el) + p.d
    ensures Repeat(p, s, el.data)
  {
    var x := SenderOf(s);
    var k := ElementIdx(x, el);
    ModApart(p.m, k, |s.numbered| + 1);
    DataFrameWire(p.m, el.seqNr, x.numbered[k - 1].payload);
    hide DataFrame;
    hide Decode;
    hide Wire;
  }

  lemma SendableRepeats(p: Params, e: Env, s: State, w: Around, q: seq<Element>, f: Frame)
    requires Good(p, e, s, w) && Sendable(q, Limit(p, s), f)
    requires forall el :: el in q ==> Stems(s.ackWaitQueue, el)
    ensures Repeat(p, s, f.data)
  {
    var x := SenderOf(s);
    QueueOfCore(p, x, w.taken, w.dataOut, w.ackIn);
    hide Good;
    hide Queued;
    hide Repeat;
    var el :| el in q && el.data == f.data && el.serial >= Limit(p, s);
    var el0 :| el0 in s.ackWaitQueue && SentMore(el0, el);
    QueuedRepeats(p, s, el0);
  }

  lemma {:induction false} EmitAllSends(p: Params, s: State, frames: seq<Frame>)
    requires Fits(p) && Counted(s) && forall f :: f in frames ==> Repeat(p, s, f.data)
    ensures Sends(p, s, EmitAll(s, frames))
    decreases |frames|
  {
    hide Sends;
    hide Repeat;
    if frames == [] {
      IdleSends(p, s, s);
    } else {
      assert frames[0] in frames;
      var s1 := Emit(s, frames[0]);
      EmitSends(p, s, frames[0]);
      forall f | f in frames[1..] ensures Repeat(p, s1, f.data) {
        SameRepeat(p, s, s1, f.data);
      }
      EmitAllSends(p, s1, frames[1..]);
      SendsTwice(p, s, s1, EmitAll(s1, frames[1..]));
    }
  }

  lemma SameRepeat(p: Params, s: State, s': State, f: seq<byte>)
    requires Fits(p) && Repeat(p, s, f) && s'.numbered == s.numbered
    ensures Repeat(p, s', f)
  {
    hide Decode;
  }

  lemma EmitSends(p: Params, s: State, f: Frame)
    requires Fits(p) && Counted(s) && Repeat(p, s, f.data)
    ensures Sends(p, s, Emit(s, f))
  {
    var s' := Emit(s, f);
    var d := Decode(f.data, 0);
    FlowOne(f.data);
    assert DataOf(f.data) == [d];
    hide DataOf;
    hide Decode;
    BringsOne(p.m, |s.numbered| + 1, d);
    CountedStems(s);
    hide Stems;
    hide Brings;
    assert News(s, s') == [f.data];
    hide Datas;
  }

  lemma TimerSends(p: Params, e: Env, s: State, w: Around, expired: int)
    requires Good(p, e, s, w) && !Retransmit(s, e, expired).failed
    ensures Sends(p, s, Retransmit(s, e, expired))
  {
    hide *;
    var q, now := s.ackWaitQueue, e.clock(s.readings);
    var frames := Resent(q, expired);
    var s1 := s.(readings := s.readings + 1, failed := false, ackWaitQueue := Retried(q, expired, now));
    TimerIs(s, e, expired);
    GoodIs(p, e, s, w);
    QueueCounts(p, e, s, w);
    RetriedAgain(q, expired, now);
    RetriedStems(q, expired, now);
    ResentQueued(q, expired, now, Limit(p, s));
    forall f | f in frames ensures Repeat(p, s1, f.data) {
      SendableRepeats(p, e, s, w, s1.ackWaitQueue, f);
      SameRepeat(p, s, s1, f.data);
    }
    RestampedCounted(s, s1, now);
    EmitAllSends(p, s1, frames);
    RequeuedSends(p, s, s1, now);
    SendsTwice(p, s, s1, EmitAll(s1, frames));
  }

  lemma TimerIs(s: State, e: Env, expired: int)
    requires !Retransmit(s, e, expired).failed
    ensures var q := s.ackWaitQueue;
            && !TimedOut(q, expired)
            && Retransmit(s, e, expired)
               == EmitAll(s.(readings := s.readings + 1, failed := false,
                             ackWaitQueue := Retried(q, expired, e.clock(s.readings))), Resent(q, expired))
  {
    var q := s.ackWaitQueue;
    var s1 := s.(readings := s.readings + 1, failed := TimedOut(q, expired),
                 ackWaitQueue := Retried(q, expired, e.clock(s.readings)));
    LinkModes.EmitAllLine(s1, Resent(q, expired));
    hide EmitAll;
    hide TimedOut;
    hide Retried;
    hide Resent;
    assert HasFailed(s) == s;
  }

  /** Some elements have new stamps. */
  lemma RequeuedSends(p: Params, s: State, s': State, now: int)
    requires Fits(p) && |s'.ackWaitQueue| == |s.ackWaitQueue|
    requires s'.line == s.line && s'.accepted == s.accepted && s'.queued == s.queued && s'.numbered == s.numbered
    requires forall i :: 0 <= i < |s.ackWaitQueue| ==> Again(s.ackWaitQueue[i], s'.ackWaitQueue[i], now)
    requires forall el :: el in s'.ackWaitQueue ==> Stems(s.ackWaitQueue, el)
    ensures Sends(p, s, s')
  {
    assert News(s, s') == [];
    BringsOne(p.m, |s.numbered| + 1, Data(0, []));
    hide Stems;
    hide Brings;
  }

  // ---------------------------------------------------------------- receiving

  /** In an unharmed session no two queued packets have the same number. */
  lemma NumbersApart(p: Params, e: Env, s: State, w: Around, i: nat, j: nat)
    requires Good(p, e, s, w) && !s.failed && w.mine == {} && Ranked(s) && i < j < |s.ackWaitQueue|
    ensures s.ackWaitQueue[i].seqNr != s.ackWaitQueue[j].seqNr
  {
    var x, q := SenderOf(s), s.ackWaitQueue;
    QueueOfCore(p, x, w.taken, w.dataOut, w.ackIn);
    hide Core;
    hide GivenUp;
    hide DataFrame;
    assert q[i] in q && q[j] in q;
    assert Queued(p, x, q[i]) && Queued(p, x, q[j]);
    if p == EPOC {
      Behind(x, w.mine, q[i]);
      CountAll(w.mine, ElementIdx(x, q[i]), x.Next() - 1);
      hide Stamped;
      ModApart(p.m, ElementIdx(x, q[i]), ElementIdx(x, q[j]));
    }
  }

  /** Acknowledgement `number` has been used up: nothing queued before is still queued with that number. */
  ghost predicate Uses(s: State, s': State, number: int) {
    forall el :: el in s'.ackWaitQueue && el.serial < |s.queued| ==> el.seqNr != number
  }

  lemma AckSends(p: Params, e: Env, s: State, w: Around, number: nat)
    requires Good(p, e, s, w) && Sane(s) && !s.failed && w.mine == {} && Ranked(s)
    requires var s' := ReceiveAck(s, e, number); !s'.failed && s'.gaveUp == s.gaveUp
    ensures Sends(p, s, ReceiveAck(s, e, number)) && Uses(s, ReceiveAck(s, e, number), number)
  {
    hide Sends;
    hide Uses;
    hide Good;
    hide Ranked;
    hide AckFound;
    hide AckUnmatched;
    hide TransmitWaitQueue;
    var i := Find(s.ackWaitQueue, number);
    hide Find;
    if i < |s.ackWaitQueue| {
      FoundSends(p, e, s, w, i);
    } else {
      UnmatchedSends(p, e, s, w, number);
    }
  }

  lemma {:induction false} NotOlderRising(q: seq<Element>, ref: int)
    requires Rising(q)
    ensures Rising(NotOlder(q, ref))
    decreases |q|
  {
    if q != [] {
      NotOlderRising(q[1..], ref);
      NotOlderMembers(q[1..], ref);
    }
  }

  lemma EraseRising(q: seq<Element>, i: nat)
    requires Rising(q) && i < |q| && forall j :: 0 <= j < |q| && j != i ==> q[j].seqNr != q[i].seqNr
    ensures Rising(Erase(q, i)) && forall el :: el in Erase(q, i) ==> el in q && el.seqNr != q[i].seqNr
  {
    var r := Erase(q, i);
    assert forall j :: 0 <= j < |r| ==> r[j] == q[if j < i then j else j + 1];
    hide Erase;
  }

  lemma OthersApart(p: Params, e: Env, s: State, w: Around, i: nat)
    requires Good(p, e, s, w) && !s.failed && w.mine == {} && Ranked(s) && i < |s.ackWaitQueue|
    ensures var q := s.ackWaitQueue; forall j :: 0 <= j < |q| && j != i ==> q[j].seqNr != q[i].seqNr
  {
    hide *;
    var q := s.ackWaitQueue;
    forall j | 0 <= j < |q| && j != i ensures q[j].seqNr != q[i].seqNr {
      if i < j {
        NumbersApart(p, e, s, w, i, j);
      } else {
        NumbersApart(p, e, s, w, j, i);
      }
    }
  }

  /** The acknowledged element leaves, and older ones; the rest keep their order. */
  lemma FoundLeaves(s: State, i: nat)
    requires Ranked(s) && i < |s.ackWaitQueue|
    requires var q := s.ackWaitQueue; forall j :: 0 <= j < |q| && j != i ==> q[j].seqNr != q[i].seqNr
    ensures var s1 := s.(ackWaitQueue := NotOlder(Erase(s.ackWaitQueue, i), s.ackWaitQueue[i].stamp));
            && Ranked(s1) && (forall el :: el in s1.ackWaitQueue ==> el in s.ackWaitQueue)
            && Uses(s, s1, s.ackWaitQueue[i].seqNr)
  {
    var q := s.ackWaitQueue;
    EraseRising(q, i);
    NotOlderRising(Erase(q, i), q[i].stamp);
    NotOlderMembers(Erase(q, i), q[i].stamp);
    hide Erase;
    hide NotOlder;
    hide Rising;
  }

  lemma FoundIs(p: Params, e: Env, s: State, w: Around, i: nat)
    requires Good(p, e, s, w) && Sane(s) && i < |s.ackWaitQueue|
    ensures AckFound(s, i) == s.(ackWaitQueue := NotOlder(Erase(s.ackWaitQueue, i), s.ackWaitQueue[i].stamp))
    ensures Fits(p) && Counted(s) && Running(p, AckFound(s, i).(waitQueue := []))
    ensures forall j :: 0 <= j < |s.waitQueue| ==> s.waitQueue[j] != []
  {
    QueueCounts(p, e, s, w);
    hide Core;
    hide GivenUp;
    hide Clocked;
    hide Erase;
    hide NotOlder;
    assert forall j :: 0 <= j < |s.waitQueue| ==> s.waitQueue[j] in s.waitQueue;
  }

  lemma FoundSends(p: Params, e: Env, s: State, w: Around, i: nat)
    requires Good(p, e, s, w) && Sane(s) && !s.failed && w.mine == {} && Ranked(s) && i < |s.ackWaitQueue|
    requires !TransmitWaitQueue(AckFound(s, i), e).failed
    ensures var s' := TransmitWaitQueue(AckFound(s, i), e);
            Fits(p) && Sends(p, s, s') && Uses(s, s', s.ackWaitQueue[i].seqNr)
  {
    FoundIs(p, e, s, w, i);
    OthersApart(p, e, s, w, i);
    hide Good;
    FoundLeaves(s, i);
    var s1 := AckFound(s, i).(waitQueue := []);
    LeftCounted(s, s1);
    hide Ranked;
    hide AckFound;
    hide Erase;
    hide NotOlder;
    hide Running;
    hide Counted;
    hide TransmitAll;
    TransmitAllSends(p, e, s1, s.waitQueue);
    var s' := TransmitAll(s1, e, s.waitQueue);
    assert s' == TransmitWaitQueue(AckFound(s, i), e);
    LeftSends(p, s, s1);
    SendsTwice(p, s, s1, s');
    UsesOn(p, s, s1, s', s.ackWaitQueue[i].seqNr);
  }

  lemma LeftCounted(s: State, s': State)
    requires Counted(s) && forall el :: el in s'.ackWaitQueue ==> el in s.ackWaitQueue
    ensures Counted(s')
  {
  }

  lemma UsesOn(p: Params, s: State, s1: State, s': State, number: int)
    requires Fits(p) && Sends(p, s1, s') && Uses(s, s1, number) && s1.queued == s.queued
    ensures Uses(s, s', number)
  {
    forall el | el in s'.ackWaitQueue && el.serial < |s.queued| ensures el.seqNr != number {
      assert Stems(s1.ackWaitQueue, el);
      var q :| q in s1.ackWaitQueue && SentMore(q, el);
    }
  }

  /** Elements have left the queue. */
  lemma LeftSends(p: Params, s: State, s': State)
    requires Fits(p) && Counted(s) && Ranked(s')
    requires s'.line == s.line && s'.accepted == s.accepted && s'.queued == s.queued && s'.numbered == s.numbered
    requires forall el :: el in s'.ackWaitQueue ==> el in s.ackWaitQueue
    ensures Sends(p, s, s')
  {
    CountedStems(s);
    assert News(s, s') == [];
    BringsOne(p.m, |s.numbered| + 1, Data(0, []));
    hide Stems;
    hide Brings;
    hide Ranked;
  }

  lemma UnmatchedSends(p: Params, e: Env, s: State, w: Around, number: nat)
    requires Good(p, e, s, w) && Find(s.ackWaitQueue, number) == |s.ackWaitQueue|
    requires AckUnmatched(s, e, number).gaveUp == s.gaveUp
    ensures Sends(p, s, AckUnmatched(s, e, number)) && Uses(s, AckUnmatched(s, e, number), number)
  {
    var i, s' := Find(s.ackWaitQueue, number + 1), AckUnmatched(s, e, number);
    hide *;
    UnmatchedIs(s, e, number);
    Absent(s.ackWaitQueue, number);
    GoodIs(p, e, s, w);
    if i == |s.ackWaitQueue| {
      TickSends(p, s);
    } else {
      AgainSends(p, e, s, w, i);
    }
    UsesNone(p, s, s', number);
  }

  lemma UnmatchedIs(s: State, e: Env, number: nat)
    requires AckUnmatched(s, e, number).gaveUp == s.gaveUp
    ensures var i, s', q := Find(s.ackWaitQueue, number + 1), AckUnmatched(s, e, number), s.ackWaitQueue;
            if i == |q| then s' == s.(readings := s.readings + 1)
            else
              var el := q[i];
              var q' := q[i := el.(txcount := el.txcount - 1, stamp := e.clock(s.readings))];
              && el.txcount != 0
              && s' == Emit(s.(ackWaitQueue := q', readings := s.readings + 1), Frame(el.data, el.serial))
  {
    hide Find;
    hide Emit;
  }

  lemma TickSends(p: Params, s: State)
    requires Fits(p) && Counted(s)
    ensures Sends(p, s, s.(readings := s.readings + 1))
  {
    IdleSends(p, s, s.(readings := s.readings + 1));
    hide Sends;
  }

  lemma GoodIs(p: Params, e: Env, s: State, w: Around)
    requires Good(p, e, s, w)
    ensures Fits(p) && Running(p, s) && Counted(s)
  {
    QueueCounts(p, e, s, w);
    hide Core;
    hide GivenUp;
    hide Clocked;
  }

  lemma UsesNone(p: Params, s: State, s': State, number: int)
    requires Fits(p) && Sends(p, s, s') && forall el :: el in s.ackWaitQueue ==> el.seqNr != number
    ensures Uses(s, s', number)
  {
    hide Brings;
    forall el | el in s'.ackWaitQueue && el.serial < |s.queued| ensures el.seqNr != number {
      assert Stems(s.ackWaitQueue, el);
      var q :| q in s.ackWaitQueue && SentMore(q, el);
    }
  }

  lemma Absent(q: seq<Element>, number: nat)
    requires Find(q, number) == |q|
    ensures forall el :: el in q ==> el.seqNr != number
  {
    forall el | el in q ensures el.seqNr != number {
      var j :| 0 <= j < |q| && q[j] == el;
    }
  }

  /** Element i is sent again. */
  lemma AgainSends(p: Params, e: Env, s: State, w: Around, i: nat)
    requires Good(p, e, s, w) && i < |s.ackWaitQueue| && s.ackWaitQueue[i].txcount != 0
    ensures var el := s.ackWaitQueue[i];
            var q := s.ackWaitQueue[i := el.(txcount := el.txcount - 1, stamp := e.clock(s.readings))];
            Fits(p) && Sends(p, s, Emit(s.(ackWaitQueue := q, readings := s.readings + 1), Frame(el.data, el.serial)))
  {
    var el, now := s.ackWaitQueue[i], e.clock(s.readings);
    var el' := el.(txcount := el.txcount - 1, stamp := now);
    var q, f := s.ackWaitQueue[i := el'], Frame(el.data, el.serial);
    var s1 := s.(ackWaitQueue := q, readings := s.readings + 1);
    hide Sends;
    QueueCounts(p, e, s, w);
    assert el in s.ackWaitQueue && q[i] in q;
    OneRestamped(s.ackWaitQueue, i, el', now);
    assert Fits(p);
    hide Good;
    SendableRepeats(p, e, s, w, q, f);
    SameRepeat(p, s, s1, f.data);
    RestampedCounted(s, s1, now);
    hide Repeat;
    hide Counted;
    EmitSends(p, s1, f);
    RequeuedSends(p, s, s1, now);
    SendsTwice(p, s, s1, Emit(s1, f));
  }

  lemma RestampedCounted(s: State, s': State, now: int)
    requires |s'.ackWaitQueue| == |s.ackWaitQueue|
    requires forall i :: 0 <= i < |s.ackWaitQueue| ==> 0 <= s.ackWaitQueue[i].txcount
    requires forall i :: 0 <= i < |s.ackWaitQueue| ==> Again(s.ackWaitQueue[i], s'.ackWaitQueue[i], now)
    ensures Counted(s')
  {
  }

  /** SendAck sends the number last accepted. */
  lemma AckOut(p: Params, s: State)
    requires Fits(p) && Running(p, s) && Sane(s) && Counted(s) && !SendAck(s).failed
    ensures Sends(p, s, SendAck(s)) && Acks(News(s, SendAck(s))) == [|s.accepted| % p.m]
  {
    var n := |s.accepted| % p.m;
    AckFrameWire(p.m, n);
    FlowOne(AckFrame(n));
    BringsOne(p.m, |s.numbered| + 1, Data(0, []));
    CountedStems(s);
    hide AckFrame;
    hide Decode;
    hide Wire;
    hide Stems;
    hide Brings;
    assert News(s, SendAck(s)) == [AckFrame(n)];
    hide News;
    hide Datas;
    hide Acks;
    hide Ranked;
  }

  /** A data packet arrives in a session without flow control. */
  lemma DataSends(p: Params, e: Env, s: State, number: nat, payload: seq<byte>)
    requires Fits(p) && Running(p, s) && Sane(s) && Counted(s)
    requires number == (|s.accepted| + 1) % p.m ==> Ordinary(payload)
    requires !ReceiveData(s, e, number, payload).failed
    ensures var s' := ReceiveData(s, e, number, payload);
            var s1 := s.(accepted := s'.accepted);
            && Sends(p, s1, s')
            && if number != (|s.accepted| + 1) % p.m then s'.accepted == s.accepted
               else s'.accepted == s.accepted + [payload] && (|s.accepted| + 1) % p.m in Acks(News(s1, s'))
  {
    hide *;
    NextIs(p, s);
    DataIs(s, e, number, payload);
    var s', next := ReceiveData(s, e, number, payload), (|s.accepted| + 1) % p.m;
    if number == next {
      var s1 := s.(rxSequence := next, accepted := s.accepted + [payload]);
      AcceptedRuns(p, s, payload);
      Dispatched(s, e, payload);
      SendAckAccepted(s1);
      OneLonger(s.accepted, payload);
      AckOut(p, s1);
      SendsSame(p, s1, SendAck(s1), s.(accepted := s'.accepted), s');
    } else {
      AckOut(p, s);
      SendAckAccepted(s);
    }
  }

  lemma OneLonger<T>(q: seq<T>, x: T)
    ensures |q + [x]| == |q| + 1
  {
  }

  lemma AcceptedRuns(p: Params, s: State, payload: seq<byte>)
    requires Fits(p) && Running(p, s) && Counted(s)
    ensures var s1 := s.(rxSequence := (|s.accepted| + 1) % p.m, accepted := s.accepted + [payload]);
            Running(p, s1) && Counted(s1)
  {
  }

  lemma SendAckAccepted(s: State)
    requires Sane(s)
    ensures SendAck(s).accepted == s.accepted
  {
  }

  lemma NextIs(p: Params, s: State)
    requires Fits(p) && Running(p, s) && Sane(s)
    ensures p.m > 0 && Masked(s.rxSequence + 1, s.seqMask) == (|s.accepted| + 1) % p.m < p.m
  {
    ModSucc(p.m, |s.accepted|);
  }

  lemma Dispatched(s: State, e: Env, payload: seq<byte>)
    requires Sane(s) && Ordinary(payload)
    ensures var next := Masked(s.rxSequence + 1, s.seqMask);
            var s1 := SendAck(s.(rxSequence := next, accepted := s.accepted + [payload]));
            ReceiveData(s, e, next, payload) == s1.(ncp := s1.ncp + [payload])
  {
    hide SendAck;
    hide TransmitHoldQueue;
    hide Masked;
  }

  lemma SendsSame(p: Params, s: State, s': State, t: State, t': State)
    requires Fits(p) && Sends(p, s, s')
    requires t == s.(rxSequence := t.rxSequence) && t' == s'.(ncp := t'.ncp)
    ensures Sends(p, t, t') && News(t, t') == News(s, s')
  {
    assert News(t, t') == News(s, s');
    hide Brings;
    hide Datas;
    hide Stems;
  }

  // ---------------------------------------------------------------- the invariant of a run

  /** Of the first packets, those accepted, each that is still queued has an acknowledgement on its way back. */
  ghost predicate Answered(x: State, accepted: nat, acks: seq<nat>) {
    forall el :: el in x.ackWaitQueue && ElementIdx(SenderOf(x), el) <= accepted ==> el.seqNr in acks
  }

  /** The way from x to y, on which nothing has been lost. */
  ghost predicate Way(p: Params, x: State, y: State, out: seq<seq<byte>>, back: seq<seq<byte>>)
    requires Fits(p)
  {
    && Brings(p.m, |y.accepted| + 1, Datas(out)) == |x.numbered| + 1
    && Ranked(x) && Answered(x, |y.accepted|, Acks(back))
  }

  ghost predicate Complete(p: Params, n: Net)
    requires Fits(p)
  {
    Way(p, n.a, n.b, n.ab, n.ba) && Way(p, n.b, n.a, n.ba, n.ab)
  }

  /** The line after its first frame may have been taken, and used if it is an acknowledgement. */
  ghost predicate Consumed(s: State, s': State, line: seq<seq<byte>>, line': seq<seq<byte>>) {
    line' == line || (line != [] && line' == line[1..] && forall k :: k in AckOf(line[0]) ==> Uses(s, s', k))
  }

  lemma AnsweredStill(p: Params, x: State, x': State, accepted: nat, back: seq<seq<byte>>, back': seq<seq<byte>>)
    requires Fits(p) && Sends(p, x, x') && Answered(x, accepted, Acks(back)) && Consumed(x, x', back, back')
    requires accepted <= |x.numbered|
    ensures Answered(x', accepted, Acks(back'))
  {
    hide Brings;
    hide AckOf;
    forall el | el in x'.ackWaitQueue && ElementIdx(SenderOf(x'), el) <= accepted ensures el.seqNr in Acks(back') {
      assert Stems(x.ackWaitQueue, el);
      var q :| q in x.ackWaitQueue && SentMore(q, el);
      assert ElementIdx(SenderOf(x), q) == ElementIdx(SenderOf(x'), el);
    }
  }

  /** x does something, and its frames join those on their way. */
  lemma SenderWay(p: Params, x: State, x': State, y: State, out: seq<seq<byte>>, back: seq<seq<byte>>,
                  back': seq<seq<byte>>)
    requires Fits(p) && Way(p, x, y, out, back) && Sends(p, x, x') && Consumed(x, x', back, back')
    requires |y.accepted| <= |x.numbered|
    ensures Way(p, x', y, out + News(x, x'), back')
  {
    AnsweredStill(p, x, x', |y.accepted|, back, back');
    FlowSplit(out, News(x, x'));
    BringsSplit(p.m, |y.accepted| + 1, Datas(out), Datas(News(x, x')));
    hide Brings;
    hide Datas;
    hide Acks;
    hide Answered;
    hide Queues;
    hide Ranked;
  }

  /** What y accepts, it answers. */
  lemma TakerWay(p: Params, x: State, y: State, y': State, out: seq<seq<byte>>, out': seq<seq<byte>>,
                 back: seq<seq<byte>>, news: seq<seq<byte>>)
    requires Fits(p) && Way(p, x, y, out, back) && QueueOk(p, SenderOf(x))
    requires Brings(p.m, |y'.accepted| + 1, Datas(out')) == Brings(p.m, |y.accepted| + 1, Datas(out))
    requires |y'.accepted| == |y.accepted| || (|y'.accepted| == |y.accepted| + 1 && |y'.accepted| % p.m in Acks(news))
    ensures Way(p, x, y', out', back + news)
  {
    FlowSplit(back, news);
    hide Brings;
    hide Datas;
    hide Acks;
    hide DataFrame;
    assert forall el :: el in x.ackWaitQueue ==> Queued(p, SenderOf(x), el);
  }

  /** What the step of a has to do, so that nothing is missing afterwards; s is a with what a' has accepted. */
  ghost predicate Does(p: Params, n: Net, s: State, a': State, ba': seq<seq<byte>>)
    requires Fits(p)
  {
    && s == n.a.(accepted := a'.accepted) && Sends(p, s, a') && Consumed(s, a', n.ba, ba')
    && Brings(p.m, |a'.accepted| + 1, Datas(ba')) == Brings(p.m, |n.a.accepted| + 1, Datas(n.ba))
    && (|a'.accepted| == |n.a.accepted|
        || (|a'.accepted| == |n.a.accepted| + 1 && |a'.accepted| % p.m in Acks(News(s, a'))))
  }

  lemma MovedComplete(p: Params, n: Net, s: State, a': State, ba': seq<seq<byte>>)
    requires Fits(p) && Complete(p, n) && Does(p, n, s, a', ba')
    requires QueueOk(p, SenderOf(n.b)) && |n.b.accepted| <= |n.a.numbered|
    ensures Complete(p, Moved(n, a', ba'))
  {
    SameWay(p, n.a, s, n.b, n.ab, n.ba);
    var news := News(s, a');
    assert Fresh(n.a, a') == news;
    TakerWay(p, n.b, n.a, a', n.ba, ba', n.ab, news);
    SenderWay(p, s, a', n.b, n.ab, n.ba, ba');
    hide Way;
    hide News;
    hide Fresh;
  }

  lemma SameWay(p: Params, x: State, x': State, y: State, out: seq<seq<byte>>, back: seq<seq<byte>>)
    requires Fits(p) && Way(p, x, y, out, back) && x' == x.(accepted := x'.accepted)
    ensures Way(p, x', y, out, back)
  {
    hide Brings;
    hide Datas;
    hide Acks;
  }

  /** The step takes no frame. */
  lemma DoesSend(p: Params, n: Net, a': State)
    requires Fits(p) && Sends(p, n.a, a')
    ensures Does(p, n, n.a, a', n.ba)
  {
    assert n.a == n.a.(accepted := a'.accepted);
    hide Brings;
    hide Datas;
    hide Acks;
    hide Queues;
    hide Ranked;
    hide News;
  }

  lemma InvMeans(p: Params, ea: Env, eb: Env, n: Net)
    requires Inv(p, ea, eb, n)
    ensures Good(p, ea, n.a, AroundA(n, NONE)) && Fits(p) && Running(p, n.a) && Counted(n.a)
    ensures QueueOk(p, SenderOf(n.b)) && |n.b.accepted| <= |n.a.numbered|
    ensures AroundA(n, NONE).mine == {} && LineOk(p.m, n.ba) && Sane(n.a)
  {
    GoodIs(p, ea, n.a, AroundA(n, NONE));
    RunningSane(p, n.a);
    hide GivenUp;
    hide Clocked;
    hide LineOk;
  }

  /** The submission of an ordinary packet, or the timer, or the state of the line. */
  lemma OwnStep(p: Params, ea: Env, eb: Env, n: Net, ev: Event)
    requires Inv(p, ea, eb, n) && SaneNet(n) && !n.a.failed && (ev.Submit? || ev.Timer? || ev.LineStatus?)
    requires ev.Submit? ==> Ordinary(ev.buf)
    requires !StepA(n, ea, ev).a.failed
    ensures Fits(p) && Does(p, n, n.a, StepA(n, ea, ev).a, n.ba)
  {
    InvMeans(p, ea, eb, n);
    hide Inv;
    hide Good;
    hide Sends;
    hide Does;
    hide Running;
    hide Counted;
    match ev {
      case Submit(buf) =>
        hide Transmit;
        TransmitSends(p, ea, n.a, buf);
      case Timer(expired) =>
        hide Retransmit;
        TimerSends(p, ea, n.a, AroundA(n, NONE), expired);
      case LineStatus(down) =>
        IdleSends(p, n.a, n.a.(lineDown := down));
    }
    DoesSend(p, n, StepA(n, ea, ev).a);
  }

  lemma DeliverData(p: Params, ea: Env, eb: Env, n: Net, number: nat, payload: seq<byte>)
    requires Inv(p, ea, eb, n) && SaneNet(n) && n.ba != [] && Decode(n.ba[0], 0) == Data(number, payload)
    requires number == (|n.a.accepted| + 1) % p.m ==> Ordinary(payload)
    requires !ReceiveData(n.a, ea, number, payload).failed
    ensures var a' := ReceiveData(n.a, ea, number, payload);
            Fits(p) && Does(p, n, n.a.(accepted := a'.accepted), a', n.ba[1..])
  {
    hide *;
    InvMeans(p, ea, eb, n);
    DataSends(p, ea, n.a, number, payload);
    DataFirst(p, n.ba, |n.a.accepted| + 1, number, payload);
    DoesData(p, n, number, payload, ReceiveData(n.a, ea, number, payload));
  }

  lemma DataFirst(p: Params, line: seq<seq<byte>>, next: nat, number: nat, payload: seq<byte>)
    requires Fits(p) && line != [] && Decode(line[0], 0) == Data(number, payload)
    ensures AckOf(line[0]) == []
    ensures Brings(p.m, next, Datas(line))
         == Brings(p.m, if number == next % p.m then next + 1 else next, Datas(line[1..]))
  {
    var d, rest := Data(number, payload), Datas(line[1..]);
    assert Datas(line) == [d] + rest;
    hide Datas;
    hide Decode;
    BringsSplit(p.m, next, [d], rest);
    BringsOne(p.m, next, d);
  }

  lemma DoesData(p: Params, n: Net, number: nat, payload: seq<byte>, a': State)
    requires Fits(p) && n.ba != [] && AckOf(n.ba[0]) == []
    requires var s, next := n.a.(accepted := a'.accepted), |n.a.accepted| + 1;
             && Sends(p, s, a')
             && (if number != next % p.m then a'.accepted == n.a.accepted
                 else a'.accepted == n.a.accepted + [payload] && next % p.m in Acks(News(s, a')))
             && Brings(p.m, next, Datas(n.ba))
                == Brings(p.m, if number == next % p.m then next + 1 else next, Datas(n.ba[1..]))
    ensures Does(p, n, n.a.(accepted := a'.accepted), a', n.ba[1..])
  {
    hide Brings;
    hide Datas;
    hide Acks;
    hide News;
    hide AckOf;
    hide Uses;
    hide Queues;
    hide Ranked;
  }

  lemma DeliverAck(p: Params, ea: Env, eb: Env, n: Net, number: nat)
    requires Inv(p, ea, eb, n) && SaneNet(n) && !n.a.failed && n.ba != [] && Decode(n.ba[0], 0) == Ack(number)
    requires Ranked(n.a)
    requires var a' := ReceiveAck(n.a, ea, number); !a'.failed && a'.gaveUp == n.a.gaveUp
    ensures Fits(p) && Does(p, n, n.a, ReceiveAck(n.a, ea, number), n.ba[1..])
  {
    hide *;
    InvMeans(p, ea, eb, n);
    AckSends(p, ea, n.a, AroundA(n, NONE), number);
    AckFirst(n.ba, number);
    DoesAck(p, n, number, ReceiveAck(n.a, ea, number));
  }

  lemma AckFirst(line: seq<seq<byte>>, number: nat)
    requires line != [] && Decode(line[0], 0) == Ack(number)
    ensures AckOf(line[0]) == [number] && Datas(line) == Datas(line[1..])
  {
    hide Decode;
    var rest := Datas(line[1..]);
    assert Datas(line) == [] + rest;
    hide Datas;
  }

  lemma DoesAck(p: Params, n: Net, number: nat, a': State)
    requires Fits(p) && n.ba != [] && AckOf(n.ba[0]) == [number] && Datas(n.ba) == Datas(n.ba[1..])
    requires Sends(p, n.a, a') && Uses(n.a, a', number)
    ensures Does(p, n, n.a, a', n.ba[1..])
  {
    hide Brings;
    hide Datas;
    hide Acks;
    hide News;
    hide AckOf;
    hide Uses;
    hide Queues;
    hide Ranked;
    assert n.a == n.a.(accepted := a'.accepted);
  }

  lemma DataIsOrdinary(p: Params, ea: Env, eb: Env, n: Net, subB: seq<seq<byte>>, number: nat, payload: seq<byte>)
    requires Inv(p, ea, eb, n) && SaneNet(n) && Local(n.b, subB)
    requires n.ba != [] && Decode(n.ba[0], ea.stale) == Data(number, payload)
    requires StepA(n, ea, Deliver).a.gaveUp == n.a.gaveUp
    ensures Fits(p) && (number == (|n.a.accepted| + 1) % p.m ==> Ordinary(payload))
  {
    hide *;
    TakesMeans(n, ea.stale, number, payload);
    NotARequest();
    NewAccepted(p, ea, eb, n, Deliver, subB);
    InvMeans(p, ea, eb, n);
    NextIs(p, n.a);
  }

  lemma NotARequest()
    ensures Deliver != Submit([])
  {
  }

  lemma TakesMeans(n: Net, stale: byte, number: nat, payload: seq<byte>)
    requires SaneNet(n) && n.ba != [] && Decode(n.ba[0], stale) == Data(number, payload)
    ensures var op := OpOf(n, Deliver);
            && op == LinkModes.Arrive(n.ba[0])
            && (Takes(n.a, op, stale) <==> number == Masked(n.a.rxSequence + 1, n.a.seqMask))
  {
    hide Decode;
    hide Masked;
  }

  lemma DeliverDoes(p: Params, ea: Env, eb: Env, n: Net, subB: seq<seq<byte>>) returns (s: State)
    requires Inv(p, ea, eb, n) && SaneNet(n) && !n.a.failed && Local(n.b, subB) && n.ba != [] && Ranked(n.a)
    requires var a' := StepA(n, ea, Deliver).a; !a'.failed && a'.gaveUp == n.a.gaveUp
    ensures Fits(p) && Does(p, n, s, Receive(n.a, ea, n.ba[0]), n.ba[1..])
  {
    InvMeans(p, ea, eb, n);
    var f := n.ba[0];
    WireDecodes(p.m, f, ea.stale);
    WireData(p.m, f);
    hide Inv;
    hide Good;
    hide Does;
    hide Local;
    hide Wire;
    hide Ranked;
    hide Running;
    hide Counted;
    hide ReceiveData;
    hide ReceiveAck;
    match Decode(f, ea.stale) {
      case Data(number, payload) =>
        DataIsOrdinary(p, ea, eb, n, subB, number, payload);
        DeliverData(p, ea, eb, n, number, payload);
        s := n.a.(accepted := ReceiveData(n.a, ea, number, payload).accepted);
      case Ack(number) =>
        DeliverAck(p, ea, eb, n, number);
        s := n.a;
      case _ =>
        assert false;
    }
  }

  /** A step of a that loses nothing, does not fail and gives nothing up leaves nothing missing. */
  lemma StepComplete(p: Params, ea: Env, eb: Env, n: Net, ev: Event, subA: seq<seq<byte>>, subB: seq<seq<byte>>)
    requires SaneNet(n) && Joint(p, ea, eb, n, subA, subB) && Fits(p) && Complete(p, n)
    requires !ev.Lose? && (ev.Submit? ==> Ordinary(ev.buf))
    requires var n' := StepA(n, ea, ev); !n'.a.failed && n'.a.gaveUp == n.a.gaveUp
    ensures Complete(p, StepA(n, ea, ev))
  {
    InvMeans(p, ea, eb, n);
    assert Ranked(n.a) && !n.a.failed;
    hide Inv;
    hide Local;
    hide Way;
    hide Ranked;
    hide Does;
    hide Good;
    hide Ordinary;
    if ev.Deliver? {
      if n.ba != [] {
        var s := DeliverDoes(p, ea, eb, n, subB);
        hide Receive;
        MovedComplete(p, n, s, Receive(n.a, ea, n.ba[0]), n.ba[1..]);
      }
    } else {
      hide Send;
      hide Retransmit;
      OwnStep(p, ea, eb, n, ev);
      MovedComplete(p, n, n.a, StepA(n, ea, ev).a, n.ba);
    }
  }

  predicate Lossless(steps: seq<Step>) {
    forall i :: 0 <= i < |steps| ==> !steps[i].event.Lose?
  }

  lemma NetComplete(p: Params, ea: Env, eb: Env, n: Net, step: Step, subA: seq<seq<byte>>, subB: seq<seq<byte>>)
    requires SaneNet(n) && Joint(p, ea, eb, n, subA, subB) && Fits(p) && Complete(p, n)
    requires !step.event.Lose? && (step.event.Submit? ==> Ordinary(step.event.buf))
    requires Unharmed(n, StepNet(n, ea, eb, step))
    ensures Complete(p, StepNet(n, ea, eb, step))
  {
    hide StepA;
    hide Local;
    hide Way;
    hide Ordinary;
    match step {
      case AtA(ev) =>
        StepComplete(p, ea, eb, n, ev, subA, subB);
      case AtB(ev) =>
        SwapInv(p, ea, eb, n);
        hide Inv;
        StepComplete(p, eb, ea, Swap(n), ev, subB, subA);
    }
  }

  lemma {:induction false} RunComplete(p: Params, ea: Env, eb: Env, n: Net, steps: seq<Step>,
                                       subA: seq<seq<byte>>, subB: seq<seq<byte>>)
    requires SaneNet(n) && Joint(p, ea, eb, n, subA, subB) && Fits(p) && Complete(p, n)
    requires OrdinaryRun(steps) && Lossless(steps) && Unharmed(n, RunNet(n, ea, eb, steps))
    ensures Complete(p, RunNet(n, ea, eb, steps))
    decreases |steps|
  {
    if steps != [] {
      var first, rest := steps[0], steps[1..];
      RestOrdinary(steps);
      assert Lossless(rest) && !first.event.Lose? by { assert forall i :: 0 <= i < |rest| ==> rest[i] == steps[i + 1]; }
      FirstStep(p, ea, eb, n, steps, subA, subB);
      FirstUnharmed(p, ea, eb, n, steps, subA, subB);
      hide Joint;
      hide Complete;
      hide StepNet;
      hide OrdinaryRun;
      hide Ordinary;
      hide Lossless;
      hide Unharmed;
      NetComplete(p, ea, eb, n, first, subA, subB);
      RunComplete(p, ea, eb, StepNet(n, ea, eb, first), rest, subA + GivenAtA([first]), subB + GivenAtB([first]));
    }
  }

  lemma FirstUnharmed(p: Params, ea: Env, eb: Env, n: Net, steps: seq<Step>, subA: seq<seq<byte>>, subB: seq<seq<byte>>)
    requires SaneNet(n) && Joint(p, ea, eb, n, subA, subB) && steps != [] && OrdinaryRun(steps)
    requires Unharmed(n, RunNet(n, ea, eb, steps))
    ensures Unharmed(n, StepNet(n, ea, eb, steps[0]))
  {
    FirstStep(p, ea, eb, n, steps, subA, subB);
    StepGivesUpNothing(ea, eb, n, steps);
    hide Inv;
    hide StepNet;
    hide OrdinaryRun;
    hide Stream;
    hide Tight;
    hide AllOrdinary;
  }

  lemma CleanComplete(p: Params, n: Net)
    requires Fits(p) && Clean(p, n)
    ensures Complete(p, n)
  {
  }

  // ---------------------------------------------------------------- nothing is left behind

  /** No frame is on its way, and neither end waits for anything. */
  predicate AtRest(n: Net) {
    n.a.ackWaitQueue == [] && n.a.waitQueue == [] && n.b.ackWaitQueue == [] && n.b.waitQueue == []
  }

  lemma QuietWay(p: Params, x: State, y: State, subX: seq<seq<byte>>, subY: seq<seq<byte>>)
    requires Fits(p) && Way(p, x, y, [], []) && Local(x, subX) && Local(y, subY) && x.maxOutstanding > 0
    requires QueueOk(p, SenderOf(x)) && IsPrefix(y.accepted, x.numbered)
    ensures x.ackWaitQueue == [] && x.waitQueue == [] && y.ncp == subX
  {
    LocalDelivers(x, subX, y, subY);
    PayloadsOfLength(x.numbered);
    hide PayloadsOf;
    hide DataFrame;
    hide AllOrdinary;
    assert forall el :: el in x.ackWaitQueue ==> Queued(p, SenderOf(x), el);
    assert Acks([]) == [];
    SomeMember(x.ackWaitQueue);
  }

  lemma SomeMember<T>(q: seq<T>)
    ensures q == [] || exists x :: x in q
  {
    if q != [] {
      assert q[0] in q;
    }
  }

  /**
   * However the packets were submitted, in one burst or not: when nothing was lost and both lines are empty, each
   * NCP has received exactly the packets the other side was given, and no link waits for anything.
   */
  lemma EverythingArrives(p: Params, ea: Env, eb: Env, n: Net, steps: seq<Step>)
    requires Fits(p) && Clean(p, n) && OrdinaryRun(steps) && Lossless(steps)
    requires p == EPOC ==> Increasing(ea.clock) && Increasing(eb.clock)
    requires Unharmed(n, RunNet(n, ea, eb, steps))
    requires RunNet(n, ea, eb, steps).ab == [] && RunNet(n, ea, eb, steps).ba == []
    ensures var n' := RunNet(n, ea, eb, steps);
            n'.b.ncp == GivenAtA(steps) && n'.a.ncp == GivenAtB(steps) && AtRest(n')
  {
    hide *;
    CleanSane(p, n);
    StartJoint(p, ea, eb, n);
    CleanComplete(p, n);
    RunLocal(p, ea, eb, n, steps, [], []);
    RunComplete(p, ea, eb, n, steps, [], []);
    FromNothing(GivenAtA(steps));
    FromNothing(GivenAtB(steps));
    QuietNet(p, ea, eb, RunNet(n, ea, eb, steps), GivenAtA(steps), GivenAtB(steps));
  }

  lemma FromNothing(s: seq<seq<byte>>)
    ensures [] + s == s
  {
  }

  lemma QuietNet(p: Params, ea: Env, eb: Env, n: Net, subA: seq<seq<byte>>, subB: seq<seq<byte>>)
    requires Fits(p) && Joint(p, ea, eb, n, subA, subB) && Complete(p, n) && n.ab == [] && n.ba == []
    ensures n.b.ncp == subA && n.a.ncp == subB && AtRest(n)
  {
    InvInSequence(p, ea, eb, n, NONE);
    SwapInv(p, ea, eb, n);
    InvMeans(p, ea, eb, n);
    InvMeans(p, eb, ea, Swap(n));
    hide Inv;
    hide Local;
    hide Way;
    hide Good;
    QuietWay(p, n.a, n.b, subA, subB);
    QuietWay(p, n.b, n.a, subB, subA);
  }

  /** And so every message, of any length, has been delivered to its channel. */
  lemma EveryMessageArrives(p: Params, ea: Env, eb: Env, n: Net, steps: seq<Step>,
                            sent: seq<Message>, local: byte -> byte, peer: Ncp.State, remote: byte)
    requires Fits(p) && Clean(p, n) && OrdinaryRun(steps) && Lossless(steps)
    requires p == EPOC ==> Increasing(ea.clock) && Increasing(eb.clock)
    requires Unharmed(n, RunNet(n, ea, eb, steps))
    requires RunNet(n, ea, eb, steps).ab == [] && RunNet(n, ea, eb, steps).ba == []
    requires GivenAtA(steps) == Outgoing(sent, local)
    requires Ncp.Sound(peer) && peer.version == Ncp.PV_SERIES_5
    requires remote != 0 && peer.open[remote] && peer.pending[remote] == []
    ensures Ncp.DeliveredTo(Ncp.ReceiveAll(peer, RunNet(n, ea, eb, steps).b.ncp, eb.stale).delivered, remote)
         == Ncp.DeliveredTo(peer.delivered, remote) + MessagesFor(sent, remote)
  {
    hide *;
    CleanSane(p, n);
    EverythingArrives(p, ea, eb, n, steps);
    SomeMessagesDelivered(peer, Outgoing(sent, local), sent, local, remote, eb.stale);
  }
}
