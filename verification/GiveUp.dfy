/**
 * How many packets an EPOC session may give up on unmatched acknowledgements (lib/link.cc:313-359): Network proves
 * it safe for 1990 on each side, and here is a run that gives up 1991 in which a packet is taken twice.  Nor may
 * the clock stand still.
 *
 * In both runs the first packet is taken but stays queued, its acknowledgement lost, until 2047 more packets have
 * been taken and its number comes up again; then it is sent once more.  In the first run it is sent nine times in
 * all; before each time seven packets go out, are sent again together with it, and are acknowledged: as the stamps
 * are the same, that does not take the first one from the queue.  The other 1991 packets must not be acknowledged,
 * for they are younger.  Of each the peer gets nine copies; their nine acknowledgements, coming when the next one
 * is out, make the link send that one eight times more and then drop it.  In the second run all stamps are the same,
 * and all but the first packet are acknowledged as usual.
 */
module GiveUps {
  import opened Bytes
  import opened Packets
  import opened LinkSpec
  import opened Window
  import opened Stamps
  import opened Network

  const PACKET: seq<byte> := [7]

  /** The frame of packet i, and its acknowledgement. */
  function F(i: nat): seq<byte> {
    DataFrame(i % 2048, PACKET)
  }

  function K(i: nat): seq<byte> {
    AckFrame(i % 2048)
  }

  function Many<T>(x: T, k: nat): seq<T> {
    if k == 0 then [] else [x] + Many(x, k - 1)
  }

  /** The frames of j packets from number i on, and their acknowledgements. */
  function Frames(i: nat, j: nat): seq<seq<byte>>
    decreases j
  {
    if j == 0 then [] else [F(i)] + Frames(i + 1, j - 1)
  }

  function Answers(i: nat, j: nat): seq<seq<byte>>
    decreases j
  {
    if j == 0 then [] else [K(i)] + Answers(i + 1, j - 1)
  }

  /**
   * What matters of a network in which a sends and b receives: a's queues and next number, the last number b has
   * taken, the frames under way, how many more packets b has taken than a has numbered, and how many a gave up.
   */
  datatype View = View(q: seq<Element>, wait: seq<seq<byte>>, tx: nat, rx: nat, ab: seq<seq<byte>>, ba: seq<seq<byte>>,
                       ahead: int, gaveUp: nat, others: nat)

  predicate Sends(a: State) {
    && Sane(a) && a.seqMask == MAX_SEQ && a.maxOutstanding == 8 && a.linkType == Epoc
    && !a.failed && !a.lineDown && a.xoff == {}
  }

  predicate Takes(b: State) {
    Sane(b) && b.seqMask == MAX_SEQ && !b.failed && !b.lineDown
  }

  /** Time does not go back. */
  ghost predicate Onward(clock: nat -> int) {
    forall i: nat, j: nat :: i <= j ==> clock(i) <= clock(j)
  }

  predicate Is(n: Net, ea: Env, v: View) {
    && Sends(n.a) && Takes(n.b)
    && n.a.ackWaitQueue == v.q && n.a.waitQueue == v.wait && n.a.txSequence == v.tx && n.b.rxSequence == v.rx
    && n.ab == v.ab && n.ba == v.ba
    && |n.b.accepted| == |n.a.numbered| + v.ahead && n.a.gaveUp == v.gaveUp && n.b.gaveUp == v.others
    && SentBy(v.q, ea.clock(n.a.readings))
  }

  /** Everything queued was last sent by now. */
  predicate SentBy(q: seq<Element>, now: int) {
    forall el :: el in q ==> el.stamp <= now
  }

  // ---------------------------------------------------------------- single steps

  lemma OneFrame(s: State, s': State, x: Sent)
    requires s'.line == s.line + [x]
    ensures Fresh(s, s') == [x.data]
  {
  }

  lemma NoFrame(s: State, s': State)
    requires s'.line == s.line
    ensures Fresh(s, s') == []
  {
  }

  /** A packet is submitted while the window is open. */
  lemma Submitted(n: Net, ea: Env, eb: Env, v: View)
    requires Is(n, ea, v) && |v.q| < 8 && Onward(ea.clock)
    ensures var n' := StepNet(n, ea, eb, AtA(Submit(PACKET)));
            var el := Element(v.tx, 8, ea.clock(n.a.readings), DataFrame(v.tx, PACKET), |n.a.queued|);
            Is(n', ea, v.(q := v.q + [el], tx := (v.tx + 1) % 2048, ab := v.ab + [el.data], ahead := v.ahead - 1))
  {
    hide DataFrame;
    OneFrame(n.a, Send(n.a, ea, PACKET), Sent(DataFrame(v.tx, PACKET), true, |n.a.queued|));
    hide Fresh;
  }

  /** The next packet in sequence arrives at b. */
  lemma Taken(n: Net, ea: Env, eb: Env, v: View, number: nat, rest: seq<seq<byte>>)
    requires Is(n, ea, v) && number == (v.rx + 1) % 2048 && v.ab == [DataFrame(number, PACKET)] + rest
    ensures Is(StepNet(n, ea, eb, AtB(Deliver)), ea,
               v.(ab := rest, rx := number, ba := v.ba + [AckFrame(number)], ahead := v.ahead + 1))
  {
    DataFrameDecodes(number, PACKET, eb.stale);
    assert v.ab[0] == DataFrame(number, PACKET) && v.ab[1..] == rest;
    hide DataFrame;
    hide AckFrame;
    hide Decode;
    OneFrame(n.b, Receive(n.b, eb, v.ab[0]), Sent(AckFrame(number), n.b.linkType == Epoc, ACK));
    hide Fresh;
  }

  /** Another packet arrives at b. */
  lemma NotTaken(n: Net, ea: Env, eb: Env, v: View, number: nat, rest: seq<seq<byte>>)
    requires Is(n, ea, v) && number <= MAX_SEQ && number != (v.rx + 1) % 2048
             && v.ab == [DataFrame(number, PACKET)] + rest
    ensures Is(StepNet(n, ea, eb, AtB(Deliver)), ea, v.(ab := rest, ba := v.ba + [AckFrame(v.rx)]))
  {
    DataFrameDecodes(number, PACKET, eb.stale);
    assert v.ab[0] == DataFrame(number, PACKET) && v.ab[1..] == rest;
    hide DataFrame;
    hide AckFrame;
    hide Decode;
    OneFrame(n.b, Receive(n.b, eb, v.ab[0]), Sent(AckFrame(v.rx), n.b.linkType == Epoc, ACK));
    hide Fresh;
  }

  /** A frame on its way to a is lost. */
  lemma Lost(n: Net, ea: Env, eb: Env, v: View, f: seq<byte>, rest: seq<seq<byte>>)
    requires Is(n, ea, v) && v.ba == [f] + rest
    ensures Is(StepNet(n, ea, eb, AtA(Lose(0))), ea, v.(ba := rest))
  {
    NoFrame(n.a, n.a);
    hide Fresh;
    assert n.ab + [] == n.ab && n.ba[1..] == rest && n.ba[..0] + rest == rest;
  }

  lemma {:induction false} FindAfter(pre: seq<Element>, x: Element, tail: seq<Element>, number: nat)
    requires x.seqNr == number && forall el :: el in pre ==> el.seqNr != number
    ensures Find(pre + [x] + tail, number) == |pre|
    decreases |pre|
  {
    var q := pre + [x] + tail;
    if pre == [] {
      assert q[0] == x;
    } else {
      FindAfter(pre[1..], x, tail, number);
      assert q[0] == pre[0] && pre[0] in pre && q[1..] == pre[1..] + [x] + tail;
    }
  }

  lemma {:induction false} FindNone(q: seq<Element>, number: nat)
    requires forall el :: el in q ==> el.seqNr != number
    ensures Find(q, number) == |q|
    decreases |q|
  {
    if q != [] {
      assert q[0] in q;
      FindNone(q[1..], number);
    }
  }

  function Again(x: Element, now: int): Element {
    x.(txcount := x.txcount - 1, stamp := now)
  }

  lemma ArrivesAtA(n: Net, ea: Env, eb: Env, f: seq<byte>, rest: seq<seq<byte>>)
    requires SaneNet(n) && n.ba == [f] + rest
    ensures StepNet(n, ea, eb, AtA(Deliver)) == Moved(n, Receive(n.a, ea, f), rest)
  {
    assert n.ba[0] == f && n.ba[1..] == rest;
    hide Receive;
    hide Moved;
  }

  /** The acknowledgement of the packet before x, which is no longer queued: x goes out again, or is dropped. */
  lemma Unmatched(n: Net, ea: Env, eb: Env, v: View, pre: seq<Element>, x: Element, tail: seq<Element>, number: nat,
                  rest: seq<seq<byte>>)
    requires Is(n, ea, v) && v.q == pre + [x] + tail && x.seqNr == number + 1
    requires forall el :: el in v.q ==> el.seqNr != number
    requires forall el :: el in pre ==> el.seqNr != number + 1
    requires number <= MAX_SEQ && v.ba == [AckFrame(number)] + rest && Onward(ea.clock)
    ensures var n' := StepNet(n, ea, eb, AtA(Deliver));
            if x.txcount == 0 then Is(n', ea, v.(q := pre + tail, ba := rest, gaveUp := v.gaveUp + 1))
            else Is(n', ea, v.(q := pre + [Again(x, ea.clock(n.a.readings))] + tail, ba := rest, ab := v.ab + [x.data]))
  {
    IsMeans(n, ea, v);
    hide *;
    FindNone(v.q, number);
    FindAfter(pre, x, tail, number + 1);
    SentByAgain(pre, x, tail, ea, n.a.readings);
    ArrivesAtA(n, ea, eb, AckFrame(number), rest);
    ReadsUnmatched(n.a, ea, number);
    AckedUnmatched(n.a, ea, pre, x, tail, number);
    var a' := AckUnmatched(n.a, ea, number);
    if x.txcount == 0 {
      Ticked(n, ea, v, a', pre + tail, v.gaveUp + 1, [], rest);
      assert v.ab + [] == v.ab;
    } else {
      Ticked(n, ea, v, a', pre + [Again(x, ea.clock(n.a.readings))] + tail, v.gaveUp, [x.data], rest);
    }
  }

  lemma IsMeans(n: Net, ea: Env, v: View)
    requires Is(n, ea, v)
    ensures SaneNet(n) && Sends(n.a) && n.a.ackWaitQueue == v.q && n.a.gaveUp == v.gaveUp && n.ab == v.ab
            && n.ba == v.ba
    ensures SentBy(v.q, ea.clock(n.a.readings)) && forall el :: el in v.q ==> el.stamp <= ea.clock(n.a.readings)
  {
  }

  /** An operation of a that reads the clock once, changes the queue, and sends `news`. */
  lemma Ticked(n: Net, ea: Env, v: View, a': State, q: seq<Element>, gaveUp: nat, news: seq<seq<byte>>,
               rest: seq<seq<byte>>)
    requires Is(n, ea, v) && SentBy(q, ea.clock(n.a.readings + 1)) && Fresh(n.a, a') == news
    requires a' == n.a.(readings := n.a.readings + 1, ackWaitQueue := q, gaveUp := gaveUp, line := a'.line)
    ensures Is(Moved(n, a', rest), ea, v.(q := q, ab := v.ab + news, ba := rest, gaveUp := gaveUp))
  {
    hide SentBy;
    hide Fresh;
  }

  lemma SentByAgain(pre: seq<Element>, x: Element, tail: seq<Element>, e: Env, readings: nat)
    requires SentBy(pre + [x] + tail, e.clock(readings)) && Onward(e.clock)
    ensures SentBy(pre + tail, e.clock(readings + 1))
    ensures SentBy(pre + [Again(x, e.clock(readings))] + tail, e.clock(readings + 1))
  {
    assert e.clock(readings) <= e.clock(readings + 1);
    assert forall el :: el in pre ==> el in pre + [x] + tail;
    assert forall el :: el in tail ==> el in pre + [x] + tail;
  }

  lemma ReadsUnmatched(a: State, e: Env, number: nat)
    requires Sane(a) && number <= MAX_SEQ && Find(a.ackWaitQueue, number) == |a.ackWaitQueue|
    ensures Receive(a, e, AckFrame(number)) == AckUnmatched(a, e, number)
  {
    AckFrameDecodes(number, e.stale);
    hide AckFrame;
    hide Decode;
    hide Find;
    hide AckUnmatched;
  }

  lemma AckedUnmatched(a: State, e: Env, pre: seq<Element>, x: Element, tail: seq<Element>, number: nat)
    requires a.ackWaitQueue == pre + [x] + tail && Find(pre + [x] + tail, number + 1) == |pre|
    ensures var a', now := AckUnmatched(a, e, number), e.clock(a.readings);
            if x.txcount == 0 then
              && a' == a.(readings := a.readings + 1, ackWaitQueue := pre + tail, gaveUp := a.gaveUp + 1)
              && Fresh(a, a') == []
            else
              && a' == a.(readings := a.readings + 1, ackWaitQueue := pre + [Again(x, now)] + tail, line := a'.line)
              && Fresh(a, a') == [x.data]
  {
    hide Find;
    var a', q, x' := AckUnmatched(a, e, number), pre + [x] + tail, Again(x, e.clock(a.readings));
    assert q[|pre|] == x;
    if x.txcount == 0 {
      assert Erase(q, |pre|) == pre + tail;
      hide Erase;
      NoFrame(a, a');
    } else {
      assert q[|pre| := x'] == pre + [x'] + tail;
      OneFrame(a, a', Sent(x.data, a.linkType == Epoc, x.serial));
    }
    hide Fresh;
  }

  lemma EraseSecond(p: Element, x: Element, tail: seq<Element>)
    ensures Erase([p, x] + tail, 1) == [p] + tail
  {
    assert ([p, x] + tail)[..1] == [p] && ([p, x] + tail)[2..] == tail;
  }

  /** The acknowledgement of the second packet of a queue in which no stamp is older than its: only it leaves. */
  lemma SecondAcked(n: Net, ea: Env, eb: Env, v: View, p: Element, x: Element, tail: seq<Element>, rest: seq<seq<byte>>)
    requires Is(n, ea, v) && v.wait == [] && v.q == [p, x] + tail && p.seqNr != x.seqNr && 0 <= x.seqNr <= MAX_SEQ
    requires forall el :: el in v.q ==> el.stamp >= x.stamp
    requires v.ba == [AckFrame(x.seqNr)] + rest
    ensures Is(StepNet(n, ea, eb, AtA(Deliver)), ea, v.(q := [p] + tail, ba := rest))
  {
    hide AckFrame;
    hide Receive;
    hide StepNet;
    ArrivesAtA(n, ea, eb, AckFrame(x.seqNr), rest);
    ReadsSecond(n.a, ea, p, x, tail);
    var a' := n.a.(ackWaitQueue := [p] + tail);
    NoFrame(n.a, a');
    hide Fresh;
    assert n.ab + [] == n.ab;
  }

  lemma ReadsSecond(a: State, e: Env, p: Element, x: Element, tail: seq<Element>)
    requires Sends(a) && a.waitQueue == [] && a.ackWaitQueue == [p, x] + tail && p.seqNr != x.seqNr
             && 0 <= x.seqNr <= MAX_SEQ
    requires forall el :: el in a.ackWaitQueue ==> el.stamp >= x.stamp
    ensures Receive(a, e, AckFrame(x.seqNr)) == a.(ackWaitQueue := [p] + tail)
  {
    AckFrameDecodes(x.seqNr, e.stale);
    hide AckFrame;
    hide Decode;
    assert [p] + [x] + tail == [p, x] + tail;
    FindAfter([p], x, tail, x.seqNr);
    hide Find;
    EraseSecond(p, x, tail);
    assert ([p, x] + tail)[1] == x;
    assert forall el :: el in [p] + tail ==> el in [p, x] + tail;
    NotOlderAtAll([p] + tail, x.stamp);
    hide NotOlder;
    hide Erase;
    assert TransmitWaitQueue(a.(ackWaitQueue := [p] + tail), e) == a.(ackWaitQueue := [p] + tail);
  }

  lemma {:induction false} NotOlderAtAll(q: seq<Element>, ref: int)
    requires forall el :: el in q ==> el.stamp >= ref
    ensures NotOlder(q, ref) == q
    decreases |q|
  {
    if q != [] {
      assert q[0] in q && q == [q[0]] + q[1..];
      NotOlderAtAll(q[1..], ref);
    }
  }

  // ---------------------------------------------------------------- the timer finds everything expired

  function AgainAll(q: seq<Element>, now: int): (r: seq<Element>)
    ensures |r| == |q| && forall i :: 0 <= i < |q| ==> r[i] == Again(q[i], now)
  {
    if q == [] then [] else [Again(q[0], now)] + AgainAll(q[1..], now)
  }

  function FramesOf(q: seq<Element>): (r: seq<Frame>) {
    if q == [] then [] else [Frame(q[0].data, q[0].serial)] + FramesOf(q[1..])
  }

  function Contents(frames: seq<Frame>): seq<seq<byte>> {
    if frames == [] then [] else [frames[0].data] + Contents(frames[1..])
  }

  lemma {:induction false} AllRetried(q: seq<Element>, now: int)
    requires forall el :: el in q ==> el.txcount > 0 && el.stamp <= now
    ensures Retried(q, now + 1, now) == AgainAll(q, now) && Resent(q, now + 1) == FramesOf(q) && !TimedOut(q, now + 1)
    decreases |q|
  {
    if q != [] {
      assert q[0] in q;
      AllRetried(q[1..], now);
    }
  }

  lemma {:induction false} AllEmitted(s: State, frames: seq<Frame>)
    ensures var s' := EmitAll(s, frames);
            s.line <= s'.line && s' == s.(line := s'.line) && Fresh(s, s') == Contents(frames)
    decreases |frames|
  {
    if frames == [] {
      NoFrame(s, s);
    } else {
      var s1 := Emit(s, frames[0]);
      AllEmitted(s1, frames[1..]);
      FreshMore(s, s1, EmitAll(s, frames), Sent(frames[0].data, s.linkType == Epoc, frames[0].serial));
    }
    hide Fresh;
  }

  lemma FreshMore(s: State, s1: State, s': State, x: Sent)
    requires s1.line == s.line + [x] && |s1.line| <= |s'.line| && s1.line <= s'.line
    ensures Fresh(s, s') == [x.data] + Fresh(s1, s')
  {
    assert s'.line[|s.line|] == x;
  }

  lemma Expired(a: State, e: Env, now: int)
    requires Sends(a) && now == e.clock(a.readings)
    requires forall el :: el in a.ackWaitQueue ==> el.txcount > 0 && el.stamp <= now
    ensures var a', q := Retransmit(a, e, now + 1), a.ackWaitQueue;
            && a' == a.(readings := a.readings + 1, ackWaitQueue := AgainAll(q, now), line := a'.line)
            && Fresh(a, a') == Contents(FramesOf(q))
  {
    var q := a.ackWaitQueue;
    var s1 := a.(readings := a.readings + 1, failed := false, ackWaitQueue := AgainAll(q, now));
    AllRetried(q, now);
    AllEmitted(s1, FramesOf(q));
    FreshSame(a, s1, EmitAll(s1, FramesOf(q)));
    assert HasFailed(a) == a;
    hide Fresh;
    hide AgainAll;
    hide FramesOf;
    hide Contents;
    hide Retried;
    hide Resent;
    hide TimedOut;
    hide EmitAll;
  }

  lemma FreshSame(s: State, s1: State, s': State)
    requires s1.line == s.line
    ensures Fresh(s, s') == Fresh(s1, s')
  {
  }

  lemma AgainAtOnce(q: seq<Element>, now: int)
    ensures forall el :: el in AgainAll(q, now) ==> el.stamp == now
  {
    hide AgainAll;
  }

  /** The timer finds every queued packet expired, and each has retries: all go out again, at the same time. */
  lemma TimerFires(n: Net, ea: Env, eb: Env, v: View)
    requires Is(n, ea, v) && Onward(ea.clock) && forall el :: el in v.q ==> el.txcount > 0
    ensures var now := ea.clock(n.a.readings);
            Is(StepNet(n, ea, eb, AtA(Timer(now + 1))), ea,
               v.(q := AgainAll(v.q, now), ab := v.ab + Contents(FramesOf(v.q))))
  {
    hide *;
    var now := ea.clock(n.a.readings);
    IsMeans(n, ea, v);
    TimerIs(n, ea, eb, now + 1);
    Expired(n.a, ea, now);
    SentByAgainAll(v.q, ea, n.a.readings);
    Ticked(n, ea, v, Retransmit(n.a, ea, now + 1), AgainAll(v.q, now), v.gaveUp, Contents(FramesOf(v.q)), n.ba);
  }

  lemma TimerIs(n: Net, ea: Env, eb: Env, expired: int)
    requires SaneNet(n)
    ensures StepNet(n, ea, eb, AtA(Timer(expired))) == Moved(n, Retransmit(n.a, ea, expired), n.ba)
  {
    hide Retransmit;
    hide Moved;
  }

  lemma SentByAgainAll(q: seq<Element>, e: Env, readings: nat)
    requires Onward(e.clock)
    ensures SentBy(AgainAll(q, e.clock(readings)), e.clock(readings + 1))
  {
    AgainAtOnce(q, e.clock(readings));
    assert e.clock(readings) <= e.clock(readings + 1);
    hide AgainAll;
  }

  // ---------------------------------------------------------------- runs

  predicate NoRequests(steps: seq<Step>) {
    forall step :: step in steps ==> step.event != Submit([])
  }

  lemma {:induction false} RunTwice(n: Net, ea: Env, eb: Env, steps: seq<Step>, more: seq<Step>)
    requires SaneNet(n)
    ensures RunNet(n, ea, eb, steps + more) == RunNet(RunNet(n, ea, eb, steps), ea, eb, more)
    decreases |steps|
  {
    hide StepNet;
    if steps == [] {
      assert steps + more == more;
    } else {
      RunTwice(StepNet(n, ea, eb, steps[0]), ea, eb, steps[1..], more);
      assert (steps + more)[1..] == steps[1..] + more && (steps + more)[0] == steps[0];
    }
  }

  lemma RunFirst(n: Net, ea: Env, eb: Env, step: Step, more: seq<Step>)
    requires SaneNet(n)
    ensures RunNet(n, ea, eb, [step] + more) == RunNet(StepNet(n, ea, eb, step), ea, eb, more)
  {
    hide StepNet;
    assert ([step] + more)[1..] == more;
  }

  lemma NoSteps(n: Net, ea: Env, eb: Env)
    requires SaneNet(n)
    ensures NoRequests([]) && RunNet(n, ea, eb, []) == n
  {
  }

  lemma OneStep(n: Net, ea: Env, eb: Env, step: Step)
    requires SaneNet(n)
    ensures RunNet(n, ea, eb, [step]) == StepNet(n, ea, eb, step)
  {
    hide StepNet;
    assert [step][1..] == [];
  }

  lemma NoRequestsTwice(steps: seq<Step>, more: seq<Step>)
    requires NoRequests(steps) && NoRequests(more)
    ensures NoRequests(steps + more)
  {
  }

  /** One step, and then a run. */
  lemma Onwards(n: Net, ea: Env, eb: Env, step: Step, more: seq<Step>)
    requires SaneNet(n) && step.event != Submit([]) && NoRequests(more)
    ensures NoRequests([step] + more)
    ensures RunNet(n, ea, eb, [step] + more) == RunNet(StepNet(n, ea, eb, step), ea, eb, more)
  {
    RunFirst(n, ea, eb, step, more);
    hide RunNet;
    hide StepNet;
  }

  /** Two runs in a row. */
  lemma Further(n: Net, ea: Env, eb: Env, steps: seq<Step>, more: seq<Step>)
    requires SaneNet(n) && NoRequests(steps) && NoRequests(more)
    ensures NoRequests(steps + more)
    ensures RunNet(n, ea, eb, steps + more) == RunNet(RunNet(n, ea, eb, steps), ea, eb, more)
  {
    RunTwice(n, ea, eb, steps, more);
    NoRequestsTwice(steps, more);
    hide RunNet;
    hide NoRequests;
  }

  lemma {:induction false} ManyAre<T>(x: T, k: nat)
    ensures forall y :: y in Many(x, k) ==> y == x
  {
    if k > 0 {
      ManyAre(x, k - 1);
    }
  }

  /** The queued packets carry the numbers from i on. */
  predicate Row(ys: seq<Element>, i: nat) {
    forall j :: 0 <= j < |ys| ==> ys[j].seqNr == (i + j) % 2048 && ys[j].data == F(i + j)
  }

  lemma RowMore(y: Element, ys: seq<Element>, i: nat)
    requires y.seqNr == i % 2048 && y.data == F(i) && Row(ys, i + 1)
    ensures Row([y] + ys, i)
  {
    hide F;
    forall j | 0 <= j < |[y] + ys|
      ensures ([y] + ys)[j].seqNr == (i + j) % 2048 && ([y] + ys)[j].data == F(i + j)
    {
      if j > 0 {
        assert ([y] + ys)[j] == ys[j - 1];
      }
    }
  }

  lemma RowLess(ys: seq<Element>, i: nat)
    requires ys != [] && Row(ys, i)
    ensures ys[0].seqNr == i % 2048 && ys[0].data == F(i) && Row(ys[1..], i + 1)
  {
    hide F;
    assert forall j :: 0 <= j < |ys[1..]| ==> ys[1..][j] == ys[j + 1];
  }

  lemma NoRow(i: nat)
    ensures Row([], i) && Frames(i, 0) == [] && Answers(i, 0) == []
  {
  }

  /** j packets are submitted while the window is open. */
  lemma {:induction false} RowSubmitted(n: Net, ea: Env, eb: Env, v: View, i: nat, j: nat)
    returns (steps: seq<Step>, ys: seq<Element>)
    requires SaneNet(n) && Is(n, ea, v) && Onward(ea.clock) && v.tx == i % 2048 && |v.q| + j <= 8
    ensures NoRequests(steps) && |ys| == j && Row(ys, i) && forall y :: y in ys ==> y.txcount == 8
    ensures Is(RunNet(n, ea, eb, steps), ea,
               v.(q := v.q + ys, tx := (i + j) % 2048, ab := v.ab + Frames(i, j), ahead := v.ahead - j))
    decreases j
  {
    hide *;
    RowHeads(i, j);
    if j == 0 {
      steps, ys := [], [];
      NoSteps(n, ea, eb);
      NoRow(i);
      assert v.q + [] == v.q && v.ab + [] == v.ab;
    } else {
      Submitted(n, ea, eb, v);
      var submit, f := AtA(Submit(PACKET)), F(i);
      var n1 := StepNet(n, ea, eb, submit);
      var y := Element(v.tx, 8, ea.clock(n.a.readings), f, |n.a.queued|);
      var v1 := v.(q := v.q + [y], tx := (i + 1) % 2048, ab := v.ab + [f], ahead := v.ahead - 1);
      var more, rest;
      more, rest := RowSubmitted(n1, ea, eb, v1, i + 1, j - 1);
      steps, ys := [submit] + more, [y] + rest;
      SubmitIsNoRequest();
      Onwards(n, ea, eb, submit, more);
      RowMore(y, rest, i);
      var fs := Frames(i + 1, j - 1);
      assert v.q + [y] + rest == v.q + ys && v.ab + [f] + fs == v.ab + ([f] + fs);
    }
  }

  /** The first frame and acknowledgement of a row. */
  lemma RowHeads(i: nat, j: nat)
    ensures j > 0 ==> Frames(i, j) == [F(i)] + Frames(i + 1, j - 1) && Answers(i, j) == [K(i)] + Answers(i + 1, j - 1)
    ensures (i % 2048 + 1) % 2048 == (i + 1) % 2048 && i % 2048 <= MAX_SEQ
    ensures F(i) == DataFrame(i % 2048, PACKET) && K(i) == AckFrame(i % 2048)
  {
  }

  lemma SubmitIsNoRequest()
    ensures AtA(Submit(PACKET)).event != Submit([])
  {
    assert |PACKET| == 1;
  }

  /** j packets arrive in sequence. */
  lemma {:induction false} RowTaken(n: Net, ea: Env, eb: Env, v: View, i: nat, j: nat, rest: seq<seq<byte>>)
    returns (steps: seq<Step>)
    requires SaneNet(n) && Is(n, ea, v) && i > 0 && v.rx == (i - 1) % 2048 && v.ab == Frames(i, j) + rest
    ensures NoRequests(steps)
    ensures Is(RunNet(n, ea, eb, steps), ea,
               v.(ab := rest, rx := (i + j - 1) % 2048, ba := v.ba + Answers(i, j), ahead := v.ahead + j))
    decreases j
  {
    hide *;
    RowHeads(i, j);
    NoRow(i);
    if j == 0 {
      steps := [];
      NoSteps(n, ea, eb);
      assert v.ba + [] == v.ba && [] + rest == rest;
    } else {
      var later, f, take := Frames(i + 1, j - 1) + rest, F(i), AtB(Deliver);
      assert v.ab == [f] + later;
      RowHeads(i - 1, 0);
      Taken(n, ea, eb, v, i % 2048, later);
      var n1, v1 := StepNet(n, ea, eb, take),
          v.(ab := later, rx := i % 2048, ba := v.ba + [K(i)], ahead := v.ahead + 1);
      var more := RowTaken(n1, ea, eb, v1, i + 1, j - 1, rest);
      steps := [take] + more;
      DeliverIsNoRequest();
      Onwards(n, ea, eb, take, more);
      var ks := Answers(i + 1, j - 1);
      assert v.ba + [K(i)] + ks == v.ba + ([K(i)] + ks);
    }
  }

  /** The frame of some packet other than the one b expects. */
  predicate Old(f: seq<byte>, rx: nat) {
    exists number: nat :: number <= MAX_SEQ && number != (rx + 1) % 2048 && f == DataFrame(number, PACKET)
  }

  /** Copies arrive: each is answered with the last number taken. */
  lemma {:induction false} RowAnswered(n: Net, ea: Env, eb: Env, v: View) returns (steps: seq<Step>)
    requires SaneNet(n) && Is(n, ea, v) && v.rx <= MAX_SEQ && forall f :: f in v.ab ==> Old(f, v.rx)
    ensures NoRequests(steps)
    ensures Is(RunNet(n, ea, eb, steps), ea, v.(ab := [], ba := v.ba + Many(AckFrame(v.rx), |v.ab|)))
    decreases |v.ab|
  {
    hide DataFrame;
    hide AckFrame;
    hide Is;
    hide StepNet;
    var ack := AckFrame(v.rx);
    if v.ab == [] {
      steps := [];
      NoSteps(n, ea, eb);
      assert v.ba + Many(ack, 0) == v.ba;
    } else {
      var rest := v.ab[1..];
      assert v.ab == [v.ab[0]] + rest && v.ab[0] in v.ab;
      var number: nat :| number <= MAX_SEQ && number != (v.rx + 1) % 2048 && v.ab[0] == DataFrame(number, PACKET);
      NotTaken(n, ea, eb, v, number, rest);
      var n1, v1 := StepNet(n, ea, eb, AtB(Deliver)), v.(ab := rest, ba := v.ba + [ack]);
      var more := RowAnswered(n1, ea, eb, v1);
      steps := [AtB(Deliver)] + more;
      Onwards(n, ea, eb, AtB(Deliver), more);
      assert v.ba + [ack] + Many(ack, |rest|) == v.ba + Many(ack, |v.ab|);
    }
  }

  /** The packets behind p are acknowledged one by one; p, with the same stamp, stays. */
  lemma {:induction false} RowAcked(n: Net, ea: Env, eb: Env, v: View, p: Element, ys: seq<Element>, i: nat,
                                    rest: seq<seq<byte>>)
    returns (steps: seq<Step>)
    requires SaneNet(n) && Is(n, ea, v) && v.q == [p] + ys && v.wait == [] && v.ba == Answers(i, |ys|) + rest
             && Row(ys, i)
    requires forall y :: y in ys ==> y.stamp == p.stamp && y.seqNr != p.seqNr
    ensures NoRequests(steps) && Is(RunNet(n, ea, eb, steps), ea, v.(q := [p], ba := rest))
    decreases |ys|
  {
    hide AckFrame;
    hide Is;
    hide StepNet;
    hide RunNet;
    hide NoRequests;
    if ys == [] {
      steps := [];
      NoSteps(n, ea, eb);
      assert [p] + ys == [p] && Answers(i, 0) + rest == rest;
    } else {
      RowLess(ys, i);
      hide Row;
      var y, tail, later := ys[0], ys[1..], Answers(i + 1, |ys| - 1) + rest;
      assert y in ys && ys == [y] + tail;
      assert v.q == [p, y] + tail && v.ba == [K(i)] + later;
      hide Answers;
      SecondAcked(n, ea, eb, v, p, y, tail, later);
      var n1, v1 := StepNet(n, ea, eb, AtA(Deliver)), v.(q := [p] + tail, ba := later);
      var more := RowAcked(n1, ea, eb, v1, p, tail, i + 1, rest);
      steps := [AtA(Deliver)] + more;
      Onwards(n, ea, eb, AtA(Deliver), more);
    }
  }

  /** Frames on their way to a are lost. */
  lemma {:induction false} ManyLost(n: Net, ea: Env, eb: Env, v: View, f: seq<byte>, k: nat, rest: seq<seq<byte>>)
    returns (steps: seq<Step>)
    requires SaneNet(n) && Is(n, ea, v) && v.ba == Many(f, k) + rest
    ensures NoRequests(steps) && Is(RunNet(n, ea, eb, steps), ea, v.(ba := rest))
    decreases k
  {
    hide Is;
    hide StepNet;
    if k == 0 {
      steps := [];
      NoSteps(n, ea, eb);
      assert Many(f, 0) + rest == rest;
    } else {
      var later := Many(f, k - 1) + rest;
      assert v.ba == [f] + later;
      Lost(n, ea, eb, v, f, later);
      var n1 := StepNet(n, ea, eb, AtA(Lose(0)));
      var more := ManyLost(n1, ea, eb, v.(ba := later), f, k - 1, rest);
      steps := [AtA(Lose(0))] + more;
      Onwards(n, ea, eb, AtA(Lose(0)), more);
    }
  }

  // ---------------------------------------------------------------- packets that are acknowledged

  /** p is queued, b has taken `number` last, and c of its acknowledgements are on their way. */
  function Resting(v: View, p: Element, number: nat, c: nat): View
    requires number <= MAX_SEQ
  {
    v.(q := [p], wait := [], tx := (number + 1) % 2048, rx := number, ab := [], ba := Many(AckFrame(number), c),
       ahead := 0)
  }

  lemma ContentsAt(q: seq<Element>)
    ensures |Contents(FramesOf(q))| == |q|
    ensures forall f :: f in Contents(FramesOf(q)) ==> exists el :: el in q && f == el.data
  {
    if q != [] {
      ContentsAt(q[1..]);
      assert q[0] in q && q == [q[0]] + q[1..];
      assert FramesOf(q)[1..] == FramesOf(q[1..]);
    }
  }

  /** The first of the queued packets, not the others, may have been sent again since. */
  lemma RowAgainHead(ys: seq<Element>, i: nat, now: int)
    requires ys != [] && Row(ys, i)
    ensures Row([Again(ys[0], now)] + ys[1..], i)
  {
    hide F;
    var ys' := [Again(ys[0], now)] + ys[1..];
    assert forall j :: 0 <= j < |ys| ==> ys'[j] == if j == 0 then Again(ys[0], now) else ys[j];
  }

  lemma AgainFirst(p: Element, ys: seq<Element>, now: int)
    ensures AgainAll([p] + ys, now) == [Again(p, now)] + AgainAll(ys, now)
  {
    assert ([p] + ys)[1..] == ys;
    hide Again;
  }

  lemma RowAgainAll(ys: seq<Element>, i: nat, now: int)
    requires Row(ys, i)
    ensures var r := AgainAll(ys, now);
            Row(r, i) && |r| == |ys| && forall y :: y in r ==> y.stamp == now
  {
    hide F;
    hide AgainAll;
    assert forall j :: 0 <= j < |ys| ==> AgainAll(ys, now)[j] == Again(ys[j], now);
  }

  /**
   * From number i on j packets go out; when an acknowledgement of packet i - 1 is on its way (again), the first of
   * them is sent once more.
   */
  lemma RowOut(n: Net, ea: Env, eb: Env, v: View, p: Element, i: nat, j: nat, again: bool)
    returns (steps: seq<Step>, ys: seq<Element>)
    requires SaneNet(n) && Is(n, ea, v) && Onward(ea.clock) && v.q == [p] && v.ab == [] && v.tx == i % 2048
             && 0 < j <= 7
    requires again ==> 2 < i < 2048 - j && v.ba == [AckFrame(i - 1)] && p.seqNr == 1
    ensures NoRequests(steps) && |ys| == j && Row(ys, i) && forall y :: y in ys ==> y.txcount > 0
    ensures Is(RunNet(n, ea, eb, steps), ea,
               v.(q := [p] + ys, tx := (i + j) % 2048, ahead := v.ahead - j,
                  ab := Frames(i, j) + if again then [F(i)] else [], ba := if again then [] else v.ba))
  {
    hide Is;
    hide StepNet;
    hide RunNet;
    hide NoRequests;
    hide AckFrame;
    hide Onward;
    hide F;
    steps, ys := RowSubmitted(n, ea, eb, v, i, j);
    assert [] + Frames(i, j) == Frames(i, j) + [];
    if again {
      var n1 := RunNet(n, ea, eb, steps);
      var v1 := v.(q := [p] + ys, tx := (i + j) % 2048, ab := [] + Frames(i, j), ahead := v.ahead - j);
      assert Is(n1, ea, v1);
      HeadAgain(n1, ea, eb, v1, p, ys, i);
      var now := ea.clock(n1.a.readings);
      RowAgainHead(ys, i, now);
      var more := [AtA(Deliver)];
      OneStep(n1, ea, eb, AtA(Deliver));
      DeliverIsNoRequest();
      Further(n, ea, eb, steps, more);
      steps, ys := steps + more, [Again(ys[0], now)] + ys[1..];
      assert [] + Frames(i, j) + [F(i)] == Frames(i, j) + [F(i)];
    }
    hide Row;
  }

  lemma DeliverIsNoRequest()
    ensures NoRequests([AtA(Deliver)]) && NoRequests([AtB(Deliver)])
  {
  }

  /** An acknowledgement of the packet before the first of the row. */
  lemma HeadAgain(n: Net, ea: Env, eb: Env, v: View, p: Element, ys: seq<Element>, i: nat)
    requires Is(n, ea, v) && Onward(ea.clock) && v.q == [p] + ys && 0 < |ys| <= 7 && Row(ys, i) && p.seqNr == 1
    requires 2 < i < 2048 - |ys| && v.ba == [AckFrame(i - 1)] && forall y :: y in ys ==> y.txcount == 8
    ensures var now := ea.clock(n.a.readings);
            && (forall y :: y in [Again(ys[0], now)] + ys[1..] ==> y.txcount > 0)
            && Is(StepNet(n, ea, eb, AtA(Deliver)), ea,
                  v.(q := [p] + ([Again(ys[0], now)] + ys[1..]), ba := [], ab := v.ab + [F(i)]))
  {
    var now := ea.clock(n.a.readings);
    var y, tail := ys[0], ys[1..];
    assert y in ys && ys == [y] + tail && forall el :: el in tail ==> el in ys;
    RowLess(ys, i);
    RowAfter(p, ys, i);
    AgainCan(y, now);
    HeadFits(i);
    hide *;
    HeadApart(p, y, Again(y, now), tail);
    assert [AckFrame(i - 1)] == [AckFrame(i - 1)] + [];
    Unmatched(n, ea, eb, v, [p], y, tail, i - 1, []);
  }

  lemma HeadApart(p: Element, y: Element, y': Element, tail: seq<Element>)
    ensures [p] + [y] + tail == [p] + ([y] + tail) && [p] + [y'] + tail == [p] + ([y'] + tail)
  {
  }

  lemma HeadFits(i: nat)
    requires 2 < i < 2048
    ensures i % 2048 == i - 1 + 1 && i - 1 <= MAX_SEQ
  {
  }

  lemma AgainCan(y: Element, now: int)
    ensures Again(y, now).txcount == y.txcount - 1
  {
  }

  lemma RowAfter(p: Element, ys: seq<Element>, i: nat)
    requires Row(ys, i) && 2 < i < 2048 - |ys| && p.seqNr == 1
    ensures forall el :: el in [p] + ys ==> el.seqNr != i - 1
    ensures forall el :: el in [p] ==> el.seqNr != i
  {
    hide F;
    forall el | el in [p] + ys ensures el.seqNr != i - 1 {
      if el in ys {
        var j :| 0 <= j < |ys| && ys[j] == el;
      }
    }
  }

  /** Frames of the packets up to `number`, but for the one that has the same number as the next. */
  lemma RowIsOld(p: Element, ys: seq<Element>, i: nat, extra: seq<seq<byte>>)
    requires 0 < i && |ys| == 7 && i + 6 <= MAX_SEQ && Row(ys, i) && p.data == F(1) && i > 1
    requires extra == [] || extra == [F(i)]
    ensures forall f :: f in extra + Contents(FramesOf([p] + ys)) ==> Old(f, i + 6)
    ensures |Contents(FramesOf([p] + ys))| == 8
  {
    hide F;
    hide Old;
    var q := [p] + ys;
    ContentsAt(q);
    hide Contents;
    hide FramesOf;
    forall f | f in extra + Contents(FramesOf(q)) ensures Old(f, i + 6) {
      if f in extra {
        OldIf(f, i, i + 6);
      } else {
        var el :| el in q && f == el.data;
        if el == p {
          OldIf(f, 1, i + 6);
        } else {
          assert el in ys;
          var j :| 0 <= j < |ys| && ys[j] == el;
          OldIf(f, i + j, i + 6);
        }
      }
    }
  }

  lemma OldIf(f: seq<byte>, i: nat, rx: nat)
    requires f == F(i) && (i % 2048 != (rx + 1) % 2048 || i == rx < 2048)
    ensures Old(f, rx)
  {
    assert i % 2048 <= MAX_SEQ;
  }

  lemma RowNumbers(p: Element, ys: seq<Element>, i: nat)
    requires Row(ys, i) && |ys| <= 7 && 1 < i < 2041 && p.seqNr == 1
    ensures forall y :: y in ys ==> y.seqNr != p.seqNr
  {
    hide F;
    forall y | y in ys ensures y.seqNr != p.seqNr {
      var j :| 0 <= j < |ys| && ys[j] == y;
    }
  }

  /** Seven packets arrive, and old ones behind them; the seven are acknowledged. */
  lemma SevenArrive(n: Net, ea: Env, eb: Env, v: View, p: Element, ys: seq<Element>, i: nat, olds: seq<seq<byte>>)
    returns (steps: seq<Step>)
    requires SaneNet(n) && Is(n, ea, v) && 1 < i < 2041 && |ys| == 7 && Row(ys, i) && p.seqNr == 1
    requires v.q == [p] + ys && v.wait == [] && v.rx == i - 1 && v.ab == Frames(i, 7) + olds && v.ba == []
    requires forall f :: f in olds ==> Old(f, i + 6)
    requires forall y :: y in ys ==> y.stamp == p.stamp
    ensures NoRequests(steps)
    ensures Is(RunNet(n, ea, eb, steps), ea,
               v.(q := [p], rx := i + 6, ab := [], ba := Many(AckFrame(i + 6), |olds|), ahead := v.ahead + 7))
  {
    RowNumbers(p, ys, i);
    hide *;
    var acks := Many(AckFrame(i + 6), |olds|);
    var arrived := SevenTaken(n, ea, eb, v, i, olds);
    var n1, v1 := RunNet(n, ea, eb, arrived),
        v.(rx := i + 6, ab := [], ba := Answers(i, 7) + acks, ahead := v.ahead + 7);
    var acked := RowAcked(n1, ea, eb, v1, p, ys, i, acks);
    Further(n, ea, eb, arrived, acked);
    steps := arrived + acked;
  }

  lemma SevenTaken(n: Net, ea: Env, eb: Env, v: View, i: nat, olds: seq<seq<byte>>) returns (steps: seq<Step>)
    requires SaneNet(n) && Is(n, ea, v) && 1 < i < 2041
    requires v.rx == i - 1 && v.ab == Frames(i, 7) + olds && v.ba == []
    requires forall f :: f in olds ==> Old(f, i + 6)
    ensures NoRequests(steps)
    ensures Is(RunNet(n, ea, eb, steps), ea,
               v.(rx := i + 6, ab := [], ba := Answers(i, 7) + Many(AckFrame(i + 6), |olds|), ahead := v.ahead + 7))
  {
    hide *;
    InRange(i);
    var taken := RowTaken(n, ea, eb, v, i, 7, olds);
    NothingBefore(Answers(i, 7));
    var n1, v1 := RunNet(n, ea, eb, taken), v.(ab := olds, rx := i + 6, ba := Answers(i, 7), ahead := v.ahead + 7);
    var answered := RowAnswered(n1, ea, eb, v1);
    Further(n, ea, eb, taken, answered);
    steps := taken + answered;
  }

  lemma InRange(i: nat)
    requires 1 < i < 2041
    ensures (i - 1) % 2048 == i - 1 && (i + 7 - 1) % 2048 == i + 6 <= MAX_SEQ
  {
  }

  lemma NothingBefore<T>(s: seq<T>)
    ensures [] + s == s
  {
  }

  /** The seven are out, and behind them `olds`. */
  function SevenOn(v: View, q: seq<Element>, number: nat, olds: seq<seq<byte>>): View {
    v.(q := q, wait := [], tx := (number + 8) % 2048, rx := number, ab := Frames(number + 1, 7) + olds, ba := [],
       ahead := -7)
  }

  function Extra(number: nat, c: nat): seq<seq<byte>> {
    if c == 1 then [F(number + 1)] else []
  }

  /** Seven packets go out, and the first of them again if an acknowledgement is left for that. */
  lemma SevenOut(n: Net, ea: Env, eb: Env, v: View, p: Element, number: nat, c: nat)
    returns (steps: seq<Step>, ys: seq<Element>)
    requires 1 <= number < 2040 && c <= 1 && (c == 1 ==> number > 1)
    requires SaneNet(n) && Onward(ea.clock) && Is(n, ea, Resting(v, p, number, c)) && p.seqNr == 1
    ensures NoRequests(steps) && |ys| == 7 && Row(ys, number + 1) && forall y :: y in ys ==> y.txcount > 0
    ensures Is(RunNet(n, ea, eb, steps), ea, SevenOn(v, [p] + ys, number, Extra(number, c)))
  {
    RestingIs(v, p, number, c);
    hide *;
    var v0 := Resting(v, p, number, c);
    steps, ys := RowOut(n, ea, eb, v0, p, number + 1, 7, c == 1);
    SevenOnIs(v, p, ys, number, c);
  }

  lemma RestingIs(v: View, p: Element, number: nat, c: nat)
    requires 1 <= number < 2040 && c <= 1
    ensures number <= MAX_SEQ
    ensures var v0 := Resting(v, p, number, c);
            && v0.q == [p] && v0.ab == [] && v0.tx == (number + 1) % 2048
            && v0.ba == if c == 1 then [AckFrame(number)] else []
  {
    hide AckFrame;
    ManyHead(AckFrame(number), c);
    assert Many(AckFrame(number), 0) == [];
  }

  lemma SevenOnIs(v: View, p: Element, ys: seq<Element>, number: nat, c: nat)
    requires 1 <= number < 2040 && c <= 1
    ensures number <= MAX_SEQ
    ensures Resting(v, p, number, c).(q := [p] + ys, tx := (number + 1 + 7) % 2048, ahead := 0 - 7,
              ab := Frames(number + 1, 7) + (if c == 1 then [F(number + 1)] else []),
              ba := if c == 1 then [] else Resting(v, p, number, c).ba)
         == SevenOn(v, [p] + ys, number, Extra(number, c))
  {
    RestingIs(v, p, number, c);
    hide AckFrame;
    hide Frames;
    hide F;
    hide Many;
  }

  /** The timer sends all eight again. */
  lemma SevenFire(n: Net, ea: Env, eb: Env, v: View, p: Element, ys: seq<Element>, number: nat, c: nat)
    returns (now: int, olds: seq<seq<byte>>)
    requires 1 <= number < 2040 && c <= 1 && |ys| == 7 && Row(ys, number + 1) && p.txcount > 0 && p.data == F(1)
    requires SaneNet(n) && Onward(ea.clock) && Is(n, ea, SevenOn(v, [p] + ys, number, Extra(number, c)))
    requires forall y :: y in ys ==> y.txcount > 0
    ensures Is(StepNet(n, ea, eb, AtA(Timer(now + 1))), ea,
               SevenOn(v, [Again(p, now)] + AgainAll(ys, now), number, olds))
    ensures |olds| == 8 + c && forall f :: f in olds ==> Old(f, number + 7)
  {
    hide *;
    var e, z := Extra(number, c), Contents(FramesOf([p] + ys));
    now, olds := ea.clock(n.a.readings), e + z;
    ExtraIs(number, c);
    RowIsOld(p, ys, number + 1, e);
    SevenGrows(v, [p] + ys, [Again(p, now)] + AgainAll(ys, now), number, e, z);
    CanAll(p, ys);
    TimerFires(n, ea, eb, SevenOn(v, [p] + ys, number, e));
    AgainFirst(p, ys, now);
  }

  lemma ExtraIs(number: nat, c: nat)
    requires number < 2040 && c <= 1
    ensures |Extra(number, c)| == c && (Extra(number, c) == [] || Extra(number, c) == [F(number + 1)])
    ensures number + 1 + 6 <= MAX_SEQ
  {
  }

  lemma CanAll(p: Element, ys: seq<Element>)
    requires p.txcount > 0 && forall y :: y in ys ==> y.txcount > 0
    ensures forall el :: el in [p] + ys ==> el.txcount > 0
  {
  }

  lemma SevenGrows(v: View, q: seq<Element>, q': seq<Element>, number: nat, e: seq<seq<byte>>, z: seq<seq<byte>>)
    ensures var w := SevenOn(v, q, number, e);
            w.q == q && w.(q := q', ab := w.ab + z) == SevenOn(v, q', number, e + z)
  {
    hide Frames;
    assert Frames(number + 1, 7) + e + z == Frames(number + 1, 7) + (e + z);
  }

  /** Seven packets go out, and again with p; all copies arrive, and the seven are acknowledged: p stays. */
  lemma Seven(n: Net, ea: Env, eb: Env, v: View, p: Element, number: nat, c: nat)
    returns (steps: seq<Step>, p': Element)
    requires 1 <= number < 2040 && c <= 1 && (c == 1 ==> number > 1)
    requires SaneNet(n) && Onward(ea.clock) && Is(n, ea, Resting(v, p, number, c))
    requires p.seqNr == 1 && p.txcount > 0 && p.data == F(1)
    ensures NoRequests(steps) && p' == p.(txcount := p.txcount - 1, stamp := p'.stamp)
    ensures Is(RunNet(n, ea, eb, steps), ea, Resting(v, p', number + 7, 8 + c))
  {
    hide *;
    var out, ys := SevenOut(n, ea, eb, v, p, number, c);
    var n1 := RunNet(n, ea, eb, out);
    var now, olds := SevenFire(n1, ea, eb, v, p, ys, number, c);
    var fire := AtA(Timer(now + 1));
    p' := Again(p, now);
    AgainMeans(p, now);
    RowAgainAll(ys, number + 1, now);
    SevenViews(v, p', AgainAll(ys, now), number, c, olds);
    var arrive := SevenArrive(StepNet(n1, ea, eb, fire), ea, eb, SevenOn(v, [p'] + AgainAll(ys, now), number, olds),
                              p', AgainAll(ys, now), number + 1, olds);
    Onwards(n1, ea, eb, fire, arrive);
    Further(n, ea, eb, out, [fire] + arrive);
    steps := out + ([fire] + arrive);
  }

  lemma AgainMeans(p: Element, now: int)
    ensures Again(p, now) == p.(txcount := p.txcount - 1, stamp := now)
  {
  }

  lemma SevenViews(v: View, p: Element, ys: seq<Element>, number: nat, c: nat, olds: seq<seq<byte>>)
    requires number < 2040 && |olds| == 8 + c
    ensures var w := SevenOn(v, [p] + ys, number, olds);
            && w.q == [p] + ys && w.wait == [] && w.rx == number && w.ab == Frames(number + 1, 7) + olds && w.ba == []
            && w.(q := [p], rx := number + 7, ab := [], ba := Many(AckFrame(number + 7), |olds|), ahead := w.ahead + 7)
               == Resting(v, p, number + 7, 8 + c)
  {
    hide Many;
    hide Frames;
  }


  /** So j times over, each time losing all acknowledgements left but one. */
  lemma {:induction false} Sevens(n: Net, ea: Env, eb: Env, v: View, p: Element, number: nat, c: nat, j: nat)
    returns (steps: seq<Step>, p': Element)
    requires 1 <= number && number + 7 * j < 2040 && 0 < j <= p.txcount && c <= 1 && (c == 1 ==> number > 1)
    requires SaneNet(n) && Onward(ea.clock) && Is(n, ea, Resting(v, p, number, c))
    requires p.seqNr == 1 && p.data == F(1)
    ensures NoRequests(steps) && p' == p.(txcount := p.txcount - j, stamp := p'.stamp)
    ensures Is(RunNet(n, ea, eb, steps), ea, Resting(v, p', number + 7 * j, if j == 1 then 8 + c else 9))
    decreases j
  {
    hide *;
    var seven;
    seven, p' := Seven(n, ea, eb, v, p, number, c);
    if j == 1 {
      steps := seven;
    } else {
      var n1, p1 := RunNet(n, ea, eb, seven), p';
      InNumbers(number + 7);
      var f := AckFrame(number + 7);
      ManyApart(f, 7 + c, 1);
      RestingLess(v, p1, number + 7, 8 + c, 1);
      var lost := ManyLost(n1, ea, eb, Resting(v, p1, number + 7, 8 + c), f, 7 + c, Many(f, 1));
      var n2 := RunNet(n1, ea, eb, lost);
      var more;
      more, p' := Sevens(n2, ea, eb, v, p1, number + 7, 1, j - 1);
      Further(n1, ea, eb, lost, more);
      Further(n, ea, eb, seven, lost + more);
      steps := seven + (lost + more);
    }
  }

  lemma {:induction false} ManyApart<T>(x: T, k: nat, l: nat)
    ensures Many(x, k + l) == Many(x, k) + Many(x, l)
  {
    if k > 0 {
      ManyApart(x, k - 1, l);
    }
  }

  lemma InNumbers(i: nat)
    requires i < 2048
    ensures i <= MAX_SEQ && i % 2048 == i && F(i) == DataFrame(i, PACKET) && K(i) == AckFrame(i)
  {
  }

  lemma RestingLess(v: View, p: Element, number: nat, c: nat, c': nat)
    requires number <= MAX_SEQ
    ensures var w := Resting(v, p, number, c);
            && w.ba == Many(AckFrame(number), c)
            && w.(ba := Many(AckFrame(number), c')) == Resting(v, p, number, c')
  {
    hide Many;
    hide AckFrame;
  }

  // ---------------------------------------------------------------- packets that are given up

  /**
   * A packet with k retries left, and k + 1 acknowledgements of the one before it: it goes out k times more, and is
   * dropped.
   */
  lemma {:induction false} DroppedAtLast(n: Net, ea: Env, eb: Env, v: View, p: Element, x: Element, number: nat, k: nat)
    returns (steps: seq<Step>)
    requires SaneNet(n) && Is(n, ea, v) && v.q == [p, x] && x.seqNr == number + 1 && x.txcount == k
    requires p.seqNr != number && p.seqNr != number + 1 && number <= MAX_SEQ && Onward(ea.clock)
    requires v.ba == Many(AckFrame(number), k + 1)
    ensures NoRequests(steps)
    ensures Is(RunNet(n, ea, eb, steps), ea,
               v.(q := [p], ba := [], ab := v.ab + Many(x.data, k), gaveUp := v.gaveUp + 1))
    decreases k
  {
    hide *;
    var ack, rest, x' := AckFrame(number), Many(AckFrame(number), k), Again(x, ea.clock(n.a.readings));
    ManyHead(ack, k + 1);
    ManyHead(x.data, k);
    ManyHead(ack, 0);
    AgainMeans(x, ea.clock(n.a.readings));
    PairUnmatched(n, ea, eb, v, p, x, number, rest);
    var n1 := StepNet(n, ea, eb, AtA(Deliver));
    if k == 0 {
      steps := [AtA(Deliver)];
      OneStep(n, ea, eb, AtA(Deliver));
      DeliverIsNoRequest();
      assert v.ab + [] == v.ab;
    } else {
      var v1 := v.(q := [p, x'], ba := rest, ab := v.ab + [x.data]);
      var more := DroppedAtLast(n1, ea, eb, v1, p, x', number, k - 1);
      steps := [AtA(Deliver)] + more;
      Onwards(n, ea, eb, AtA(Deliver), more);
      var t := Many(x.data, k - 1);
      assert v.ab + [x.data] + t == v.ab + ([x.data] + t);
    }
  }

  lemma ManyHead<T>(x: T, k: nat)
    ensures Many(x, k) == if k == 0 then [] else [x] + Many(x, k - 1)
  {
  }

  lemma PairUnmatched(n: Net, ea: Env, eb: Env, v: View, p: Element, x: Element, number: nat, rest: seq<seq<byte>>)
    requires Is(n, ea, v) && v.q == [p, x] && x.seqNr == number + 1 && p.seqNr != number && p.seqNr != number + 1
    requires number <= MAX_SEQ && v.ba == [AckFrame(number)] + rest && Onward(ea.clock)
    ensures var n' := StepNet(n, ea, eb, AtA(Deliver));
            if x.txcount == 0 then Is(n', ea, v.(q := [p], ba := rest, gaveUp := v.gaveUp + 1))
            else Is(n', ea, v.(q := [p, Again(x, ea.clock(n.a.readings))], ba := rest, ab := v.ab + [x.data]))
  {
    hide *;
    var x' := Again(x, ea.clock(n.a.readings));
    assert [p] + [x] + [] == [p, x] && [p] + [x'] + [] == [p, x'] && [p] + [] == [p];
    Unmatched(n, ea, eb, v, [p], x, [], number, rest);
  }

  /** Nine copies of the next packet arrive: one is taken, and all are answered. */
  lemma NineTaken(n: Net, ea: Env, eb: Env, v: View, next: nat) returns (steps: seq<Step>)
    requires 0 < next < 2048 && v.rx == next - 1 && v.ba == []
    requires SaneNet(n) && Is(n, ea, v) && v.ab == [F(next)] + Many(F(next), 8)
    ensures NoRequests(steps)
    ensures Is(RunNet(n, ea, eb, steps), ea,
               v.(ab := [], rx := next, ba := Many(AckFrame(next), 9), ahead := v.ahead + 1))
  {
    hide *;
    InNumbers(next);
    var f, ack := F(next), AckFrame(next);
    InNumbers(next - 1);
    ManyAre(f, 8);
    ManyLength(f, 8);
    ManyHead(ack, 9);
    OneOf(next);
    OldIf(f, next, next);
    var taken := RowTaken(n, ea, eb, v, next, 1, Many(f, 8));
    NothingBefore([ack]);
    var n1, v1 := RunNet(n, ea, eb, taken), v.(ab := Many(f, 8), rx := next, ba := [ack], ahead := v.ahead + 1);
    var answered := RowAnswered(n1, ea, eb, v1);
    Further(n, ea, eb, taken, answered);
    steps := taken + answered;
  }

  lemma OneOf(i: nat)
    ensures Frames(i, 1) == [F(i)] && Answers(i, 1) == [K(i)] && (i + 1 - 1) % 2048 == i % 2048
  {
    hide F;
    hide K;
    assert Frames(i + 1, 0) == [] && Answers(i + 1, 0) == [];
  }

  lemma {:induction false} ManyLength<T>(x: T, k: nat)
    ensures |Many(x, k)| == k
  {
    if k > 0 {
      ManyLength(x, k - 1);
    }
  }

  /** The next packet goes out nine times, is dropped, and is taken: the same, one number further. */
  lemma Round(n: Net, ea: Env, eb: Env, v: View, p: Element, number: nat) returns (steps: seq<Step>)
    requires 2 <= number < 2047
    requires SaneNet(n) && p.seqNr == 1 && Onward(ea.clock) && Is(n, ea, Resting(v, p, number, 9))
    ensures NoRequests(steps)
    ensures Is(RunNet(n, ea, eb, steps), ea, Resting(v.(gaveUp := v.gaveUp + 1), p, number + 1, 9))
  {
    hide *;
    InNumbers(number);
    InNumbers(number + 1);
    var next, v0 := number + 1, Resting(v, p, number, 9);
    RestingAt(v, p, number, 9);
    RestingLess(v, p, number, 9, 9);
    RestingNext(v, p, number, 9, v.gaveUp + 1);
    var f := F(next);
    var x := Element(next, 8, ea.clock(n.a.readings), f, |n.a.queued|);
    Submitted(n, ea, eb, v0);
    var submit := AtA(Submit(PACKET));
    var n1 := StepNet(n, ea, eb, submit);
    var v1 := v0.(q := [p, x], tx := (next + 1) % 2048, ab := [f], ahead := -1);
    assert [p] + [x] == [p, x] && [] + [f] == [f];
    var dropped := DroppedAtLast(n1, ea, eb, v1, p, x, number, 8);
    var n2 := RunNet(n1, ea, eb, dropped);
    var v2 := v1.(q := [p], ba := [], ab := [f] + Many(f, 8), gaveUp := v.gaveUp + 1);
    var taken := NineTaken(n2, ea, eb, v2, next);
    Further(n1, ea, eb, dropped, taken);
    SubmitIsNoRequest();
    Onwards(n, ea, eb, submit, dropped + taken);
    steps := [submit] + (dropped + taken);
  }

  /** One number further. */
  lemma RestingNext(v: View, p: Element, number: nat, c: nat, gaveUp: nat)
    requires number < 2047
    ensures Resting(v, p, number, c).tx == number + 1
    ensures Resting(v, p, number, c).(tx := (number + 2) % 2048, rx := number + 1, gaveUp := gaveUp,
                                      ba := Many(AckFrame(number + 1), c))
         == Resting(v.(gaveUp := gaveUp), p, number + 1, c)
    ensures (number + 1 + 1) % 2048 == (number + 2) % 2048
  {
  }

  lemma {:induction false} Rounds(n: Net, ea: Env, eb: Env, v: View, p: Element, number: nat, k: nat)
    returns (steps: seq<Step>)
    requires 2 <= number && number + k <= 2047
    requires SaneNet(n) && p.seqNr == 1 && Onward(ea.clock) && Is(n, ea, Resting(v, p, number, 9))
    ensures NoRequests(steps)
    ensures Is(RunNet(n, ea, eb, steps), ea, Resting(v.(gaveUp := v.gaveUp + k), p, number + k, 9))
    decreases k
  {
    hide *;
    if k == 0 {
      steps := [];
      NoSteps(n, ea, eb);
      assert v.(gaveUp := v.gaveUp + k) == v;
    } else {
      var round := Round(n, ea, eb, v, p, number);
      var n1 := RunNet(n, ea, eb, round);
      var v1 := v.(gaveUp := v.gaveUp + 1);
      assert v1.(gaveUp := v1.gaveUp + (k - 1)) == v.(gaveUp := v.gaveUp + k);
      var more := Rounds(n1, ea, eb, v1, p, number + 1, k - 1);
      Further(n, ea, eb, round, more);
      steps := round + more;
    }
  }

  // ---------------------------------------------------------------- the beginning and the end of the run

  /** The first packet is taken, and its acknowledgement is lost. */
  lemma FirstTaken(n: Net, ea: Env, eb: Env, v: View) returns (steps: seq<Step>, p: Element)
    requires v.q == [] && v.wait == [] && v.tx == 1 && v.rx == 0 && v.ab == [] && v.ba == [] && v.ahead == 0
    requires SaneNet(n) && Is(n, ea, v) && Onward(ea.clock)
    ensures NoRequests(steps) && p == Element(1, 8, ea.clock(n.a.readings), F(1), |n.a.queued|)
    ensures Is(RunNet(n, ea, eb, steps), ea, Resting(v, p, 1, 0))
  {
    InNumbers(1);
    var f, ack := F(1), AckFrame(1);
    p := Element(1, 8, ea.clock(n.a.readings), f, |n.a.queued|);
    assert v.(q := [p], tx := 2, rx := 1, ab := [], ba := [], ahead := 0) == Resting(v, p, 1, 0);
    SubmitIsNoRequest();
    hide *;
    Submitted(n, ea, eb, v);
    var submit, take, lose := AtA(Submit(PACKET)), AtB(Deliver), AtA(Lose(0));
    var n1, v1 := StepNet(n, ea, eb, submit), v.(q := [p], tx := 2, ab := [f], ahead := -1);
    assert [] + [p] == [p] && [] + [f] == [f] && [f] == [f] + [] && [] + [ack] == [ack] && [ack] == [ack] + [];
    Taken(n1, ea, eb, v1, 1, []);
    var n2, v2 := StepNet(n1, ea, eb, take), v1.(ab := [], rx := 1, ba := [ack], ahead := 0);
    Lost(n2, ea, eb, v2, ack, []);
    LoseIsNoRequest();
    OneStep(n2, ea, eb, lose);
    Onwards(n1, ea, eb, take, [lose]);
    Onwards(n, ea, eb, submit, [take] + [lose]);
    steps := [submit] + ([take] + [lose]);
  }

  lemma LoseIsNoRequest()
    ensures NoRequests([AtA(Lose(0))])
  {
  }

  /** The packets up to 2048 go out, and all that is queued again. */
  lemma LastOut(n: Net, ea: Env, eb: Env, v: View, p: Element, number: nat)
    returns (steps: seq<Step>, w: View, z: seq<seq<byte>>)
    requires 2041 <= number <= 2047 && v.q == [p] && v.tx == (number + 1) % 2048 && v.ab == []
    requires SaneNet(n) && Is(n, ea, v) && Onward(ea.clock) && p.txcount > 0
    ensures NoRequests(steps) && Is(RunNet(n, ea, eb, steps), ea, w) && z != [] && z == [p.data] + z[1..]
    ensures var j := 2048 - number;
            && w.rx == v.rx && w.ab == Frames(number + 1, j) + z && w.ahead == v.ahead - j
            && w.gaveUp == v.gaveUp && w.others == v.others
  {
    hide *;
    var i, j, ys := number + 1, 2048 - number, [];
    steps, ys := RowOut(n, ea, eb, v, p, i, j, false);
    var n1, v1 := RunNet(n, ea, eb, steps),
        v.(q := [p] + ys, tx := (i + j) % 2048, ahead := v.ahead - j, ab := Frames(i, j) + []);
    CanAll(p, ys);
    TimerFires(n1, ea, eb, v1);
    var now := ea.clock(n1.a.readings);
    var fire := AtA(Timer(now + 1));
    z := Contents(FramesOf([p] + ys));
    w := v1.(q := AgainAll([p] + ys, now), ab := Frames(i, j) + z);
    assert Frames(i, j) + [] + z == Frames(i, j) + z;
    FirstOfContents(p, ys);
    OneStep(n1, ea, eb, fire);
    TimerIsNoRequest(now);
    Further(n, ea, eb, steps, [fire]);
    steps := steps + [fire];
  }

  lemma TimerIsNoRequest(now: int)
    ensures NoRequests([AtA(Timer(now + 1))])
  {
  }

  /** b takes them all, and then the first packet again. */
  lemma Ending(n: Net, ea: Env, eb: Env, v: View, p: Element, number: nat) returns (steps: seq<Step>)
    requires 2041 <= number <= 2047 && v.q == [p] && v.tx == (number + 1) % 2048 && v.rx == number && v.ab == []
             && v.ahead == 0
    requires SaneNet(n) && Is(n, ea, v) && Onward(ea.clock) && p.txcount > 0 && p.data == F(1)
    ensures NoRequests(steps)
    ensures var n' := RunNet(n, ea, eb, steps);
            |n'.b.accepted| == |n'.a.numbered| + 1 && n'.a.gaveUp == v.gaveUp && n'.b.gaveUp == v.others
  {
    hide *;
    LastNumbers(number);
    var i, j := number + 1, 2048 - number;
    var out, w, z := LastOut(n, ea, eb, v, p, number);
    var n1 := RunNet(n, ea, eb, out);
    var taken := RowTaken(n1, ea, eb, w, i, j, z);
    var n2, w2 := RunNet(n1, ea, eb, taken), w.(ab := z, rx := 0, ba := w.ba + Answers(i, j), ahead := 0);
    var last := TakenAgain(n2, ea, eb, w2, z[1..]);
    Further(n1, ea, eb, taken, last);
    Further(n, ea, eb, out, taken + last);
    steps := out + (taken + last);
  }

  /** The first packet arrives once more, and its number is the next. */
  lemma TakenAgain(n: Net, ea: Env, eb: Env, v: View, rest: seq<seq<byte>>) returns (steps: seq<Step>)
    requires SaneNet(n) && Is(n, ea, v) && v.ab == [F(1)] + rest && v.rx == 0 && v.ahead == 0
    ensures NoRequests(steps)
    ensures var n' := RunNet(n, ea, eb, steps);
            |n'.b.accepted| == |n'.a.numbered| + 1 && n'.a.gaveUp == v.gaveUp && n'.b.gaveUp == v.others
  {
    hide *;
    InNumbers(1);
    var deliver := AtB(Deliver);
    Taken(n, ea, eb, v, 1, rest);
    IsAhead(StepNet(n, ea, eb, deliver), ea, v.(ab := rest, rx := 1, ba := v.ba + [AckFrame(1)], ahead := 1));
    OneStep(n, ea, eb, deliver);
    DeliverIsNoRequest();
    steps := [deliver];
  }

  lemma LastNumbers(number: nat)
    requires 2041 <= number <= 2047
    ensures (number + 1 - 1) % 2048 == number && (number + 1 + (2048 - number) - 1) % 2048 == 0 && (0 + 1) % 2048 == 1
  {
  }

  lemma FirstOfContents(p: Element, ys: seq<Element>)
    ensures var z := Contents(FramesOf([p] + ys)); z != [] && z == [p.data] + z[1..]
  {
  }

  lemma IsAhead(n: Net, ea: Env, v: View)
    requires Is(n, ea, v)
    ensures |n.b.accepted| == |n.a.numbered| + v.ahead && n.a.gaveUp == v.gaveUp && n.b.gaveUp == v.others
  {
  }

  // ---------------------------------------------------------------- the two runs

  /** A session begins with both lines up and nothing waiting. */
  ghost predicate Ready(n: Net) {
    && StartNet(EPOC, n) && SaneNet(n)
    && !n.a.lineDown && !n.b.lineDown && n.a.xoff == {} && n.a.waitQueue == []
  }

  function StartOf(n: Net): View {
    View([], [], 1, 0, [], [], 0, n.a.gaveUp, n.b.gaveUp)
  }

  lemma StartView(ea: Env, n: Net)
    requires Ready(n)
    ensures Is(n, ea, StartOf(n))
  {
  }

  /** The first packet, and seven times seven that are acknowledged. */
  lemma Opening(n: Net, ea: Env, eb: Env, v: View) returns (steps: seq<Step>, p: Element)
    requires v.q == [] && v.wait == [] && v.tx == 1 && v.rx == 0 && v.ab == [] && v.ba == [] && v.ahead == 0
    requires SaneNet(n) && Is(n, ea, v) && Onward(ea.clock)
    ensures NoRequests(steps) && p.seqNr == 1 && p.txcount == 1 && p.data == F(1)
    ensures Is(RunNet(n, ea, eb, steps), ea, Resting(v, p, 50, 9))
  {
    hide *;
    var first, more;
    first, p := FirstTaken(n, ea, eb, v);
    var n1 := RunNet(n, ea, eb, first);
    more, p := Sevens(n1, ea, eb, v, p, 1, 0, 7);
    Further(n, ea, eb, first, more);
    steps := first + more;
  }

  /** 1991 packets that are given up, and the end. */
  lemma Closing(n: Net, ea: Env, eb: Env, v: View, p: Element) returns (steps: seq<Step>)
    requires SaneNet(n) && Is(n, ea, Resting(v, p, 50, 9)) && Onward(ea.clock)
    requires p.seqNr == 1 && p.txcount > 0 && p.data == F(1)
    ensures NoRequests(steps)
    ensures var n' := RunNet(n, ea, eb, steps);
            |n'.b.accepted| == |n'.a.numbered| + 1 && n'.a.gaveUp == v.gaveUp + 1991 && n'.b.gaveUp == v.others
  {
    hide *;
    var rounds := Rounds(n, ea, eb, v, p, 50, 1991);
    var n1, w := RunNet(n, ea, eb, rounds), v.(gaveUp := v.gaveUp + 1991);
    InNumbers(2041);
    RestingAt(w, p, 2041, 9);
    var last := Ending(n1, ea, eb, Resting(w, p, 2041, 9), p, 2041);
    Further(n, ea, eb, rounds, last);
    steps := rounds + last;
  }

  /** From every such beginning there is a run in which b takes more packets than a has numbered, a giving up 1991. */
  lemma GivingUpBreaksSafety(ea: Env, eb: Env, n: Net) returns (steps: seq<Step>)
    requires Ready(n) && SaneNet(n) && Increasing(ea.clock) && Increasing(eb.clock)
    ensures forall i :: 0 <= i < |steps| ==> steps[i].event != Submit([])
    ensures !InSequence(RunNet(n, ea, eb, steps))
    ensures var n' := RunNet(n, ea, eb, steps);
            n'.a.gaveUp == n.a.gaveUp + GIVEUPS + 1 && n'.b.gaveUp == n.b.gaveUp
  {
    hide *;
    StartView(ea, n);
    StartIs(n);
    IncreasingIsOnward(ea.clock);
    var opening, p := Opening(n, ea, eb, StartOf(n));
    var n1 := RunNet(n, ea, eb, opening);
    var closing := Closing(n1, ea, eb, StartOf(n), p);
    Further(n, ea, eb, opening, closing);
    steps := opening + closing;
    NoRequestAt(steps);
    AheadIsOutOfSequence(RunNet(n, ea, eb, steps));
  }

  lemma StartIs(n: Net)
    ensures var v := StartOf(n);
            && v.q == [] && v.wait == [] && v.tx == 1 && v.rx == 0 && v.ab == [] && v.ba == [] && v.ahead == 0
            && v.gaveUp == n.a.gaveUp && v.others == n.b.gaveUp
    ensures GIVEUPS + 1 == 1991
  {
  }

  lemma RestingAt(v: View, p: Element, number: nat, c: nat)
    requires number <= MAX_SEQ
    ensures var w := Resting(v, p, number, c);
            && w.q == [p] && w.wait == [] && w.tx == (number + 1) % 2048 && w.rx == number && w.ab == [] && w.ahead == 0
            && w.gaveUp == v.gaveUp && w.others == v.others
  {
  }

  lemma NoRequestAt(steps: seq<Step>)
    requires NoRequests(steps)
    ensures forall i :: 0 <= i < |steps| ==> steps[i].event != Submit([])
  {
  }

  lemma IncreasingIsOnward(clock: nat -> int)
    requires Increasing(clock)
    ensures Onward(clock)
  {
  }

  lemma AheadIsOutOfSequence(n: Net)
    requires |n.b.accepted| == |n.a.numbered| + 1
    ensures !InSequence(n)
  {
  }

  ghost predicate Stands(clock: nat -> int, time: int) {
    forall i: nat :: clock(i) == time
  }

  lemma StandsNow(clock: nat -> int, time: int, i: nat)
    requires Stands(clock, time)
    ensures clock(i) == time && Onward(clock)
  {
  }

  /** The next packet crosses and is acknowledged; p, with the same stamp, stays. */
  lemma ExchangeStays(n: Net, ea: Env, eb: Env, v: View, p: Element, number: nat) returns (steps: seq<Step>)
    requires 1 <= number < 2047
    requires SaneNet(n) && p.seqNr == 1 && Is(n, ea, Resting(v, p, number, 0)) && Stands(ea.clock, p.stamp)
    ensures NoRequests(steps) && Is(RunNet(n, ea, eb, steps), ea, Resting(v, p, number + 1, 0))
  {
    hide *;
    InNumbers(number);
    InNumbers(number + 1);
    var next, v0 := number + 1, Resting(v, p, number, 0);
    StandsNow(ea.clock, p.stamp, n.a.readings);
    RestingAt(v, p, number, 0);
    RestingLess(v, p, number, 0, 0);
    RestingNext(v, p, number, 0, v.gaveUp);
    var f, ack := F(next), AckFrame(next);
    ManyHead(AckFrame(number), 0);
    ManyHead(ack, 0);
    assert v.(gaveUp := v.gaveUp) == v;
    var x := Element(next, 8, p.stamp, f, |n.a.queued|);
    Submitted(n, ea, eb, v0);
    var submit, take, acked := AtA(Submit(PACKET)), AtB(Deliver), AtA(Deliver);
    var n1, v1 := StepNet(n, ea, eb, submit), v0.(q := [p, x], tx := (next + 1) % 2048, ab := [f], ahead := -1);
    assert [p] + [x] == [p, x] && [] + [f] == [f] && [f] == [f] + [] && [] + [ack] == [ack] && [ack] == [ack] + [];
    Taken(n1, ea, eb, v1, next, []);
    var n2, v2 := StepNet(n1, ea, eb, take), v1.(ab := [], rx := next, ba := [ack], ahead := 0);
    assert [p, x] + [] == [p, x] && [p] + [] == [p];
    SecondAcked(n2, ea, eb, v2, p, x, [], []);
    SubmitIsNoRequest();
    DeliverIsNoRequest();
    OneStep(n2, ea, eb, acked);
    Onwards(n1, ea, eb, take, [acked]);
    Onwards(n, ea, eb, submit, [take] + [acked]);
    steps := [submit] + ([take] + [acked]);
  }

  lemma {:induction false} Exchanges(n: Net, ea: Env, eb: Env, v: View, p: Element, number: nat)
    returns (steps: seq<Step>)
    requires 1 <= number <= 2047
    requires SaneNet(n) && p.seqNr == 1 && Is(n, ea, Resting(v, p, number, 0)) && Stands(ea.clock, p.stamp)
    ensures NoRequests(steps) && Is(RunNet(n, ea, eb, steps), ea, Resting(v, p, 2047, 0))
    decreases 2047 - number
  {
    hide *;
    if number == 2047 {
      steps := [];
      NoSteps(n, ea, eb);
    } else {
      var one := ExchangeStays(n, ea, eb, v, p, number);
      var n1 := RunNet(n, ea, eb, one);
      var more := Exchanges(n1, ea, eb, v, p, number + 1);
      Further(n, ea, eb, one, more);
      steps := one + more;
    }
  }

  /** With a clock that stands still safety fails too, though nothing is given up. */
  lemma StandingClockBreaksSafety(ea: Env, eb: Env, n: Net) returns (steps: seq<Step>)
    requires Ready(n) && SaneNet(n) && Stands(ea.clock, ea.clock(0))
    ensures forall i :: 0 <= i < |steps| ==> steps[i].event != Submit([])
    ensures !InSequence(RunNet(n, ea, eb, steps))
    ensures var n' := RunNet(n, ea, eb, steps); n'.a.gaveUp == n.a.gaveUp && n'.b.gaveUp == n.b.gaveUp
  {
    StandsNow(ea.clock, ea.clock(0), n.a.readings);
    StartView(ea, n);
    StartIs(n);
    var v0 := StartOf(n);
    hide *;
    var first, p := FirstTaken(n, ea, eb, v0);
    var n1 := RunNet(n, ea, eb, first);
    var exchanges := Exchanges(n1, ea, eb, v0, p, 1);
    var n2 := RunNet(n1, ea, eb, exchanges);
    InNumbers(2047);
    RestingAt(v0, p, 2047, 0);
    var last := Ending(n2, ea, eb, Resting(v0, p, 2047, 0), p, 2047);
    Further(n1, ea, eb, exchanges, last);
    Further(n, ea, eb, first, exchanges + last);
    steps := first + (exchanges + last);
    NoRequestAt(steps);
    AheadIsOutOfSequence(RunNet(n, ea, eb, steps));
  }

  // ---------------------------------------------------------------- a packet that waits is overtaken

  /** A packet is submitted while the window is full: it waits. */
  lemma Waits(n: Net, ea: Env, eb: Env, v: View, buf: seq<byte>)
    requires Is(n, ea, v) && |v.q| == 8 && 0 < |buf| <= 300
    ensures Is(StepNet(n, ea, eb, AtA(Submit(buf))), ea, v.(wait := v.wait + [buf]))
  {
    NoFrame(n.a, Send(n.a, ea, buf));
    hide Fresh;
    assert n.ab + [] == n.ab;
  }

  /** A frame on its way to b is lost. */
  lemma LostToB(n: Net, ea: Env, eb: Env, v: View, f: seq<byte>, rest: seq<seq<byte>>)
    requires Is(n, ea, v) && v.ab == [f] + rest
    ensures Is(StepNet(n, ea, eb, AtB(Lose(0))), ea, v.(ab := rest))
  {
    NoFrame(n.b, n.b);
    hide Fresh;
    assert n.ba + [] == n.ba && n.ab[1..] == rest && n.ab[..0] + rest == rest;
  }

  lemma {:induction false} ManyLostToB(n: Net, ea: Env, eb: Env, v: View, f: seq<byte>, k: nat)
    returns (steps: seq<Step>)
    requires SaneNet(n) && Is(n, ea, v) && v.ab == Many(f, k)
    ensures NoRequests(steps) && Is(RunNet(n, ea, eb, steps), ea, v.(ab := []))
    decreases k
  {
    hide *;
    ManyHead(f, k);
    if k == 0 {
      steps := [];
      NoSteps(n, ea, eb);
    } else {
      var later, lose := Many(f, k - 1), AtB(Lose(0));
      LostToB(n, ea, eb, v, f, later);
      var n1 := StepNet(n, ea, eb, lose);
      var more := ManyLostToB(n1, ea, eb, v.(ab := later), f, k - 1);
      steps := [lose] + more;
      LoseToBIsNoRequest();
      Onwards(n, ea, eb, lose, more);
    }
  }

  lemma LoseToBIsNoRequest()
    ensures AtB(Lose(0)).event != Submit([])
  {
  }

  /** k acknowledgements of packet 0 send packet 1, the first of the queue, again k times. */
  lemma {:induction false} FirstAgain(n: Net, ea: Env, eb: Env, v: View, x: Element, tail: seq<Element>, k: nat)
    returns (steps: seq<Step>, x': Element)
    requires SaneNet(n) && Is(n, ea, v) && Onward(ea.clock) && v.q == [x] + tail && v.ba == Many(AckFrame(0), k)
    requires x.seqNr == 1 && x.txcount >= k && forall el :: el in tail ==> el.seqNr > 1
    ensures NoRequests(steps) && x' == x.(txcount := x.txcount - k, stamp := x'.stamp)
    ensures Is(RunNet(n, ea, eb, steps), ea, v.(q := [x'] + tail, ba := [], ab := v.ab + Many(x.data, k)))
    decreases k
  {
    hide *;
    if k == 0 {
      steps, x' := [], x;
      NoneOf(AckFrame(0));
      NoneOf(x.data);
      NoSteps(n, ea, eb);
      assert v.ab + [] == v.ab;
    } else {
      var deliver := AtA(Deliver);
      var n1 := StepNet(n, ea, eb, deliver);
      var x1 := FirstOnceMore(n, ea, eb, v, x, tail, k);
      var v1 := v.(q := [x1] + tail, ba := Many(AckFrame(0), k - 1), ab := v.ab + [x.data]);
      var more;
      more, x' := FirstAgain(n1, ea, eb, v1, x1, tail, k - 1);
      steps := [deliver] + more;
      DeliverIsNoRequest();
      Onwards(n, ea, eb, deliver, more);
      OneMore(v.ab, x.data, k);
    }
  }

  /** The first of the acknowledgements. */
  lemma FirstOnceMore(n: Net, ea: Env, eb: Env, v: View, x: Element, tail: seq<Element>, k: nat) returns (x1: Element)
    requires SaneNet(n) && Is(n, ea, v) && Onward(ea.clock) && v.q == [x] + tail && v.ba == Many(AckFrame(0), k)
    requires x.seqNr == 1 && x.txcount >= k > 0 && forall el :: el in tail ==> el.seqNr > 1
    ensures x1 == x.(txcount := x.txcount - 1, stamp := x1.stamp)
    ensures Is(StepNet(n, ea, eb, AtA(Deliver)), ea,
               v.(q := [x1] + tail, ba := Many(AckFrame(0), k - 1), ab := v.ab + [x.data]))
  {
    hide *;
    var now := ea.clock(n.a.readings);
    x1 := Again(x, now);
    AgainMeans(x, now);
    ZeroIsNumber();
    ManyHead(AckFrame(0), k);
    assert [] + [x] + tail == [x] + tail && [] + [x1] + tail == [x1] + tail;
    Unmatched(n, ea, eb, v, [], x, tail, 0, Many(AckFrame(0), k - 1));
  }

  lemma NoneOf<T>(x: T)
    ensures Many(x, 0) == []
  {
  }

  lemma OneMore<T>(s: seq<T>, x: T, k: nat)
    requires k > 0
    ensures s + [x] + Many(x, k - 1) == s + Many(x, k)
  {
    hide *;
    ManyHead(x, k);
    var t := Many(x, k - 1);
    assert s + [x] + t == s + ([x] + t);
  }

  lemma ZeroIsNumber()
    ensures 0 <= MAX_SEQ
  {
  }

  lemma {:induction false} RowContents(ys: seq<Element>, i: nat)
    requires Row(ys, i)
    ensures Contents(FramesOf(ys)) == Frames(i, |ys|)
    decreases |ys|
  {
    hide F;
    if ys != [] {
      RowLess(ys, i);
      RowContents(ys[1..], i + 1);
      assert FramesOf(ys)[1..] == FramesOf(ys[1..]);
    }
  }

  lemma {:induction false} FramesAre(i: nat, j: nat)
    requires 1 < i && i + j <= 2048
    ensures |Frames(i, j)| == j && forall f :: f in Frames(i, j) ==> Old(f, 0)
    decreases j
  {
    if j > 0 {
      OldIf(F(i), i, 0);
      FramesAre(i + 1, j - 1);
      hide F;
      hide Old;
    }
  }

  /** The first frame is lost and the other seven arrive: b answers each with 0. */
  lemma FirstLost(n: Net, ea: Env, eb: Env, v: View) returns (steps: seq<Step>)
    requires SaneNet(n) && Is(n, ea, v) && v.rx == 0 && v.ab == Frames(1, 8) && v.ba == []
    ensures NoRequests(steps) && Is(RunNet(n, ea, eb, steps), ea, v.(ab := [], ba := Many(AckFrame(0), 7)))
  {
    hide *;
    ZeroIsNumber();
    RowHeads(1, 8);
    FramesAre(2, 7);
    var rest, lose := Frames(2, 7), AtB(Lose(0));
    LostToB(n, ea, eb, v, F(1), rest);
    var n1, v1 := StepNet(n, ea, eb, lose), v.(ab := rest);
    var more := RowAnswered(n1, ea, eb, v1);
    NothingBefore(Many(AckFrame(0), 7));
    LoseToBIsNoRequest();
    Onwards(n, ea, eb, lose, more);
    steps := [lose] + more;
  }

  /** The queue is that of packets 1 to 8, which are all sent again, k times each. */
  predicate Eight(q: seq<Element>, x: Element, tail: seq<Element>) {
    q == [x] + tail && |tail| == 7 && Row(q, 1) && forall el :: el in q ==> el.txcount > 0
  }

  lemma EightMeans(q: seq<Element>, x: Element, tail: seq<Element>)
    requires Eight(q, x, tail)
    ensures |q| == 8 && q == [x] + tail && x.seqNr == 1 && x.data == F(1) && Row(tail, 2)
    ensures forall el :: el in tail ==> el.seqNr > 1
    ensures Contents(FramesOf(q)) == Frames(1, 8)
  {
    hide *;
    EightIsRow(q, x, tail);
    EightParts(x, tail);
    RowContents(q, 1);
    RowIsAbove(tail);
  }

  lemma EightParts(x: Element, tail: seq<Element>)
    requires |tail| == 7 && Row([x] + tail, 1)
    ensures |[x] + tail| == 8 && x.seqNr == 1 && x.data == F(1) && Row(tail, 2)
  {
    hide F;
    HeadAndTail(x, tail);
    RowLess([x] + tail, 1);
    hide Row;
  }

  lemma HeadAndTail<T>(x: T, tail: seq<T>)
    ensures |[x] + tail| == 1 + |tail| && ([x] + tail)[0] == x && ([x] + tail)[1..] == tail
  {
  }

  lemma EightIsRow(q: seq<Element>, x: Element, tail: seq<Element>)
    requires Eight(q, x, tail)
    ensures q == [x] + tail && |tail| == 7 && Row(q, 1)
  {
    hide Row;
  }

  lemma RowIsAbove(tail: seq<Element>)
    requires |tail| == 7 && Row(tail, 2)
    ensures forall el :: el in tail ==> el.seqNr > 1
  {
    hide F;
    forall el | el in tail ensures el.seqNr > 1 {
      var j :| 0 <= j < |tail| && tail[j] == el;
    }
  }

  lemma EightAgain(q: seq<Element>, x: Element, tail: seq<Element>, x': Element)
    requires Eight(q, x, tail) && x' == x.(txcount := x'.txcount, stamp := x'.stamp) && x'.txcount > 0
    ensures Eight([x'] + tail, x', tail)
  {
    HeadAndTail(x, tail);
    RowLess(q, 1);
    assert x in q;
    assert forall el :: el in tail ==> el in q;
    hide F;
    hide Row;
    RowMore(x', tail, 1);
  }

  /**
   * Packets 1 to 8 go out and the ninth waits; 1 is lost, the others are refused, and so 1 goes out seven times more.
   */
  lemma TurnBegins(n: Net, ea: Env, eb: Env, v: View, ninth: seq<byte>)
    returns (steps: seq<Step>, x: Element, tail: seq<Element>)
    requires v.q == [] && v.wait == [] && v.tx == 1 && v.rx == 0 && v.ab == [] && v.ba == [] && v.ahead == 0
    requires SaneNet(n) && Is(n, ea, v) && Onward(ea.clock) && 0 < |ninth| <= 300
    ensures NoRequests(steps) && Eight([x] + tail, x, tail) && x.txcount == 1
    ensures Is(RunNet(n, ea, eb, steps), ea, v.(q := [x] + tail, wait := [ninth], tx := 9, ahead := -8))
  {
    hide *;
    InNumbers(1);
    var out, ys := RowSubmitted(n, ea, eb, v, 1, 8);
    NineNumbers();
    NothingBefore(ys);
    NothingBefore(Frames(1, 8));
    NothingBefore([ninth]);
    var n1, v1 := RunNet(n, ea, eb, out), v.(q := ys, tx := 9, ab := Frames(1, 8), ahead := -8);
    Waits(n1, ea, eb, v1, ninth);
    var wait := AtA(Submit(ninth));
    var n2, v2 := StepNet(n1, ea, eb, wait), v1.(wait := [ninth]);
    var lost := FirstLost(n2, ea, eb, v2);
    var n3, v3 := RunNet(n2, ea, eb, lost), v2.(ab := [], ba := Many(AckFrame(0), 7));
    IsEight(ys);
    EightMeans(ys, ys[0], ys[1..]);
    var again;
    again, x := FirstAgain(n3, ea, eb, v3, ys[0], ys[1..], 7);
    tail := ys[1..];
    EightAgain(ys, ys[0], tail, x);
    NothingBefore(Many(F(1), 7));
    var n4, v4 := RunNet(n3, ea, eb, again), v3.(q := [x] + tail, ba := [], ab := Many(F(1), 7));
    var gone := ManyLostToB(n4, ea, eb, v4, F(1), 7);
    assert v4.(ab := []) == v.(q := [x] + tail, wait := [ninth], tx := 9, ahead := -8);
    SubmitNonempty(ninth);
    Further(n3, ea, eb, again, gone);
    Further(n2, ea, eb, lost, again + gone);
    Onwards(n1, ea, eb, wait, lost + (again + gone));
    Further(n, ea, eb, out, [wait] + (lost + (again + gone)));
    steps := out + ([wait] + (lost + (again + gone)));
  }

  lemma NineNumbers()
    ensures 1 % 2048 == 1 && (1 + 8) % 2048 == 9
  {
  }

  lemma SubmitNonempty(buf: seq<byte>)
    requires |buf| > 0
    ensures AtA(Submit(buf)).event != Submit([])
  {
  }

  lemma IsEight(ys: seq<Element>)
    requires |ys| == 8 && Row(ys, 1) && forall y :: y in ys ==> y.txcount == 8
    ensures Eight(ys, ys[0], ys[1..]) && ys[0].txcount == 8
  {
    assert ys[0] in ys && ys == [ys[0]] + ys[1..];
    hide Row;
  }

  /** The timer sends all eight again; 1 is lost, the others are refused. */
  lemma EightFire(n: Net, ea: Env, eb: Env, v: View, x: Element, tail: seq<Element>)
    returns (steps: seq<Step>, now: int)
    requires SaneNet(n) && Is(n, ea, v) && Onward(ea.clock)
    requires Eight(v.q, x, tail) && v.rx == 0 && v.ab == [] && v.ba == []
    ensures NoRequests(steps)
    ensures Is(RunNet(n, ea, eb, steps), ea, v.(q := [Again(x, now)] + AgainAll(tail, now), ba := Many(AckFrame(0), 7)))
  {
    hide *;
    EightCan(v.q, x, tail);
    EightMeans(v.q, x, tail);
    now := ea.clock(n.a.readings);
    TimerFires(n, ea, eb, v);
    EightExpire(v.q, x, tail, now);
    var fire, q := AtA(Timer(now + 1)), [Again(x, now)] + AgainAll(tail, now);
    NothingBefore(Frames(1, 8));
    var n1, v1 := StepNet(n, ea, eb, fire), v.(q := q, ab := Frames(1, 8));
    var lost := FirstLost(n1, ea, eb, v1);
    OnwardsTimer(n, ea, eb, now, lost);
    steps := [fire] + lost;
  }

  /** The next acknowledgement of 0 finds the first packet without retries: it is given up. */
  lemma FirstDropped(n: Net, ea: Env, eb: Env, v: View, x: Element, tail: seq<Element>)
    requires Is(n, ea, v) && Onward(ea.clock) && v.q == [x] + tail && v.ba == Many(AckFrame(0), 7)
    requires x.seqNr == 1 && x.txcount == 0 && forall el :: el in tail ==> el.seqNr > 1
    ensures Is(StepNet(n, ea, eb, AtA(Deliver)), ea,
               v.(q := tail, ba := Many(AckFrame(0), 6), gaveUp := v.gaveUp + 1))
  {
    hide *;
    ZeroIsNumber();
    ManyHead(AckFrame(0), 7);
    assert [] + [x] + tail == [x] + tail && [] + tail == tail;
    Unmatched(n, ea, eb, v, [], x, tail, 0, Many(AckFrame(0), 6));
  }

  /** The timer sends all eight again; 1 is lost, the others are refused, and now 1 is given up. */
  lemma TurnLost(n: Net, ea: Env, eb: Env, v: View, x: Element, tail: seq<Element>) returns (steps: seq<Step>, w: View)
    requires SaneNet(n) && Is(n, ea, v) && Onward(ea.clock)
    requires Eight(v.q, x, tail) && x.txcount == 1 && v.rx == 0 && v.ab == [] && v.ba == []
    ensures NoRequests(steps) && Is(RunNet(n, ea, eb, steps), ea, w)
    ensures |w.q| == 7 && w.wait == v.wait && w.gaveUp == v.gaveUp + 1
  {
    hide *;
    var fire, now := EightFire(n, ea, eb, v, x, tail);
    EightExpire(v.q, x, tail, now);
    AgainMeans(x, now);
    var x1, tail1, deliver := Again(x, now), AgainAll(tail, now), AtA(Deliver);
    var n1, v1 := RunNet(n, ea, eb, fire), v.(q := [x1] + tail1, ba := Many(AckFrame(0), 7));
    FirstDropped(n1, ea, eb, v1, x1, tail1);
    w := v1.(q := tail1, ba := Many(AckFrame(0), 6), gaveUp := v.gaveUp + 1);
    OneDelivery(n1, ea, eb);
    Further(n, ea, eb, fire, [deliver]);
    steps := fire + [deliver];
  }

  lemma OneDelivery(n: Net, ea: Env, eb: Env)
    requires SaneNet(n)
    ensures var deliver := AtA(Deliver);
            NoRequests([deliver]) && RunNet(n, ea, eb, [deliver]) == StepNet(n, ea, eb, deliver)
  {
    OneStep(n, ea, eb, AtA(Deliver));
    hide RunNet;
    hide StepNet;
  }

  lemma OnwardsTimer(n: Net, ea: Env, eb: Env, now: int, more: seq<Step>)
    requires SaneNet(n) && NoRequests(more)
    ensures var fire := AtA(Timer(now + 1));
            && NoRequests([fire] + more)
            && RunNet(n, ea, eb, [fire] + more) == RunNet(StepNet(n, ea, eb, fire), ea, eb, more)
  {
    hide *;
    Onwards(n, ea, eb, AtA(Timer(now + 1)), more);
  }

  lemma EightCan(q: seq<Element>, x: Element, tail: seq<Element>)
    requires Eight(q, x, tail)
    ensures forall el :: el in q ==> el.txcount > 0
  {
  }

  lemma EightExpire(q: seq<Element>, x: Element, tail: seq<Element>, now: int)
    requires Eight(q, x, tail)
    ensures AgainAll(q, now) == [Again(x, now)] + AgainAll(tail, now) && |AgainAll(tail, now)| == 7
    ensures Again(x, now).seqNr == 1 && forall el :: el in AgainAll(tail, now) ==> el.seqNr > 1
  {
    EightMeans(q, x, tail);
    AgainFirst(x, tail, now);
    hide AgainAll;
    hide F;
    forall el | el in AgainAll(tail, now) ensures el.seqNr > 1 {
      var j :| 0 <= j < |tail| && AgainAll(tail, now)[j] == el;
      assert tail[j] in tail;
    }
  }

  /**
   * From every beginning of a session there is a run at whose end the window is open, a packet is given up, and the
   * ninth packet still waits; so whatever is submitted tenth is numbered before it.
   */
  lemma WaitingIsOvertaken(ea: Env, eb: Env, n: Net, ninth: seq<byte>, tenth: seq<byte>) returns (steps: seq<Step>)
    requires Ready(n) && SaneNet(n) && Onward(ea.clock) && 0 < |ninth| <= 300 && 0 < |tenth| <= 300
    ensures forall i :: 0 <= i < |steps| ==> steps[i].event != Submit([])
    ensures var a := RunNet(n, ea, eb, steps).a;
            && a.gaveUp == n.a.gaveUp + 1 && |a.ackWaitQueue| == 7 && a.waitQueue == [ninth]
            && Send(a, ea, tenth).waitQueue == [ninth]
            && Send(a, ea, tenth).numbered == a.numbered + [Numbered(tenth, ea.clock(a.readings))]
  {
    hide *;
    StartView(ea, n);
    StartIs(n);
    var v := StartOf(n);
    var begin, x, tail := TurnBegins(n, ea, eb, v, ninth);
    var n1, v1 := RunNet(n, ea, eb, begin), v.(q := [x] + tail, wait := [ninth], tx := 9, ahead := -8);
    var lose, w := TurnLost(n1, ea, eb, v1, x, tail);
    Further(n, ea, eb, begin, lose);
    steps := begin + lose;
    NoRequestAt(steps);
    Overtakes(RunNet(n, ea, eb, steps), ea, w, tenth);
  }

  lemma Overtakes(n: Net, ea: Env, w: View, buf: seq<byte>)
    requires Is(n, ea, w) && |w.q| == 7 && 0 < |buf| <= 300
    ensures n.a.ackWaitQueue == w.q && n.a.waitQueue == w.wait && n.a.gaveUp == w.gaveUp
    ensures Send(n.a, ea, buf).waitQueue == w.wait
    ensures Send(n.a, ea, buf).numbered == n.a.numbered + [Numbered(buf, ea.clock(n.a.readings))]
  {
    hide DataFrame;
  }
}
