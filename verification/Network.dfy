/** Two links joined by two lossy FIFO lines, and the safety of every run. */
module Network {
  import opened Bytes
  import opened Packets
  import opened LinkSpec
  import opened Window
  import opened Stamps
  import opened Arq

  /** Two endpoints; ab are the frames on their way from a to b, oldest first, and ba those back. */
  datatype Net = Net(a: State, b: State, ab: seq<seq<byte>>, ba: seq<seq<byte>>)

  /** What can happen at an endpoint or on the line towards it. */
  datatype Event =
    | Submit(buf: seq<byte>)          // NCP sends a packet
    | Timer(expired: int)             // the timer thread looks for transmissions before `expired`
    | LineStatus(down: bool)          // the data link starts or stops reporting failure
    | Deliver                         // the oldest frame arrives
    | Lose(i: nat)                    // frame i of those on their way here is lost

  datatype Step = AtA(event: Event) | AtB(event: Event)

  function Swap(n: Net): Net {
    Net(n.b, n.a, n.ba, n.ab)
  }

  predicate SaneNet(n: Net) {
    Sane(n.a) && Sane(n.b)
  }

  /** The frames an operation handed to the data link. */
  function Fresh(s: State, s': State): seq<seq<byte>> {
    if |s.line| <= |s'.line| then News(s, s') else []
  }

  function Moved(n: Net, a': State, ba': seq<seq<byte>>): Net {
    Net(a', n.b, n.ab + Fresh(n.a, a'), ba')
  }

  function StepA(n: Net, ea: Env, ev: Event): (n': Net)
    requires SaneNet(n)
    ensures SaneNet(n')
  {
    match ev
    case Submit(buf) => Moved(n, Send(n.a, ea, buf), n.ba)
    case Timer(expired) => RetransmitSane(n.a, ea, expired); Moved(n, Retransmit(n.a, ea, expired), n.ba)
    case LineStatus(down) => Moved(n, n.a.(lineDown := down), n.ba)
    case Deliver => if n.ba == [] then n else Moved(n, Receive(n.a, ea, n.ba[0]), n.ba[1..])
    case Lose(i) => if i < |n.ba| then Moved(n, n.a, Erase(n.ba, i)) else n
  }

  function StepNet(n: Net, ea: Env, eb: Env, step: Step): (n': Net)
    requires SaneNet(n)
    ensures SaneNet(n')
  {
    match step
    case AtA(ev) => StepA(n, ea, ev)
    case AtB(ev) => Swap(StepA(Swap(n), eb, ev))
  }

  function RunNet(n: Net, ea: Env, eb: Env, steps: seq<Step>): (n': Net)
    requires SaneNet(n)
    ensures SaneNet(n')
    decreases |steps|
  {
    if steps == [] then n else RunNet(StepNet(n, ea, eb, steps[0]), ea, eb, steps[1..])
  }

  lemma {:induction false} EmitAllSame(s: State, frames: seq<Frame>)
    ensures Sane(s) ==> Sane(EmitAll(s, frames))
    ensures EmitAll(s, frames).gaveUp == s.gaveUp
    decreases |frames|
  {
    if frames != [] {
      EmitAllSame(Emit(s, frames[0]), frames[1..]);
    }
  }

  lemma RetransmitSane(s: State, e: Env, expired: int)
    ensures Sane(s) ==> Sane(Retransmit(s, e, expired))
    ensures Retransmit(s, e, expired).gaveUp == s.gaveUp
  {
    hide Retried;
    hide Resent;
    hide EmitAll;
    var s1 := HasFailed(s);
    var q := s1.ackWaitQueue;
    EmitAllSame(s1.(readings := s1.readings + 1, failed := TimedOut(q, expired),
                    ackWaitQueue := Retried(q, expired, e.clock(s1.readings))), Resent(q, expired));
  }

  // ---------------------------------------------------------------- giving up only counts up

  lemma ReceiveGaveUp(s: State, e: Env, f: seq<byte>)
    requires Sane(s)
    ensures s.gaveUp <= Receive(s, e, f).gaveUp
  {
    hide ReceiveData;
    hide ReceiveAck;
    hide FindReqReq;
    match Decode(f, e.stale) {
      case Data(number, payload) => DataGaveUp(s, e, number, payload);
      case Ack(number) => AckGaveUp(s, e, number);
      case NewLink(_) =>
      case Disconnect =>
      case Unknown =>
    }
  }

  lemma DataGaveUp(s: State, e: Env, number: nat, payload: seq<byte>)
    requires Sane(s)
    ensures ReceiveData(s, e, number, payload).gaveUp == s.gaveUp
  {
    hide TransmitAll;
    hide ForChannel;
    var next := Masked(s.rxSequence + 1, s.seqMask);
    if next == number {
      var s1 := SendAck(s.(rxSequence := next, accepted := s.accepted + [payload]));
      if |payload| == 3 {
        var c := payload[1];
        var s2 := s1.(xoff := s1.xoff - {c});
        TransmitAllGaveUp(s2.(holdQueue := ForChannel(s2.holdQueue, c, e.stale, false)), e,
                          ForChannel(s2.holdQueue, c, e.stale, true));
      }
    }
  }

  lemma StepGaveUp(n: Net, ea: Env, ev: Event)
    requires SaneNet(n)
    ensures n.a.gaveUp <= StepA(n, ea, ev).a.gaveUp && StepA(n, ea, ev).b == n.b
  {
    hide Receive;
    hide Retransmit;
    match ev {
      case Submit(_) =>
      case Timer(expired) => RetransmitSane(n.a, ea, expired);
      case LineStatus(_) =>
      case Deliver => if n.ba != [] { ReceiveGaveUp(n.a, ea, n.ba[0]); }
      case Lose(_) =>
    }
  }

  lemma {:induction false} RunGaveUp(n: Net, ea: Env, eb: Env, steps: seq<Step>)
    requires SaneNet(n)
    ensures n.a.gaveUp <= RunNet(n, ea, eb, steps).a.gaveUp
    ensures n.b.gaveUp <= RunNet(n, ea, eb, steps).b.gaveUp
    decreases |steps|
  {
    hide StepA;
    if steps != [] {
      var n' := StepNet(n, ea, eb, steps[0]);
      match steps[0] {
        case AtA(ev) => StepGaveUp(n, ea, ev);
        case AtB(ev) => StepGaveUp(Swap(n), eb, ev);
      }
      RunGaveUp(n', ea, eb, steps[1..]);
    }
  }

  // ---------------------------------------------------------------- the invariant of the network

  /** The packets that a and b have given up, by their full numbers. */
  datatype Gave = Gave(a: set<int>, b: set<int>)

  const NONE: Gave := Gave({}, {})

  function SwapGave(g: Gave): Gave {
    Gave(g.b, g.a)
  }

  /** What surrounds endpoint a. */
  function AroundA(n: Net, g: Gave): Around {
    Around(SenderOf(n.b), n.b.accepted, Datas(n.ab), Acks(n.ba), Datas(n.ba), Acks(n.ab), g.a, g.b)
  }

  ghost predicate InvWith(p: Params, ea: Env, eb: Env, n: Net, g: Gave) {
    && Good(p, ea, n.a, AroundA(n, g))
    && Good(p, eb, n.b, AroundA(Swap(n), SwapGave(g)))
    && LineOk(p.m, n.ab) && LineOk(p.m, n.ba)
  }

  /** The invariant as long as nothing is given up. */
  ghost predicate Inv(p: Params, ea: Env, eb: Env, n: Net) {
    InvWith(p, ea, eb, n, NONE)
  }

  /** An operation of a has been accounted for with the frames still coming to it being ba'. */
  lemma MovedInv(p: Params, ea: Env, eb: Env, n: Net, g: Gave, a': State, ba': seq<seq<byte>>, gave: set<int>)
    requires InvWith(p, ea, eb, n, g) && LineOk(p.m, ba')
    requires Keeps(p, ea, n.a, a', AroundA(n, g).(dataIn := Datas(ba'), ackIn := Acks(ba'), mine := gave))
    ensures InvWith(p, ea, eb, Moved(n, a', ba'), Gave(gave, g.b))
  {
    hide Core;
    hide GivenUp;
    hide Running;
    hide Clocked;
    hide Datas;
    hide Acks;
    hide Wire;
    var n', news, g' := Moved(n, a', ba'), News(n.a, a'), Gave(gave, g.b);
    FlowSplit(n.ab, news);
    var w := AroundA(n, g).(dataIn := Datas(ba'), ackIn := Acks(ba'), mine := gave);
    assert AroundA(n', g') == Out(w, news);
    assert Good(p, ea, a', AroundA(n', g'));
  }

  /** How many more packets may be given up. */
  predicate Spare(p: Params, gave: set<int>, before: nat, after: nat) {
    p == EPOC ==> |gave| + after - before <= GIVEUPS
  }

  lemma DeliverInv(p: Params, ea: Env, eb: Env, n: Net, g: Gave) returns (gave: set<int>)
    requires InvWith(p, ea, eb, n, g) && SaneNet(n) && n.ba != []
    requires Spare(p, g.a, n.a.gaveUp, Receive(n.a, ea, n.ba[0]).gaveUp)
    ensures InvWith(p, ea, eb, Moved(n, Receive(n.a, ea, n.ba[0]), n.ba[1..]), Gave(gave, g.b))
    ensures |gave| <= |g.a| + Receive(n.a, ea, n.ba[0]).gaveUp - n.a.gaveUp
  {
    hide Good;
    hide ReceiveData;
    hide ReceiveAck;
    var f, ba' := n.ba[0], n.ba[1..];
    ReceiveGaveUp(n.a, ea, f);
    assert Wire(p.m, f);
    assert LineOk(p.m, ba') by { assert forall i :: 0 <= i < |ba'| ==> ba'[i] == n.ba[i + 1]; }
    WireDecodes(p.m, f, ea.stale);
    hide Wire;
    var w := AroundA(n, g);
    assert w.dataIn == DataOf(f) + Datas(ba') && w.ackIn == AckOf(f) + Acks(ba');
    gave := g.a;
    match Decode(f, 0) {
      case Data(number, payload) =>
        assert w.dataIn[1..] == Datas(ba') && w.ackIn == Acks(ba');
        WireData(p.m, f);
        ReceiveDataKeeps(p, ea, n.a, w, number, payload);
      case Ack(number) =>
        assert w.dataIn == Datas(ba') && w.ackIn[1..] == Acks(ba');
        gave := ReceiveAckKeeps(p, ea, n.a, w, number);
      case _ =>
        WireData(p.m, f);
        assert false;
    }
    MovedInv(p, ea, eb, n, g, Receive(n.a, ea, f), ba', gave);
  }

  lemma WireData(m: nat, f: seq<byte>)
    requires Wire(m, f)
    ensures Decode(f, 0).Data? || Decode(f, 0).Ack?
    ensures Decode(f, 0).Data? ==> Decode(f, 0).number < m
  {
  }

  /** Losing frame i loses at most one data packet and at most one acknowledgement. */
  lemma LoseFlow(line: seq<seq<byte>>, i: nat) returns (d: nat, k: nat)
    requires i < |line|
    ensures Datas(Erase(line, i)) == Datas(line)
            || (d < |Datas(line)| && Datas(Erase(line, i)) == Erase(Datas(line), d))
    ensures Acks(Erase(line, i)) == Acks(line) || (k < |Acks(line)| && Acks(Erase(line, i)) == Erase(Acks(line), k))
  {
    var l, f, r := line[..i], line[i], line[i + 1..];
    assert line == l + [f] + r && Erase(line, i) == l + r;
    FlowSplit(l + [f], r);
    FlowSplit(l, [f]);
    FlowSplit(l, r);
    FlowOne(f);
    d, k := |Datas(l)|, |Acks(l)|;
    hide Datas;
    hide Acks;
    assert |DataOf(f)| <= 1 && |AckOf(f)| <= 1;
    hide DataOf;
    hide AckOf;
    EraseMiddle(Datas(l), DataOf(f), Datas(r));
    EraseMiddle(Acks(l), AckOf(f), Acks(r));
  }

  lemma EraseMiddle<T>(l: seq<T>, m: seq<T>, r: seq<T>)
    requires |m| <= 1
    ensures l + r == l + m + r || (|l| < |l + m + r| && l + r == Erase(l + m + r, |l|))
  {
    if m == [] {
      assert l + r == l + m + r;
    } else {
      assert Erase(l + m + r, |l|) == l + r;
    }
  }

  lemma LoseInv(p: Params, ea: Env, eb: Env, n: Net, g: Gave, i: nat)
    requires InvWith(p, ea, eb, n, g) && i < |n.ba|
    ensures InvWith(p, ea, eb, Moved(n, n.a, Erase(n.ba, i)), g)
  {
    hide Wire;
    hide Good;
    hide Datas;
    hide Acks;
    var ba' := Erase(n.ba, i);
    assert LineOk(p.m, ba') by {
      assert forall j :: 0 <= j < |ba'| ==> ba'[j] == n.ba[if j < i then j else j + 1];
    }
    var d, k := LoseFlow(n.ba, i);
    var w := AroundA(n, g);
    var w' := w.(dataIn := Datas(ba'), ackIn := Acks(ba'));
    LostGood(p, ea, n.a, w, w', d, k);
    KeepsSame(p, ea, n.a, w');
    MovedInv(p, ea, eb, n, g, n.a, ba', g.a);
  }

  /** At most one data packet, and at most one acknowledgement, are gone. */
  lemma LostGood(p: Params, e: Env, s: State, w: Around, w': Around, i: nat, j: nat)
    requires Good(p, e, s, w)
    requires w' == w.(dataIn := w'.dataIn, ackIn := w'.ackIn)
    requires w'.dataIn == w.dataIn || (i < |w.dataIn| && w'.dataIn == Erase(w.dataIn, i))
    requires w'.ackIn == w.ackIn || (j < |w.ackIn| && w'.ackIn == Erase(w.ackIn, j))
    ensures Good(p, e, s, w')
  {
    hide Core;
    hide GivenUp;
    hide Clocked;
    if w'.dataIn != w.dataIn {
      CoreLoseData(p, w.peer, s.accepted, w.dataIn, w.ackOut, i);
    }
    if w'.ackIn != w.ackIn {
      CoreLoseAck(p, SenderOf(s), w.taken, w.dataOut, w.ackIn, j);
      GivenUpErase(p.m, SenderOf(s).Next(), w.mine, |w.taken| + 1, w.ackIn, j);
    }
  }

  lemma SendKeeps(p: Params, e: Env, s: State, w: Around, buf: seq<byte>)
    requires Good(p, e, s, w) && Sane(s) && buf != []
    ensures Keeps(p, e, s, Send(s, e, buf), w)
  {
    hide Core;
    hide GivenUp;
    hide Clocked;
    hide Transmit;
    if |buf| > 300 {
      QuietKeeps(p, e, s, s.(failed := true), w);
    } else {
      TransmitKeeps(p, e, s, w, buf);
    }
  }

  lemma StatusKeeps(p: Params, e: Env, s: State, w: Around, down: bool)
    requires Good(p, e, s, w)
    ensures Keeps(p, e, s, s.(lineDown := down), w)
  {
    hide Core;
    hide GivenUp;
    hide Clocked;
    QuietKeeps(p, e, s, s.(lineDown := down), w);
  }

  /** A step of one endpoint, when it has not given up too many packets (EPOC) and NCP sends no empty packet. */
  lemma StepInvWith(p: Params, ea: Env, eb: Env, n: Net, g: Gave, ev: Event) returns (gave: set<int>)
    requires InvWith(p, ea, eb, n, g) && SaneNet(n) && ev != Submit([])
    requires Spare(p, g.a, n.a.gaveUp, StepA(n, ea, ev).a.gaveUp)
    ensures InvWith(p, ea, eb, StepA(n, ea, ev), Gave(gave, g.b))
    ensures |gave| <= |g.a| + StepA(n, ea, ev).a.gaveUp - n.a.gaveUp
  {
    hide Good;
    hide Send;
    hide Receive;
    hide Retransmit;
    hide LineOk;
    hide Datas;
    hide Acks;
    gave := g.a;
    var w := AroundA(n, g);
    assert w.(dataIn := Datas(n.ba), ackIn := Acks(n.ba), mine := gave) == w;
    StepGaveUp(n, ea, ev);
    match ev {
      case Submit(buf) =>
        SendKeeps(p, ea, n.a, w, buf);
        MovedInv(p, ea, eb, n, g, Send(n.a, ea, buf), n.ba, gave);
      case Timer(expired) =>
        RetransmitKeeps(p, ea, n.a, w, expired);
        MovedInv(p, ea, eb, n, g, Retransmit(n.a, ea, expired), n.ba, gave);
      case LineStatus(down) =>
        StatusKeeps(p, ea, n.a, w, down);
        MovedInv(p, ea, eb, n, g, n.a.(lineDown := down), n.ba, gave);
      case Deliver =>
        if n.ba != [] {
          gave := DeliverInv(p, ea, eb, n, g);
        }
      case Lose(i) =>
        if i < |n.ba| {
          LoseInv(p, ea, eb, n, g, i);
        }
    }
  }

  lemma SwapInvWith(p: Params, ea: Env, eb: Env, n: Net, g: Gave)
    requires InvWith(p, ea, eb, n, g)
    ensures InvWith(p, eb, ea, Swap(n), SwapGave(g))
  {
    hide Good;
    assert Swap(Swap(n)) == n && SwapGave(SwapGave(g)) == g;
  }

  /** Nothing is given up in the step. */
  lemma StepInv(p: Params, ea: Env, eb: Env, n: Net, ev: Event)
    requires Inv(p, ea, eb, n) && SaneNet(n) && ev != Submit([])
    requires StepA(n, ea, ev).a.gaveUp == n.a.gaveUp
    ensures Inv(p, ea, eb, StepA(n, ea, ev))
  {
    hide InvWith;
    hide StepA;
    var gave := StepInvWith(p, ea, eb, n, NONE, ev);
    assert gave == {};
  }

  lemma SwapInv(p: Params, ea: Env, eb: Env, n: Net)
    requires Inv(p, ea, eb, n)
    ensures Inv(p, eb, ea, Swap(n))
  {
    SwapInvWith(p, ea, eb, n, NONE);
    hide InvWith;
  }

  /** A run in which each side has not given up too many packets (EPOC). */
  lemma {:induction false} RunInv(p: Params, ea: Env, eb: Env, n: Net, g: Gave, steps: seq<Step>) returns (g': Gave)
    requires InvWith(p, ea, eb, n, g) && SaneNet(n)
    requires forall i :: 0 <= i < |steps| ==> steps[i].event != Submit([])
    requires var n' := RunNet(n, ea, eb, steps);
             Spare(p, g.a, n.a.gaveUp, n'.a.gaveUp) && Spare(p, g.b, n.b.gaveUp, n'.b.gaveUp)
    ensures InvWith(p, ea, eb, RunNet(n, ea, eb, steps), g')
    decreases |steps|
  {
    hide InvWith;
    hide StepA;
    if steps == [] {
      g' := g;
    } else {
      var n1 := StepNet(n, ea, eb, steps[0]);
      RunGaveUp(n1, ea, eb, steps[1..]);
      var g1 := FirstInv(p, ea, eb, n, g, steps);
      g' := RunInv(p, ea, eb, n1, g1, steps[1..]);
    }
  }

  lemma FirstInv(p: Params, ea: Env, eb: Env, n: Net, g: Gave, steps: seq<Step>) returns (g1: Gave)
    requires InvWith(p, ea, eb, n, g) && SaneNet(n) && steps != [] && steps[0].event != Submit([])
    requires var n' := RunNet(n, ea, eb, steps);
             Spare(p, g.a, n.a.gaveUp, n'.a.gaveUp) && Spare(p, g.b, n.b.gaveUp, n'.b.gaveUp)
    ensures var n1, n' := StepNet(n, ea, eb, steps[0]), RunNet(n, ea, eb, steps);
            && InvWith(p, ea, eb, n1, g1)
            && Spare(p, g1.a, n1.a.gaveUp, n'.a.gaveUp) && Spare(p, g1.b, n1.b.gaveUp, n'.b.gaveUp)
  {
    hide InvWith;
    hide StepA;
    var n1 := StepNet(n, ea, eb, steps[0]);
    RunGaveUp(n1, ea, eb, steps[1..]);
    match steps[0] {
      case AtA(ev) =>
        StepGaveUp(n, ea, ev);
        var gave := StepInvWith(p, ea, eb, n, g, ev);
        g1 := Gave(gave, g.b);
      case AtB(ev) =>
        StepGaveUp(Swap(n), eb, ev);
        SwapInvWith(p, ea, eb, n, g);
        var gave := StepInvWith(p, eb, ea, Swap(n), SwapGave(g), ev);
        SwapInvWith(p, eb, ea, StepA(Swap(n), eb, ev), Gave(gave, g.a));
        g1 := Gave(g.a, gave);
    }
  }

  // ---------------------------------------------------------------- safety

  /** An endpoint at the start of a session: nothing numbered, accepted or awaiting acknowledgement. */
  ghost predicate StartOfSession(p: Params, s: State)
    requires Fits(p)
  {
    && Running(p, s) && !s.failed
    && s.numbered == [] && s.accepted == [] && s.ackWaitQueue == []
  }

  ghost predicate StartNet(p: Params, n: Net)
    requires Fits(p)
  {
    StartOfSession(p, n.a) && StartOfSession(p, n.b) && n.ab == [] && n.ba == []
  }

  lemma StartInv(p: Params, ea: Env, eb: Env, n: Net)
    requires Fits(p) && StartNet(p, n)
    requires p == EPOC ==> Increasing(ea.clock) && Increasing(eb.clock)
    ensures SaneNet(n) && Inv(p, ea, eb, n)
  {
    RunningSane(p, n.a);
    RunningSane(p, n.b);
    assert SenderOf(n.a) == Sender([], [], false, |n.a.queued|) && SenderOf(n.b) == Sender([], [], false, |n.b.queued|);
    CoreStart(p, |n.a.queued|);
    CoreStart(p, |n.b.queued|);
  }

  /** Each side's accepted payloads are the first of those the other side numbered, in order. */
  predicate InSequence(n: Net) {
    IsPrefix(n.b.accepted, n.a.numbered) && IsPrefix(n.a.accepted, n.b.numbered)
  }

  lemma InvInSequence(p: Params, ea: Env, eb: Env, n: Net, g: Gave)
    requires InvWith(p, ea, eb, n, g)
    ensures InSequence(n)
  {
  }

  /**
   * SIBO (numbers modulo 8, window 1): for any clock, any timer, any loss and any failure, no packet is
   * accepted twice, out of order, or with another packet's number.
   */
  lemma SiboSafety(ea: Env, eb: Env, n: Net, steps: seq<Step>)
    requires StartNet(SIBO, n) && SaneNet(n)
    requires forall i :: 0 <= i < |steps| ==> steps[i].event != Submit([])
    ensures InSequence(RunNet(n, ea, eb, steps))
  {
    StartInv(SIBO, ea, eb, n);
    hide InvWith;
    hide StartNet;
    var g := RunInv(SIBO, ea, eb, n, NONE, steps);
    InvInSequence(SIBO, ea, eb, RunNet(n, ea, eb, steps), g);
  }

  /**
   * EPOC (numbers modulo 2048, window 8): the same, when clock readings increase and neither side drops more
   * than 1990 packets whose retries ran out on an unmatched acknowledgement.
   */
  lemma EpocSafety(ea: Env, eb: Env, n: Net, steps: seq<Step>)
    requires StartNet(EPOC, n) && SaneNet(n)
    requires Increasing(ea.clock) && Increasing(eb.clock)
    requires forall i :: 0 <= i < |steps| ==> steps[i].event != Submit([])
    requires var n' := RunNet(n, ea, eb, steps);
             n'.a.gaveUp <= n.a.gaveUp + GIVEUPS && n'.b.gaveUp <= n.b.gaveUp + GIVEUPS
    ensures InSequence(RunNet(n, ea, eb, steps))
  {
    StartInv(EPOC, ea, eb, n);
    hide InvWith;
    hide StartNet;
    var g := RunInv(EPOC, ea, eb, n, NONE, steps);
    InvInSequence(EPOC, ea, eb, RunNet(n, ea, eb, steps), g);
  }
}
