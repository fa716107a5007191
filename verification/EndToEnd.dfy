/**
 * From the messages one NCP sends to those the other one delivers: every run of two links over lossy lines,
 * with the queues of both, and the reassembly of messages at the end.
 */
module EndToEnd {
  import opened Bytes
  import opened Packets
  import opened LinkSpec
  import opened Window
  import opened Stamps
  import opened Arq
  import opened Network
  import opened LinkQueues
  import opened Stack
  import LinkModes
  import Ncp

  // ---------------------------------------------------------------- one endpoint's part of a step

  /** A step of the network as an operation of endpoint a; losing a frame is none of its business. */
  function OpOf(n: Net, ev: Event): LinkModes.Op {
    match ev
    case Submit(buf) => LinkModes.Submit(buf)
    case Timer(expired) => LinkModes.Timer(expired)
    case LineStatus(down) => LinkModes.LineStatus(down)
    case Deliver => if n.ba == [] then LinkModes.LineStatus(n.a.lineDown) else LinkModes.Arrive(n.ba[0])
    case Lose(_) => LinkModes.LineStatus(n.a.lineDown)
  }

  lemma StepIsApply(n: Net, ea: Env, ev: Event)
    requires SaneNet(n)
    ensures StepA(n, ea, ev).a == LinkModes.Apply(n.a, ea, OpOf(n, ev)) && StepA(n, ea, ev).b == n.b
  {
    hide Send;
    hide Receive;
    hide Retransmit;
  }

  lemma StepInSession(p: Params, ea: Env, eb: Env, n: Net, ev: Event)
    requires Inv(p, ea, eb, n)
    ensures InSession(OpOf(n, ev), ea.stale) && n.a.linkType != UnknownLink
  {
    if ev == Deliver && n.ba != [] {
      assert Wire(p.m, n.ba[0]);
      WireDecodes(p.m, n.ba[0], ea.stale);
      WireData(p.m, n.ba[0]);
    }
    hide Core;
    hide Clocked;
    hide Decode;
  }

  // ---------------------------------------------------------------- what reaches NCP

  lemma {:induction false} TransmitAllUpward(s: State, e: Env, bufs: seq<seq<byte>>)
    requires Sane(s)
    ensures var s' := TransmitAll(s, e, bufs); s'.ncp == s.ncp && s'.accepted == s.accepted && s'.xoff == s.xoff
    decreases |bufs|
  {
    if bufs != [] {
      TransmitAllUpward(Transmit(s, e, bufs[0]), e, bufs[1..]);
    }
  }

  /** What NCP has received once a payload has been accepted. */
  function Upward(s: State, payload: seq<byte>): seq<seq<byte>> {
    if FlowControl(payload) then s.ncp else s.ncp + [payload]
  }

  /** The channels that are stopped then. */
  function Stopped(s: State, payload: seq<byte>): set<byte> {
    if !FlowControl(payload) then s.xoff
    else if payload[2] == 1 then s.xoff + {payload[1]} else s.xoff - {payload[1]}
  }

  lemma DataUpward(s: State, e: Env, number: nat, payload: seq<byte>)
    requires Sane(s)
    ensures var s' := ReceiveData(s, e, number, payload);
            if number == Masked(s.rxSequence + 1, s.seqMask)
            then s'.accepted == s.accepted + [payload] && s'.ncp == Upward(s, payload) && s'.xoff == Stopped(s, payload)
            else s'.accepted == s.accepted && s'.ncp == s.ncp && s'.xoff == s.xoff
  {
    hide TransmitAll;
    hide ForChannel;
    hide AckFrame;
    var s2 := SendAck(s.(rxSequence := Masked(s.rxSequence + 1, s.seqMask), accepted := s.accepted + [payload]));
    if |payload| == 3 {
      var s3 := s2.(xoff := s2.xoff - {payload[1]});
      TransmitAllUpward(s3.(holdQueue := ForChannel(s3.holdQueue, payload[1], e.stale, false)), e,
                        ForChannel(s3.holdQueue, payload[1], e.stale, true));
    }
  }

  lemma AckUpward(s: State, e: Env, number: nat)
    requires Sane(s)
    ensures var s' := ReceiveAck(s, e, number); s'.accepted == s.accepted && s'.ncp == s.ncp && s'.xoff == s.xoff
  {
    hide TransmitAll;
    hide NotOlder;
    hide Find;
    var i := Find(s.ackWaitQueue, number);
    if i < |s.ackWaitQueue| {
      var s1 := AckFound(s, i);
      TransmitAllUpward(s1.(waitQueue := []), e, s1.waitQueue);
    }
  }

  lemma TimerUpward(s: State, e: Env, expired: int)
    ensures var s' := Retransmit(s, e, expired); s'.accepted == s.accepted && s'.ncp == s.ncp && s'.xoff == s.xoff
  {
    var s1 := HasFailed(s);
    var q := s1.ackWaitQueue;
    LinkModes.EmitAllLine(s1.(readings := s1.readings + 1, failed := TimedOut(q, expired),
                              ackWaitQueue := Retried(q, expired, e.clock(s1.readings))), Resent(q, expired));
    hide EmitAll;
    hide Retried;
    hide Resent;
    hide TimedOut;
  }

  /**
   * Only a data packet next in sequence goes up: to NCP, whatever channel it is for, unless it stops or lets go a
   * channel, and nothing else does that.
   */
  lemma ApplyUpward(s: State, e: Env, op: LinkModes.Op)
    requires Sane(s) && InSession(op, e.stale)
    ensures var s' := LinkModes.Apply(s, e, op);
            if Takes(s, op, e.stale)
            then var payload := Decode(op.frame, e.stale).payload;
                 s'.accepted == s.accepted + [payload] && s'.ncp == Upward(s, payload) && s'.xoff == Stopped(s, payload)
            else s'.accepted == s.accepted && s'.ncp == s.ncp && s'.xoff == s.xoff
  {
    hide Masked;
    hide Upward;
    hide Stopped;
    match op {
      case Submit(_) =>
      case Timer(expired) =>
        hide Retransmit;
        TimerUpward(s, e, expired);
      case LineStatus(_) =>
      case Arrive(frame) =>
        hide ReceiveData;
        hide ReceiveAck;
        match Decode(frame, e.stale) {
          case Data(number, payload) => DataUpward(s, e, number, payload);
          case Ack(number) => AckUpward(s, e, number);
          case _ =>
        }
    }
  }

  // ---------------------------------------------------------------- the invariant of a run

  /** An endpoint in order: its packets, numbered and waiting, are those submitted; NCP has all it accepted. */
  ghost predicate Local(s: State, sub: seq<seq<byte>>) {
    !s.failed && Tight(s) && Stream(s) == sub && s.ncp == s.accepted && AllOrdinary(sub)
  }

  lemma {:induction false} PayloadsOfAt(ns: seq<Numbered>, i: nat)
    requires i < |ns|
    ensures |PayloadsOf(ns)| == |ns| && PayloadsOf(ns)[i] == ns[i].payload
  {
    PayloadsOfLength(ns);
    PayloadsOfLength(ns[..|ns| - 1]);
    if i < |ns| - 1 {
      PayloadsOfAt(ns[..|ns| - 1], i);
    }
  }

  lemma {:induction false} PayloadsOfLength(ns: seq<Numbered>)
    ensures |PayloadsOf(ns)| == |ns|
  {
    if ns != [] {
      PayloadsOfLength(ns[..|ns| - 1]);
    }
  }

  /** What an endpoint accepts are ordinary packets, because the peer was given no others. */
  lemma AcceptedIsOrdinary(accepted: seq<seq<byte>>, peer: State, sub: seq<seq<byte>>)
    requires IsPrefix(accepted, peer.numbered) && Local(peer, sub) && accepted != []
    ensures Ordinary(accepted[|accepted| - 1])
  {
    var i := |accepted| - 1;
    PayloadsOfAt(peer.numbered, i);
    hide PayloadsOf;
    hide Tight;
    hide Ordinary;
    assert accepted[i] == peer.numbered[i].payload;
    assert Stream(peer)[i] == PayloadsOf(peer.numbered)[i];
  }

  lemma OneMoreOrdinary(sub: seq<seq<byte>>, given: seq<seq<byte>>)
    requires AllOrdinary(sub) && AllOrdinary(given)
    ensures AllOrdinary(sub + given)
  {
    hide Ordinary;
    forall i | 0 <= i < |sub + given| ensures Ordinary((sub + given)[i]) {
      if i >= |sub| {
        assert (sub + given)[i] == given[i - |sub|];
      }
    }
  }

  /** A step of a that neither fails nor gives up keeps it in order. */
  lemma StepLocal(p: Params, ea: Env, eb: Env, n: Net, ev: Event, subA: seq<seq<byte>>, subB: seq<seq<byte>>)
    requires Inv(p, ea, eb, n) && SaneNet(n) && Local(n.a, subA) && Local(n.b, subB)
    requires ev.Submit? ==> Ordinary(ev.buf)
    requires var n' := StepA(n, ea, ev); !n'.a.failed && n'.a.gaveUp == n.a.gaveUp
    ensures Local(StepA(n, ea, ev).a, subA + Given(OpOf(n, ev)))
  {
    var op, n' := OpOf(n, ev), StepA(n, ea, ev);
    StepIsApply(n, ea, ev);
    StepInSession(p, ea, eb, n, ev);
    ApplyUpward(n.a, ea, op);
    NewAccepted(p, ea, eb, n, ev, subB);
    hide StepA;
    hide Inv;
    hide LinkModes.Apply;
    hide Ordinary;
    hide Tight;
    hide Stream;
    hide Takes;
    hide SetsXoff;
    ApplyInOrder(n.a, ea, op);
    OneMoreOrdinary(subA, Given(op));
  }

  lemma NewAccepted(p: Params, ea: Env, eb: Env, n: Net, ev: Event, subB: seq<seq<byte>>)
    requires Inv(p, ea, eb, n) && SaneNet(n) && Local(n.b, subB) && ev != Submit([])
    requires StepA(n, ea, ev).a.gaveUp == n.a.gaveUp
    ensures var op := OpOf(n, ev);
            Takes(n.a, op, ea.stale) ==> Ordinary(Decode(op.frame, ea.stale).payload) && !SetsXoff(op, ea.stale)
  {
    var op, n' := OpOf(n, ev), StepA(n, ea, ev);
    if Takes(n.a, op, ea.stale) {
      StepIsApply(n, ea, ev);
      StepInSession(p, ea, eb, n, ev);
      ApplyUpward(n.a, ea, op);
      StepInv(p, ea, eb, n, ev);
      InvInSequence(p, ea, eb, n', NONE);
      hide StepA;
      hide Inv;
      hide LinkModes.Apply;
      hide Local;
      hide Takes;
      hide Decode;
      AcceptedIsOrdinary(n'.a.accepted, n.b, subB);
    }
  }

  // ---------------------------------------------------------------- whole runs

  /** The packets submitted at a, and at b, during a run. */
  function GivenAtA(steps: seq<Step>): seq<seq<byte>> {
    if steps == [] then []
    else (if steps[0].AtA? && steps[0].event.Submit? then [steps[0].event.buf] else []) + GivenAtA(steps[1..])
  }

  function GivenAtB(steps: seq<Step>): seq<seq<byte>> {
    if steps == [] then []
    else (if steps[0].AtB? && steps[0].event.Submit? then [steps[0].event.buf] else []) + GivenAtB(steps[1..])
  }

  predicate OrdinaryRun(steps: seq<Step>) {
    forall i :: 0 <= i < |steps| ==> (steps[i].event.Submit? ==> Ordinary(steps[i].event.buf))
  }

  lemma RestOrdinary(steps: seq<Step>)
    requires steps != [] && OrdinaryRun(steps)
    ensures OrdinaryRun(steps[1..]) && (steps[0].event.Submit? ==> Ordinary(steps[0].event.buf))
    ensures steps[0].event != Submit([])
  {
    assert forall i :: 0 <= i < |steps[1..]| ==> steps[1..][i] == steps[i + 1];
  }

  lemma StepStaysFailed(p: Params, ea: Env, eb: Env, n: Net, ev: Event)
    requires Inv(p, ea, eb, n) && SaneNet(n)
    ensures n.a.failed ==> StepA(n, ea, ev).a.failed
    ensures StepA(n, ea, ev).b == n.b
  {
    StepIsApply(n, ea, ev);
    StepInSession(p, ea, eb, n, ev);
    ApplyConserves(n.a, ea, OpOf(n, ev));
    hide StepA;
    hide Bag;
    hide LinkModes.Apply;
    hide InSession;
    hide Inv;
  }

  /** One step of the network that gives nothing up keeps the invariant, and a failed end stays failed. */
  lemma StepKeeps(p: Params, ea: Env, eb: Env, n: Net, step: Step)
    requires Inv(p, ea, eb, n) && SaneNet(n) && step.event != Submit([])
    requires var n' := StepNet(n, ea, eb, step); n'.a.gaveUp == n.a.gaveUp && n'.b.gaveUp == n.b.gaveUp
    ensures var n' := StepNet(n, ea, eb, step);
            Inv(p, ea, eb, n') && (n.a.failed ==> n'.a.failed) && (n.b.failed ==> n'.b.failed)
  {
    hide Inv;
    hide StepA;
    match step {
      case AtA(ev) =>
        StepInv(p, ea, eb, n, ev);
        StepStaysFailed(p, ea, eb, n, ev);
      case AtB(ev) =>
        SwapInv(p, ea, eb, n);
        StepInv(p, eb, ea, Swap(n), ev);
        StepStaysFailed(p, eb, ea, Swap(n), ev);
        SwapInv(p, eb, ea, StepA(Swap(n), eb, ev));
    }
  }

  /** Giving up only counts up, so a run without it has no step with it. */
  lemma StepGivesUpNothing(ea: Env, eb: Env, n: Net, steps: seq<Step>)
    requires SaneNet(n) && steps != []
    requires var n' := RunNet(n, ea, eb, steps); n'.a.gaveUp == n.a.gaveUp && n'.b.gaveUp == n.b.gaveUp
    ensures var n1 := StepNet(n, ea, eb, steps[0]); n1.a.gaveUp == n.a.gaveUp && n1.b.gaveUp == n.b.gaveUp
  {
    hide StepA;
    Network.RunGaveUp(StepNet(n, ea, eb, steps[0]), ea, eb, steps[1..]);
    Network.RunGaveUp(n, ea, eb, [steps[0]]);
    assert [steps[0]][1..] == [];
    assert RunNet(n, ea, eb, [steps[0]]) == RunNet(StepNet(n, ea, eb, steps[0]), ea, eb, []);
  }

  lemma {:induction false} RunStaysFailed(p: Params, ea: Env, eb: Env, n: Net, steps: seq<Step>)
    requires Inv(p, ea, eb, n) && SaneNet(n) && OrdinaryRun(steps)
    requires var n' := RunNet(n, ea, eb, steps); n'.a.gaveUp == n.a.gaveUp && n'.b.gaveUp == n.b.gaveUp
    ensures n.a.failed ==> RunNet(n, ea, eb, steps).a.failed
    ensures n.b.failed ==> RunNet(n, ea, eb, steps).b.failed
    decreases |steps|
  {
    hide Inv;
    if steps != [] {
      RestOrdinary(steps);
      StepGivesUpNothing(ea, eb, n, steps);
      StepKeeps(p, ea, eb, n, steps[0]);
      hide StepNet;
      hide OrdinaryRun;
      RunStaysFailed(p, ea, eb, StepNet(n, ea, eb, steps[0]), steps[1..]);
    }
  }

  lemma GivenByOne(step: Step)
    ensures GivenAtA([step]) == if step.AtA? && step.event.Submit? then [step.event.buf] else []
    ensures GivenAtB([step]) == if step.AtB? && step.event.Submit? then [step.event.buf] else []
  {
    assert [step][1..] == [];
  }

  lemma GivenIs(n: Net, ev: Event)
    ensures Given(OpOf(n, ev)) == if ev.Submit? then [ev.buf] else []
  {
  }

  lemma NetLocalA(p: Params, ea: Env, eb: Env, n: Net, ev: Event, subA: seq<seq<byte>>, subB: seq<seq<byte>>)
    requires Inv(p, ea, eb, n) && SaneNet(n) && Local(n.a, subA) && Local(n.b, subB)
    requires ev.Submit? ==> Ordinary(ev.buf)
    requires var n' := StepA(n, ea, ev); n'.a.gaveUp == n.a.gaveUp && !n'.a.failed
    ensures var n' := StepA(n, ea, ev);
            && Local(n'.a, subA + if ev.Submit? then [ev.buf] else []) && Local(n'.b, subB + [])
  {
    StepIsApply(n, ea, ev);
    hide StepA;
    hide Local;
    hide Inv;
    hide Ordinary;
    StepLocal(p, ea, eb, n, ev, subA, subB);
    GivenIs(n, ev);
    assert subB + [] == subB;
  }

  lemma NetLocal(p: Params, ea: Env, eb: Env, n: Net, step: Step, subA: seq<seq<byte>>, subB: seq<seq<byte>>)
    requires Inv(p, ea, eb, n) && SaneNet(n) && Local(n.a, subA) && Local(n.b, subB)
    requires step.event.Submit? ==> Ordinary(step.event.buf)
    requires var n' := StepNet(n, ea, eb, step);
             && n'.a.gaveUp == n.a.gaveUp && n'.b.gaveUp == n.b.gaveUp && !n'.a.failed && !n'.b.failed
    ensures var n' := StepNet(n, ea, eb, step);
            && Local(n'.a, subA + GivenAtA([step])) && Local(n'.b, subB + GivenAtB([step]))
  {
    GivenByOne(step);
    hide GivenAtA;
    hide GivenAtB;
    hide StepA;
    hide Local;
    match step {
      case AtA(ev) =>
        NetLocalA(p, ea, eb, n, ev, subA, subB);
        hide Inv;
      case AtB(ev) =>
        SwapInv(p, ea, eb, n);
        NetLocalA(p, eb, ea, Swap(n), ev, subB, subA);
        hide Inv;
    }
  }

  lemma GivenSplit(steps: seq<Step>)
    requires steps != []
    ensures GivenAtA(steps) == GivenAtA([steps[0]]) + GivenAtA(steps[1..])
    ensures GivenAtB(steps) == GivenAtB([steps[0]]) + GivenAtB(steps[1..])
  {
    GivenByOne(steps[0]);
  }

  /** Neither end has failed or, since n, given up a packet. */
  predicate Unharmed(n: Net, n': Net) {
    n'.a.gaveUp == n.a.gaveUp && n'.b.gaveUp == n.b.gaveUp && !n'.a.failed && !n'.b.failed
  }

  ghost predicate Joint(p: Params, ea: Env, eb: Env, n: Net, subA: seq<seq<byte>>, subB: seq<seq<byte>>) {
    Inv(p, ea, eb, n) && Local(n.a, subA) && Local(n.b, subB)
  }

  lemma FirstStep(p: Params, ea: Env, eb: Env, n: Net, steps: seq<Step>, subA: seq<seq<byte>>, subB: seq<seq<byte>>)
    requires SaneNet(n) && Joint(p, ea, eb, n, subA, subB) && steps != [] && OrdinaryRun(steps)
    requires Unharmed(n, RunNet(n, ea, eb, steps))
    ensures var n1 := StepNet(n, ea, eb, steps[0]);
            && Joint(p, ea, eb, n1, subA + GivenAtA([steps[0]]), subB + GivenAtB([steps[0]]))
            && Unharmed(n1, RunNet(n1, ea, eb, steps[1..]))
  {
    hide Inv;
    hide Local;
    hide StepNet;
    hide OrdinaryRun;
    hide Ordinary;
    RestOrdinary(steps);
    StepGivesUpNothing(ea, eb, n, steps);
    StepKeeps(p, ea, eb, n, steps[0]);
    RunStaysFailed(p, ea, eb, StepNet(n, ea, eb, steps[0]), steps[1..]);
    NetLocal(p, ea, eb, n, steps[0], subA, subB);
  }

  lemma {:induction false} RunLocal(p: Params, ea: Env, eb: Env, n: Net, steps: seq<Step>, subA: seq<seq<byte>>,
                                    subB: seq<seq<byte>>)
    requires SaneNet(n) && Joint(p, ea, eb, n, subA, subB) && OrdinaryRun(steps)
             && Unharmed(n, RunNet(n, ea, eb, steps))
    ensures Joint(p, ea, eb, RunNet(n, ea, eb, steps), subA + GivenAtA(steps), subB + GivenAtB(steps))
    decreases |steps|
  {
    hide Joint;
    hide Unharmed;
    hide StepNet;
    hide OrdinaryRun;
    hide SaneNet;
    if steps == [] {
      assert subA + [] == subA && subB + [] == subB;
    } else {
      var first, rest := [steps[0]], steps[1..];
      RestOrdinary(steps);
      FirstStep(p, ea, eb, n, steps, subA, subB);
      GivenSplit(steps);
      hide GivenAtA;
      hide GivenAtB;
      RunLocal(p, ea, eb, StepNet(n, ea, eb, steps[0]), rest, subA + GivenAtA(first), subB + GivenAtB(first));
      Regroup(subA, GivenAtA(first), GivenAtA(rest));
      Regroup(subB, GivenAtB(first), GivenAtB(rest));
    }
  }

  lemma Regroup(a: seq<seq<byte>>, b: seq<seq<byte>>, c: seq<seq<byte>>)
    ensures a + b + c == a + (b + c)
  {
  }

  /** Both ends at the start of a session, with nothing queued anywhere. */
  ghost predicate Clean(p: Params, n: Net)
    requires Fits(p)
  {
    && StartNet(p, n) && SaneNet(n)
    && n.a.holdQueue == [] && n.a.waitQueue == [] && n.a.xoff == {} && n.a.ncp == []
    && n.b.holdQueue == [] && n.b.waitQueue == [] && n.b.xoff == {} && n.b.ncp == []
  }

  lemma LocalDelivers(peer: State, sub: seq<seq<byte>>, s: State, sub': seq<seq<byte>>)
    requires Local(peer, sub) && Local(s, sub') && IsPrefix(s.accepted, peer.numbered)
    ensures s.ncp <= sub
  {
    if peer.numbered != [] {
      PayloadsOfAt(peer.numbered, 0);
    }
    forall i | 0 <= i < |s.ncp| ensures s.ncp[i] == sub[i] {
      PayloadsOfAt(peer.numbered, i);
      assert Stream(peer)[i] == PayloadsOf(peer.numbered)[i];
    }
    hide PayloadsOf;
    hide Tight;
    hide AllOrdinary;
  }

  /**
   * Every run of a session, SIBO or EPOC, over lossy lines, that ends without failure and in which no packet
   * was given up: each NCP has received the first of the packets the other side was given, in order.
   */
  lemma PacketsArriveInOrder(p: Params, ea: Env, eb: Env, n: Net, steps: seq<Step>)
    requires Fits(p) && Clean(p, n) && OrdinaryRun(steps)
    requires p == EPOC ==> Increasing(ea.clock) && Increasing(eb.clock)
    requires Unharmed(n, RunNet(n, ea, eb, steps))
    ensures var n' := RunNet(n, ea, eb, steps); n'.b.ncp <= GivenAtA(steps) && n'.a.ncp <= GivenAtB(steps)
  {
    StartJoint(p, ea, eb, n);
    hide Clean;
    hide Unharmed;
    hide OrdinaryRun;
    RunLocal(p, ea, eb, n, steps, [], []);
    var n', ga, gb := RunNet(n, ea, eb, steps), GivenAtA(steps), GivenAtB(steps);
    assert [] + ga == ga && [] + gb == gb;
    hide RunNet;
    hide GivenAtA;
    hide GivenAtB;
    JointDelivers(p, ea, eb, n', ga, gb);
  }

  lemma JointDelivers(p: Params, ea: Env, eb: Env, n: Net, subA: seq<seq<byte>>, subB: seq<seq<byte>>)
    requires Joint(p, ea, eb, n, subA, subB)
    ensures n.b.ncp <= subA && n.a.ncp <= subB
  {
    InvInSequence(p, ea, eb, n, NONE);
    hide Inv;
    hide Local;
    LocalDelivers(n.a, subA, n.b, subB);
    LocalDelivers(n.b, subB, n.a, subA);
  }

  lemma StartJoint(p: Params, ea: Env, eb: Env, n: Net)
    requires Fits(p) && Clean(p, n)
    requires p == EPOC ==> Increasing(ea.clock) && Increasing(eb.clock)
    ensures SaneNet(n) && Joint(p, ea, eb, n, [], [])
  {
    StartInv(p, ea, eb, n);
    assert PayloadsOf([]) == [];
    hide Inv;
  }

  // ---------------------------------------------------------------- messages

  /** A message for a channel of the peer. */
  datatype Message = Message(remote: byte, text: seq<byte>)

  /** What NCP gives the link for some messages; `local` is our channel for each of the peer's. */
  function Outgoing(sent: seq<Message>, local: byte -> byte): seq<seq<byte>> {
    if sent == [] then []
    else Ncp.Fragments(sent[0].remote, local(sent[0].remote), sent[0].text) + Outgoing(sent[1..], local)
  }

  function MessagesFor(sent: seq<Message>, remote: byte): seq<seq<byte>> {
    if sent == [] then []
    else (if sent[0].remote == remote then [sent[0].text] else []) + MessagesFor(sent[1..], remote)
  }

  lemma {:induction false} NamingSplit(xs: seq<seq<byte>>, ys: seq<seq<byte>>, remote: byte)
    ensures Ncp.Naming(xs + ys, remote) == Ncp.Naming(xs, remote) + Ncp.Naming(ys, remote)
    decreases |xs|
  {
    if xs == [] {
      assert xs + ys == ys;
    } else {
      assert (xs + ys)[0] == xs[0] && (xs + ys)[1..] == xs[1..] + ys;
      NamingSplit(xs[1..], ys, remote);
    }
  }

  lemma {:induction false} NamingFragments(to: byte, channel: byte, text: seq<byte>, remote: byte)
    ensures Ncp.Naming(Ncp.Fragments(to, channel, text), remote)
         == if to == remote then Ncp.Fragments(to, channel, text) else []
    decreases |text|
  {
    if |text| <= Ncp.SENDLEN {
      NamingOne(to, channel, true, text, remote);
    } else {
      var head, rest := Ncp.Fragment(to, channel, false, text[..Ncp.SENDLEN]), text[Ncp.SENDLEN..];
      assert Ncp.Fragments(to, channel, text) == [head] + Ncp.Fragments(to, channel, rest);
      NamingSplit([head], Ncp.Fragments(to, channel, rest), remote);
      NamingOne(to, channel, false, text[..Ncp.SENDLEN], remote);
      hide Ncp.Naming;
      NamingFragments(to, channel, rest, remote);
    }
  }

  lemma NamingOne(to: byte, channel: byte, last: bool, data: seq<byte>, remote: byte)
    ensures Ncp.Naming([Ncp.Fragment(to, channel, last, data)], remote)
         == if to == remote then [Ncp.Fragment(to, channel, last, data)] else []
  {
    assert [Ncp.Fragment(to, channel, last, data)][1..] == [];
  }

  lemma {:induction false} NamingOutgoing(sent: seq<Message>, local: byte -> byte, remote: byte)
    ensures Ncp.Naming(Outgoing(sent, local), remote)
         == Ncp.AllFragments(remote, local(remote), MessagesFor(sent, remote))
    decreases |sent|
  {
    if sent != [] {
      var m, rest := sent[0], sent[1..];
      NamingSplit(Ncp.Fragments(m.remote, local(m.remote), m.text), Outgoing(rest, local), remote);
      NamingFragments(m.remote, local(m.remote), m.text, remote);
      NamingOutgoing(rest, local, remote);
      hide Ncp.Fragments;
      hide Ncp.Naming;
      var others := MessagesFor(rest, remote);
      if m.remote == remote {
        assert MessagesFor(sent, remote) == [m.text] + others;
        hide MessagesFor;
        hide Outgoing;
        AllFragmentsNext(remote, local(remote), m.text, others);
        hide Ncp.AllFragments;
      } else {
        assert MessagesFor(sent, remote) == others by { assert [] + others == others; }
        hide Ncp.AllFragments;
        hide MessagesFor;
      }
    }
  }

  lemma AllFragmentsNext(remote: byte, channel: byte, m: seq<byte>, rest: seq<seq<byte>>)
    ensures Ncp.AllFragments(remote, channel, [m] + rest)
            == Ncp.Fragments(remote, channel, m) + Ncp.AllFragments(remote, channel, rest)
  {
    hide Ncp.Fragments;
    assert ([m] + rest)[1..] == rest;
  }

  lemma {:induction false} DeliveredOnlyGrows(s: Ncp.State, bufs: seq<seq<byte>>, stale: byte, channel: nat)
    requires Ncp.Sound(s)
    ensures Ncp.DeliveredTo(s.delivered, channel) <= Ncp.DeliveredTo(Ncp.ReceiveAll(s, bufs, stale).delivered, channel)
    decreases |bufs|
  {
    if bufs != [] {
      OneReceived(s, bufs[0], stale, channel);
      hide Ncp.Receive;
      hide Ncp.DeliveredTo;
      DeliveredOnlyGrows(Ncp.Receive(s, bufs[0], stale), bufs[1..], stale, channel);
    }
  }

  lemma OneReceived(s: Ncp.State, buf: seq<byte>, stale: byte, channel: nat)
    requires Ncp.Sound(s)
    ensures Ncp.DeliveredTo(s.delivered, channel) <= Ncp.DeliveredTo(Ncp.Receive(s, buf, stale).delivered, channel)
  {
    if |buf| > 1 && buf[0] != 0 {
      var c := Ncp.Target(s, buf);
      Ncp.DeliveredOneMore(s.delivered, Ncp.Delivery(c, s.pending[c] + Discard(buf, 3)), channel);
    }
    hide Ncp.DeliveredTo;
    hide Discard;
    hide ByteAt;
  }

  /** From the first of the packets an NCP gave its link, the peer delivers the first of the messages. */
  lemma SomeMessagesDelivered(peer: Ncp.State, bufs: seq<seq<byte>>, sent: seq<Message>, local: byte -> byte,
                              remote: byte, stale: byte)
    requires Ncp.Sound(peer) && peer.version == Ncp.PV_SERIES_5
    requires remote != 0 && peer.open[remote] && peer.pending[remote] == []
    requires bufs <= Outgoing(sent, local)
    ensures var before, after := Ncp.DeliveredTo(peer.delivered, remote),
                                 Ncp.DeliveredTo(Ncp.ReceiveAll(peer, bufs, stale).delivered, remote);
            && before <= after <= before + MessagesFor(sent, remote)
            && (bufs == Outgoing(sent, local) ==> after == before + MessagesFor(sent, remote))
  {
    var all := Outgoing(sent, local);
    NamingOutgoing(sent, local, remote);
    Ncp.InterleavedReassembly(peer, all, remote, local(remote), MessagesFor(sent, remote), stale);
    hide Ncp.ReceiveAll;
    hide Ncp.DeliveredTo;
    hide Ncp.AllFragments;
    hide Ncp.Naming;
    hide Outgoing;
    assert bufs + all[|bufs|..] == all;
    Ncp.ReceiveAllSplit(peer, bufs, all[|bufs|..], stale);
    DeliveredOnlyGrows(peer, bufs, stale, remote);
    DeliveredOnlyGrows(Ncp.ReceiveAll(peer, bufs, stale), all[|bufs|..], stale, remote);
  }

  /**
   * End to end: in every run of a session over lossy lines that ends unharmed, in which a's NCP was on its
   * way through some messages, b's NCP has delivered to each channel the first of the messages for it, whole
   * and in order -- and all of them once the link has handed up all packets.
   */
  lemma MessagesArriveInOrder(p: Params, ea: Env, eb: Env, n: Net, steps: seq<Step>,
                              sent: seq<Message>, local: byte -> byte, peer: Ncp.State, remote: byte)
    requires Fits(p) && Clean(p, n) && OrdinaryRun(steps)
    requires p == EPOC ==> Increasing(ea.clock) && Increasing(eb.clock)
    requires Unharmed(n, RunNet(n, ea, eb, steps))
    requires GivenAtA(steps) <= Outgoing(sent, local)
    requires Ncp.Sound(peer) && peer.version == Ncp.PV_SERIES_5
    requires remote != 0 && peer.open[remote] && peer.pending[remote] == []
    ensures var arrived := RunNet(n, ea, eb, steps).b.ncp;
            var before, after := Ncp.DeliveredTo(peer.delivered, remote),
                                 Ncp.DeliveredTo(Ncp.ReceiveAll(peer, arrived, eb.stale).delivered, remote);
            && before <= after <= before + MessagesFor(sent, remote)
            && (arrived == Outgoing(sent, local) ==> after == before + MessagesFor(sent, remote))
  {
    hide *;
    CleanSane(p, n);
    PacketsArriveInOrder(p, ea, eb, n, steps);
    SomeMessagesDelivered(peer, RunNet(n, ea, eb, steps).b.ncp, sent, local, remote, eb.stale);
  }

  lemma CleanSane(p: Params, n: Net)
    requires Fits(p) && Clean(p, n)
    ensures SaneNet(n)
  {
  }
}
