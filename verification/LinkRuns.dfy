/**
 * Whole runs of the class in Link.dfy: whatever sequence of packets, frames, timer checks, line failures, resets
 * and purges a link goes through, it is in the state that LinkModes.RunLink computes, and keeps what runs keep.
 */
module LinkRuns {
  import opened Bytes
  import opened LinkSpec
  import opened LinkModes
  import LinkFrames
  import Links

  method Perform(link: Links.Link, op: Op)
    requires link.Valid()
    modifies link, link.xoff
    ensures link.Valid() && link.Abs() == Apply(old(link.Abs()), link.env, op)
  {
    match op {
      case Submit(buf) => link.Send(buf);
      case Arrive(frame) => link.Receive(frame);
      case Timer(expired) => link.Retransmit(expired);
      case LineStatus(down) => link.lineDown := down;
      case DoReset => link.Reset();
      case Purge(channel) => link.PurgeQueue(channel);
    }
  }

  method Operate(link: Links.Link, ops: seq<Op>)
    requires link.Valid()
    modifies link, link.xoff
    ensures link.Valid() && link.Abs() == RunLink(old(link.Abs()), link.env, ops)
  {
    hide Sane;
    hide Apply;
    ghost var s := link.Abs();
    assert ops[..0] == [];
    for i := 0 to |ops|
      invariant link.Valid() && link.Abs() == RunLink(s, link.env, ops[..i])
    {
      Perform(link, ops[i]);
      OneMoreOp(s, link.env, ops[..i], ops[i]);
      assert ops[..i] + [ops[i]] == ops[..i + 1];
    }
    assert ops[..|ops|] == ops;
  }

  lemma {:induction false} OneMoreOp(s: State, e: Env, ops: seq<Op>, op: Op)
    requires Sane(s)
    ensures RunLink(s, e, ops + [op]) == Apply(RunLink(s, e, ops), e, op)
    decreases |ops|
  {
    if ops == [] {
      assert [] + [op] == [op] && [op][1..] == [];
      ApplySane(s, e, op);
    } else {
      ApplySane(s, e, ops[0]);
      OneMoreOp(Apply(s, e, ops[0]), e, ops[1..], op);
      assert (ops + [op])[1..] == ops[1..] + [op];
    }
  }

  /**
   * A link from its construction on: mode, numbers, window and retries agree; no packet has been sent more than
   * 1 + 8 times, or 1 + 4 a handshake packet; and every frame handed to the data link is at most 302 bytes long.
   */
  method FromTheStart(env: Env, ops: seq<Op>) returns (link: Links.Link)
    requires |env.magic| == 4
    ensures fresh(link) && link.Valid() && ModeOk(link.Abs()) && AllRetriesOk(link.ackWaitQueue)
    ensures forall k: nat :: Sends(link.line, Only(k)) <= Granted(link.queued, k)
    ensures forall i :: 0 <= i < |link.line| ==> |link.line[i].data| <= LinkFrames.FRAME
  {
    hide RunLink;
    hide Sends;
    hide Allowance;
    hide Unacknowledged;
    hide SendReqReq;
    link := new Links.Link(env);
    Operate(link, ops);
    EveryRunKept(env, ops);
    assert link.Abs() == RunLink(Initial(env), env, ops);
    hide Initial;
    forall k: nat
      ensures Sends(link.line, Only(k)) <= Granted(link.queued, k)
    {
      TransmissionsAreBounded(env, ops, k);
    }
    forall i | 0 <= i < |link.line|
      ensures |link.line[i].data| <= LinkFrames.FRAME
    {
      LinkFrames.EveryFrameIsKnown(env, ops, i);
    }
  }
}
