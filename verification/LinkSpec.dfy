/**
 * The behaviour of lib/link.cc as functions on a value: what each operation of the link layer does
 * to its numbers, queues and outputs.  The class in Link.dfy is proved to compute these functions.
 */
module LinkSpec {
  import opened Bytes
  import opened Packets

  datatype LinkType = UnknownLink | Sibo | Epoc

  /**
   * An unacknowledged packet: txcount retries left, time of the last transmission, the frame; and its
   * serial, which tells packets apart that are queued with the same number and content.
   */
  datatype Element = Element(seqNr: int, txcount: int, stamp: int, data: seq<byte>, serial: nat)

  /** A frame to be sent: its bytes, and the serial of its packet or, for an acknowledgement, ACK. */
  datatype Frame = Frame(data: seq<byte>, serial: int)

  const ACK: int := -1

  /** A frame handed to the data link. */
  datatype Sent = Sent(data: seq<byte>, isEPOC: bool, serial: int)

  /** A packet that has been given a number, and when. */
  datatype Numbered = Numbered(payload: seq<byte>, at: int)

  datatype State = State(
    txSequence: int, rxSequence: int, seqMask: int, maxOutstanding: nat, failed: bool, linkType: LinkType,
    ackWaitQueue: seq<Element>, holdQueue: seq<seq<byte>>, waitQueue: seq<seq<byte>>, xoff: set<byte>,
    lineDown: bool,                 // DataLink::linkFailed
    readings: nat,                     // how often the clock has been read
    line: seq<Sent>,                // frames handed to DataLink::send, in order
    ncp: seq<seq<byte>>,            // payloads handed to NCP::receive, in order
    numbered: seq<Numbered>,        // packets numbered by transmit, in order
    accepted: seq<seq<byte>>,       // payloads of the data packets accepted as next in sequence
    gaveUp: nat,                    // packets dropped when their retries ran out on an unmatched ack
    queued: seq<seq<byte>>)         // frames queued for acknowledgement, by serial

  /** What does not change: the clock readings, conMagic_, the content of unset memory. */
  datatype Env = Env(clock: nat -> int, magic: seq<byte>, stale: byte)

  const RETRIES: nat := 8
  const CONNECT_RETRIES: nat := 4

  /** `x &= seqMask`, for the two masks the link uses. */
  function Masked(x: int, mask: int): int
    requires mask == 7 || mask == MAX_SEQ
  {
    x % (mask + 1)
  }

  /** Numbers stay within the mask, and the mask is one of two. */
  predicate Sane(s: State) {
    && (s.seqMask == 7 || s.seqMask == MAX_SEQ)
    && 0 <= s.txSequence <= s.seqMask && -1 <= s.rxSequence <= s.seqMask
  }

  // ---------------------------------------------------------------- small steps

  function HasFailed(s: State): State {
    s.(failed := s.failed || s.lineDown)
  }

  function Emit(s: State, f: Frame): State {
    s.(line := s.line + [Sent(f.data, s.linkType == Epoc, f.serial)])
  }

  function PurgeAllQueues(s: State): State {
    s.(ackWaitQueue := [], holdQueue := [])
  }

  function SendAck(s: State): State
    requires Sane(s)
  {
    var s1 := HasFailed(s);
    if s1.failed then s1 else Emit(s1, Frame(AckFrame(s1.rxSequence), ACK))
  }

  function Await(s: State, e: Env, seqNr: int, txcount: nat, data: seq<byte>): State {
    Emit(s.(ackWaitQueue := s.ackWaitQueue + [Element(seqNr, txcount, e.clock(s.readings), data, |s.queued|)],
            readings := s.readings + 1, queued := s.queued + [data]), Frame(data, |s.queued|))
  }

  function SendReqReq(s: State, e: Env): State {
    var s1 := HasFailed(s);
    if s1.failed then s1 else Await(s1, e, 0, CONNECT_RETRIES, [0x21])
  }

  function SendReqCon(s: State, e: Env): State {
    var s1 := HasFailed(s);
    if s1.failed then s1 else Await(s1, e, 0, CONNECT_RETRIES, [0x24] + e.magic)
  }

  /** The packet gets the next number and goes out. */
  function Number(s: State, e: Env, buf: seq<byte>): State
    requires Sane(s)
  {
    var n := s.txSequence;
    var s1 := s.(txSequence := Masked(n + 1, s.seqMask), numbered := s.numbered + [Numbered(buf, e.clock(s.readings))]);
    if buf == [] then Await(s1, e, n, CONNECT_RETRIES, RequestFrame(n))
    else Await(s1, e, n, RETRIES, DataFrame(n, buf))
  }

  function Transmit(s: State, e: Env, buf: seq<byte>): (s': State)
    requires Sane(s)
    ensures Sane(s')
  {
    var s1 := HasFailed(s);
    if s1.failed then s1
    else if ByteAt(buf, 0, e.stale) in s1.xoff then s1.(holdQueue := s1.holdQueue + [buf])
    else if |s1.ackWaitQueue| >= s1.maxOutstanding then s1.(waitQueue := s1.waitQueue + [buf])
    else Number(s1, e, buf)
  }

  function TransmitAll(s: State, e: Env, bufs: seq<seq<byte>>): (s': State)
    requires Sane(s)
    ensures Sane(s')
    decreases |bufs|
  {
    if bufs == [] then s else TransmitAll(Transmit(s, e, bufs[0]), e, bufs[1..])
  }

  /** The buffers of a queue whose first byte is (or is not) the channel, in order. */
  function ForChannel(q: seq<seq<byte>>, channel: byte, stale: byte, yes: bool): seq<seq<byte>> {
    if q == [] then []
    else (if (ByteAt(q[0], 0, stale) == channel) == yes then [q[0]] else []) + ForChannel(q[1..], channel, stale, yes)
  }

  function TransmitHoldQueue(s: State, e: Env, channel: byte): State
    requires Sane(s)
  {
    TransmitAll(s.(holdQueue := ForChannel(s.holdQueue, channel, e.stale, false)), e,
                ForChannel(s.holdQueue, channel, e.stale, true))
  }

  function TransmitWaitQueue(s: State, e: Env): State
    requires Sane(s)
  {
    TransmitAll(s.(waitQueue := []), e, s.waitQueue)
  }

  /** The elements last transmitted at or after a time. */
  function NotOlder(q: seq<Element>, refstamp: int): seq<Element> {
    if q == [] then [] else (if q[0].stamp < refstamp then [] else [q[0]]) + NotOlder(q[1..], refstamp)
  }

  /** The position of the first element with a number, or |q|. */
  function Find(q: seq<Element>, seqNr: int): (i: nat)
    ensures i <= |q|
    ensures i < |q| ==> q[i].seqNr == seqNr
    ensures forall j :: 0 <= j < i ==> q[j].seqNr != seqNr
  {
    if q == [] || q[0].seqNr == seqNr then 0 else 1 + Find(q[1..], seqNr)
  }

  /** The position of the first pending link request of our own, or |q|. */
  function FindReqReq(q: seq<Element>, stale: byte): (i: nat)
    ensures i <= |q|
    ensures i < |q| ==> q[i].seqNr == 0 && ByteAt(q[i].data, 0, stale) == 0x21
  {
    if q == [] || (q[0].seqNr == 0 && ByteAt(q[0].data, 0, stale) == 0x21) then 0 else 1 + FindReqReq(q[1..], stale)
  }

  function Erase<T>(q: seq<T>, i: nat): seq<T>
    requires i < |q|
  {
    q[..i] + q[i + 1..]
  }

  // ---------------------------------------------------------------- the operations

  function Send(s: State, e: Env, buf: seq<byte>): (s': State)
    requires Sane(s)
    ensures Sane(s')
  {
    if |buf| > 300 then s.(failed := true) else Transmit(s, e, buf)
  }

  /** The state in which `reset` submits its link request. */
  function Cleared(s: State): State {
    State(1, -1, 7, 1, false, UnknownLink, [], [], s.waitQueue, {}, s.lineDown, s.readings, s.line, s.ncp,
          s.numbered, s.accepted, s.gaveUp, s.queued)
  }

  function Reset(s: State, e: Env): (s': State)
    ensures Sane(s')
  {
    SendReqReq(Cleared(s), e)
  }

  /** An element leaves the queue when the first byte of its frame equals the channel. */
  function WithoutFirstByte(q: seq<Element>, channel: int, stale: byte): seq<Element> {
    if q == [] then []
    else (if ByteAt(q[0].data, 0, stale) == channel then [] else [q[0]]) + WithoutFirstByte(q[1..], channel, stale)
  }

  function PurgeQueue(s: State, e: Env, channel: byte): (s': State)
    ensures Sane(s) ==> Sane(s')
  {
    s.(ackWaitQueue := WithoutFirstByte(s.ackWaitQueue, channel, e.stale),
       holdQueue := ForChannel(s.holdQueue, channel, e.stale, false))
  }

  /** The payload of an accepted packet: flow control for a channel, or data for NCP. */
  function Dispatch(s: State, e: Env, payload: seq<byte>): (s': State)
    requires Sane(s)
    ensures Sane(s')
  {
    if |payload| == 3 && payload[0] == 0 && payload[2] == 1 then s.(xoff := s.xoff + {payload[1]})
    else if |payload| == 3 && payload[0] == 0 && payload[2] == 2 then
      TransmitHoldQueue(s.(xoff := s.xoff - {payload[1]}), e, payload[1])
    else s.(ncp := s.ncp + [payload])
  }

  function ReceiveData(s: State, e: Env, number: nat, payload: seq<byte>): (s': State)
    requires Sane(s)
    ensures Sane(s')
  {
    var next := Masked(s.rxSequence + 1, s.seqMask);
    if next == number then
      Dispatch(SendAck(s.(rxSequence := next, accepted := s.accepted + [payload])), e, payload)
    else
      SendAck(s)
  }

  function SetLink(s: State, t: LinkType): State
    requires t != UnknownLink
  {
    s.(linkType := t, failed := false, seqMask := if t == Sibo then 7 else MAX_SEQ,
       maxOutstanding := if t == Sibo then 1 else 8)
  }

  /** The acknowledged element at i leaves; while the link is unknown, an ack of 0 tells a SIBO peer. */
  function AckFound(s: State, i: nat): (s': State)
    requires Sane(s) && i < |s.ackWaitQueue|
    ensures Sane(s')
  {
    var ref := s.ackWaitQueue[i];
    var s1 := s.(ackWaitQueue := Erase(s.ackWaitQueue, i));
    var s2 :=
      if s.linkType == UnknownLink && ref.seqNr == 0 then
        PurgeAllQueues(SetLink(s1, Sibo).(rxSequence := 0, txSequence := 1))
      else s1;
    s2.(ackWaitQueue := NotOlder(s2.ackWaitQueue, ref.stamp))
  }

  /** An ack for nothing we wait for: the packet after it, if queued, is sent again or given up. */
  function AckUnmatched(s: State, e: Env, number: nat): (s': State)
    ensures Sane(s) ==> Sane(s')
  {
    var now := e.clock(s.readings);
    var s1 := s.(readings := s.readings + 1);
    var i := Find(s.ackWaitQueue, number + 1);
    if i == |s.ackWaitQueue| then s1
    else
      var el := s.ackWaitQueue[i];
      if el.txcount == 0 then s1.(ackWaitQueue := Erase(s.ackWaitQueue, i), gaveUp := s.gaveUp + 1)
      else
        var el' := el.(txcount := el.txcount - 1, stamp := now);
        Emit(s1.(ackWaitQueue := s.ackWaitQueue[i := el']), Frame(el.data, el.serial))
  }

  function ReceiveAck(s: State, e: Env, number: nat): (s': State)
    requires Sane(s)
    ensures Sane(s')
  {
    var i := Find(s.ackWaitQueue, number);
    if i < |s.ackWaitQueue| then TransmitWaitQueue(AckFound(s, i), e) else AckUnmatched(s, e, number)
  }

  function ReceiveNewLink(s: State, e: Env, number: nat): (s': State)
    requires Sane(s)
    ensures Sane(s')
  {
    var i := FindReqReq(s.ackWaitQueue, e.stale);
    if number > 3 && i < |s.ackWaitQueue| then
      SendAck(SetLink(s.(ackWaitQueue := Erase(s.ackWaitQueue, i)), Epoc).(rxSequence := 0, txSequence := 1))
    else if number > 0 then
      SendReqCon(SetLink(s, Epoc).(rxSequence := 0, txSequence := 0), e)
    else
      SendAck(PurgeAllQueues(SetLink(s, Sibo).(rxSequence := 0, txSequence := 1)))
  }

  function Receive(s: State, e: Env, buff: seq<byte>): (s': State)
    requires Sane(s)
    ensures Sane(s')
  {
    match Decode(buff, e.stale)
    case Data(number, payload) => ReceiveData(s, e, number, payload)
    case Ack(number) => ReceiveAck(s, e, number)
    case NewLink(number) => ReceiveNewLink(s, e, number)
    case Disconnect => s.(failed := true)
    case Unknown => s
  }

  /** What the timer leaves of one element: an expired one is sent again, or removed when no retries are left. */
  function Surviving(el: Element, expired: int, now: int): seq<Element> {
    if el.stamp >= expired then [el]
    else if el.txcount == 0 then []
    else [el.(txcount := el.txcount - 1, stamp := now)]
  }

  /** The queue after the timer. */
  function Retried(q: seq<Element>, expired: int, now: int): seq<Element> {
    if q == [] then [] else Surviving(q[0], expired, now) + Retried(q[1..], expired, now)
  }

  /** The frames the timer sends again. */
  function Resent(q: seq<Element>, expired: int): seq<Frame> {
    if q == [] then []
    else (if q[0].stamp < expired && q[0].txcount != 0 then [Frame(q[0].data, q[0].serial)] else [])
         + Resent(q[1..], expired)
  }

  /** Some element has expired with no retries left. */
  predicate TimedOut(q: seq<Element>, expired: int) {
    q != [] && ((q[0].stamp < expired && q[0].txcount == 0) || TimedOut(q[1..], expired))
  }

  function EmitAll(s: State, frames: seq<Frame>): State
    decreases |frames|
  {
    if frames == [] then s else EmitAll(Emit(s, frames[0]), frames[1..])
  }

  /** The timer thread's check; `expired` is the time before which a transmission counts as lost. */
  function Retransmit(s: State, e: Env, expired: int): (s': State) {
    var s1 := HasFailed(s);
    if s1.failed then PurgeAllQueues(s1)
    else
      var q := s1.ackWaitQueue;
      EmitAll(s1.(readings := s1.readings + 1, failed := TimedOut(q, expired),
                  ackWaitQueue := Retried(q, expired, e.clock(s1.readings))),
              Resent(q, expired))
  }
}
