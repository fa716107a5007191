/**
 * What every run of one link (lib/link.cc) keeps, through handshakes, resets, purges and failures:
 * the mode, the numbers, the window, and the number of transmissions.
 */
module LinkModes {
  import opened Bytes
  import opened Packets
  import opened LinkSpec

  datatype Op =
    | Submit(buf: seq<byte>)
    | Arrive(frame: seq<byte>)
    | Timer(expired: int)
    | LineStatus(down: bool)
    | DoReset
    | Purge(channel: byte)

  function Apply(s: State, e: Env, op: Op): State
    requires Sane(s)
  {
    match op
    case Submit(buf) => Send(s, e, buf)
    case Arrive(frame) => Receive(s, e, frame)
    case Timer(expired) => Retransmit(s, e, expired)
    case LineStatus(down) => s.(lineDown := down)
    case DoReset => Reset(s, e)
    case Purge(channel) => PurgeQueue(s, e, channel)
  }

  /** The state a link starts in: the header's defaults and a pending link request. */
  function Initial(e: Env): State {
    SendReqReq(State(1, -1, 7, 1, false, UnknownLink, [], [], [], {}, false, 0, [], [], [], [], 0, []), e)
  }

  // ---------------------------------------------------------------- measures of the queue

  predicate IsDataFrame(f: seq<byte>) {
    f != [] && f[0] / 16 == 3
  }

  /** How many data packets await acknowledgement. */
  function Unacknowledged(q: seq<Element>): (n: nat)
    ensures n <= |q|
  {
    if q == [] then 0 else (if IsDataFrame(q[0].data) then 1 else 0) + Unacknowledged(q[1..])
  }

  /** Retries left: at most 8 for a data packet and 4 for a handshake packet. */
  predicate RetriesOk(el: Element) {
    0 <= el.txcount <= if IsDataFrame(el.data) then RETRIES else CONNECT_RETRIES
  }

  predicate AllRetriesOk(q: seq<Element>) {
    forall i :: 0 <= i < |q| ==> RetriesOk(q[i])
  }

  /** Which transmissions to count: all of them, or those of one packet. */
  datatype Which = Any | Only(serial: nat)

  predicate Counted(w: Which, serial: int) {
    w.Any? || w.serial == serial
  }

  /** The retransmissions a queue still allows. */
  function Budget(q: seq<Element>, w: Which): int {
    if q == [] then 0 else (if Counted(w, q[0].serial) then q[0].txcount else 0) + Budget(q[1..], w)
  }

  /** How many transmissions there have been. */
  function Sends(line: seq<Sent>, w: Which): nat {
    if line == [] then 0
    else Sends(line[..|line| - 1], w) + if Counted(w, line[|line| - 1].serial) then 1 else 0
  }

  /** How often a packet may be sent: 1 + 8 times a data packet, 1 + 4 a handshake packet. */
  function Allowance(data: seq<byte>): nat {
    1 + if IsDataFrame(data) then RETRIES else CONNECT_RETRIES
  }

  lemma OneMoreSent(line: seq<Sent>, x: Sent, w: Which)
    ensures Sends(line + [x], w) == Sends(line, w) + if Counted(w, x.serial) then 1 else 0
  {
    assert (line + [x])[..|line|] == line;
  }

  /** From q to q' elements only leave. */
  ghost predicate Shrinks(q: seq<Element>, q': seq<Element>, w: Which) {
    && Unacknowledged(q') <= Unacknowledged(q)
    && (AllRetriesOk(q) ==> AllRetriesOk(q') && Budget(q', w) <= Budget(q, w))
  }

  lemma RetriesOkFirst(q: seq<Element>)
    requires q != []
    ensures AllRetriesOk(q) <==> RetriesOk(q[0]) && AllRetriesOk(q[1..])
  {
    hide RetriesOk;
    assert forall i :: 0 < i < |q| ==> q[i] == q[1..][i - 1];
  }

  lemma {:induction false} SplitMeasures(q: seq<Element>, r: seq<Element>, w: Which)
    ensures Unacknowledged(q + r) == Unacknowledged(q) + Unacknowledged(r)
    ensures Budget(q + r, w) == Budget(q, w) + Budget(r, w)
    ensures AllRetriesOk(q + r) <==> AllRetriesOk(q) && AllRetriesOk(r)
    decreases |q|
  {
    if q == [] {
      assert q + r == r;
    } else {
      SplitMeasures(q[1..], r, w);
      HeadOfBoth(q, r);
      RetriesOkFirst(q);
      RetriesOkFirst(q + r);
      hide AllRetriesOk;
    }
  }

  lemma {:induction false} BudgetNonNegative(q: seq<Element>, w: Which)
    requires AllRetriesOk(q)
    ensures 0 <= Budget(q, w) <= RETRIES * |q|
    decreases |q|
  {
    if q != [] {
      assert RetriesOk(q[0]);
      assert forall i :: 0 <= i < |q[1..]| ==> q[1..][i] == q[i + 1];
      BudgetNonNegative(q[1..], w);
    }
  }

  lemma OneMeasure(el: Element, w: Which)
    ensures Budget([el], w) == (if Counted(w, el.serial) then el.txcount else 0)
    ensures Unacknowledged([el]) == if IsDataFrame(el.data) then 1 else 0
    ensures AllRetriesOk([el]) <==> RetriesOk(el)
  {
    assert [el][1..] == [];
    assert AllRetriesOk([el]) ==> RetriesOk([el][0]);
  }

  lemma EraseShrinks(q: seq<Element>, i: nat, w: Which)
    requires i < |q|
    ensures Shrinks(q, Erase(q, i), w)
  {
    assert q == q[..i] + [q[i]] + q[i + 1..];
    SplitMeasures(q[..i] + [q[i]], q[i + 1..], w);
    SplitMeasures(q[..i], [q[i]], w);
    SplitMeasures(q[..i], q[i + 1..], w);
    OneMeasure(q[i], w);
  }

  lemma {:induction false} NotOlderShrinks(q: seq<Element>, ref: int, w: Which)
    ensures Shrinks(q, NotOlder(q, ref), w)
    decreases |q|
  {
    if q != [] {
      NotOlderShrinks(q[1..], ref, w);
      KeepOrDrop(q, NotOlder(q[1..], ref), q[0].stamp >= ref, w);
    }
  }

  lemma {:induction false} WithoutFirstByteShrinks(q: seq<Element>, channel: int, stale: byte, w: Which)
    ensures Shrinks(q, WithoutFirstByte(q, channel, stale), w)
    decreases |q|
  {
    if q != [] {
      WithoutFirstByteShrinks(q[1..], channel, stale, w);
      KeepOrDrop(q, WithoutFirstByte(q[1..], channel, stale), ByteAt(q[0].data, 0, stale) != channel, w);
    }
  }

  lemma KeepOrDrop(q: seq<Element>, t: seq<Element>, keep: bool, w: Which)
    requires q != [] && Shrinks(q[1..], t, w)
    ensures Shrinks(q, (if keep then [q[0]] else []) + t, w)
  {
    var h := if keep then [q[0]] else [];
    SplitMeasures([q[0]], q[1..], w);
    SplitMeasures(h, t, w);
    OneMeasure(q[0], w);
    assert [q[0]] + q[1..] == q;
    if keep {
    } else {
      assert h + t == t;
    }
  }

  /** Whether the timer sends an element again. */
  predicate Resends(el: Element, expired: int) {
    el.stamp < expired && el.txcount != 0
  }

  lemma OneSurvives(el: Element, expired: int, now: int, w: Which)
    requires RetriesOk(el)
    ensures var h := Surviving(el, expired, now);
            && Unacknowledged(h) <= Unacknowledged([el]) && AllRetriesOk(h)
            && Budget(h, w) + (if Resends(el, expired) && Counted(w, el.serial) then 1 else 0) == Budget([el], w)
  {
    hide AllRetriesOk;
    hide Unacknowledged;
    hide Budget;
    OneMeasure(el, w);
    OneMeasure(el.(txcount := el.txcount - 1, stamp := now), w);
    OfNothing(w);
  }

  /** Occurrences counted from the front. */
  function Among(frames: seq<Frame>, w: Which): nat {
    if frames == [] then 0 else (if Counted(w, frames[0].serial) then 1 else 0) + Among(frames[1..], w)
  }

  lemma RetriedHead(q: seq<Element>, expired: int, now: int, w: Which)
    requires q != []
    ensures Retried(q, expired, now) == Surviving(q[0], expired, now) + Retried(q[1..], expired, now)
    ensures Among(Resent(q, expired), w)
         == (if Resends(q[0], expired) && Counted(w, q[0].serial) then 1 else 0) + Among(Resent(q[1..], expired), w)
  {
    var t := Resent(q[1..], expired);
    assert ([Frame(q[0].data, q[0].serial)] + t)[1..] == t && [] + t == t;
  }

  /** The timer: nothing joins the queue, and every frame sent again costs one of its own retries. */
  lemma {:induction false} RetriedMeasures(q: seq<Element>, expired: int, now: int, w: Which)
    requires AllRetriesOk(q)
    ensures Unacknowledged(Retried(q, expired, now)) <= Unacknowledged(q)
    ensures AllRetriesOk(Retried(q, expired, now))
    ensures Budget(Retried(q, expired, now), w) + Among(Resent(q, expired), w) == Budget(q, w)
    decreases |q|
  {
    if q != [] {
      var t := q[1..];
      assert q == [q[0]] + t;
      SplitMeasures([q[0]], t, w);
      OneMeasure(q[0], w);
      hide Unacknowledged;
      hide Budget;
      hide AllRetriesOk;
      RetriedHead(q, expired, now, w);
      RetriedMeasures(t, expired, now, w);
      OneSurvives(q[0], expired, now, w);
      SplitMeasures(Surviving(q[0], expired, now), Retried(t, expired, now), w);
      hide Retried;
      hide Resent;
      hide Among;
      hide Surviving;
    } else {
      OfNothing(w);
    }
  }

  lemma OfNothing(w: Which)
    ensures Unacknowledged([]) == 0 && Budget([], w) == 0 && AllRetriesOk([])
  {
  }

  /** One element retried in place. */
  lemma UpdateMeasures(q: seq<Element>, i: nat, el': Element, w: Which)
    requires i < |q| && el'.data == q[i].data && el'.serial == q[i].serial && RetriesOk(el')
    requires AllRetriesOk(q)
    ensures Unacknowledged(q[i := el']) == Unacknowledged(q)
    ensures AllRetriesOk(q[i := el'])
    ensures Budget(q[i := el'], w) == Budget(q, w) + if Counted(w, q[i].serial) then el'.txcount - q[i].txcount else 0
  {
    var el := q[i];
    assert q == q[..i] + [el] + q[i + 1..];
    assert q[i := el'] == q[..i] + [el'] + q[i + 1..];
    SplitMeasures(q[..i] + [el], q[i + 1..], w);
    SplitMeasures(q[..i], [el], w);
    SplitMeasures(q[..i] + [el'], q[i + 1..], w);
    SplitMeasures(q[..i], [el'], w);
    OneMeasure(el, w);
    OneMeasure(el', w);
    hide Unacknowledged;
    hide Budget;
  }

  // ---------------------------------------------------------------- the invariant

  /** SIBO (and an unknown peer) means 3-bit numbers and a window of 1, EPOC 11-bit numbers and 8. */
  predicate ModeOk(s: State) {
    && Sane(s)
    && s.seqMask == (if s.linkType == Epoc then MAX_SEQ else 7)
    && s.maxOutstanding == (if s.linkType == Epoc then 8 else 1)
    && Unacknowledged(s.ackWaitQueue) <= s.maxOutstanding
  }

  /** What a packet has been granted: nothing before it is queued. */
  function Granted(queued: seq<seq<byte>>, serial: nat): nat {
    if serial < |queued| then Allowance(queued[serial]) else 0
  }

  /** A packet's transmissions, and the retries it has left, are within what it was granted. */
  predicate BudgetOk(s: State, i: nat) {
    && AllRetriesOk(s.ackWaitQueue)
    && Sends(s.line, Only(i)) + Budget(s.ackWaitQueue, Only(i)) <= Granted(s.queued, i)
  }

  predicate Kept(s: State, i: nat) {
    ModeOk(s) && BudgetOk(s, i)
  }

  lemma AwaitKept(s: State, e: Env, seqNr: int, txcount: nat, data: seq<byte>, i: nat)
    requires Kept(s, i)
    requires RetriesOk(Element(seqNr, txcount, 0, data, 0))
    requires IsDataFrame(data) ==> |s.ackWaitQueue| < s.maxOutstanding
    ensures Kept(Await(s, e, seqNr, txcount, data), i)
  {
    var w, n := Only(i), |s.queued|;
    var el := Element(seqNr, txcount, e.clock(s.readings), data, n);
    BudgetNonNegative(s.ackWaitQueue, w);
    SplitMeasures(s.ackWaitQueue, [el], w);
    OneMeasure(el, w);
    OneMoreSent(s.line, Sent(data, s.linkType == Epoc, n), w);
    hide Unacknowledged;
    hide Budget;
    hide AllRetriesOk;
    hide Sends;
  }

  lemma SendAckKept(s: State, i: nat)
    requires Kept(s, i)
    ensures Kept(SendAck(s), i)
  {
    OneMoreSent(s.line, Sent(AckFrame(s.rxSequence), s.linkType == Epoc, ACK), Only(i));
    hide Unacknowledged;
    hide Budget;
    hide AllRetriesOk;
    hide Sends;
    hide AckFrame;
  }

  lemma HasFailedKept(s: State, k: nat)
    requires Kept(s, k)
    ensures Kept(HasFailed(s), k)
  {
  }

  lemma ReqKept(s: State, e: Env, k: nat)
    requires Kept(s, k)
    ensures Kept(SendReqReq(s, e), k) && Kept(SendReqCon(s, e), k)
  {
    var s1 := HasFailed(s);
    HasFailedKept(s, k);
    if !s1.failed {
      AwaitKept(s1, e, 0, CONNECT_RETRIES, [0x21], k);
      AwaitKept(s1, e, 0, CONNECT_RETRIES, [0x24] + e.magic, k);
    }
    hide Kept;
    hide Await;
  }

  lemma TransmitKept(s: State, e: Env, buf: seq<byte>, k: nat)
    requires Kept(s, k)
    ensures Kept(Transmit(s, e, buf), k)
  {
    hide Unacknowledged;
    hide Budget;
    hide AllRetriesOk;
    hide Sends;
    hide Granted;
    var s1 := HasFailed(s);
    if !s1.failed && ByteAt(buf, 0, e.stale) !in s1.xoff && |s1.ackWaitQueue| < s1.maxOutstanding {
      var n := s1.txSequence;
      var s2 := s1.(txSequence := Masked(n + 1, s1.seqMask),
                    numbered := s1.numbered + [Numbered(buf, e.clock(s1.readings))]);
      if buf == [] {
        AwaitKept(s2, e, n, CONNECT_RETRIES, RequestFrame(n), k);
      } else {
        assert IsDataFrame(DataFrame(n, buf));
        AwaitKept(s2, e, n, RETRIES, DataFrame(n, buf), k);
      }
    }
  }

  lemma {:induction false} TransmitAllKept(s: State, e: Env, bufs: seq<seq<byte>>, k: nat)
    requires Kept(s, k)
    ensures Kept(TransmitAll(s, e, bufs), k)
    decreases |bufs|
  {
    hide Transmit;
    hide Kept;
    if bufs != [] {
      TransmitKept(s, e, bufs[0], k);
      KeptSane(s, k);
      TransmitAllKept(Transmit(s, e, bufs[0]), e, bufs[1..], k);
    }
  }

  lemma KeptSane(s: State, k: nat)
    requires Kept(s, k)
    ensures Sane(s)
  {
  }

  /** Changing only the queue, to a smaller one. */
  lemma ShrunkKept(s: State, s': State, k: nat)
    requires Kept(s, k) && ModeOk(s'.(ackWaitQueue := []))
    requires s'.ackWaitQueue == []
             || (Shrinks(s.ackWaitQueue, s'.ackWaitQueue, Only(k)) && s.maxOutstanding <= s'.maxOutstanding)
    requires s'.line == s.line && s'.queued == s.queued
    ensures Kept(s', k)
  {
    BudgetNonNegative(s.ackWaitQueue, Only(k));
    OfNothing(Only(k));
    hide Unacknowledged;
    hide Budget;
    hide AllRetriesOk;
    hide Sends;
    hide Granted;
  }

  lemma DataKept(s: State, e: Env, number: nat, payload: seq<byte>, k: nat)
    requires Kept(s, k)
    ensures Kept(ReceiveData(s, e, number, payload), k)
  {
    hide BudgetOk;
    hide Unacknowledged;
    hide TransmitAll;
    hide SendAck;
    hide ForChannel;
    var next := Masked(s.rxSequence + 1, s.seqMask);
    if next == number {
      var s1 := s.(rxSequence := next, accepted := s.accepted + [payload]);
      SameCounts(s, s1, k);
      SendAckKept(s1, k);
      var s2 := SendAck(s1);
      DispatchKept(s2, e, payload, k);
      hide Dispatch;
    } else {
      SendAckKept(s, k);
    }
  }

  lemma SameCounts(s: State, s': State, k: nat)
    requires BudgetOk(s, k)
    requires s'.line == s.line && s'.queued == s.queued && s'.ackWaitQueue == s.ackWaitQueue
    ensures BudgetOk(s', k)
  {
  }

  lemma DispatchKept(s: State, e: Env, payload: seq<byte>, k: nat)
    requires Kept(s, k)
    ensures Kept(Dispatch(s, e, payload), k)
  {
    hide BudgetOk;
    hide Unacknowledged;
    hide TransmitAll;
    hide ForChannel;
    if |payload| == 3 && payload[0] == 0 && payload[2] == 2 {
      var c := payload[1];
      var s1 := s.(xoff := s.xoff - {c});
      var s2 := s1.(holdQueue := ForChannel(s1.holdQueue, c, e.stale, false));
      SameCounts(s, s2, k);
      TransmitAllKept(s2, e, ForChannel(s1.holdQueue, c, e.stale, true), k);
    } else {
      SameCounts(s, Dispatch(s, e, payload), k);
    }
  }

  lemma ShrinksTwice(q: seq<Element>, q': seq<Element>, q'': seq<Element>, w: Which)
    requires Shrinks(q, q', w) && Shrinks(q', q'', w)
    ensures Shrinks(q, q'', w)
  {
    hide Unacknowledged;
    hide Budget;
    hide AllRetriesOk;
  }

  /** What an acknowledgement leaves: a smaller queue, and the numbers of a SIBO link if the peer was unknown. */
  lemma AckFoundLeaves(s: State, i: nat)
    requires ModeOk(s) && i < |s.ackWaitQueue|
    ensures var s', q := AckFound(s, i), s.ackWaitQueue;
            && ModeOk(s'.(ackWaitQueue := []))
            && (s'.ackWaitQueue == []
                || (s'.ackWaitQueue == NotOlder(Erase(q, i), q[i].stamp) && s'.maxOutstanding == s.maxOutstanding))
            && s'.line == s.line && s'.queued == s.queued
  {
    hide Erase;
    hide NotOlder;
    var q := s.ackWaitQueue;
    NothingNotOlder(q[i].stamp);
    OfNothing(Any);
    if s.linkType == UnknownLink && q[i].seqNr == 0 {
      assert AckFound(s, i) == PurgeAllQueues(SetLink(s, Sibo).(rxSequence := 0, txSequence := 1));
    } else {
      assert AckFound(s, i) == s.(ackWaitQueue := NotOlder(Erase(q, i), q[i].stamp));
    }
  }

  lemma AckFoundKept(s: State, i: nat, k: nat)
    requires Kept(s, k) && i < |s.ackWaitQueue|
    ensures Kept(AckFound(s, i), k)
  {
    var q, ref := s.ackWaitQueue, s.ackWaitQueue[i];
    AckFoundLeaves(s, i);
    EraseShrinks(q, i, Only(k));
    NotOlderShrinks(Erase(q, i), ref.stamp, Only(k));
    ShrinksTwice(q, Erase(q, i), NotOlder(Erase(q, i), ref.stamp), Only(k));
    KeptSane(s, k);
    hide *;
    ShrunkKept(s, AckFound(s, i), k);
  }

  lemma NothingNotOlder(ref: int)
    ensures NotOlder([], ref) == []
  {
  }

  lemma ResentKept(s: State, i: nat, now: int, k: nat)
    requires Kept(s, k) && i < |s.ackWaitQueue| && s.ackWaitQueue[i].txcount != 0
    ensures var el := s.ackWaitQueue[i];
            var q := s.ackWaitQueue[i := el.(txcount := el.txcount - 1, stamp := now)];
            Kept(Emit(s.(readings := s.readings + 1, ackWaitQueue := q), Frame(el.data, el.serial)), k)
  {
    var q, el := s.ackWaitQueue, s.ackWaitQueue[i];
    assert RetriesOk(el);
    UpdateMeasures(q, i, el.(txcount := el.txcount - 1, stamp := now), Only(k));
    OneMoreSent(s.line, Sent(el.data, s.linkType == Epoc, el.serial), Only(k));
    hide Unacknowledged;
    hide Budget;
    hide AllRetriesOk;
    hide Sends;
    hide Granted;
    hide Counted;
  }

  lemma DroppedKept(s: State, i: nat, k: nat)
    requires Kept(s, k) && i < |s.ackWaitQueue|
    ensures Kept(s.(readings := s.readings + 1, ackWaitQueue := Erase(s.ackWaitQueue, i), gaveUp := s.gaveUp + 1), k)
  {
    OfNothing(Only(k));
    EraseShrinks(s.ackWaitQueue, i, Only(k));
    hide BudgetOk;
    hide Unacknowledged;
    hide Shrinks;
    hide Erase;
    ShrunkKept(s, s.(readings := s.readings + 1, ackWaitQueue := Erase(s.ackWaitQueue, i), gaveUp := s.gaveUp + 1), k);
  }

  lemma NothingChangedKept(s: State, k: nat)
    requires Kept(s, k)
    ensures Kept(s.(readings := s.readings + 1), k)
  {
  }

  lemma AckUnmatchedKept(s: State, e: Env, number: nat, k: nat)
    requires Kept(s, k)
    ensures Kept(AckUnmatched(s, e, number), k)
  {
    var i := Find(s.ackWaitQueue, number + 1);
    hide Kept;
    hide Emit;
    hide Erase;
    NothingChangedKept(s, k);
    if i < |s.ackWaitQueue| {
      if s.ackWaitQueue[i].txcount != 0 {
        ResentKept(s, i, e.clock(s.readings), k);
      } else {
        DroppedKept(s, i, k);
      }
    }
    hide Find;
  }

  lemma AckKept(s: State, e: Env, number: nat, k: nat)
    requires Kept(s, k)
    ensures Kept(ReceiveAck(s, e, number), k)
  {
    hide AckFound;
    hide AckUnmatched;
    hide TransmitAll;
    hide BudgetOk;
    hide Unacknowledged;
    var i := Find(s.ackWaitQueue, number);
    if i < |s.ackWaitQueue| {
      AckFoundKept(s, i, k);
      var s1 := AckFound(s, i);
      SameCounts(s1, s1.(waitQueue := []), k);
      TransmitAllKept(s1.(waitQueue := []), e, s1.waitQueue, k);
    } else {
      AckUnmatchedKept(s, e, number, k);
    }
  }

  lemma NewLinkKept(s: State, e: Env, number: nat, k: nat)
    requires Kept(s, k)
    ensures Kept(ReceiveNewLink(s, e, number), k)
  {
    hide SendAck;
    hide SendReqCon;
    hide Unacknowledged;
    hide Budget;
    hide AllRetriesOk;
    hide Sends;
    hide Granted;
    hide Erase;
    OfNothing(Only(k));
    var i := FindReqReq(s.ackWaitQueue, e.stale);
    if number > 3 && i < |s.ackWaitQueue| {
      EraseShrinks(s.ackWaitQueue, i, Only(k));
      var s1 := SetLink(s.(ackWaitQueue := Erase(s.ackWaitQueue, i)), Epoc).(rxSequence := 0, txSequence := 1);
      ShrunkKept(s, s1, k);
      SendAckKept(s1, k);
    } else if number > 0 {
      ReqKept(SetLink(s, Epoc).(rxSequence := 0, txSequence := 0), e, k);
    } else {
      var s1 := PurgeAllQueues(SetLink(s, Sibo).(rxSequence := 0, txSequence := 1));
      ShrunkKept(s, s1, k);
      SendAckKept(s1, k);
    }
  }

  lemma {:induction false} EmitAllLine(s: State, frames: seq<Frame>)
    ensures |EmitAll(s, frames).line| == |s.line| + |frames|
    ensures EmitAll(s, frames) == s.(line := EmitAll(s, frames).line)
    decreases |frames|
  {
    if frames != [] {
      EmitAllLine(Emit(s, frames[0]), frames[1..]);
    }
  }

  lemma {:induction false} EmitAllSends(s: State, frames: seq<Frame>, w: Which)
    ensures Sends(EmitAll(s, frames).line, w) == Sends(s.line, w) + Among(frames, w)
    decreases |frames|
  {
    if frames != [] {
      OneMoreSent(s.line, Sent(frames[0].data, s.linkType == Epoc, frames[0].serial), w);
      hide Sends;
      hide Counted;
      EmitAllSends(Emit(s, frames[0]), frames[1..], w);
    }
  }

  /** The timer: each packet's transmissions are paid for by its retries. */
  lemma TimerCosts(s: State, e: Env, expired: int, w: Which)
    requires AllRetriesOk(s.ackWaitQueue)
    ensures var s' := Retransmit(s, e, expired);
            && AllRetriesOk(s'.ackWaitQueue) && Unacknowledged(s'.ackWaitQueue) <= Unacknowledged(s.ackWaitQueue)
            && Sends(s'.line, w) + Budget(s'.ackWaitQueue, w) <= Sends(s.line, w) + Budget(s.ackWaitQueue, w)
            && s' == s.(line := s'.line, ackWaitQueue := s'.ackWaitQueue, failed := s'.failed, readings := s'.readings,
                        holdQueue := s'.holdQueue)
  {
    var s1 := HasFailed(s);
    BudgetNonNegative(s.ackWaitQueue, w);
    OfNothing(w);
    hide Unacknowledged;
    hide Budget;
    hide AllRetriesOk;
    hide Sends;
    if !s1.failed {
      var q, now := s1.ackWaitQueue, e.clock(s1.readings);
      RetriedMeasures(q, expired, now, w);
      var s2 := s1.(readings := s1.readings + 1, failed := TimedOut(q, expired),
                    ackWaitQueue := Retried(q, expired, now));
      EmitAllLine(s2, Resent(q, expired));
      EmitAllSends(s2, Resent(q, expired), w);
      hide Retried;
      hide Resent;
      hide EmitAll;
      hide TimedOut;
      hide Among;
    }
  }

  lemma TimerKept(s: State, e: Env, expired: int, k: nat)
    requires Kept(s, k)
    ensures Kept(Retransmit(s, e, expired), k)
  {
    TimerCosts(s, e, expired, Only(k));
    hide Retransmit;
    hide Unacknowledged;
    hide Budget;
    hide AllRetriesOk;
    hide Sends;
    hide Granted;
  }

  lemma ApplyKept(s: State, e: Env, op: Op, k: nat)
    requires Kept(s, k)
    ensures Kept(Apply(s, e, op), k)
  {
    hide Unacknowledged;
    hide BudgetOk;
    match op {
      case Submit(buf) =>
        hide Transmit;
        TransmitKept(s, e, buf, k);
        SameCounts(s, s.(failed := true), k);
      case Arrive(frame) =>
        hide ReceiveData;
        hide ReceiveAck;
        hide ReceiveNewLink;
        match Decode(frame, e.stale) {
          case Data(number, payload) => DataKept(s, e, number, payload, k);
          case Ack(number) => AckKept(s, e, number, k);
          case NewLink(number) => NewLinkKept(s, e, number, k);
          case Disconnect => SameCounts(s, s.(failed := true), k);
          case Unknown =>
        }
      case Timer(expired) =>
        hide Retransmit;
        TimerKept(s, e, expired, k);
      case LineStatus(down) =>
        SameCounts(s, s.(lineDown := down), k);
      case DoReset =>
        hide SendReqReq;
        OfNothing(Only(k));
        ShrunkKept(s, Cleared(s), k);
        ReqKept(Cleared(s), e, k);
      case Purge(channel) =>
        OfNothing(Only(k));
        WithoutFirstByteShrinks(s.ackWaitQueue, channel, e.stale, Only(k));
        hide WithoutFirstByte;
        hide ForChannel;
        ShrunkKept(s, PurgeQueue(s, e, channel), k);
    }
  }

  lemma ApplySane(s: State, e: Env, op: Op)
    requires Sane(s)
    ensures Sane(Apply(s, e, op))
  {
    if op.Timer? {
      var s1 := HasFailed(s);
      var q := s1.ackWaitQueue;
      EmitAllLine(s1.(readings := s1.readings + 1, failed := TimedOut(q, op.expired),
                      ackWaitQueue := Retried(q, op.expired, e.clock(s1.readings))), Resent(q, op.expired));
      hide TimedOut;
      hide Retried;
      hide Resent;
      hide EmitAll;
    } else {
      hide Send;
      hide Receive;
      hide Reset;
      hide PurgeQueue;
    }
  }

  function RunLink(s: State, e: Env, ops: seq<Op>): (s': State)
    requires Sane(s)
    ensures Sane(s')
    decreases |ops|
  {
    if ops == [] then s
    else
      ApplySane(s, e, ops[0]);
      RunLink(Apply(s, e, ops[0]), e, ops[1..])
  }

  lemma {:induction false} RunKept(s: State, e: Env, ops: seq<Op>, k: nat)
    requires Kept(s, k)
    ensures Kept(RunLink(s, e, ops), k)
    decreases |ops|
  {
    KeptSane(s, k);
    if ops != [] {
      ApplyKept(s, e, ops[0], k);
      ApplySane(s, e, ops[0]);
      hide Apply;
      hide Kept;
      RunKept(Apply(s, e, ops[0]), e, ops[1..], k);
    }
  }

  lemma InitialKept(e: Env, k: nat)
    ensures Kept(Initial(e), k)
  {
    OfNothing(Only(k));
    ReqKept(State(1, -1, 7, 1, false, UnknownLink, [], [], [], {}, false, 0, [], [], [], [], 0, []), e, k);
  }

  /**
   * In every run from the start of a link, whatever arrives: mode, numbers and window agree, and no packet
   * has fewer than no retries left.
   */
  lemma EveryRunKept(e: Env, ops: seq<Op>)
    ensures Sane(Initial(e))
    ensures ModeOk(RunLink(Initial(e), e, ops)) && AllRetriesOk(RunLink(Initial(e), e, ops).ackWaitQueue)
  {
    InitialKept(e, 0);
    RunKept(Initial(e), e, ops, 0);
    hide RunLink;
    hide Initial;
    hide Unacknowledged;
  }

  /**
   * In every such run the packet queued k-th is sent at most 1 + 8 times if it is a data packet, at most
   * 1 + 4 times if it is a handshake packet, and not at all before it is queued.
   */
  lemma TransmissionsAreBounded(e: Env, ops: seq<Op>, k: nat)
    requires Sane(Initial(e))
    ensures var s := RunLink(Initial(e), e, ops);
            Sends(s.line, Only(k)) <= if k < |s.queued| then Allowance(s.queued[k]) else 0
  {
    InitialKept(e, k);
    RunKept(Initial(e), e, ops, k);
    hide RunLink;
    hide Initial;
    BudgetNonNegative(RunLink(Initial(e), e, ops).ackWaitQueue, Only(k));
    hide Allowance;
    hide Unacknowledged;
    hide Sends;
    hide Budget;
  }

  /** Timers alone, without new input, send at most eight frames per queued packet, however often they fire. */
  lemma {:induction false} TimersAreBounded(s: State, e: Env, ops: seq<Op>, w: Which)
    requires Sane(s) && AllRetriesOk(s.ackWaitQueue) && forall i :: 0 <= i < |ops| ==> ops[i].Timer?
    ensures AllRetriesOk(RunLink(s, e, ops).ackWaitQueue)
    ensures Sends(RunLink(s, e, ops).line, w) + Budget(RunLink(s, e, ops).ackWaitQueue, w)
         <= Sends(s.line, w) + Budget(s.ackWaitQueue, w)
    ensures Sends(RunLink(s, e, ops).line, w) <= Sends(s.line, w) + RETRIES * |s.ackWaitQueue|
    decreases |ops|
  {
    hide Retransmit;
    hide Budget;
    hide Sends;
    hide AllRetriesOk;
    hide Unacknowledged;
    BudgetNonNegative(s.ackWaitQueue, w);
    if ops != [] {
      var s1 := Apply(s, e, ops[0]);
      TimerCosts(s, e, ops[0].expired, w);
      ApplySane(s, e, ops[0]);
      TimersAreBounded(s1, e, ops[1..], w);
      BudgetNonNegative(RunLink(s, e, ops).ackWaitQueue, w);
    }
  }
}
