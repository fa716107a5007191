/**
 * Why the numbering of lib/link.cc is safe: the state of one direction of a link, as plain values.
 *
 * Packets are numbered 1, 2, 3, ... in the order `transmit` numbers them; on the wire only the number modulo m
 * travels.  `Core` says how far from the number the receiver expects everything in flight may be: acknowledgements
 * so close that `Idx` recovers the full number, data packets less than m behind.
 */
module Window {
  import opened Bytes
  import opened Packets
  import opened LinkSpec

  /**
   * Numbers are taken modulo m; a packet is sent again only while it is at most d behind the next number; the
   * sender is at most `lead` (and what is queued) ahead of what is acknowledged; the window is w.
   */
  datatype Params = Params(m: nat, d: nat, lead: nat, w: nat)

  /** How many packets an EPOC session may give up, on each side, and still be safe. */
  const GIVEUPS: nat := 1990

  const SIBO: Params := Params(8, 1, 1, 1)
  const EPOC: Params := Params(2048, 2047, 65, 8)

  predicate Fits(p: Params) {
    p == SIBO || p == EPOC
  }

  /** The sending side: what has been numbered, what awaits acknowledgement; packet 1 has serial `base`. */
  datatype Sender = Sender(numbered: seq<Numbered>, queue: seq<Element>, failed: bool, base: int) {
    function Next(): nat { |numbered| + 1 }
  }

  // ---------------------------------------------------------------- full numbers

  /** The largest number below `next` that is congruent to n modulo m. */
  function Idx(m: nat, next: nat, n: nat): int
    requires m == 8 || m == 2048
  {
    next - 1 - (next - 1 - n) % m
  }

  lemma IdxRange(m: nat, next: nat, n: nat)
    requires (m == 8 || m == 2048) && n < m
    ensures next - m <= Idx(m, next, n) < next && Idx(m, next, n) % m == n
  {
    if m == 8 {
    } else {
    }
  }

  lemma IdxUnique(m: nat, next: nat, n: nat, k: int)
    requires (m == 8 || m == 2048) && n < m
    requires next - m <= k < next && k % m == n
    ensures Idx(m, next, n) == k
  {
    var d := next - 1 - k;
    if m == 8 {
      var q := k / 8;
      assert next - 1 - n == d + 8 * q;
      assert (d + 8 * q) % 8 == d;
    } else {
      var q := k / 2048;
      assert next - 1 - n == d + 2048 * q;
      assert (d + 2048 * q) % 2048 == d;
    }
  }

  /** A number keeps its meaning when the next packet is numbered, unless it is the one reused. */
  lemma IdxStable(m: nat, next: nat, n: nat)
    requires (m == 8 || m == 2048) && n < m
    requires Idx(m, next, n) > next - m
    ensures Idx(m, next + 1, n) == Idx(m, next, n)
  {
    hide Idx;
    IdxRange(m, next, n);
    IdxUnique(m, next + 1, n, Idx(m, next, n));
  }

  lemma ModSucc(m: nat, k: nat)
    requires m == 8 || m == 2048
    ensures (k % m + 1) % m == (k + 1) % m
  {
  }

  // ---------------------------------------------------------------- the invariant

  /** The full number of a queued element. */
  function ElementIdx(x: Sender, el: Element): int {
    el.serial - x.base + 1
  }

  /** Number n and the payload are those of packet t. */
  predicate Carried(p: Params, x: Sender, t: int, n: nat, payload: seq<byte>)
    requires Fits(p)
  {
    1 <= t <= |x.numbered| && n == t % p.m && payload == x.numbered[t - 1].payload
  }

  predicate Queued(p: Params, x: Sender, el: Element)
    requires Fits(p)
  {
    var k := ElementIdx(x, el);
    && 0 <= el.txcount <= RETRIES && 1 <= k <= |x.numbered| && el.seqNr == k % p.m
    && el.data == DataFrame(el.seqNr, x.numbered[k - 1].payload)
    && (el.txcount > 0 || p == SIBO ==> x.Next() <= k + p.d)
  }

  ghost predicate QueueOk(p: Params, x: Sender)
    requires Fits(p)
  {
    && |x.queue| <= p.w
    && forall el :: el in x.queue ==> Queued(p, x, el)
  }

  /** next is the number the receiver expects: the sender is not too far ahead of it. */
  predicate Lag(p: Params, x: Sender, next: nat)
    requires Fits(p)
  {
    && next <= x.Next() <= next + p.lead + p.w
    && (!x.failed ==> x.Next() <= next + p.lead + |x.queue|)
  }

  /** A data packet in flight, its full number being t. */
  predicate InFlight(p: Params, x: Sender, next: nat, f: Packet, t: int)
    requires Fits(p)
  {
    f.Data? && Carried(p, x, t, f.number, f.payload) && next <= t + p.d
  }

  /** The data packets in flight, their full numbers being ts; none is far behind one that is ahead on the line. */
  ghost predicate DataWith(p: Params, x: Sender, next: nat, data: seq<Packet>, ts: seq<int>)
    requires Fits(p)
  {
    && |ts| == |data|
    && (forall i :: 0 <= i < |data| ==> InFlight(p, x, next, data[i], ts[i]))
    && (forall i, j :: 0 <= i < j < |ts| ==> ts[i] < ts[j] + p.d)
  }

  ghost predicate DataOk(p: Params, x: Sender, next: nat, data: seq<Packet>)
    requires Fits(p)
  {
    exists ts :: DataWith(p, x, next, data, ts)
  }

  /** An acknowledgement in flight. */
  predicate AckInFlight(p: Params, x: Sender, next: nat, n: nat)
    requires Fits(p)
  {
    var k := Idx(p.m, x.Next(), n);
    && n < p.m && 0 <= k < next
    && x.Next() <= k + p.lead + 1 + p.w
    && (!x.failed ==> x.Next() <= k + p.lead + 1 + |x.queue|)
  }

  ghost predicate AcksOk(p: Params, x: Sender, next: nat, acks: seq<nat>)
    requires Fits(p)
  {
    && (forall i :: 0 <= i < |acks| ==> AckInFlight(p, x, next, acks[i]))
    && (forall i, j :: 0 <= i < j < |acks| ==> Idx(p.m, x.Next(), acks[i]) <= Idx(p.m, x.Next(), acks[j]))
  }

  /** What was accepted is the beginning of what was numbered. */
  predicate IsPrefix(accepted: seq<seq<byte>>, numbered: seq<Numbered>) {
    && |accepted| <= |numbered|
    && forall i :: 0 <= i < |accepted| ==> accepted[i] == numbered[i].payload
  }

  ghost predicate Core(p: Params, x: Sender, accepted: seq<seq<byte>>, data: seq<Packet>, acks: seq<nat>)
    requires Fits(p)
  {
    var next := |accepted| + 1;
    && QueueOk(p, x)
    && IsPrefix(accepted, x.numbered)
    && Lag(p, x, next)
    && DataOk(p, x, next, data)
    && AcksOk(p, x, next, acks)
  }

  lemma CoreStart(p: Params, base: int)
    requires Fits(p)
    ensures Core(p, Sender([], [], false, base), [], [], [])
  {
    assert DataWith(p, Sender([], [], false, base), 1, [], []);
  }

  // ---------------------------------------------------------------- steps of the sender

  /** Packet `Next` has been numbered and queued as el. */
  ghost predicate Numbers(p: Params, x: Sender, x': Sender, el: Element, packet: Numbered)
    requires Fits(p)
  {
    && !x.failed && |x.queue| < p.w && x' == Sender(x.numbered + [packet], x.queue + [el], false, x.base)
    && ElementIdx(x, el) == x.Next() && el.seqNr == x.Next() % p.m && el.txcount == RETRIES
    && el.data == DataFrame(el.seqNr, packet.payload)
  }

  lemma NumberQueue(p: Params, x: Sender, x': Sender, el: Element, packet: Numbered)
    requires Fits(p) && QueueOk(p, x) && Numbers(p, x, x', el, packet)
    requires forall q :: q in x.queue && q.txcount > 0 ==> x.Next() + 1 <= ElementIdx(x, q) + p.d
    ensures QueueOk(p, x')
  {
    hide DataFrame;
    forall q | q in x'.queue ensures Queued(p, x', q) {
      if q in x.queue {
        assert Queued(p, x, q);
      }
    }
  }

  lemma NumberData(p: Params, x: Sender, x': Sender, next: nat, data: seq<Packet>, el: Element, packet: Numbered)
    requires Fits(p) && Lag(p, x, next) && DataOk(p, x, next, data) && Numbers(p, x, x', el, packet)
    ensures DataOk(p, x', next, data + [Data(el.seqNr, packet.payload)])
  {
    hide DataFrame;
    var ts :| DataWith(p, x, next, data, ts);
    var data', ts' := data + [Data(el.seqNr, packet.payload)], ts + [x.Next()];
    forall i | 0 <= i < |data'| ensures InFlight(p, x', next, data'[i], ts'[i]) {
      if i < |data| {
        assert InFlight(p, x, next, data[i], ts[i]);
      }
    }
    forall i, j | 0 <= i < j < |ts'| ensures ts'[i] < ts'[j] + p.d {
      assert InFlight(p, x, next, data[i], ts[i]);
    }
    assert DataWith(p, x', next, data', ts');
  }

  lemma NumberAcks(p: Params, x: Sender, x': Sender, next: nat, acks: seq<nat>, el: Element, packet: Numbered)
    requires Fits(p) && AcksOk(p, x, next, acks) && Numbers(p, x, x', el, packet)
    ensures AcksOk(p, x', next, acks)
    ensures forall i :: 0 <= i < |acks| ==> Idx(p.m, x'.Next(), acks[i]) == Idx(p.m, x.Next(), acks[i])
  {
    hide Idx;
    hide DataFrame;
    forall i | 0 <= i < |acks|
      ensures AckInFlight(p, x', next, acks[i]) && Idx(p.m, x'.Next(), acks[i]) == Idx(p.m, x.Next(), acks[i])
    {
      assert AckInFlight(p, x, next, acks[i]);
      IdxStable(p.m, x.Next(), acks[i]);
    }
  }

  lemma NumberPrefix(p: Params, x: Sender, x': Sender, accepted: seq<seq<byte>>, el: Element, packet: Numbered)
    requires Fits(p) && IsPrefix(accepted, x.numbered) && Lag(p, x, |accepted| + 1) && Numbers(p, x, x', el, packet)
    ensures IsPrefix(accepted, x'.numbered) && Lag(p, x', |accepted| + 1)
  {
    hide DataFrame;
  }

  /** `transmit` numbers a packet, given that every queued one that may be sent again stays within reach. */
  lemma CoreNumber(p: Params, x: Sender, x': Sender, accepted: seq<seq<byte>>, data: seq<Packet>, acks: seq<nat>,
                   el: Element, packet: Numbered)
    requires Fits(p) && Core(p, x, accepted, data, acks) && Numbers(p, x, x', el, packet)
    requires forall q :: q in x.queue && q.txcount > 0 ==> x.Next() + 1 <= ElementIdx(x, q) + p.d
    ensures Core(p, x', accepted, data + [Data(el.seqNr, packet.payload)], acks)
  {
    var next := |accepted| + 1;
    NumberQueue(p, x, x', el, packet);
    NumberData(p, x, x', next, data, el, packet);
    NumberAcks(p, x, x', next, acks, el, packet);
    NumberPrefix(p, x, x', accepted, el, packet);
    hide QueueOk;
    hide DataOk;
    hide AcksOk;
    hide Lag;
    hide IsPrefix;
    hide Numbers;
  }

  /** q' is an element of the queue, possibly sent again since. */
  ghost predicate Stems(queue: seq<Element>, q': Element) {
    exists q :: q in queue && SentMore(q, q')
  }

  predicate SentMore(q: Element, q': Element) {
    q'.seqNr == q.seqNr && q'.data == q.data && q'.serial == q.serial && 0 <= q'.txcount <= q.txcount
  }

  /** What is in flight depends on what has been numbered only. */
  lemma SameNumbered(p: Params, x: Sender, x': Sender, next: nat, data: seq<Packet>)
    requires Fits(p) && DataOk(p, x, next, data) && x'.numbered == x.numbered
    ensures DataOk(p, x', next, data)
  {
    var ts :| DataWith(p, x, next, data, ts);
    assert forall i :: 0 <= i < |data| ==>
             InFlight(p, x, next, data[i], ts[i]) && InFlight(p, x', next, data[i], ts[i]);
    assert DataWith(p, x', next, data, ts);
  }

  /**
   * The queue changes without packets being numbered: elements are re-stamped, or removed when the
   * link fails at the same time.
   */
  lemma CoreQueue(p: Params, x: Sender, x': Sender, accepted: seq<seq<byte>>, data: seq<Packet>, acks: seq<nat>)
    requires Fits(p) && Core(p, x, accepted, data, acks)
    requires x'.numbered == x.numbered && x'.base == x.base && |x'.queue| <= |x.queue|
    requires x.failed ==> x'.failed
    requires |x'.queue| == |x.queue| || x'.failed
    requires forall q' :: q' in x'.queue ==> Stems(x.queue, q')
    ensures Core(p, x', accepted, data, acks)
  {
    var next := |accepted| + 1;
    SameNumbered(p, x, x', next, data);
    StemsQueued(p, x, x');
    assert AcksOk(p, x', next, acks) by {
      hide Idx;
      assert forall i :: 0 <= i < |acks| ==> AckInFlight(p, x, next, acks[i]) && AckInFlight(p, x', next, acks[i]);
    }
    hide AcksOk;
    hide DataOk;
    hide QueueOk;
  }

  lemma StemsQueued(p: Params, x: Sender, x': Sender)
    requires Fits(p) && QueueOk(p, x) && x'.numbered == x.numbered && x'.base == x.base && |x'.queue| <= |x.queue|
    requires forall q' :: q' in x'.queue ==> Stems(x.queue, q')
    ensures QueueOk(p, x')
  {
    hide DataFrame;
    forall q' | q' in x'.queue ensures Queued(p, x', q') {
      var q :| q in x.queue && SentMore(q, q');
      assert Queued(p, x, q);
    }
  }

  /** A packet that was queued and had retries left is sent again. */
  lemma CoreResend(p: Params, x: Sender, accepted: seq<seq<byte>>, data: seq<Packet>, acks: seq<nat>, el: Element)
    requires Fits(p) && Core(p, x, accepted, data, acks)
    requires el in x.queue && x.Next() <= ElementIdx(x, el) + p.d
    ensures 1 <= ElementIdx(x, el) <= |x.numbered|
    ensures el.data == DataFrame(el.seqNr, x.numbered[ElementIdx(x, el) - 1].payload)
    ensures Core(p, x, accepted, data + [Data(el.seqNr, x.numbered[ElementIdx(x, el) - 1].payload)], acks)
  {
    hide AcksOk;
    hide DataFrame;
    var next, k := |accepted| + 1, ElementIdx(x, el);
    assert Queued(p, x, el);
    var ts :| DataWith(p, x, next, data, ts);
    var data', ts' := data + [Data(el.seqNr, x.numbered[k - 1].payload)], ts + [k];
    assert InFlight(p, x, next, Data(el.seqNr, x.numbered[k - 1].payload), k);
    forall i, j | 0 <= i < j < |ts'| ensures ts'[i] < ts'[j] + p.d {
      assert InFlight(p, x, next, data[i], ts[i]);
    }
    assert DataWith(p, x, next, data', ts');
  }

  /**
   * An acknowledgement that equals the number of a queued element, or is one less (ahead 1), means that element or
   * one a whole round later; so the receiver had reached it.
   */
  lemma AckMeansPacket(p: Params, x: Sender, accepted: seq<seq<byte>>, data: seq<Packet>, acks: seq<nat>,
                       el: Element, ahead: nat)
    requires Fits(p) && Core(p, x, accepted, data, acks)
    requires acks != [] && el in x.queue && el.seqNr == acks[0] + ahead && ahead <= 1
    ensures var a, k := Idx(p.m, x.Next(), acks[0]) + ahead, ElementIdx(x, el); k == a || k <= a - p.m
    ensures ElementIdx(x, el) <= |accepted| + ahead
  {
    hide DataFrame;
    hide Idx;
    var a := Idx(p.m, x.Next(), acks[0]);
    assert Queued(p, x, el) && AckInFlight(p, x, |accepted| + 1, acks[0]);
    IdxRange(p.m, x.Next(), acks[0]);
    if ahead == 1 {
      ModSuccAt(p.m, a, acks[0]);
    }
    Congruent(p.m, ElementIdx(x, el), a + ahead);
  }

  lemma Congruent(m: nat, k: int, a: int)
    requires (m == 8 || m == 2048) && k % m == a % m && k < a + m
    ensures k == a || k <= a - m
  {
    if m == 8 {
    } else {
    }
  }

  lemma ModSuccAt(m: nat, k: int, n: nat)
    requires (m == 8 || m == 2048) && k % m == n && n + 1 < m
    ensures (k + 1) % m == n + 1
  {
    if m == 8 {
    } else {
    }
  }

  /** An acknowledgement is consumed, and elements leave the queue; it must not be too far behind the sender. */
  lemma CoreAcked(p: Params, x: Sender, x': Sender, accepted: seq<seq<byte>>, data: seq<Packet>, acks: seq<nat>)
    requires Fits(p) && Core(p, x, accepted, data, acks) && acks != []
    requires x'.numbered == x.numbered && x'.base == x.base && x'.failed == x.failed && |x'.queue| <= |x.queue|
    requires forall q :: q in x'.queue ==> q in x.queue
    requires !x.failed ==> x.Next() <= Idx(p.m, x.Next(), acks[0]) + p.lead + 1
    ensures Core(p, x', accepted, data, acks[1..])
  {
    var next := |accepted| + 1;
    SameNumbered(p, x, x', next, data);
    assert QueueOk(p, x') by {
      hide DataFrame;
      assert forall q :: q in x'.queue ==> Queued(p, x, q) && Queued(p, x', q);
    }
    AckedAcks(p, x, x', next, acks);
    hide Idx;
    hide QueueOk;
    hide DataOk;
    assert AckInFlight(p, x, next, acks[0]);
    hide AcksOk;
  }

  lemma AckedAcks(p: Params, x: Sender, x': Sender, next: nat, acks: seq<nat>)
    requires Fits(p) && AcksOk(p, x, next, acks) && acks != []
    requires x'.numbered == x.numbered && x'.failed == x.failed && |x'.queue| <= |x.queue|
    requires !x.failed ==> x.Next() <= Idx(p.m, x.Next(), acks[0]) + p.lead + 1
    ensures AcksOk(p, x', next, acks[1..])
  {
    hide Idx;
    var rest := acks[1..];
    forall i | 0 <= i < |rest| ensures AckInFlight(p, x', next, rest[i]) {
      assert rest[i] == acks[i + 1] && AckInFlight(p, x, next, acks[i + 1]);
      assert Idx(p.m, x.Next(), acks[0]) <= Idx(p.m, x.Next(), acks[i + 1]);
    }
    forall i, j | 0 <= i < j < |rest| ensures Idx(p.m, x'.Next(), rest[i]) <= Idx(p.m, x'.Next(), rest[j]) {
      assert rest[i] == acks[i + 1] && rest[j] == acks[j + 1];
    }
  }

  // ---------------------------------------------------------------- the line, and the receiver

  /** The line may lose any data packet, or any acknowledgement. */
  lemma CoreLoseData(p: Params, x: Sender, accepted: seq<seq<byte>>, data: seq<Packet>, acks: seq<nat>, i: nat)
    requires Fits(p) && Core(p, x, accepted, data, acks) && i < |data|
    ensures Core(p, x, accepted, Erase(data, i), acks)
  {
    hide AcksOk;
    hide QueueOk;
    hide InFlight;
    var next := |accepted| + 1;
    var ts :| DataWith(p, x, next, data, ts);
    var data', ts' := Erase(data, i), Erase(ts, i);
    forall j | 0 <= j < |data'| ensures InFlight(p, x, next, data'[j], ts'[j]) {
      var j' := if j < i then j else j + 1;
      assert data'[j] == data[j'] && ts'[j] == ts[j'];
    }
    forall j, k | 0 <= j < k < |ts'| ensures ts'[j] < ts'[k] + p.d {
      var j', k' := if j < i then j else j + 1, if k < i then k else k + 1;
      assert ts'[j] == ts[j'] && ts'[k] == ts[k'];
    }
    assert DataWith(p, x, next, data', ts');
  }

  lemma CoreLoseAck(p: Params, x: Sender, accepted: seq<seq<byte>>, data: seq<Packet>, acks: seq<nat>, i: nat)
    requires Fits(p) && Core(p, x, accepted, data, acks) && i < |acks|
    ensures Core(p, x, accepted, data, Erase(acks, i))
  {
    hide Idx;
    hide DataOk;
    hide QueueOk;
    var next := |accepted| + 1;
    var acks' := Erase(acks, i);
    forall j | 0 <= j < |acks'| ensures AckInFlight(p, x, next, acks'[j]) {
      assert AckInFlight(p, x, next, acks[if j < i then j else j + 1]);
    }
    forall j, k | 0 <= j < k < |acks'| ensures Idx(p.m, x.Next(), acks'[j]) <= Idx(p.m, x.Next(), acks'[k]) {
      var j', k' := if j < i then j else j + 1, if k < i then k else k + 1;
      assert acks'[j] == acks[j'] && acks'[k] == acks[k'];
    }
  }

  /** The receiver takes a packet whose number it expects: it is the next one, and the right one. */
  lemma CoreAccept(p: Params, x: Sender, accepted: seq<seq<byte>>, data: seq<Packet>, acks: seq<nat>)
    requires Fits(p) && Core(p, x, accepted, data, acks)
    requires data != [] && data[0].number == (|accepted| + 1) % p.m
    ensures Core(p, x, accepted + [data[0].payload], data[1..], acks)
  {
    hide Idx;
    hide QueueOk;
    var next := |accepted| + 1;
    var ts :| DataWith(p, x, next, data, ts);
    assert InFlight(p, x, next, data[0], ts[0]);
    Near(p.m, ts[0], next);
    AcceptData(p, x, next, data, ts);
    assert AcksOk(p, x, next + 1, acks) by {
      assert forall i :: 0 <= i < |acks| ==> AckInFlight(p, x, next, acks[i]) && AckInFlight(p, x, next + 1, acks[i]);
    }
    hide AcksOk;
    hide DataOk;
    hide DataWith;
    hide InFlight;
  }

  lemma Near(m: nat, t: int, next: int)
    requires (m == 8 || m == 2048) && t % m == next % m && next - m < t < next + m
    ensures t == next
  {
    if m == 8 {
    } else {
    }
  }

  lemma AcceptData(p: Params, x: Sender, next: nat, data: seq<Packet>, ts: seq<int>)
    requires Fits(p) && DataWith(p, x, next, data, ts) && data != [] && ts[0] == next
    ensures DataOk(p, x, next + 1, data[1..])
  {
    var data', ts' := data[1..], ts[1..];
    forall i | 0 <= i < |data'| ensures InFlight(p, x, next + 1, data'[i], ts'[i]) {
      assert data'[i] == data[i + 1] && ts'[i] == ts[i + 1] && InFlight(p, x, next, data[i + 1], ts[i + 1]);
      assert ts[0] < ts[i + 1] + p.d;
    }
    hide InFlight;
    assert DataWith(p, x, next + 1, data', ts');
  }

  /** The receiver acknowledges the last packet it accepted. */
  lemma CoreAckSent(p: Params, x: Sender, accepted: seq<seq<byte>>, data: seq<Packet>, acks: seq<nat>)
    requires Fits(p) && Core(p, x, accepted, data, acks)
    ensures Core(p, x, accepted, data, acks + [|accepted| % p.m])
  {
    hide Idx;
    hide DataOk;
    hide QueueOk;
    var next, n := |accepted| + 1, x.Next();
    IdxUnique(p.m, n, |accepted| % p.m, |accepted|);
    var acks' := acks + [|accepted| % p.m];
    forall i | 0 <= i < |acks'| ensures AckInFlight(p, x, next, acks'[i]) {
      if i < |acks| {
        assert AckInFlight(p, x, next, acks[i]);
      }
    }
    forall i, j | 0 <= i < j < |acks'| ensures Idx(p.m, n, acks'[i]) <= Idx(p.m, n, acks'[j]) {
      assert AckInFlight(p, x, next, acks[i]);
    }
  }

  // ---------------------------------------------------------------- packets given up

  /**
   * Of every packet given up the receiver had the one before: none is beyond the number it expects, nor beyond
   * the successor of one that an acknowledgement still on its way names.
   */
  ghost predicate GivenUp(m: nat, n: nat, gave: set<int>, next: nat, acks: seq<nat>)
    requires m == 8 || m == 2048
  {
    && (forall k :: k in gave ==> k <= next)
    && (forall k, i :: k in gave && 0 <= i < |acks| ==> k <= Idx(m, n, acks[i]) + 1)
  }

  lemma GivenUpNumber(p: Params, x: Sender, accepted: seq<seq<byte>>, data: seq<Packet>, acks: seq<nat>, gave: set<int>)
    requires Fits(p) && Core(p, x, accepted, data, acks) && GivenUp(p.m, x.Next(), gave, |accepted| + 1, acks)
    ensures GivenUp(p.m, x.Next() + 1, gave, |accepted| + 1, acks)
  {
    hide Idx;
    var next := |accepted| + 1;
    forall i | 0 <= i < |acks| ensures Idx(p.m, x.Next() + 1, acks[i]) == Idx(p.m, x.Next(), acks[i]) {
      assert AckInFlight(p, x, next, acks[i]);
      IdxStable(p.m, x.Next(), acks[i]);
    }
  }

  lemma GivenUpAckSent(p: Params, x: Sender, accepted: seq<seq<byte>>, data: seq<Packet>, acks: seq<nat>,
                       gave: set<int>)
    requires Fits(p) && Core(p, x, accepted, data, acks) && GivenUp(p.m, x.Next(), gave, |accepted| + 1, acks)
    ensures GivenUp(p.m, x.Next(), gave, |accepted| + 1, acks + [|accepted| % p.m])
  {
    hide Idx;
    IdxUnique(p.m, x.Next(), |accepted| % p.m, |accepted|);
  }

  lemma GivenUpAccept(m: nat, n: nat, gave: set<int>, next: nat, acks: seq<nat>)
    requires (m == 8 || m == 2048) && GivenUp(m, n, gave, next, acks)
    ensures GivenUp(m, n, gave, next + 1, acks)
  {
    hide Idx;
  }

  lemma GivenUpErase(m: nat, n: nat, gave: set<int>, next: nat, acks: seq<nat>, i: nat)
    requires (m == 8 || m == 2048) && i < |acks| && GivenUp(m, n, gave, next, acks)
    ensures GivenUp(m, n, gave, next, Erase(acks, i))
    ensures i == 0 ==> Erase(acks, i) == acks[1..]
  {
    hide Idx;
    var acks' := Erase(acks, i);
    assert forall j :: 0 <= j < |acks'| ==> acks'[j] == acks[if j < i then j else j + 1];
  }

  /** One more, not beyond the successor of what the first acknowledgement names. */
  lemma GivenUpOne(p: Params, x: Sender, accepted: seq<seq<byte>>, data: seq<Packet>, acks: seq<nat>, gave: set<int>,
                   k: int)
    requires Fits(p) && Core(p, x, accepted, data, acks) && acks != []
    requires GivenUp(p.m, x.Next(), gave, |accepted| + 1, acks) && k <= Idx(p.m, x.Next(), acks[0]) + 1
    ensures GivenUp(p.m, x.Next(), gave + {k}, |accepted| + 1, acks[1..])
  {
    hide Idx;
    assert AckInFlight(p, x, |accepted| + 1, acks[0]);
    var rest, first := acks[1..], Idx(p.m, x.Next(), acks[0]);
    forall i | 0 <= i < |rest| ensures first <= Idx(p.m, x.Next(), rest[i]) {
      assert rest[i] == acks[i + 1];
    }
  }
}
