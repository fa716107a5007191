/**
 * Why a window of 8 keeps a packet, when it is sent again, within 56 numbers of the newest one (lib/link.cc, EPOC),
 * plus one for each packet given up.
 *
 * While a packet waits un-sent-again, every packet numbered since stays queued or is given up: an acknowledgement
 * that removed one of those would, by its time stamp, remove the waiting packet too.  So at most seven packets
 * that are not given up are numbered between two transmissions of a packet, and it is sent at most 1 + 8 times.
 */
module Stamps {
  import opened Bytes
  import opened Packets
  import opened LinkSpec
  import opened Window

  ghost predicate Increasing(clock: nat -> int) {
    forall i: nat, j: nat :: i < j ==> clock(i) < clock(j)
  }

  /** Packet k is still in the queue. */
  ghost predicate Awaiting(x: Sender, k: int) {
    exists el :: el in x.queue && ElementIdx(x, el) == k
  }

  /** Packet k is still in the queue, or was given up. */
  ghost predicate Accounted(x: Sender, gave: set<int>, k: int) {
    Awaiting(x, k) || k in gave
  }

  /** How many of the packets after lo and up to hi were given up. */
  ghost function Count(gave: set<int>, lo: int, hi: int): nat {
    |Part(gave, lo, hi)|
  }

  ghost function Part(gave: set<int>, lo: int, hi: int): set<int> {
    set k | k in gave && lo < k <= hi
  }

  /** Packet n is at most seven for each time sent again after k, not counting those given up. */
  ghost predicate Within(gave: set<int>, k: int, txcount: int, n: int) {
    n <= k + 7 * (RETRIES - txcount) + Count(gave, k, n)
  }

  /** What the stamps say about one queued element. */
  ghost predicate Stamped(x: Sender, gave: set<int>, el: Element)
    requires Queued(EPOC, x, el)
  {
    var k := ElementIdx(x, el);
    && x.numbered[k - 1].at <= el.stamp
    && (forall j :: 0 <= j < |x.numbered| && x.numbered[j].at > el.stamp ==> Accounted(x, gave, j + 1))
    && (forall j :: 0 <= j < |x.numbered| && x.numbered[j].at <= el.stamp ==> Within(gave, k, el.txcount, j + 1))
  }

  ghost predicate StampsOk(x: Sender, gave: set<int>, clock: nat -> int, readings: nat)
    requires QueueOk(EPOC, x)
  {
    && (forall el :: el in x.queue ==> el.stamp < clock(readings))
    && (forall j :: 0 <= j < |x.numbered| ==> x.numbered[j].at < clock(readings))
    && (forall el :: el in x.queue ==> Queued(EPOC, x, el) && Stamped(x, gave, el))
  }

  // ---------------------------------------------------------------- counting

  lemma CountSplit(gave: set<int>, a: int, b: int, c: int)
    requires a <= b <= c
    ensures Count(gave, a, c) == Count(gave, a, b) + Count(gave, b, c)
  {
    assert Part(gave, a, c) == Part(gave, a, b) + Part(gave, b, c);
    assert Part(gave, a, b) * Part(gave, b, c) == {};
  }

  lemma CountMore(gave: set<int>, gave': set<int>, lo: int, hi: int)
    requires gave <= gave'
    ensures Count(gave, lo, hi) <= Count(gave', lo, hi)
  {
    SubsetSize(Part(gave, lo, hi), Part(gave', lo, hi));
  }

  lemma CountAll(gave: set<int>, lo: int, hi: int)
    ensures Count(gave, lo, hi) <= |gave|
  {
    SubsetSize(Part(gave, lo, hi), gave);
  }

  /** None of those given up is far beyond lo. */
  lemma CountFew(gave: set<int>, lo: int, hi: int, ahead: nat)
    requires forall k :: k in gave ==> k <= lo + ahead
    ensures Count(gave, lo, hi) <= ahead
  {
    SubsetSize(Part(gave, lo, hi), Between(lo, lo + ahead + 1));
  }

  ghost function Ids(x: Sender, queue: seq<Element>): (ids: set<int>)
    ensures |ids| <= |queue|
    ensures forall el :: el in queue ==> ElementIdx(x, el) in ids
  {
    if queue == [] then {}
    else Ids(x, queue[1..]) + {ElementIdx(x, queue[0])}
  }

  ghost function Between(lo: int, hi: int): (s: set<int>)
    requires lo < hi
    ensures |s| == hi - lo - 1
    ensures forall k :: k in s <==> lo < k < hi
    decreases hi - lo
  {
    if lo + 1 == hi then {} else Between(lo, hi - 1) + {hi - 1}
  }

  lemma SubsetSize(a: set<int>, b: set<int>)
    requires a <= b
    ensures |a| <= |b|
  {
    assert b == a + (b - a);
  }

  lemma UnionSize(a: set<int>, b: set<int>)
    ensures |a + b| <= |a| + |b|
  {
    assert a + b == a + (b - a);
    SubsetSize(b - a, b);
  }

  /** What was numbered after `lo` and is queued beside el is bounded by the queue. */
  lemma CountBehind(x: Sender, gave: set<int>, el: Element, lo: int, hi: int)
    requires QueueOk(EPOC, x) && el in x.queue && Queued(EPOC, x, el)
    requires ElementIdx(x, el) <= lo <= hi < x.Next()
    requires forall k :: lo < k <= hi ==> Accounted(x, gave, k)
    ensures hi - lo + 1 <= |x.queue| + Count(gave, lo, hi)
  {
    var ids, given := Ids(x, x.queue), Part(gave, lo, hi);
    var newer := Between(lo, hi + 1) + {ElementIdx(x, el)};
    forall k | k in newer ensures k in ids + given {
      if k != ElementIdx(x, el) && k !in gave {
        assert Accounted(x, gave, k);
      }
    }
    SubsetSize(newer, ids + given);
    UnionSize(ids, given);
  }

  /** The last packet up to n that was numbered before el was last sent. */
  lemma {:induction false} LastBefore(x: Sender, el: Element, k: nat, n: nat) returns (lo: nat)
    requires 1 <= k <= n <= |x.numbered| && x.numbered[k - 1].at <= el.stamp
    ensures k <= lo <= n && x.numbered[lo - 1].at <= el.stamp
    ensures forall j :: lo <= j < n ==> x.numbered[j].at > el.stamp
    decreases n
  {
    if x.numbered[n - 1].at <= el.stamp {
      lo := n;
    } else {
      lo := LastBefore(x, el, k, n - 1);
    }
  }

  /** How far packet n is after el, in terms of the retries el has left. */
  lemma BehindAt(x: Sender, gave: set<int>, el: Element, n: nat)
    requires QueueOk(EPOC, x) && el in x.queue && Queued(EPOC, x, el) && Stamped(x, gave, el)
    requires ElementIdx(x, el) <= n < x.Next()
    ensures var k := ElementIdx(x, el);
            n + 1 <= k + 7 * (RETRIES - el.txcount) + |x.queue| + Count(gave, k, n)
  {
    var k := ElementIdx(x, el);
    var lo := LastBefore(x, el, k, n);
    forall j | lo < j <= n ensures Accounted(x, gave, j) {
      assert x.numbered[j - 1].at > el.stamp;
    }
    hide Accounted;
    assert Within(gave, k, el.txcount, lo) by {
      assert x.numbered[lo - 1].at <= el.stamp;
    }
    hide Stamped;
    hide Count;
    CountBehind(x, gave, el, lo, n);
    CountSplit(gave, k, lo, n);
  }

  /** The number of packets numbered since el. */
  lemma Behind(x: Sender, gave: set<int>, el: Element)
    requires QueueOk(EPOC, x) && el in x.queue && Queued(EPOC, x, el) && Stamped(x, gave, el)
    ensures var k := ElementIdx(x, el);
            x.Next() <= k + 7 * (RETRIES - el.txcount) + |x.queue| + Count(gave, k, x.Next() - 1)
  {
    BehindAt(x, gave, el, x.Next() - 1);
  }

  /** What may be sent again stays within reach when the window is not full and not too many were given up. */
  lemma Room(x: Sender, gave: set<int>, clock: nat -> int, readings: nat)
    requires QueueOk(EPOC, x) && StampsOk(x, gave, clock, readings)
    requires |x.queue| < EPOC.w && |gave| <= GIVEUPS
    ensures forall el :: el in x.queue ==> x.Next() + 1 <= ElementIdx(x, el) + 64 + |gave|
    ensures forall el :: el in x.queue && el.txcount > 0 ==> x.Next() + 1 <= ElementIdx(x, el) + EPOC.d
  {
    hide Stamped;
    hide Count;
    hide DataFrame;
    forall el | el in x.queue
      ensures x.Next() + 1 <= ElementIdx(x, el) + 64 + |gave|
      ensures el.txcount > 0 ==> x.Next() + 1 <= ElementIdx(x, el) + EPOC.d
    {
      assert Queued(EPOC, x, el);
      Behind(x, gave, el);
      CountAll(gave, ElementIdx(x, el), x.Next() - 1);
    }
  }

  /**
   * When an acknowledgement of packet a comes in for a queued element, or for the one before it (ahead 1), or for
   * one a whole round later, the sender is close to a however many packets it has given up.
   */
  lemma Close(x: Sender, gave: set<int>, clock: nat -> int, readings: nat, el: Element, a: int, ahead: nat)
    requires QueueOk(EPOC, x) && StampsOk(x, gave, clock, readings) && el in x.queue && ahead <= 1
    requires |gave| <= GIVEUPS && forall k :: k in gave ==> k <= a + 1
    requires ElementIdx(x, el) == a + ahead || ElementIdx(x, el) <= a + ahead - EPOC.m
    ensures x.Next() <= a + EPOC.lead + 1
  {
    hide Stamped;
    hide Count;
    assert Queued(EPOC, x, el);
    Behind(x, gave, el);
    if ElementIdx(x, el) == a + ahead {
      CountFew(gave, ElementIdx(x, el), x.Next() - 1, 1 - ahead);
    } else {
      CountAll(gave, ElementIdx(x, el), x.Next() - 1);
    }
  }

  // ---------------------------------------------------------------- steps

  lemma StampsLater(x: Sender, gave: set<int>, clock: nat -> int, readings: nat, readings': nat)
    requires QueueOk(EPOC, x) && StampsOk(x, gave, clock, readings)
    requires Increasing(clock) && readings <= readings'
    ensures StampsOk(x, gave, clock, readings')
  {
    hide Stamped;
    hide Queued;
    assert clock(readings) <= clock(readings');
  }

  /** Packet `Next` has been numbered and queued as el. */
  ghost predicate NumberedAs(x: Sender, x': Sender, now: int, el: Element, packet: Numbered) {
    && x' == Sender(x.numbered + [packet], x.queue + [el], x'.failed, x.base)
    && ElementIdx(x, el) == x.Next() && el.txcount == RETRIES
    && el.stamp == packet.at == now
  }

  lemma StampsNumber(x: Sender, x': Sender, gave: set<int>, clock: nat -> int, readings: nat, el: Element,
                     packet: Numbered)
    requires QueueOk(EPOC, x) && StampsOk(x, gave, clock, readings) && QueueOk(EPOC, x')
    requires Increasing(clock)
    requires NumberedAs(x, x', clock(readings), el, packet)
    ensures StampsOk(x', gave, clock, readings + 1)
  {
    hide DataFrame;
    hide Stamped;
    assert clock(readings) < clock(readings + 1);
    forall q | q in x'.queue ensures Queued(EPOC, x', q) && Stamped(x', gave, q) && q.stamp < clock(readings + 1) {
      assert Queued(EPOC, x', q);
      if q in x.queue {
        assert Queued(EPOC, x, q) && Stamped(x, gave, q);
        NumberKeepsStamped(x, x', gave, clock(readings), el, packet, q);
      } else {
        NewStamped(x, x', gave, clock(readings), el, packet);
      }
    }
  }

  lemma NewStamped(x: Sender, x': Sender, gave: set<int>, now: int, el: Element, packet: Numbered)
    requires NumberedAs(x, x', now, el, packet) && Queued(EPOC, x', el)
    requires forall j :: 0 <= j < |x.numbered| ==> x.numbered[j].at < now
    ensures Stamped(x', gave, el)
  {
    hide DataFrame;
  }

  lemma NumberKeepsStamped(x: Sender, x': Sender, gave: set<int>, now: int, el: Element, packet: Numbered, q: Element)
    requires QueueOk(EPOC, x) && NumberedAs(x, x', now, el, packet)
    requires q in x.queue && Queued(EPOC, x, q) && Stamped(x, gave, q) && Queued(EPOC, x', q) && q.stamp < now
    ensures Stamped(x', gave, q)
  {
    hide DataFrame;
    hide Count;
    forall j | 0 <= j < |x'.numbered| && x'.numbered[j].at > q.stamp ensures Accounted(x', gave, j + 1) {
      if j < |x.numbered| {
        assert Accounted(x, gave, j + 1);
        if j + 1 !in gave {
          AwaitingKept(x, x', now, el, packet, j + 1);
        }
      } else {
        assert el in x'.queue;
      }
    }
  }

  lemma AwaitingKept(x: Sender, x': Sender, now: int, el: Element, packet: Numbered, k: int)
    requires QueueOk(EPOC, x) && NumberedAs(x, x', now, el, packet) && Awaiting(x, k)
    ensures Awaiting(x', k)
  {
    hide DataFrame;
    var f :| f in x.queue && ElementIdx(x, f) == k;
    assert Queued(EPOC, x, f);
    assert f in x'.queue;
  }

  /** An acknowledgement matched element i: it leaves, and with it everything last sent before it. */
  lemma StampsMatch(x: Sender, x': Sender, gave: set<int>, clock: nat -> int, readings: nat, i: nat)
    requires QueueOk(EPOC, x) && StampsOk(x, gave, clock, readings) && i < |x.queue|
    requires x' == Sender(x.numbered, NotOlder(Erase(x.queue, i), x.queue[i].stamp), x.failed, x.base)
    ensures QueueOk(EPOC, x') && StampsOk(x', gave, clock, readings)
  {
    hide DataFrame;
    hide Stamped;
    NotOlderMembers(Erase(x.queue, i), x.queue[i].stamp);
    forall f | f in x.queue ensures Queued(EPOC, x, f) && SentSince(x, f) {
      assert Queued(EPOC, x, f) && Stamped(x, gave, f);
      StampedSentSince(x, gave, f);
    }
    forall q | q in x'.queue ensures q in x.queue && Queued(EPOC, x', q) && Stamped(x', gave, q) {
      assert q in Erase(x.queue, i);
      assert Queued(EPOC, x, q);
      MatchKeepsStamped(x, x', gave, i, q);
    }
  }

  lemma MatchKeepsStamped(x: Sender, x': Sender, gave: set<int>, i: nat, q: Element)
    requires QueueOk(EPOC, x) && i < |x.queue|
    requires forall f :: f in x.queue ==> Queued(EPOC, x, f) && SentSince(x, f)
    requires x' == Sender(x.numbered, NotOlder(Erase(x.queue, i), x.queue[i].stamp), x.failed, x.base)
    requires q in x'.queue && q in x.queue && Queued(EPOC, x, q) && Stamped(x, gave, q) && Queued(EPOC, x', q)
    ensures Stamped(x', gave, q)
  {
    hide DataFrame;
    hide Erase;
    hide SentSince;
    hide Awaiting;
    hide Count;
    forall j | 0 <= j < |x'.numbered| && x'.numbered[j].at > q.stamp ensures Accounted(x', gave, j + 1) {
      assert Accounted(x, gave, j + 1);
      if j + 1 !in gave {
        AwaitingMatch(x, x', i, q, j);
      }
    }
  }

  ghost predicate SentSince(x: Sender, f: Element)
    requires Queued(EPOC, x, f)
  {
    x.numbered[ElementIdx(x, f) - 1].at <= f.stamp
  }

  lemma StampedSentSince(x: Sender, gave: set<int>, f: Element)
    requires Queued(EPOC, x, f) && Stamped(x, gave, f)
    ensures SentSince(x, f)
  {
  }

  lemma AwaitingMatch(x: Sender, x': Sender, i: nat, q: Element, j: nat)
    requires QueueOk(EPOC, x) && i < |x.queue|
    requires forall f :: f in x.queue ==> Queued(EPOC, x, f) && SentSince(x, f)
    requires x' == Sender(x.numbered, NotOlder(Erase(x.queue, i), x.queue[i].stamp), x.failed, x.base)
    requires q in x'.queue && j < |x.numbered| && x.numbered[j].at > q.stamp && Awaiting(x, j + 1)
    ensures Awaiting(x', j + 1)
  {
    hide DataFrame;
    hide Erase;
    var ref := x.queue[i].stamp;
    NotOlderMembers(Erase(x.queue, i), ref);
    var f :| f in x.queue && ElementIdx(x, f) == j + 1;
    assert Queued(EPOC, x, f) && SentSince(x, f);
    assert f.stamp >= x.numbered[j].at > q.stamp >= ref;
    EraseMember(x.queue, i, f);
    assert f in x'.queue;
  }

  lemma EraseMember(q: seq<Element>, i: nat, f: Element)
    requires i < |q| && f in q && f != q[i]
    ensures f in Erase(q, i)
  {
    var h :| 0 <= h < |q| && q[h] == f;
    assert Erase(q, i)[if h < i then h else h - 1] == f;
  }

  lemma {:induction false} NotOlderMembers(q: seq<Element>, ref: int)
    ensures |NotOlder(q, ref)| <= |q|
    ensures forall el :: el in NotOlder(q, ref) <==> el in q && el.stamp >= ref
  {
    if q != [] {
      NotOlderMembers(q[1..], ref);
      assert q == [q[0]] + q[1..];
    }
  }

  /** q' is q, or q sent again at time `now`. */
  predicate Again(q: Element, q': Element, now: int) {
    q' == q || (q.txcount > 0 && q' == q.(txcount := q.txcount - 1, stamp := now))
  }

  /** Some queued packets are sent again; none leaves. */
  lemma StampsAgain(x: Sender, x': Sender, gave: set<int>, clock: nat -> int, readings: nat)
    requires QueueOk(EPOC, x) && StampsOk(x, gave, clock, readings) && Increasing(clock)
    requires x'.numbered == x.numbered && x'.base == x.base && |x'.queue| == |x.queue|
    requires forall i :: 0 <= i < |x.queue| ==> Again(x.queue[i], x'.queue[i], clock(readings))
    ensures QueueOk(EPOC, x') && StampsOk(x', gave, clock, readings + 1)
  {
    hide DataFrame;
    assert clock(readings) < clock(readings + 1);
    forall i | 0 <= i < |x'.queue|
      ensures Queued(EPOC, x', x'.queue[i]) && Stamped(x', gave, x'.queue[i]) && x'.queue[i].stamp < clock(readings + 1)
    {
      AgainStamped(x, x', gave, clock, readings, i);
    }
  }

  lemma AgainStamped(x: Sender, x': Sender, gave: set<int>, clock: nat -> int, readings: nat, i: nat)
    requires QueueOk(EPOC, x) && StampsOk(x, gave, clock, readings)
    requires x'.numbered == x.numbered && x'.base == x.base && |x'.queue| == |x.queue|
    requires forall i :: 0 <= i < |x.queue| ==> Again(x.queue[i], x'.queue[i], clock(readings))
    requires i < |x.queue|
    ensures Queued(EPOC, x', x'.queue[i]) && Stamped(x', gave, x'.queue[i]) && x'.queue[i].stamp <= clock(readings)
  {
    hide DataFrame;
    hide Count;
    var q, q' := x.queue[i], x'.queue[i];
    assert q in x.queue && Queued(EPOC, x, q) && Stamped(x, gave, q) && Again(q, q', clock(readings));
    assert Queued(EPOC, x', q');
    if q' == q {
      NotAgainStamped(x, x', gave, clock(readings), q);
    } else {
      SentAgainStamped(x, x', gave, q, q', clock(readings));
    }
  }

  lemma NotAgainStamped(x: Sender, x': Sender, gave: set<int>, now: int, q: Element)
    requires QueueOk(EPOC, x) && x'.numbered == x.numbered && x'.base == x.base && |x'.queue| == |x.queue|
    requires forall i :: 0 <= i < |x.queue| ==> Again(x.queue[i], x'.queue[i], now)
    requires Queued(EPOC, x, q) && Stamped(x, gave, q) && Queued(EPOC, x', q)
    ensures Stamped(x', gave, q)
  {
    hide DataFrame;
    hide Count;
    hide Again;
    forall j | 0 <= j < |x'.numbered| && x'.numbered[j].at > q.stamp ensures Accounted(x', gave, j + 1) {
      assert Accounted(x, gave, j + 1);
      if j + 1 !in gave {
        StillAwaiting(x, x', now, j + 1);
      }
    }
  }

  /** Sent again: at most seven more packets, and those given up, have been numbered since it was last sent. */
  lemma SentAgainStamped(x: Sender, x': Sender, gave: set<int>, q: Element, q': Element, now: int)
    requires QueueOk(EPOC, x) && x'.numbered == x.numbered && x'.base == x.base
    requires q in x.queue && Queued(EPOC, x, q) && Stamped(x, gave, q)
    requires q.txcount > 0 && q' == q.(txcount := q.txcount - 1, stamp := now) && Queued(EPOC, x', q')
    requires forall j :: 0 <= j < |x.numbered| ==> x.numbered[j].at < now
    ensures Stamped(x', gave, q')
  {
    hide DataFrame;
    hide Count;
    hide Accounted;
    var k := ElementIdx(x, q);
    forall n | 0 < n <= |x.numbered| ensures Within(gave, k, q'.txcount, n) {
      if n >= k {
        BehindAt(x, gave, q, n);
      }
    }
    hide Within;
    hide Stamped;
    StampedNow(x', gave, q', k);
  }

  lemma StampedNow(x: Sender, gave: set<int>, q: Element, k: int)
    requires Queued(EPOC, x, q) && k == ElementIdx(x, q)
    requires forall j :: 0 <= j < |x.numbered| ==> x.numbered[j].at < q.stamp
    requires forall n :: 0 < n <= |x.numbered| ==> Within(gave, k, q.txcount, n)
    ensures Stamped(x, gave, q)
  {
    hide DataFrame;
    hide Within;
  }

  /** Element i is given up. */
  lemma StampsGiveUp(x: Sender, x': Sender, gave: set<int>, clock: nat -> int, readings: nat, i: nat)
    requires QueueOk(EPOC, x) && StampsOk(x, gave, clock, readings) && i < |x.queue|
    requires x' == Sender(x.numbered, Erase(x.queue, i), x.failed, x.base)
    ensures QueueOk(EPOC, x') && StampsOk(x', gave + {ElementIdx(x, x.queue[i])}, clock, readings)
  {
    hide DataFrame;
    hide Stamped;
    var gave' := gave + {ElementIdx(x, x.queue[i])};
    forall q | q in x'.queue ensures q in x.queue && Queued(EPOC, x', q) && Stamped(x', gave', q) {
      assert Queued(EPOC, x, q) && Stamped(x, gave, q);
      GiveUpKeepsStamped(x, x', gave, i, q);
    }
  }

  lemma GiveUpKeepsStamped(x: Sender, x': Sender, gave: set<int>, i: nat, q: Element)
    requires i < |x.queue| && x' == Sender(x.numbered, Erase(x.queue, i), x.failed, x.base)
    requires Queued(EPOC, x, q) && Stamped(x, gave, q) && Queued(EPOC, x', q)
    ensures Stamped(x', gave + {ElementIdx(x, x.queue[i])}, q)
  {
    hide DataFrame;
    hide Count;
    hide Erase;
    var k, gave' := ElementIdx(x, q), gave + {ElementIdx(x, x.queue[i])};
    forall j | 0 <= j < |x'.numbered| && x'.numbered[j].at > q.stamp ensures Accounted(x', gave', j + 1) {
      assert Accounted(x, gave, j + 1);
      if j + 1 !in gave' {
        var f :| f in x.queue && ElementIdx(x, f) == j + 1;
        EraseMember(x.queue, i, f);
        assert f in x'.queue;
      }
    }
    hide Accounted;
    forall j | 0 <= j < |x'.numbered| && x'.numbered[j].at <= q.stamp
      ensures Within(gave', k, q.txcount, j + 1)
    {
      assert Within(gave, k, q.txcount, j + 1);
      CountMore(gave, gave', k, j + 1);
    }
  }

  lemma StillAwaiting(x: Sender, x': Sender, now: int, k: int)
    requires x'.numbered == x.numbered && x'.base == x.base && |x'.queue| == |x.queue|
    requires forall i :: 0 <= i < |x.queue| ==> Again(x.queue[i], x'.queue[i], now)
    requires Awaiting(x, k)
    ensures Awaiting(x', k)
  {
    var f :| f in x.queue && ElementIdx(x, f) == k;
    var i :| 0 <= i < |x.queue| && x.queue[i] == f;
    assert Again(x.queue[i], x'.queue[i], now);
    assert x'.queue[i] in x'.queue;
  }
}
