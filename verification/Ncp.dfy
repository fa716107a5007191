/**
 * The message layer of lib/ncp.cc: messages are cut into fragments of 250 bytes, and put together again
 * per channel.
 */
module Ncp {
  import opened Bytes
  import opened Packets

  const SENDLEN: nat := 250                 // NCP_SENDLEN
  const LAST_MESS: byte := 1
  const NOT_LAST_MESS: byte := 2
  const PV_SERIES_5: nat := 6
  const PV_SERIES_3: nat := 3
  const CHANNELS: nat := 256                // MAX_CHANNELS_PSION

  /** A message handed to a channel's ncpDataCallback. */
  datatype Delivery = Delivery(channel: nat, message: seq<byte>)

  /** What `receive` depends on and changes; `control` are the messages for decodeControlMessage. */
  datatype State = State(version: nat, lastSent: nat, open: seq<bool>, pending: seq<seq<byte>>,
                         delivered: seq<Delivery>, control: seq<seq<byte>>)

  predicate Sound(s: State) {
    |s.open| == CHANNELS + 1 && |s.pending| == CHANNELS + 1 && s.lastSent <= CHANNELS
  }

  // ---------------------------------------------------------------- fragments

  /** A fragment: the peer's channel, ours, whether it is the last one, and its part of the message. */
  function Fragment(remote: byte, channel: byte, last: bool, data: seq<byte>): seq<byte> {
    [remote, channel, if last then LAST_MESS else NOT_LAST_MESS] + data
  }

  function Fragments(remote: byte, channel: byte, message: seq<byte>): seq<seq<byte>>
    decreases |message|
  {
    if |message| <= SENDLEN then [Fragment(remote, channel, true, message)]
    else [Fragment(remote, channel, false, message[..SENDLEN])] + Fragments(remote, channel, message[SENDLEN..])
  }

  /** What has been sent, and the fragments of what is left, make up the goal. */
  ghost predicate Remaining(link: seq<seq<byte>>, last: bool, remote: byte, channel: byte, a: seq<byte>,
                            goal: seq<seq<byte>>) {
    link + (if last then [] else Fragments(remote, channel, a)) == goal
  }

  lemma RemainingStep(link: seq<seq<byte>>, remote: byte, channel: byte, a: seq<byte>, out: seq<byte>,
                      goal: seq<seq<byte>>)
    requires Remaining(link, false, remote, channel, a, goal)
    requires out == Fragment(remote, channel, |a| <= SENDLEN, if |a| > SENDLEN then a[..SENDLEN] else a)
    ensures Remaining(link + [out], |a| <= SENDLEN, remote, channel, Discard(a, SENDLEN), goal)
    ensures |a| <= SENDLEN ==> Discard(a, SENDLEN) == []
  {
    hide Fragment;
    if |a| <= SENDLEN {
      assert Fragments(remote, channel, a) == [out];
      assert link + [out] + [] == link + [out];
    } else {
      assert Fragments(remote, channel, a) == [out] + Fragments(remote, channel, Discard(a, SENDLEN));
      hide Fragments;
      assert link + ([out] + Fragments(remote, channel, Discard(a, SENDLEN)))
          == link + [out] + Fragments(remote, channel, Discard(a, SENDLEN));
    }
  }

  function AllFragments(remote: byte, channel: byte, messages: seq<seq<byte>>): seq<seq<byte>>
    decreases |messages|
  {
    if messages == [] then []
    else Fragments(remote, channel, messages[0]) + AllFragments(remote, channel, messages[1..])
  }

  /** The number of fragments of a message: one for each 250 bytes begun, and one for an empty message. */
  function FragmentCount(n: nat): nat {
    if n == 0 then 1 else (n + 249) / 250
  }

  /**
   * A message makes max(1, ceil(n / 250)) fragments; each begins with the peer's channel, ours, and 1 if it is the
   * last one, 2 otherwise; all but the last are full, none exceeds 253 bytes, and their data are the message in order.
   */
  lemma {:induction false} FragmentsShape(remote: byte, channel: byte, message: seq<byte>)
    ensures var fs := Fragments(remote, channel, message);
            && |fs| == FragmentCount(|message|)
            && forall i :: 0 <= i < |fs| ==>
                 && fs[i] == [remote, channel, if i == |fs| - 1 then 1 else 2]
                             + message[i * 250..if i == |fs| - 1 then |message| else (i + 1) * 250]
                 && 3 <= |fs[i]| <= 253 && (i < |fs| - 1 ==> |fs[i]| == 253)
    decreases |message|
  {
    hide *;
    var fs := Fragments(remote, channel, message);
    FirstFragment(remote, channel, message);
    CountIs(|message|);
    if |message| <= 250 {
      assert message[0 * 250..|message|] == message;
    } else {
      var rest, first := message[250..], [remote, channel, 2] + message[..250];
      var gs := Fragments(remote, channel, rest);
      FragmentsShape(remote, channel, rest);
      forall i | 0 <= i < |fs|
        ensures fs[i] == [remote, channel, if i == |fs| - 1 then 1 else 2]
                         + message[i * 250..if i == |fs| - 1 then |message| else (i + 1) * 250]
        ensures 3 <= |fs[i]| <= 253 && (i < |fs| - 1 ==> |fs[i]| == 253)
      {
        if i > 0 {
          var hi := if i == |fs| - 1 then |message| else (i + 1) * 250;
          assert fs[i] == gs[i - 1];
          SliceOfRest(message, i * 250, hi);
        } else {
          assert fs[0] == first;
        }
      }
    }
  }

  lemma SliceOfRest(message: seq<byte>, lo: nat, hi: nat)
    requires 250 <= lo <= hi <= |message|
    ensures message[250..][lo - 250..hi - 250] == message[lo..hi]
  {
  }

  lemma CountIs(n: nat)
    ensures n <= 250 ==> FragmentCount(n) == 1
    ensures n > 250 ==> FragmentCount(n) == 1 + FragmentCount(n - 250)
    ensures (FragmentCount(n) - 1) * 250 <= n <= FragmentCount(n) * 250
  {
  }

  lemma FirstFragment(remote: byte, channel: byte, message: seq<byte>)
    ensures Fragments(remote, channel, message)
            == if |message| <= 250 then [[remote, channel, 1] + message]
               else [[remote, channel, 2] + message[..250]] + Fragments(remote, channel, message[250..])
  {
  }

  // ---------------------------------------------------------------- reassembly

  /** The channel a data fragment goes to: a Series 3 names none we can use. */
  function Target(s: State, buf: seq<byte>): nat
    requires buf != [] && Sound(s)
  {
    if s.version == PV_SERIES_3 then s.lastSent else buf[0]
  }

  function Receive(s: State, buf: seq<byte>, stale: byte): (s': State)
    requires Sound(s)
    ensures Sound(s')
  {
    if |buf| <= 1 then s
    else if buf[0] == 0 then s.(control := s.control + [buf[1..]])
    else
      var channel := Target(s, buf);
      if !s.open[channel] then s
      else
        var message := s.pending[channel] + Discard(buf, 3);
        if ByteAt(buf, 2, stale) == LAST_MESS then
          s.(pending := s.pending[channel := []], delivered := s.delivered + [Delivery(channel, message)])
        else s.(pending := s.pending[channel := message])
  }

  /** Nothing, a message for the control channel, or a fragment; one without a third byte finds `stale` there. */
  lemma BufferKinds(s: State, buf: seq<byte>, stale: byte)
    requires Sound(s)
    ensures |buf| <= 1 ==> Receive(s, buf, stale) == s
    ensures |buf| > 1 && buf[0] == 0 ==> Receive(s, buf, stale) == s.(control := s.control + [buf[1..]])
    ensures |buf| == 2 && buf[0] != 0 ==> Receive(s, buf, stale) == Receive(s, buf + [stale], stale)
  {
    if |buf| == 2 {
      assert (buf + [stale])[3..] == [] && (buf + [stale])[0] == buf[0] && (buf + [stale])[2] == stale;
    }
  }

  /**
   * A fragment for an open channel adds its data to what is pending; a third byte of 1, and no other, delivers that.
   * A Series 3 (version 3) sends to the channel last sent on, any other to the one the fragment names.
   */
  lemma FragmentReceived(s: State, remote: byte, channel: byte, third: byte, data: seq<byte>, stale: byte)
    requires Sound(s) && remote != 0
    ensures var s' := Receive(s, [remote, channel, third] + data, stale);
            var t := if s.version == 3 then s.lastSent else remote;
            var whole := s.pending[t] + data;
            && (!s.open[t] ==> s' == s)
            && (s.open[t] && third == 1
                ==> s' == s.(pending := s.pending[t := []], delivered := s.delivered + [Delivery(t, whole)]))
            && (s.open[t] && third != 1 ==> s' == s.(pending := s.pending[t := whole]))
  {
    var f := [remote, channel, third] + data;
    assert f[3..] == data && f[0] == remote && f[2] == third;
  }

  function ReceiveAll(s: State, bufs: seq<seq<byte>>, stale: byte): (s': State)
    requires Sound(s)
    ensures Sound(s')
    decreases |bufs|
  {
    if bufs == [] then s else ReceiveAll(Receive(s, bufs[0], stale), bufs[1..], stale)
  }

  /** The messages delivered to one channel. */
  function DeliveredTo(ds: seq<Delivery>, channel: nat): seq<seq<byte>> {
    if ds == [] then []
    else DeliveredTo(ds[..|ds| - 1], channel) + if ds[|ds| - 1].channel == channel then [ds[|ds| - 1].message] else []
  }

  /** The buffers that name a channel. */
  function Naming(bufs: seq<seq<byte>>, channel: byte): seq<seq<byte>> {
    if bufs == [] then []
    else (if bufs[0] != [] && bufs[0][0] == channel then [bufs[0]] else []) + Naming(bufs[1..], channel)
  }

  /** What one channel sees of the state. */
  datatype View = View(open: bool, pending: seq<byte>, delivered: seq<seq<byte>>)

  function ViewOf(s: State, channel: byte): View
    requires Sound(s)
  {
    View(s.open[channel], s.pending[channel], DeliveredTo(s.delivered, channel))
  }

  lemma DeliveredOneMore(ds: seq<Delivery>, d: Delivery, channel: nat)
    ensures DeliveredTo(ds + [d], channel)
         == DeliveredTo(ds, channel) + if d.channel == channel then [d.message] else []
  {
    assert (ds + [d])[..|ds|] == ds;
  }

  /** A buffer that names another channel (or none, or the control channel) is not seen. */
  lemma OthersUnseen(s: State, buf: seq<byte>, stale: byte, channel: byte)
    requires Sound(s) && s.version == PV_SERIES_5 && !(buf != [] && buf[0] == channel)
    ensures ViewOf(Receive(s, buf, stale), channel) == ViewOf(s, channel)
    ensures Receive(s, buf, stale).version == s.version
  {
    if |buf| > 1 {
      DeliveredOneMore(s.delivered, Delivery(buf[0], s.pending[buf[0]] + Discard(buf, 3)), channel);
    }
    hide DeliveredTo;
    hide ByteAt;
    hide Discard;
  }

  /** Two states that look the same to a channel still do after the same buffer for it. */
  lemma SameView(s: State, t: State, buf: seq<byte>, stale: byte, channel: byte)
    requires Sound(s) && Sound(t) && s.version == PV_SERIES_5 == t.version
    requires buf != [] && buf[0] == channel
    requires ViewOf(s, channel) == ViewOf(t, channel)
    ensures ViewOf(Receive(s, buf, stale), channel) == ViewOf(Receive(t, buf, stale), channel)
    ensures Receive(s, buf, stale).version == s.version && Receive(t, buf, stale).version == t.version
  {
    var message := s.pending[channel] + Discard(buf, 3);
    DeliveredOneMore(s.delivered, Delivery(channel, message), channel);
    DeliveredOneMore(t.delivered, Delivery(channel, message), channel);
    hide DeliveredTo;
    hide ByteAt;
    hide Discard;
  }

  /** A channel sees of a mixture of buffers only its own, in their order. */
  lemma {:induction false} OwnBuffersSuffice(s: State, t: State, bufs: seq<seq<byte>>, stale: byte, channel: byte)
    requires Sound(s) && Sound(t) && s.version == PV_SERIES_5 == t.version
    requires ViewOf(s, channel) == ViewOf(t, channel)
    ensures ViewOf(ReceiveAll(s, bufs, stale), channel) == ViewOf(ReceiveAll(t, Naming(bufs, channel), stale), channel)
    decreases |bufs|
  {
    if bufs != [] {
      var buf, rest := bufs[0], bufs[1..];
      if buf != [] && buf[0] == channel {
        SameView(s, t, buf, stale, channel);
        hide ViewOf;
        hide Receive;
        assert Naming(bufs, channel) == [buf] + Naming(rest, channel);
        assert ([buf] + Naming(rest, channel))[1..] == Naming(rest, channel);
        OwnBuffersSuffice(Receive(s, buf, stale), Receive(t, buf, stale), rest, stale, channel);
      } else {
        OthersUnseen(s, buf, stale, channel);
        hide ViewOf;
        hide Receive;
        assert Naming(bufs, channel) == Naming(rest, channel);
        OwnBuffersSuffice(Receive(s, buf, stale), t, rest, stale, channel);
      }
    }
  }

  /** Running over two parts. */
  lemma {:induction false} ReceiveAllSplit(s: State, xs: seq<seq<byte>>, ys: seq<seq<byte>>, stale: byte)
    requires Sound(s)
    ensures ReceiveAll(s, xs + ys, stale) == ReceiveAll(ReceiveAll(s, xs, stale), ys, stale)
    decreases |xs|
  {
    if xs == [] {
      assert xs + ys == ys;
    } else {
      assert (xs + ys)[1..] == xs[1..] + ys && (xs + ys)[0] == xs[0];
      hide Receive;
      ReceiveAllSplit(Receive(s, xs[0], stale), xs[1..], ys, stale);
    }
  }

  /** The state after a message has been completed. */
  function Delivers(s: State, channel: nat, message: seq<byte>): State
    requires Sound(s) && channel <= CHANNELS
  {
    s.(pending := s.pending[channel := []], delivered := s.delivered + [Delivery(channel, message)])
  }

  lemma ReceiveFragment(s: State, remote: byte, channel: byte, last: bool, data: seq<byte>, stale: byte)
    requires Sound(s) && remote != 0
    ensures var t := Target(s, [remote]);
            var whole := s.pending[t] + data;
            var s' := if last then Delivers(s, t, whole) else s.(pending := s.pending[t := whole]);
            s.open[t] ==> Receive(s, Fragment(remote, channel, last, data), stale) == s'
  {
    FragmentReceived(s, remote, channel, if last then LAST_MESS else NOT_LAST_MESS, data, stale);
    hide Receive;
  }

  /** The fragments of a message, with nothing in between, deliver what was pending and the message. */
  lemma {:induction false} MessageReassembled(s: State, remote: byte, channel: byte, message: seq<byte>, stale: byte)
    requires Sound(s) && remote != 0 && s.open[Target(s, [remote])]
    ensures var t := Target(s, [remote]);
            ReceiveAll(s, Fragments(remote, channel, message), stale) == Delivers(s, t, s.pending[t] + message)
    decreases |message|
  {
    var t := Target(s, [remote]);
    var fs := Fragments(remote, channel, message);
    if |message| <= SENDLEN {
      ReceiveFragment(s, remote, channel, true, message, stale);
      hide Fragment;
      hide Receive;
      assert fs[1..] == [];
    } else {
      var data, rest := message[..SENDLEN], message[SENDLEN..];
      ReceiveFragment(s, remote, channel, false, data, stale);
      hide Fragment;
      hide Receive;
      var s1 := s.(pending := s.pending[t := s.pending[t] + data]);
      assert fs[1..] == Fragments(remote, channel, rest);
      MessageReassembled(s1, remote, channel, rest, stale);
      assert s.pending[t] + data + rest == s.pending[t] + message;
      assert s1.pending[t := []] == s.pending[t := []];
    }
  }

  /** The fragments of a message for a channel that is not open are ignored. */
  lemma {:induction false} ClosedIgnores(s: State, remote: byte, channel: byte, message: seq<byte>, stale: byte)
    requires Sound(s) && remote != 0 && !s.open[Target(s, [remote])]
    ensures ReceiveAll(s, Fragments(remote, channel, message), stale) == s
    decreases |message|
  {
    var fs := Fragments(remote, channel, message);
    assert |fs[0]| >= 3 && fs[0][0] == remote;
    assert Receive(s, fs[0], stale) == s;
    hide Receive;
    if |message| <= SENDLEN {
      assert fs[1..] == [];
    } else {
      assert fs[1..] == Fragments(remote, channel, message[SENDLEN..]);
      ClosedIgnores(s, remote, channel, message[SENDLEN..], stale);
    }
  }

  lemma {:induction false} MessagesReassembled(s: State, remote: byte, channel: byte, messages: seq<seq<byte>>,
                                               stale: byte)
    requires Sound(s) && s.version == PV_SERIES_5 && remote != 0 && s.open[remote] && s.pending[remote] == []
    ensures ViewOf(ReceiveAll(s, AllFragments(remote, channel, messages), stale), remote)
         == View(true, [], DeliveredTo(s.delivered, remote) + messages)
    decreases |messages|
  {
    hide *;
    AllFragmentsAre(remote, channel, messages);
    if messages == [] {
      ReceiveNone(s, remote, stale);
      assert DeliveredTo(s.delivered, remote) + [] == DeliveredTo(s.delivered, remote);
    } else {
      var m, rest := messages[0], messages[1..];
      Series5Target(s, remote);
      MessageReassembled(s, remote, channel, m, stale);
      assert [] + m == m;
      DeliversIs(s, remote, m);
      ReceiveAllSplit(s, Fragments(remote, channel, m), AllFragments(remote, channel, rest), stale);
      MessagesReassembled(Delivers(s, remote, m), remote, channel, rest, stale);
      assert DeliveredTo(s.delivered, remote) + [m] + rest == DeliveredTo(s.delivered, remote) + messages;
    }
  }

  lemma AllFragmentsAre(remote: byte, channel: byte, messages: seq<seq<byte>>)
    ensures AllFragments(remote, channel, messages)
            == if messages == [] then []
               else Fragments(remote, channel, messages[0]) + AllFragments(remote, channel, messages[1..])
  {
    hide Fragments;
  }

  lemma ReceiveNone(s: State, remote: byte, stale: byte)
    requires Sound(s)
    ensures ReceiveAll(s, [], stale) == s
    ensures ViewOf(s, remote) == View(s.open[remote], s.pending[remote], DeliveredTo(s.delivered, remote))
  {
    hide DeliveredTo;
  }

  lemma Series5Target(s: State, remote: byte)
    requires Sound(s) && s.version == PV_SERIES_5
    ensures Target(s, [remote]) == remote && remote < |s.open| && remote < |s.pending| && remote <= CHANNELS
  {
  }

  lemma DeliversIs(s: State, remote: byte, m: seq<byte>)
    requires Sound(s)
    ensures remote <= CHANNELS
    ensures var s' := Delivers(s, remote, m);
            && Sound(s') && s'.version == s.version && s'.open == s.open && s'.pending[remote] == []
            && DeliveredTo(s'.delivered, remote) == DeliveredTo(s.delivered, remote) + [m]
  {
    DeliveredOneMore(s.delivered, Delivery(remote, m), remote);
    hide DeliveredTo;
  }

  /**
   * Series 5: however the fragments of several channels are interleaved, a channel with nothing pending gets exactly
   * the messages sent to it, whole and in order.
   */
  lemma InterleavedReassembly(s: State, bufs: seq<seq<byte>>, remote: byte, channel: byte, messages: seq<seq<byte>>,
                              stale: byte)
    requires Sound(s) && s.version == PV_SERIES_5 && remote != 0 && s.open[remote] && s.pending[remote] == []
    requires Naming(bufs, remote) == AllFragments(remote, channel, messages)
    ensures DeliveredTo(ReceiveAll(s, bufs, stale).delivered, remote) == DeliveredTo(s.delivered, remote) + messages
    ensures ReceiveAll(s, bufs, stale).pending[remote] == []
  {
    OwnBuffersSuffice(s, s, bufs, stale, remote);
    MessagesReassembled(s, remote, channel, messages, stale);
    hide ReceiveAll;
    hide AllFragments;
    hide Naming;
    hide DeliveredTo;
  }

  /** Series 3: a message is delivered to the channel last sent on; so to its own exactly when that is it. */
  lemma Series3NeedsTurns(s: State, remote: byte, channel: byte, message: seq<byte>, stale: byte)
    requires Sound(s) && s.version == PV_SERIES_3 && remote != 0 && s.open[remote] && s.pending[remote] == []
    ensures var s' := ReceiveAll(s, Fragments(remote, channel, message), stale);
            DeliveredTo(s'.delivered, remote) == DeliveredTo(s.delivered, remote) + [message] <==> s.lastSent == remote
  {
    if s.open[s.lastSent] {
      MessageReassembled(s, remote, channel, message, stale);
      DeliveredOneMore(s.delivered, Delivery(s.lastSent, s.pending[s.lastSent] + message), remote);
    } else {
      ClosedIgnores(s, remote, channel, message, stale);
    }
    hide ReceiveAll;
    hide Fragments;
    hide DeliveredTo;
    assert s.lastSent == remote ==> s.pending[s.lastSent] + message == message;
    assert |DeliveredTo(s.delivered, remote) + [message]| != |DeliveredTo(s.delivered, remote)|;
  }

  // ---------------------------------------------------------------- the class

  datatype Slot = Free | Reserved | Open     // channelPtr: NULL, 0xdeadbeef, or a channel

  class NCP {
    var protocolVersion: nat
    var lastSentChannel: nat
    const channelPtr: array<Slot>
    const messageList: array<seq<byte>>
    const remoteChanList: array<byte>
    var link: seq<seq<byte>>                // handed to Link::send, in order
    var delivered: seq<Delivery>
    var control: seq<seq<byte>>
    const stale: byte                       // what reading past a buffer's content finds

    ghost predicate Valid()
      reads this
    {
      && channelPtr.Length == CHANNELS + 1 && messageList.Length == CHANNELS + 1
      && remoteChanList.Length == CHANNELS + 1
      && lastSentChannel <= CHANNELS
    }

    ghost function Abs(): (s: State)
      requires Valid()
      reads this, channelPtr, messageList
      ensures Sound(s)
    {
      State(protocolVersion, lastSentChannel,
            seq(CHANNELS + 1, i requires 0 <= i <= CHANNELS reads this, channelPtr => channelPtr[i].Open?),
            messageList[..], delivered, control)
    }

    /**
     * `unset` is what the memory of lastSentChannel holds, and `spare` that of the last channel slot: the
     * source initialises neither of them, nor the remote channels.
     */
    constructor (stale: byte, unset: nat, spare: Slot)
      requires unset <= CHANNELS
      ensures Valid() && fresh(channelPtr) && fresh(messageList) && fresh(remoteChanList)
      ensures Abs() == State(PV_SERIES_5, unset, seq(CHANNELS + 1, i => i == CHANNELS && spare.Open?),
                             seq(CHANNELS + 1, i => []), [], [])
      ensures link == [] && protocolVersion == 6
    {
      this.stale := stale;
      protocolVersion, lastSentChannel := PV_SERIES_5, unset;
      channelPtr := new Slot[CHANNELS + 1](i => if i == CHANNELS then spare else Free);
      messageList := new seq<byte>[CHANNELS + 1](i => []);
      remoteChanList := new byte[CHANNELS + 1];
      link, delivered, control := [], [], [];
    }

    predicate IsValidChannel(channel: nat)
      requires Valid() && channel <= CHANNELS
      reads this, channelPtr
    {
      channelPtr[channel].Open?
    }

    /** Cuts a message into fragments and sends them; the buffer is used up. */
    method Send(channel: byte, message: seq<byte>) returns (a: seq<byte>)
      requires Valid()
      modifies this`link, this`lastSentChannel
      ensures Valid() && a == []
      ensures link == old(link) + Fragments(remoteChanList[channel], channel, message)
      ensures Abs() == old(Abs()).(lastSent := channel)
    {
      a := message;
      var last := false;
      ghost var remote, goal := remoteChanList[channel],
        old(link) + Fragments(remoteChanList[channel], channel, message);
      hide Fragments;
      assert Remaining(link, last, remote, channel, a, goal);
      while !last
        invariant last ==> a == []
        invariant Remaining(link, last, remote, channel, a, goal)
        decreases !last, |a|
      {
        last := true;
        if |a| > SENDLEN {
          last := false;
        }
        var out := [remoteChanList[channel], channel];
        if last {
          out := out + [LAST_MESS];
        } else {
          out := out + [NOT_LAST_MESS];
        }
        out := out + if |a| > SENDLEN then a[..SENDLEN] else a;
        RemainingStep(link, remote, channel, a, out, goal);
        hide Remaining;
        a := Discard(a, SENDLEN);
        link := link + [out];
      }
      lastSentChannel := channel;
      assert link + [] == link;
    }

    /** One payload from the link: a control message, or a fragment for a channel. */
    method ReceiveBuffer(s: seq<byte>)
      requires Valid()
      modifies this`delivered, this`control, messageList
      ensures Valid()
      ensures Abs() == Receive(old(Abs()), s, stale)
    {
      ghost var before := Abs();
      if |s| > 1 {
        var channel: nat := s[0];
        var rest := s[1..];
        if channel == 0 {
          control := control + [rest];
        } else {
          var allData := ByteAt(rest, 1, stale);
          rest := Discard(rest, 2);
          assert rest == Discard(s, 3);
          if protocolVersion == PV_SERIES_3 {
            channel := lastSentChannel;
          }
          var open := IsValidChannel(channel);
          assert open == before.open[channel];
          if open {
            messageList[channel] := messageList[channel] + rest;
            if allData == LAST_MESS {
              delivered := delivered + [Delivery(channel, messageList[channel])];
              messageList[channel] := [];
            }
            assert messageList[..] == before.pending[channel := messageList[channel]];
          }
        }
      }
      assert Abs().open == before.open;
    }
  }
}
