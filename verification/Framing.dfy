/**
 * The frame format of lib/datalink.cc: what `send` puts on the line, and the byte-at-a-time
 * receiver that `processInputData` implements over its ring buffer.
 */
module Framing {
  import opened Bytes
  import opened Crc

  const SYN: byte := 0x16
  const DLE: byte := 0x10
  const STX: byte := 0x02
  const ETX: byte := 0x03
  const EOT: byte := 0x04

  // ---------------------------------------------------------------- sending side

  function StuffByte(c: byte, isEPOC: bool): seq<byte> {
    if c == ETX && isEPOC then [DLE, EOT]
    else if c == DLE then [DLE, DLE]
    else [c]
  }

  function Stuff(payload: seq<byte>, isEPOC: bool): seq<byte> {
    if payload == [] then [] else StuffByte(payload[0], isEPOC) + Stuff(payload[1..], isEPOC)
  }

  /** A frame around a body, closed by a given check value. */
  function Enclose(body: seq<byte>, crc: nat): seq<byte>
    requires crc < 65536
  {
    [SYN, DLE, STX] + body + [DLE, ETX, crc / 256, crc % 256]
  }

  function Frame(payload: seq<byte>, isEPOC: bool): seq<byte> {
    Enclose(Stuff(payload, isEPOC), CrcOf(payload))
  }

  lemma {:induction false} StuffSnoc(payload: seq<byte>, c: byte, isEPOC: bool)
    ensures Stuff(payload + [c], isEPOC) == Stuff(payload, isEPOC) + StuffByte(c, isEPOC)
  {
    hide StuffByte;
    if payload == [] {
      assert [] + [c] == [c] && [c][1..] == [];
      assert Stuff([c], isEPOC) == StuffByte(c, isEPOC) + Stuff([], isEPOC);
    } else {
      StuffSnoc(payload[1..], c, isEPOC);
      assert (payload + [c])[1..] == payload[1..] + [c];
    }
  }

  /** Stuffing at most doubles a payload, so a frame is at most 2n + 7 bytes long. */
  lemma {:induction false} FrameLength(payload: seq<byte>, isEPOC: bool)
    ensures |payload| + 7 <= |Frame(payload, isEPOC)| <= 2 * |payload| + 7
  {
    hide CrcOf;
    StuffLength(payload, isEPOC);
  }

  lemma {:induction false} StuffLength(payload: seq<byte>, isEPOC: bool)
    ensures |payload| <= |Stuff(payload, isEPOC)| <= 2 * |payload|
  {
    if payload != [] {
      StuffLength(payload[1..], isEPOC);
    }
  }

  // ---------------------------------------------------------------- receiving side

  /**
   * The receiver between two bytes: hunting for SYN DLE STX, inside a body (rcv is what has been
   * unstuffed so far), or reading the two check bytes.
   */
  datatype Parser =
    | Hunt
    | GotSyn
    | GotDle
    | Body(rcv: seq<byte>, esc: bool)
    | CheckHigh(rcv: seq<byte>)
    | CheckLow(rcv: seq<byte>, high: byte)
  {
    predicate Hunting() { Hunt? || GotSyn? || GotDle? }
  }

  function Step(p: Parser, c: byte): Parser {
    match p
    case Hunt => if c == SYN then GotSyn else Hunt
    case GotSyn => if c == DLE then GotDle else Hunt
    case GotDle => if c == STX then Body([], false) else Hunt
    case Body(rcv, true) => if c == ETX then CheckHigh(rcv) else Body(rcv + [if c == EOT then ETX else c], false)
    case Body(rcv, false) => if c == DLE then Body(rcv, true) else Body(rcv + [c], false)
    case CheckHigh(rcv) => CheckLow(rcv, c)
    case CheckLow(_, _) => Hunt
  }

  /** The payloads completed by the byte c: one when c closes a frame whose check value is right. */
  function Emits(p: Parser, c: byte): seq<seq<byte>> {
    match p
    case CheckLow(rcv, high) => if high * 256 + c == CrcOf(rcv) then [rcv] else []
    case _ => []
  }

  function Run(p: Parser, s: seq<byte>): Parser
    decreases |s|
  {
    if s == [] then p else Run(Step(p, s[0]), s[1..])
  }

  function Output(p: Parser, s: seq<byte>): seq<seq<byte>>
    decreases |s|
  {
    if s == [] then [] else Emits(p, s[0]) + Output(Step(p, s[0]), s[1..])
  }

  lemma {:induction false} RunCons(p: Parser, c: byte, s: seq<byte>)
    ensures Run(p, [c] + s) == Run(Step(p, c), s)
    ensures Output(p, [c] + s) == Emits(p, c) + Output(Step(p, c), s)
  {
    hide Step;
    hide Emits;
    assert ([c] + s)[1..] == s;
  }

  lemma {:induction false} RunSplit(p: Parser, s: seq<byte>, t: seq<byte>)
    ensures Run(p, s + t) == Run(Run(p, s), t)
    ensures Output(p, s + t) == Output(p, s) + Output(Run(p, s), t)
    decreases |s|
  {
    hide Step;
    hide Emits;
    if s == [] {
      assert s + t == t;
    } else {
      RunSplit(Step(p, s[0]), s[1..], t);
      assert (s + t)[1..] == s[1..] + t;
    }
  }

  /**
   * The bytes of a frame: SYN DLE STX (0x16, 0x10, 0x02), the stuffed payload, DLE ETX (0x10, 0x03) and the check
   * value, high byte first.  Stuffing doubles DLE, and replaces ETX by DLE EOT (0x10, 0x04) for an EPOC machine.
   */
  lemma FrameBytes(payload: seq<byte>, isEPOC: bool)
    ensures Frame(payload, isEPOC) == [0x16, 0x10, 0x02] + Stuff(payload, isEPOC)
                                      + [0x10, 0x03, CrcOf(payload) / 256, CrcOf(payload) % 256]
    ensures payload != [] ==>
              Stuff(payload, isEPOC) == (if payload[0] == 0x10 then [0x10, 0x10]
                                         else if payload[0] == 3 && isEPOC then [0x10, 4]
                                         else [payload[0]]) + Stuff(payload[1..], isEPOC)
    ensures payload == [] ==> Stuff(payload, isEPOC) == []
  {
    hide CrcOf;
  }

  /** Behind DLE in a frame, 3 ends the payload, 4 stands for 3, and any other byte for itself. */
  lemma EscapedByte(rcv: seq<byte>, c: byte)
    ensures Run(Body(rcv, false), [0x10, c])
            == if c == 3 then CheckHigh(rcv) else Body(rcv + [if c == 4 then 3 else c], false)
    ensures Output(Body(rcv, false), [0x10, c]) == []
  {
    RunCons(Body(rcv, false), 0x10, [c]);
    RunCons(Body(rcv, true), c, []);
    assert [0x10, c] == [0x10] + [c] && [c] == [c] + [];
    hide CrcOf;
  }

  // ---------------------------------------------------------------- round trips

  lemma {:induction false} BodyUnstuffs(rcv: seq<byte>, payload: seq<byte>, isEPOC: bool)
    ensures Run(Body(rcv, false), Stuff(payload, isEPOC)) == Body(rcv + payload, false)
    ensures Output(Body(rcv, false), Stuff(payload, isEPOC)) == []
    decreases |payload|
  {
    hide CrcOf;
    hide Step;
    hide Emits;
    hide StuffByte;
    if payload == [] {
      assert rcv + payload == rcv;
    } else {
      var c, rest := payload[0], payload[1..];
      ByteUnstuffs(rcv, c, isEPOC);
      BodyUnstuffs(rcv + [c], rest, isEPOC);
      RunSplit(Body(rcv, false), StuffByte(c, isEPOC), Stuff(rest, isEPOC));
      assert rcv + [c] + rest == rcv + payload;
    }
  }

  lemma {:induction false} ByteUnstuffs(rcv: seq<byte>, c: byte, isEPOC: bool)
    ensures Run(Body(rcv, false), StuffByte(c, isEPOC)) == Body(rcv + [c], false)
    ensures Output(Body(rcv, false), StuffByte(c, isEPOC)) == []
  {
    hide CrcOf;
    var p := Body(rcv, false);
    var s := StuffByte(c, isEPOC);
    if |s| == 1 {
      RunCons(p, s[0], []);
      assert s == [s[0]] + [];
    } else {
      RunCons(p, s[0], [s[1]]);
      RunCons(Body(rcv, true), s[1], []);
      assert s == [s[0]] + [s[1]] && [s[1]] == [s[1]] + [];
    }
  }

  /** A whole frame yields its payload exactly when the check bytes are the payload's. */
  lemma {:induction false} EnclosedFrame(payload: seq<byte>, isEPOC: bool, crc: nat)
    requires crc < 65536
    ensures Run(Hunt, Enclose(Stuff(payload, isEPOC), crc)) == Hunt
    ensures Output(Hunt, Enclose(Stuff(payload, isEPOC), crc)) == if crc == CrcOf(payload) then [payload] else []
  {
    hide CrcOf;
    hide Run;
    hide Output;
    hide Stuff;
    var head: seq<byte> := [SYN, DLE, STX];
    var body := Stuff(payload, isEPOC);
    var tail: seq<byte> := [DLE, ETX, crc / 256, crc % 256];
    HeadOpens();
    BodyUnstuffs([], payload, isEPOC);
    assert [] + payload == payload;
    TailCloses(payload, crc);
    RunSplit(Hunt, head, body + tail);
    RunSplit(Body([], false), body, tail);
    assert head + (body + tail) == Enclose(body, crc);
  }

  lemma {:induction false} HeadOpens()
    ensures Run(Hunt, [SYN, DLE, STX]) == Body([], false) && Output(Hunt, [SYN, DLE, STX]) == []
  {
    hide CrcOf;
    RunCons(Hunt, SYN, [DLE, STX]);
    RunCons(GotSyn, DLE, [STX]);
    RunCons(GotDle, STX, []);
    assert [SYN, DLE, STX] == [SYN] + [DLE, STX] && [DLE, STX] == [DLE] + [STX] && [STX] == [STX] + [];
  }

  lemma {:induction false} TailCloses(payload: seq<byte>, crc: nat)
    requires crc < 65536
    ensures Run(Body(payload, false), [DLE, ETX, crc / 256, crc % 256]) == Hunt
    ensures Output(Body(payload, false), [DLE, ETX, crc / 256, crc % 256])
         == if crc == CrcOf(payload) then [payload] else []
  {
    hide CrcOf;
    var h: byte, l: byte := crc / 256, crc % 256;
    RunCons(Body(payload, false), DLE, [ETX, h, l]);
    RunCons(Body(payload, true), ETX, [h, l]);
    RunCons(CheckHigh(payload), h, [l]);
    RunCons(CheckLow(payload, h), l, []);
    assert [DLE, ETX, h, l] == [DLE] + [ETX, h, l] && [ETX, h, l] == [ETX] + [h, l];
    assert [h, l] == [h] + [l] && [l] == [l] + [];
  }

  /** One call of `send`: the payload, and whether the peer uses EPOC stuffing at that time. */
  datatype Message = Message(payload: seq<byte>, isEPOC: bool)

  function Frames(messages: seq<Message>): seq<byte> {
    if messages == [] then []
    else Frame(messages[0].payload, messages[0].isEPOC) + Frames(messages[1..])
  }

  function Payloads(messages: seq<Message>): seq<seq<byte>> {
    if messages == [] then [] else [messages[0].payload] + Payloads(messages[1..])
  }

  lemma {:induction false} FramesRoundTrip(messages: seq<Message>)
    ensures Output(Hunt, Frames(messages)) == Payloads(messages)
    ensures Run(Hunt, Frames(messages)) == Hunt
  {
    hide CrcOf;
    hide Frame;
    if messages != [] {
      var m := messages[0];
      FrameRoundTrip(m.payload, m.isEPOC);
      FramesRoundTrip(messages[1..]);
      RunSplit(Hunt, Frame(m.payload, m.isEPOC), Frames(messages[1..]));
    }
  }

  lemma {:induction false} FrameRoundTrip(payload: seq<byte>, isEPOC: bool)
    ensures Output(Hunt, Frame(payload, isEPOC)) == [payload]
    ensures Run(Hunt, Frame(payload, isEPOC)) == Hunt
  {
    hide CrcOf;
    EnclosedFrame(payload, isEPOC, CrcOf(payload));
  }

  /** A frame closed by any check value but that of its payload removes itself and nothing else from the stream. */
  lemma WrongCheckRemovesOnlyItself(before: seq<Message>, payload: seq<byte>, isEPOC: bool, crc: nat,
                                    after: seq<Message>)
    requires crc < 65536 && crc != CrcOf(payload)
    ensures Output(Hunt, Frames(before) + Enclose(Stuff(payload, isEPOC), crc) + Frames(after))
         == Payloads(before) + Payloads(after)
  {
    hide *;
    var bad := Enclose(Stuff(payload, isEPOC), crc);
    EnclosedFrame(payload, isEPOC, crc);
    FramesRoundTrip(before);
    FramesRoundTrip(after);
    RunSplit(Hunt, Frames(before), bad);
    RunSplit(Hunt, Frames(before) + bad, Frames(after));
    assert Payloads(before) + [] + Payloads(after) == Payloads(before) + Payloads(after);
  }

  /**
   * So does a frame whose payload was damaged within two adjacent bytes, its check bytes still those of the
   * payload that was sent.
   */
  lemma DamagedFrameRemovesOnlyItself(before: seq<Message>, sent: seq<byte>, damaged: seq<byte>, isEPOC: bool, k: nat,
                                      after: seq<Message>)
    requires |sent| == |damaged| && sent != damaged
    requires forall i :: 0 <= i < |sent| && i != k && i != k + 1 ==> sent[i] == damaged[i]
    ensures Output(Hunt, Frames(before) + Enclose(Stuff(damaged, isEPOC), CrcOf(sent)) + Frames(after))
         == Payloads(before) + Payloads(after)
  {
    hide *;
    TwoByteDamageDetected(sent, damaged, k);
    WrongCheckRemovesOnlyItself(before, damaged, isEPOC, CrcOf(sent), after);
  }

  // ---------------------------------------------------------------- frames missed by the hunt

  /** Hunting through stuffed bytes never opens a frame: SYN DLE STX does not occur in them. */
  lemma {:induction false} StuffedBytesOpenNothing(p: Parser, payload: seq<byte>, isEPOC: bool)
    requires p == Hunt || p == GotSyn
    ensures var q := Run(p, Stuff(payload, isEPOC)); q == Hunt || q == GotSyn
    ensures Output(p, Stuff(payload, isEPOC)) == []
    decreases |payload|
  {
    if payload != [] {
      var head, rest := StuffByte(payload[0], isEPOC), Stuff(payload[1..], isEPOC);
      RunSplit(p, head, rest);
      StuffedByteOpensNothing(p, payload[0], isEPOC);
      hide Step;
      hide Emits;
      hide StuffByte;
      StuffedBytesOpenNothing(Run(p, head), payload[1..], isEPOC);
      hide Run;
      hide Output;
    }
  }

  lemma StuffedByteOpensNothing(p: Parser, c: byte, isEPOC: bool)
    requires p == Hunt || p == GotSyn
    ensures var q := Run(p, StuffByte(c, isEPOC)); q == Hunt || q == GotSyn
    ensures Output(p, StuffByte(c, isEPOC)) == []
  {
    RunPair(p, DLE, DLE);
    RunPair(p, DLE, EOT);
    RunOne(p, c);
    hide Run;
    hide Output;
  }

  lemma RunOne(p: Parser, c: byte)
    ensures Run(p, [c]) == Step(p, c) && Output(p, [c]) == Emits(p, c)
  {
    hide Step;
    hide Emits;
    RunCons(p, c, []);
    assert [c] + [] == [c] && Emits(p, c) + [] == Emits(p, c);
  }

  lemma RunPair(p: Parser, c: byte, d: byte)
    ensures Run(p, [c, d]) == Step(Step(p, c), d) && Output(p, [c, d]) == Emits(p, c) + Emits(Step(p, c), d)
  {
    hide Step;
    hide Emits;
    RunCons(p, c, [d]);
    RunOne(Step(p, c), d);
    assert [c] + [d] == [c, d];
  }

  /**
   * A frame is received exactly when the hunt is not in the middle of something: after a stray SYN, or a
   * stray SYN DLE, the frame's own SYN is used up in rejecting that, and the whole frame is missed.
   */
  lemma FrameNeedsFreshHunt(p: Parser, payload: seq<byte>, isEPOC: bool)
    requires p.Hunting()
    ensures Output(p, Frame(payload, isEPOC)) == if p == Hunt then [payload] else []
    ensures Run(p, Frame(payload, isEPOC)).Hunting()
  {
    if p == Hunt {
      FrameRoundTrip(payload, isEPOC);
    } else {
      FrameMissed(p, payload, isEPOC);
    }
    hide Frame;
    hide Output;
    hide Run;
  }

  lemma FrameMissed(p: Parser, payload: seq<byte>, isEPOC: bool)
    requires p == GotSyn || p == GotDle
    ensures Output(p, Frame(payload, isEPOC)) == [] && Run(p, Frame(payload, isEPOC)).Hunting()
  {
    hide *;
    var h: byte, l: byte := CrcOf(payload) / 256, CrcOf(payload) % 256;
    var body := Stuff(payload, isEPOC);
    var q := Run(Hunt, body);
    FrameInPairs(payload, isEPOC);
    RunSplit(p, [SYN], [DLE, STX] + (body + ([DLE, ETX] + [h, l])));
    RunSplit(Hunt, [DLE, STX], body + ([DLE, ETX] + [h, l]));
    RunSplit(Hunt, body, [DLE, ETX] + [h, l]);
    RunSplit(q, [DLE, ETX], [h, l]);
    StuffedBytesOpenNothing(Hunt, payload, isEPOC);
    MissedBytes(p, q, h, l);
  }

  lemma FrameInPairs(payload: seq<byte>, isEPOC: bool)
    ensures var body, crc := Stuff(payload, isEPOC), CrcOf(payload);
            Frame(payload, isEPOC) == [SYN] + ([DLE, STX] + (body + ([DLE, ETX] + [crc / 256, crc % 256])))
  {
    hide Stuff;
    hide CrcOf;
  }

  /** The other bytes of the frame do not open one. */
  lemma MissedBytes(p: Parser, q: Parser, h: byte, l: byte)
    requires (p == GotSyn || p == GotDle) && (q == Hunt || q == GotSyn)
    ensures Run(p, [SYN]) == Hunt == Run(Hunt, [DLE, STX]) && Output(p, [SYN]) == [] == Output(Hunt, [DLE, STX])
    ensures Run(q, [DLE, ETX]) == Hunt && Output(q, [DLE, ETX]) == []
    ensures Run(Hunt, [h, l]).Hunting() && Output(Hunt, [h, l]) == []
  {
    RunOne(p, SYN);
    RunPair(Hunt, DLE, STX);
    RunPair(q, DLE, ETX);
    RunPair(Hunt, h, l);
    hide Run;
    hide Output;
  }
}
