/** The ring arithmetic of lib/datalink.cc (BUFLEN, hasSpace, hasData, inca): 4096 cells, one kept free. */
module Ring {
  import opened Bytes

  const BUFLEN: nat := 4096

  /** The bytes stored from index `from` up to, not including, index `to`. */
  function Stored(buf: seq<byte>, from: nat, to: nat): seq<byte>
    requires |buf| >= BUFLEN && from < BUFLEN && to < BUFLEN
  {
    if from <= to then buf[from..to] else buf[from..BUFLEN] + buf[..to]
  }

  function Inca(idx: nat, amount: nat): (r: nat)
    ensures r < BUFLEN
  {
    (idx + amount) % BUFLEN
  }

  /** `normalize`. */
  function Norm(idx: nat): (r: nat)
    ensures r < BUFLEN && (idx < BUFLEN ==> r == idx)
  {
    idx % BUFLEN
  }

  /** Room left when one cell must stay free, as `send` computes it. */
  function Free(read: nat, write: nat): (n: nat)
    requires read < BUFLEN && write < BUFLEN
    ensures n < BUFLEN
  {
    (read + BUFLEN - write - 1) % BUFLEN
  }

  lemma StoredLength(buf: seq<byte>, from: nat, to: nat)
    requires |buf| >= BUFLEN && from < BUFLEN && to < BUFLEN
    ensures |Stored(buf, from, to)| == if from <= to then to - from else 4096 - from + to
    ensures |Stored(buf, from, to)| + Free(from, to) == 4095
  {
  }

  lemma IncaWithin(idx: nat, amount: nat)
    requires idx + amount <= BUFLEN
    ensures Inca(idx, amount) == if idx + amount == BUFLEN then 0 else idx + amount
  {
  }

  lemma StoredHead(buf: seq<byte>, from: nat, to: nat)
    requires |buf| >= BUFLEN && from < BUFLEN && to < BUFLEN && from != to
    ensures Stored(buf, from, to) == [buf[from]] + Stored(buf, Inca(from, 1), to)
  {
    IncaWithin(from, 1);
    hide Inca;
    if from < to {
      assert buf[from..to] == [buf[from]] + buf[from + 1..to];
    } else {
      var t := buf[from + 1..BUFLEN];
      assert buf[from..BUFLEN] == [buf[from]] + t;
      assert [buf[from]] + t + buf[..to] == [buf[from]] + (t + buf[..to]);
      assert buf[0..to] == buf[..to] && buf[BUFLEN..BUFLEN] + buf[..to] == buf[..to];
    }
  }

  /** Taking k contiguous bytes from the front. */
  lemma StoredDrop(buf: seq<byte>, from: nat, to: nat, k: nat)
    requires |buf| >= BUFLEN && from < BUFLEN && to < BUFLEN
    requires k <= if from <= to then to - from else BUFLEN - from
    ensures k <= |Stored(buf, from, to)|
    ensures Stored(buf, from, to)[..k] == buf[from..from + k]
    ensures Stored(buf, from, to)[k..] == Stored(buf, Inca(from, k), to)
  {
    IncaWithin(from, k);
    hide Inca;
    if from <= to {
      DropSlice(buf, from, to, k);
    } else {
      DropFirst(buf[from..BUFLEN], buf[..to], k);
      DropSlice(buf, from, BUFLEN, k);
      assert buf[0..to] == buf[..to] && buf[BUFLEN..BUFLEN] + buf[..to] == buf[..to];
    }
  }

  lemma DropFirst(a: seq<byte>, b: seq<byte>, k: nat)
    requires k <= |a|
    ensures (a + b)[..k] == a[..k] && (a + b)[k..] == a[k..] + b
  {
  }

  lemma DropSlice(buf: seq<byte>, from: nat, to: nat, k: nat)
    requires from + k <= to <= |buf|
    ensures buf[from..to][..k] == buf[from..from + k] && buf[from..to][k..] == buf[from + k..to]
  {
  }

  /** Writing `data` contiguously at the write index appends it, provided one cell stays free. */
  lemma StoredAppend(buf: seq<byte>, buf': seq<byte>, from: nat, to: nat, data: seq<byte>)
    requires |buf| == |buf'| >= BUFLEN && from < BUFLEN && to < BUFLEN
    requires to + |data| <= BUFLEN
    requires buf' == buf[..to] + data + buf[to + |data|..]
    requires |Stored(buf, from, to)| + |data| < BUFLEN
    ensures Stored(buf', from, Inca(to, |data|)) == Stored(buf, from, to) + data
  {
    var to' := Inca(to, |data|);
    IncaWithin(to, |data|);
    hide Inca;
    if from <= to {
      Written(buf, buf', from, to, data);
      assert buf'[..0] == [] && buf'[from..BUFLEN] + [] == buf'[from..BUFLEN];
    } else {
      Written(buf, buf', 0, to, data);
      assert buf[0..to] == buf[..to] && buf'[0..to'] == buf'[..to'];
      Untouched(buf, buf', from, to, data);
      var x, y := buf[from..BUFLEN], buf[..to];
      assert x + (y + data) == x + y + data;
    }
  }

  lemma Written(buf: seq<byte>, buf': seq<byte>, from: nat, to: nat, data: seq<byte>)
    requires from <= to && to + |data| <= |buf| && buf' == buf[..to] + data + buf[to + |data|..]
    ensures buf'[from..to + |data|] == buf[from..to] + data
  {
  }

  lemma Untouched(buf: seq<byte>, buf': seq<byte>, from: nat, to: nat, data: seq<byte>)
    requires |buf| >= BUFLEN && to + |data| <= from <= BUFLEN && buf' == buf[..to] + data + buf[to + |data|..]
    ensures buf'[from..BUFLEN] == buf[from..BUFLEN]
  {
  }

  /** Filling every last cell makes the ring look empty: all BUFLEN bytes are lost. */
  lemma FullLooksEmpty(buf: seq<byte>, from: nat, to: nat, k: nat)
    requires |buf| >= BUFLEN && from < BUFLEN && to < BUFLEN
    requires |Stored(buf, from, to)| + k == BUFLEN
    ensures Stored(buf, from, Inca(to, k)) == []
  {
  }
}
