/**
 * Whole transactions: what a run of interrupts does to the driver, starting
 * from an address match.
 */
module TwiTransactions {
  import opened Uint8
  import opened TwiTypes
  import opened TwiSlaveDriver

  /** Snapshot of an address match. */
  const AddressHit := StatusBits(busErr := false, coll := false, apif := true, ap := true,
                                 dif := false, dir := false, rxAck := false)
  /** Snapshot of a stop condition. */
  const StopSeen := StatusBits(busErr := false, coll := false, apif := true, ap := false,
                               dif := false, dir := false, rxAck := false)
  /** Snapshot of a data interrupt while the master writes. */
  const WriteData := StatusBits(busErr := false, coll := false, apif := false, ap := false,
                                dif := true, dir := false, rxAck := false)
  /** Snapshot of a data interrupt while the master reads and acknowledged the last byte. */
  const ReadAck := StatusBits(busErr := false, coll := false, apif := false, ap := false,
                              dif := true, dir := true, rxAck := false)
  /** Snapshot of a data interrupt while the master reads and answered NACK. */
  const ReadNack := ReadAck.(rxAck := true)

  function Min(a: int, b: int): int { if a <= b then a else b }

  /**
   * One byte written by the master, stated directly: the stop interrupt is
   * enabled; while there is room the byte is stored and echoed at
   * `bytesReceived`, the data register is reloaded with the first byte of
   * the send buffer and the counter advances; ACKACT is set exactly when
   * the buffer is then full. WriteByteIsStep shows this is what `Step` does
   * with the byte in the data register and the `WriteData` snapshot.
   */
  function WriteByte(d: Driver, b: Byte): (r: Driver)
    requires Layout(d)
    ensures Layout(r) && |r.received| == |d.received| && |r.send| == |d.send|
  {
    var k := d.bytesReceived;
    var ctrlA := d.ctrlA.(pien := true);
    if k < RX_SIZE then
      var send := d.send[k := b];
      d.(ctrlA := ctrlA, received := d.received[k := b], send := send, dataReg := send[0],
         bytesReceived := k + 1, ackAct := k + 1 >= RX_SIZE)
    else
      d.(ctrlA := ctrlA, dataReg := b, ackAct := true)
  }

  /** A written byte is exactly one interrupt with the `WriteData` snapshot. */
  lemma WriteByteIsStep(d: Driver, b: Byte)
    requires Layout(d)
    ensures WriteByte(d, b) == Step(d.(dataReg := b), WriteData)
  {
    assert Classify(WriteData) == DataCause;
    var d0 := d.(dataReg := b, ackAct := false);
    assert Step(d.(dataReg := b), WriteData) == ReceiveStep(d0);
  }

  /**
   * The master writes `bytes`: each lands in the data register and raises
   * one data interrupt.
   */
  function ReceiveBytes(d: Driver, bytes: seq<Byte>): (r: Driver)
    requires Layout(d)
    ensures Layout(r) && |r.received| == |d.received| && |r.send| == |d.send|
    decreases |bytes|
  {
    if bytes == [] then d
    else ReceiveBytes(WriteByte(d, bytes[0]), bytes[1..])
  }

  /** The master reads `n` more bytes, acknowledging each. */
  function ReadAcks(d: Driver, n: nat): (r: Driver)
    requires Layout(d)
    ensures Layout(r) && |r.received| == |d.received| && |r.send| == |d.send|
    decreases n
  {
    if n == 0 then d else ReadAcks(Step(d, ReadAck), n - 1)
  }

  /** `s` with the cells from index `k` on replaced by `w`, one cell at a time. */
  function Overlay(s: seq<Byte>, k: nat, w: seq<Byte>): (r: seq<Byte>)
    requires k + |w| <= |s|
    ensures |r| == |s|
    decreases |w|
  {
    if w == [] then s else Overlay(s[k := w[0]], k + 1, w[1..])
  }

  /** The overlay keeps `s` before `k`, holds `w` from `k` on, and keeps `s` after it. */
  lemma {:induction false} OverlaySplice(s: seq<Byte>, k: nat, w: seq<Byte>)
    requires k + |w| <= |s|
    ensures Overlay(s, k, w) == s[..k] + w + s[k + |w|..]
    decreases |w|
  {
    if w != [] {
      var s1 := s[k := w[0]];
      OverlaySplice(s1, k + 1, w[1..]);
      assert s1[..k + 1] == s[..k] + [w[0]];
      assert s1[k + 1 + |w[1..]|..] == s[k + |w|..];
      assert [w[0]] + w[1..] == w;
    }
  }

  /**
   * Storing the head of `bytes` at `k` and then overlaying the rest of the
   * window after it is overlaying the whole window at `k`.
   */
  lemma OverlayHead(s: seq<Byte>, k: nat, bytes: seq<Byte>, s1: seq<Byte>, t: seq<Byte>)
    requires k < RX_SIZE <= |s| && bytes != [] && s1 == s[k := bytes[0]]
    requires t == Overlay(s1, k + 1, bytes[1..][..Min(k + 1 + |bytes[1..]|, RX_SIZE) - (k + 1)])
    ensures t == Overlay(s, k, bytes[..Min(k + |bytes|, RX_SIZE) - k])
  {
    var m := Min(k + |bytes|, RX_SIZE) - k;
    assert bytes[..m][1..] == bytes[1..][..m - 1];
  }

  /** An overlay at index 0 begins with the overlaid cells. */
  lemma OverlayFront(s: seq<Byte>, w: seq<Byte>)
    requires |w| <= |s|
    ensures Overlay(s, 0, w)[..|w|] == w
  {
    OverlaySplice(s, 0, w);
    assert (s[..0] + w + s[|w|..])[..|w|] == w;
  }

  /**
   * What one written byte does: stored and echoed at `bytesReceived` while
   * there is room, dropped once the buffer is full.
   */
  lemma ReceiveOne(d: Driver, b: Byte)
    requires Layout(d) && d.bytesReceived <= RX_SIZE
    ensures var r := WriteByte(d, b); var k := d.bytesReceived;
      r.status == d.status && r.result == d.result && r.bytesSent == d.bytesSent &&
      r.ctrlA.pien && r.ackAct == (r.bytesReceived >= RX_SIZE) &&
      (k < RX_SIZE ==> r.bytesReceived == k + 1 &&
                       r.received == d.received[k := b] && r.send == d.send[k := b]) &&
      (k >= RX_SIZE ==> r.bytesReceived == k && r.received == d.received && r.send == d.send)
  {
  }

  /**
   * A write of any length from a state within bounds: the counter advances
   * by one per byte and saturates at RX_SIZE; status, result and the send
   * counter stay; the last byte leaves the stop interrupt enabled and ACKACT
   * set exactly when the buffer is full.
   */
  lemma {:induction false} ReceiveBytesCount(d: Driver, bytes: seq<Byte>)
    requires Layout(d) && d.bytesReceived <= RX_SIZE
    ensures var r := ReceiveBytes(d, bytes);
      r.bytesReceived == Min(d.bytesReceived + |bytes|, RX_SIZE) &&
      r.status == d.status && r.result == d.result && r.bytesSent == d.bytesSent &&
      (|bytes| > 0 ==> r.ctrlA.pien && r.ackAct == (r.bytesReceived >= RX_SIZE))
    decreases |bytes|
  {
    if bytes != [] {
      ReceiveOne(d, bytes[0]);
      ReceiveBytesCount(WriteByte(d, bytes[0]), bytes[1..]);
    }
  }

  /**
   * The same write, on the receive buffer: the bytes are stored from
   * `bytesReceived` up to its capacity; bytes beyond capacity are dropped
   * and no other cell is written.
   */
  lemma {:induction false} ReceiveBytesStores(d: Driver, bytes: seq<Byte>)
    requires Layout(d) && d.bytesReceived <= RX_SIZE
    ensures var k := d.bytesReceived; var n := Min(k + |bytes|, RX_SIZE);
      ReceiveBytes(d, bytes).received == Overlay(d.received, k, bytes[..n - k])
    decreases |bytes|, 1
  {
    if bytes == [] {
      assert Overlay(d.received, d.bytesReceived, []) == d.received;
    } else if d.bytesReceived < RX_SIZE {
      ReceiveBytesStoresHead(d, bytes);
    } else {
      ReceiveBytesStoresFull(d, bytes);
    }
  }

  lemma {:induction false} ReceiveBytesStoresHead(d: Driver, bytes: seq<Byte>)
    requires Layout(d) && d.bytesReceived < RX_SIZE && bytes != []
    ensures var k := d.bytesReceived; var n := Min(k + |bytes|, RX_SIZE);
      ReceiveBytes(d, bytes).received == Overlay(d.received, k, bytes[..n - k])
    decreases |bytes|, 0
  {
    var d1 := WriteByte(d, bytes[0]);
    ReceiveBytesStores(d1, bytes[1..]);
    OverlayHead(d.received, d.bytesReceived, bytes, d1.received, ReceiveBytes(d1, bytes[1..]).received);
  }

  lemma {:induction false} ReceiveBytesStoresFull(d: Driver, bytes: seq<Byte>)
    requires Layout(d) && d.bytesReceived == RX_SIZE && bytes != []
    ensures ReceiveBytes(d, bytes).received == d.received
    decreases |bytes|, 0
  {
    var d1 := WriteByte(d, bytes[0]);
    ReceiveOne(d, bytes[0]);
    ReceiveBytesStores(d1, bytes[1..]);
    assert bytes[1..][..0] == [];
    assert Overlay(d1.received, RX_SIZE, []) == d1.received;
  }

  /**
   * The same write, on the send buffer: the echo callback copies each
   * stored byte to the same index of the send buffer, and no other cell is
   * written.
   */
  lemma {:induction false} ReceiveBytesEchoes(d: Driver, bytes: seq<Byte>)
    requires Layout(d) && d.bytesReceived <= RX_SIZE
    ensures var k := d.bytesReceived; var n := Min(k + |bytes|, RX_SIZE);
      ReceiveBytes(d, bytes).send == Overlay(d.send, k, bytes[..n - k])
    decreases |bytes|, 1
  {
    if bytes == [] {
      assert Overlay(d.send, d.bytesReceived, []) == d.send;
    } else if d.bytesReceived < RX_SIZE {
      ReceiveBytesEchoesHead(d, bytes);
    } else {
      ReceiveBytesEchoesFull(d, bytes);
    }
  }

  lemma {:induction false} ReceiveBytesEchoesHead(d: Driver, bytes: seq<Byte>)
    requires Layout(d) && d.bytesReceived < RX_SIZE && bytes != []
    ensures var k := d.bytesReceived; var n := Min(k + |bytes|, RX_SIZE);
      ReceiveBytes(d, bytes).send == Overlay(d.send, k, bytes[..n - k])
    decreases |bytes|, 0
  {
    var d1 := WriteByte(d, bytes[0]);
    ReceiveBytesEchoes(d1, bytes[1..]);
    OverlayHead(d.send, d.bytesReceived, bytes, d1.send, ReceiveBytes(d1, bytes[1..]).send);
  }

  lemma {:induction false} ReceiveBytesEchoesFull(d: Driver, bytes: seq<Byte>)
    requires Layout(d) && d.bytesReceived == RX_SIZE && bytes != []
    ensures ReceiveBytes(d, bytes).send == d.send
    decreases |bytes|, 0
  {
    var d1 := WriteByte(d, bytes[0]);
    ReceiveOne(d, bytes[0]);
    ReceiveBytesEchoes(d1, bytes[1..]);
    assert bytes[1..][..0] == [];
    assert Overlay(d1.send, RX_SIZE, []) == d1.send;
  }

  /**
   * A write of at most RX_SIZE bytes into empty buffers: both buffers begin
   * with exactly those bytes, and all of them are counted.
   */
  lemma EchoFromEmpty(a: Driver, bytes: seq<Byte>)
    requires Layout(a) && a.bytesReceived == 0 && |bytes| <= RX_SIZE
    ensures var r := ReceiveBytes(a, bytes);
      r.bytesReceived == |bytes| &&
      r.received[..|bytes|] == bytes && r.send[..|bytes|] == bytes &&
      r.status == a.status && r.result == a.result && r.bytesSent == a.bytesSent
  {
    ReceiveBytesCount(a, bytes);
    ReceiveBytesStores(a, bytes);
    ReceiveBytesEchoes(a, bytes);
    assert bytes[..|bytes|] == bytes;
    OverlayFront(a.received, bytes);
    OverlayFront(a.send, bytes);
  }

  /**
   * The echo the example promises: after an address match and a write of
   * at most RX_SIZE bytes, both buffers begin with exactly those bytes and
   * the transaction is still in progress.
   */
  lemma EchoAfterAddressMatch(d: Driver, s: StatusBits, bytes: seq<Byte>)
    requires Layout(d) && Classify(s) == AddressMatchCause && |bytes| <= RX_SIZE
    ensures var r := ReceiveBytes(Step(d, s), bytes);
      r.bytesReceived == |bytes| &&
      r.received[..|bytes|] == bytes && r.send[..|bytes|] == bytes &&
      r.status == Busy && r.result == Unknown && r.bytesSent == 0
  {
    AddressMatchStarts(d, s);
    EchoFromEmpty(Step(d, s), bytes);
  }

  /**
   * A write longer than the buffer never writes past it: the counter stops
   * at RX_SIZE, the cells from RX_SIZE on are as they were, and the slave
   * is left set to NACK the next byte.
   */
  lemma ReceiveOverrunDropped(d: Driver, bytes: seq<Byte>)
    requires Layout(d) && d.bytesReceived <= RX_SIZE
    requires d.bytesReceived + |bytes| >= RX_SIZE && |bytes| > 0
    ensures var r := ReceiveBytes(d, bytes);
      r.bytesReceived == RX_SIZE && r.ackAct &&
      r.received[RX_SIZE..] == d.received[RX_SIZE..]
  {
    ReceiveBytesCount(d, bytes);
    ReceiveBytesStores(d, bytes);
    var k := d.bytesReceived;
    OverlaySplice(d.received, k, bytes[..RX_SIZE - k]);
  }

  /**
   * Reads that stay within the send buffer: each ACK advances `bytesSent`
   * by one and loads the byte at the new count; status, result and the
   * buffers stay.
   */
  lemma {:induction false} ReadAcksEffect(d: Driver, n: nat)
    requires Layout(d) && d.bytesSent + n <= TX_SIZE
    ensures var r := ReadAcks(d, n);
      r.bytesSent == d.bytesSent + n &&
      r.status == d.status && r.result == d.result &&
      r.received == d.received && r.send == d.send &&
      r.bytesReceived == d.bytesReceived &&
      (n > 0 ==> r.dataReg == d.send[r.bytesSent])
    decreases n
  {
    if n > 0 {
      TransmitPath(d, ReadAck);
      ReadAcksEffect(Step(d, ReadAck), n - 1);
    }
  }

  /**
   * After an address match, any number of acknowledged reads up to TX_SIZE
   * is counted exactly, keeps the transaction BUSY with no result yet, and
   * leaves the byte at the new count in the data register.
   */
  lemma ReadsAfterAddressMatch(d: Driver, n: nat)
    requires Layout(d) && n <= TX_SIZE
    ensures var r := ReadAcks(Step(d, AddressHit), n);
      r.bytesSent == n && r.status == Busy && r.result == Unknown &&
      (n > 0 ==> r.dataReg == d.send[n])
  {
    AddressMatchStarts(d, AddressHit);
    ReadAcksEffect(Step(d, AddressHit), n);
  }

  /**
   * Reading past the send buffer: after an address match, TX_SIZE ACKs use
   * up the buffer with the transaction still BUSY, and one more ends it with
   * BUFFER_OVERFLOW.
   */
  lemma SendPastCapacity(d: Driver)
    requires Layout(d)
    ensures var a := Step(d, AddressHit);
      ReadAcks(a, TX_SIZE).status == Busy &&
      ReadAcks(a, TX_SIZE).bytesSent == TX_SIZE &&
      ReadAcks(a, TX_SIZE + 1).result == BufferOverflow &&
      ReadAcks(a, TX_SIZE + 1).status == Ready &&
      ReadAcks(a, TX_SIZE + 1).bytesSent == TX_SIZE
  {
    var a := Step(d, AddressHit);
    ReadAcksEffect(a, TX_SIZE);
    var b := ReadAcks(a, TX_SIZE);
    TransmitPath(b, ReadAck);
    ReadAcksSplit(a, TX_SIZE, 1);
  }

  /** Reading `m + n` bytes is reading `m` and then `n`. */
  lemma {:induction false} ReadAcksSplit(d: Driver, m: nat, n: nat)
    requires Layout(d)
    ensures ReadAcks(d, m + n) == ReadAcks(ReadAcks(d, m), n)
    decreases m
  {
    if m > 0 {
      ReadAcksSplit(Step(d, ReadAck), m - 1, n);
    }
  }

  /**
   * A master writes 0x10, 0x20, 0x30 and stops: the bytes are stored and
   * echoed, three are counted, and the transaction ends with OK.
   */
  lemma WriteThreeThenStop(d: Driver)
    requires Layout(d)
    ensures var r := Step(ReceiveBytes(Step(d, AddressHit), [0x10, 0x20, 0x30]), StopSeen);
      r.received[..3] == [0x10, 0x20, 0x30] && r.send[..3] == [0x10, 0x20, 0x30] &&
      r.bytesReceived == 3 && r.result == Ok && r.status == Ready
  {
    var w := ReceiveBytes(Step(d, AddressHit), [0x10, 0x20, 0x30]);
    EchoAfterAddressMatch(d, AddressHit, [0x10, 0x20, 0x30]);
    StopFinishes(w, StopSeen);
  }

  /**
   * A master reads two bytes from a send buffer beginning 0xAA, 0xBB: the
   * address match preloads 0xAA, the first data interrupt loads 0xBB, and a
   * NACK ends the transfer with OK and 0xAA reloaded.
   */
  lemma ReadTwoThenNack(d: Driver)
    requires Layout(d) && d.send[0] == 0xAA && d.send[1] == 0xBB
    ensures var a := Step(d, AddressHit); var b := Step(a, ReadAck); var c := Step(b, ReadNack);
      a.dataReg == 0xAA && a.status == Busy &&
      b.dataReg == 0xBB && b.bytesSent == 1 && b.status == Busy &&
      c.dataReg == 0xAA && c.result == Ok && c.status == Ready
  {
  }
}
