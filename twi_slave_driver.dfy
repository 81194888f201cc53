/**
 * The XMEGA TWI slave driver: initialisation and the interrupt-driven
 * transaction state machine.
 *
 * Each C function is modelled twice: as a function on the `Driver` value,
 * which states what one call does, and as a method over the record that
 * does it in place and is proved to agree with that function. The C
 * functions take a `TWI_Slave_t *`; the methods take the record object.
 * The driver's data callback is the example's echo callback.
 */
module TwiSlaveDriver {
  import opened Uint8
  import opened TwiTypes
  import TwiExample

  /** The cause of an interrupt, after the priority decision of TWI_process. */
  datatype Cause = BusErrorCause | CollisionCause | AddressMatchCause | StopCause | DataCause | UnknownCause

  /** The if/else-if chain of TWI_process: the first flag that matches wins. */
  function Classify(s: StatusBits): Cause
  {
    if s.busErr then BusErrorCause
    else if s.coll then CollisionCause
    else if s.apif && s.ap then AddressMatchCause
    else if s.apif then StopCause
    else if s.dif then DataCause
    else UnknownCause
  }

  // ---------------------------------------------------------------------
  // Initialisation

  /**
   * The ADDR register written by TWI_SlaveInitializeModule: the 7-bit
   * address shifted into bits 7..1, truncated to eight bits, with bit 0
   * (general call recognition) clear.
   */
  function SlaveAddress(address: Byte): (r: Byte)
    ensures r % 2 == 0
    ensures r / 2 == address % 0x80
  {
    Truncate(address as int * 2)
  }

  /** The example's slave address 0x51 appears in ADDR as 0xA2. */
  lemma ExampleAddress()
    ensures SlaveAddress(TwiExample.SLAVE_ADDRESS) == 0xA2
  {
  }

  /**
   * The CTRLA value written by TWI_SlaveInitializeModule: the chosen level
   * with the data interrupt, the address/stop interrupt and the slave
   * enabled, and every other bit (the stop interrupt among them) clear.
   */
  function ModuleControl(level: IntLevel): CtrlA
  {
    CtrlA(level, dien := true, apien := true, enable := true, pien := false, pmen := false, smen := false)
  }

  /** TWI_SlaveInitializeDriver, without its clock-system setup. */
  method InitializeDriver(twi: TwiSlave, iface: TwiModule)
    requires twi.Storage()
    modifies twi`iface, twi`bytesReceived, twi`bytesSent, twi`status, twi`result, twi`abort
    ensures twi.Valid() && twi.iface == iface
    ensures twi.bytesReceived == 0 && twi.bytesSent == 0
    ensures twi.status == Ready && twi.result == Unknown && !twi.abort
  {
    twi.iface := iface;
    twi.bytesReceived := 0;
    twi.bytesSent := 0;
    twi.status := Ready;
    twi.result := Unknown;
    twi.abort := false;
  }

  /** TWI_SlaveInitializeModule: program CTRLA and the slave address. */
  method InitializeModule(twi: TwiSlave, address: Byte, level: IntLevel)
    requires twi.Valid()
    modifies twi.iface`ctrlA, twi.iface`addr
    ensures twi.iface.ctrlA == ModuleControl(level) && !twi.iface.ctrlA.pien
    ensures twi.iface.addr == SlaveAddress(address)
  {
    twi.iface.ctrlA := CtrlA(level, dien := true, apien := true, enable := true,
                             pien := false, pmen := false, smen := false);
    twi.iface.addr := Truncate(address as int * 2);
  }

  // ---------------------------------------------------------------------
  // The handlers on the value view

  /** TWI_SlaveTransactionFinished: stamp the result and return to READY. */
  function Finished(d: Driver, res: Result): Driver
  {
    d.(result := res, status := Ready)
  }

  /** TWI_SlaveAddressMatchHandler: begin a transaction. */
  function AddressMatchStep(d: Driver): Driver
    requires |d.send| > 0
  {
    d.(status := Busy, result := Unknown,
       ctrlA := d.ctrlA.(pien := false),
       bytesReceived := 0, bytesSent := 0,
       dataReg := d.send[0])
  }

  /** TWI_SlaveStopHandler: disable the stop interrupt, clear APIF, finish with OK. */
  function StopStep(d: Driver): Driver
  {
    Finished(d.(ctrlA := d.ctrlA.(pien := false), apifCleared := true), Ok)
  }

  /**
   * TWI_SlaveReadHandler, the slave-receive path: enable the stop
   * interrupt, store the data register and run the callback while there is
   * room, and arm a NACK once the buffer is full.
   */
  function ReceiveStep(d: Driver): (r: Driver)
    requires Layout(d)
    ensures Layout(r) && |r.received| == |d.received| && |r.send| == |d.send|
    ensures r.status == d.status && r.result == d.result && r.bytesSent == d.bytesSent
    ensures r.bytesReceived == if d.bytesReceived < RX_SIZE then d.bytesReceived + 1 else d.bytesReceived
    ensures r.ackAct == (d.ackAct || r.bytesReceived >= RX_SIZE)
  {
    var d1 := d.(ctrlA := d.ctrlA.(pien := true));
    var d2 :=
      if d1.bytesReceived < RX_SIZE then
        var stored := d1.(received := d1.received[d1.bytesReceived := d1.dataReg]);
        var echoed := TwiExample.EchoData(stored);
        echoed.(bytesReceived := echoed.bytesReceived + 1)
      else d1;
    if !(d2.bytesReceived < RX_SIZE) then d2.(ackAct := true) else d2
  }

  /**
   * TWI_SlaveWriteHandler, the slave-transmit path. `nack` is RXACK: the
   * master answered the previous byte with NACK.
   */
  function TransmitStep(d: Driver, nack: bool): (r: Driver)
    requires Layout(d)
    ensures r.received == d.received && r.send == d.send && r.ackAct == d.ackAct
    ensures r.bytesReceived == d.bytesReceived
    ensures r.bytesSent in {d.bytesSent, d.bytesSent + 1}
    ensures d.bytesSent <= TX_SIZE ==> r.bytesSent <= TX_SIZE
    ensures r.status == Busy ==> r.status == d.status && r.result == d.result
    ensures r.status != d.status ==> r.result in {Ok, BufferOverflow}
  {
    if d.bytesSent > 0 && nack then
      Finished(d.(dataReg := d.send[0]), Ok)
    else if d.bytesSent < TX_SIZE then
      var sent := d.bytesSent + 1;
      d.(bytesSent := sent, dataReg := d.send[sent])
    else
      Finished(d, BufferOverflow)
  }

  /** TWI_SlaveDataHandler: DIR set means the master reads, so the slave transmits. */
  function DataStep(d: Driver, s: StatusBits): Driver
    requires Layout(d)
  {
    if s.dir then TransmitStep(d, s.rxAck) else ReceiveStep(d)
  }

  /**
   * TWI_process: one interrupt. ACKACT is cleared first, then the snapshot
   * selects exactly one handler.
   */
  function Step(d: Driver, s: StatusBits): (r: Driver)
    requires Layout(d)
    ensures Layout(r) && |r.received| == |d.received| && |r.send| == |d.send|
    ensures Bounded(d) ==> Bounded(r)
  {
    var d0 := d.(ackAct := false);
    match Classify(s)
    case BusErrorCause =>
      d0.(bytesReceived := 0, bytesSent := 0, result := BusError, status := Ready)
    case CollisionCause =>
      d0.(bytesReceived := 0, bytesSent := 0, result := TransmitCollision, status := Ready)
    case AddressMatchCause => AddressMatchStep(d0)
    case StopCause => StopStep(d0)
    case DataCause => DataStep(d0, s)
    case UnknownCause => Finished(d0, Fail)
  }

  // ---------------------------------------------------------------------
  // The handlers on the record

  /** TWI_SlaveTransactionFinished. */
  method TransactionFinished(twi: TwiSlave, res: Result)
    requires twi.Valid()
    modifies twi`result, twi`status
    ensures twi.Valid()
    ensures twi.View() == Finished(old(twi.View()), res)
  {
    twi.result := res;
    twi.status := Ready;
  }

  /** TWI_SlaveAddressMatchHandler. */
  method AddressMatchHandler(twi: TwiSlave)
    requires twi.Valid()
    modifies twi`status, twi`result, twi`bytesReceived, twi`bytesSent, twi`dataReg, twi.iface`ctrlA
    ensures twi.Valid()
    ensures twi.View() == AddressMatchStep(old(twi.View()))
  {
    twi.status := Busy;
    twi.result := Unknown;
    var currentCtrlA := twi.iface.ctrlA;
    twi.iface.ctrlA := currentCtrlA.(pien := false);
    twi.bytesReceived := 0;
    twi.bytesSent := 0;
    twi.dataReg := twi.sendData[0];
  }

  /** TWI_SlaveStopHandler. */
  method StopHandler(twi: TwiSlave)
    requires twi.Valid()
    modifies twi`result, twi`status, twi.iface`ctrlA, twi.iface`apifCleared
    ensures twi.Valid()
    ensures twi.View() == StopStep(old(twi.View()))
  {
    var currentCtrlA := twi.iface.ctrlA;
    twi.iface.ctrlA := currentCtrlA.(pien := false);
    twi.iface.apifCleared := true;
    TransactionFinished(twi, Ok);
  }

  /** TWI_SlaveReadHandler, the slave-receive path. */
  method ReadHandler(twi: TwiSlave)
    requires twi.Valid()
    modifies twi`bytesReceived, twi`dataReg, twi.receivedData, twi.sendData,
             twi.iface`ctrlA, twi.iface`ackAct
    ensures twi.Valid()
    ensures twi.View() == ReceiveStep(old(twi.View()))
  {
    ghost var d := old(twi.View());
    var currentCtrlA := twi.iface.ctrlA;
    twi.iface.ctrlA := currentCtrlA.(pien := true);
    ghost var d1 := d.(ctrlA := d.ctrlA.(pien := true));
    assert twi.View() == d1;
    if twi.bytesReceived < RX_SIZE {
      var data := twi.dataReg;
      twi.receivedData[twi.bytesReceived] := data;
      ghost var stored := d1.(received := d1.received[d1.bytesReceived := d1.dataReg]);
      assert twi.View() == stored;
      TwiExample.ProcessData(twi);
      twi.bytesReceived := twi.bytesReceived + 1;
    }
    if !(twi.bytesReceived < RX_SIZE) {
      twi.iface.ackAct := true;
    }
  }

  /** TWI_SlaveWriteHandler, the slave-transmit path; RXACK is taken from the snapshot. */
  method WriteHandler(twi: TwiSlave, s: StatusBits)
    requires twi.Valid()
    modifies twi`result, twi`status, twi`bytesSent, twi`dataReg
    ensures twi.Valid()
    ensures twi.View() == TransmitStep(old(twi.View()), s.rxAck)
  {
    if twi.bytesSent > 0 && s.rxAck {
      twi.dataReg := twi.sendData[0];
      TransactionFinished(twi, Ok);
    } else {
      if twi.bytesSent < TX_SIZE {
        twi.bytesSent := twi.bytesSent + 1;
        var data := twi.sendData[twi.bytesSent];
        twi.dataReg := data;
      } else {
        TransactionFinished(twi, BufferOverflow);
      }
    }
  }

  /** TWI_SlaveDataHandler; DIR is taken from the snapshot. */
  method DataHandler(twi: TwiSlave, s: StatusBits)
    requires twi.Valid()
    modifies twi`result, twi`status, twi`bytesReceived, twi`bytesSent, twi`dataReg,
             twi.receivedData, twi.sendData, twi.iface`ctrlA, twi.iface`ackAct
    ensures twi.Valid()
    ensures twi.View() == DataStep(old(twi.View()), s)
  {
    if s.dir {
      WriteHandler(twi, s);
    } else {
      ReadHandler(twi);
    }
  }

  /** TWI_process: handle one interrupt whose STATUS snapshot is `s`. */
  method Process(twi: TwiSlave, s: StatusBits)
    requires twi.Valid()
    modifies twi`result, twi`status, twi`bytesReceived, twi`bytesSent, twi`dataReg,
             twi.receivedData, twi.sendData, twi.iface
    ensures twi.Valid()
    ensures twi.View() == Step(old(twi.View()), s)
  {
    twi.iface.ackAct := false;
    if s.busErr {
      twi.bytesReceived := 0;
      twi.bytesSent := 0;
      twi.result := BusError;
      twi.status := Ready;
    } else if s.coll {
      twi.bytesReceived := 0;
      twi.bytesSent := 0;
      twi.result := TransmitCollision;
      twi.status := Ready;
    } else if s.apif && s.ap {
      AddressMatchHandler(twi);
    } else if s.apif {
      StopHandler(twi);
    } else if s.dif {
      DataHandler(twi, s);
    } else {
      TransactionFinished(twi, Fail);
    }
  }

  // ---------------------------------------------------------------------
  // One interrupt, case by case

  /**
   * What every interrupt guarantees, whatever the cause: ACKACT is left set
   * only by a receive that found the buffer full; BUSY is entered at an
   * address match and nowhere else; every way out of BUSY stamps a result;
   * each counter is reset, kept or advanced by one; and only the receive
   * path touches the buffers.
   */
  lemma StepProperties(d: Driver, s: StatusBits)
    requires Layout(d)
    ensures var r := Step(d, s);
      (r.ackAct <==> Classify(s) == DataCause && !s.dir && r.bytesReceived >= RX_SIZE) &&
      (Classify(s) == AddressMatchCause ==> r.status == Busy && r.result == Unknown) &&
      (Classify(s) != AddressMatchCause && r.status == Busy ==>
         d.status == Busy && r.result == d.result) &&
      (d.status == Busy && r.status == Ready ==> r.result != Unknown) &&
      r.bytesReceived in {0, d.bytesReceived, d.bytesReceived + 1} &&
      r.bytesSent in {0, d.bytesSent, d.bytesSent + 1} &&
      (!(Classify(s) == DataCause && !s.dir) ==> r.received == d.received && r.send == d.send)
  {
  }

  /** The priority order of TWI_process, each cause stated on its own. */
  lemma DispatchOrder(s: StatusBits)
    ensures Classify(s) == BusErrorCause <==> s.busErr
    ensures Classify(s) == CollisionCause <==> !s.busErr && s.coll
    ensures Classify(s) == AddressMatchCause <==> !s.busErr && !s.coll && s.apif && s.ap
    ensures Classify(s) == StopCause <==> !s.busErr && !s.coll && s.apif && !s.ap
    ensures Classify(s) == DataCause <==> !s.busErr && !s.coll && !s.apif && s.dif
    ensures Classify(s) == UnknownCause <==> !s.busErr && !s.coll && !s.apif && !s.dif
  {
  }

  /**
   * A bus error or a collision aborts whatever was in progress: both
   * counters back to zero, the matching result, READY, buffers and data
   * register untouched.
   */
  lemma AbortResetsCounters(d: Driver, s: StatusBits)
    requires Layout(d) && (s.busErr || s.coll)
    ensures var r := Step(d, s);
      r.bytesReceived == 0 && r.bytesSent == 0 && r.status == Ready &&
      r.result == (if s.busErr then BusError else TransmitCollision) &&
      r.received == d.received && r.send == d.send && r.dataReg == d.dataReg &&
      r.ctrlA == d.ctrlA && !r.ackAct
  {
  }

  /**
   * An address match starts a transaction: BUSY, result UNKNOWN, stop
   * interrupt disabled, counters zero, and the first byte to send in the
   * data register.
   */
  lemma AddressMatchStarts(d: Driver, s: StatusBits)
    requires Layout(d) && !s.busErr && !s.coll && s.apif && s.ap
    ensures var r := Step(d, s);
      r.status == Busy && r.result == Unknown && !r.ctrlA.pien && !r.ackAct &&
      r.bytesReceived == 0 && r.bytesSent == 0 && r.dataReg == d.send[0] &&
      r.received == d.received && r.send == d.send
  {
  }

  /**
   * A stop condition ends the transaction with OK: stop interrupt disabled,
   * APIF written back, READY; the counters keep the transaction's totals.
   */
  lemma StopFinishes(d: Driver, s: StatusBits)
    requires Layout(d) && !s.busErr && !s.coll && s.apif && !s.ap
    ensures var r := Step(d, s);
      r.status == Ready && r.result == Ok && !r.ctrlA.pien && r.apifCleared &&
      r.bytesReceived == d.bytesReceived && r.bytesSent == d.bytesSent &&
      r.received == d.received && r.send == d.send && r.dataReg == d.dataReg
  {
  }

  /**
   * A data interrupt while the master writes: the stop interrupt is
   * enabled; with room left the data register is stored at index
   * `bytesReceived`, echoed into the send buffer, and the counter advances;
   * at capacity nothing is stored. ACKACT is set exactly when the buffer is
   * full afterwards. Status and result do not change.
   */
  lemma ReceivePath(d: Driver, s: StatusBits)
    requires Layout(d) && !s.busErr && !s.coll && !s.apif && s.dif && !s.dir
    ensures var r := Step(d, s); var k := d.bytesReceived;
      r.ctrlA.pien && r.status == d.status && r.result == d.result &&
      r.bytesSent == d.bytesSent &&
      r.ackAct == (r.bytesReceived >= RX_SIZE) &&
      (k < RX_SIZE ==>
         r.bytesReceived == k + 1 &&
         r.received == d.received[k := d.dataReg] &&
         r.send == d.send[k := d.dataReg] &&
         r.dataReg == r.send[0]) &&
      (k >= RX_SIZE ==>
         r.bytesReceived == k && r.received == d.received && r.send == d.send &&
         r.dataReg == d.dataReg)
  {
  }

  /**
   * A data interrupt while the master reads. A NACK after at least one byte
   * ends the transfer with OK and reloads `sendData[0]`. Otherwise, with
   * room left, `bytesSent` advances first and the byte at the new index is
   * loaded; at capacity the transaction ends with BUFFER_OVERFLOW. The
   * receive side and the buffers are untouched.
   */
  lemma TransmitPath(d: Driver, s: StatusBits)
    requires Layout(d) && !s.busErr && !s.coll && !s.apif && s.dif && s.dir
    ensures var r := Step(d, s);
      r.bytesReceived == d.bytesReceived && r.received == d.received &&
      r.send == d.send && !r.ackAct && r.ctrlA == d.ctrlA &&
      (d.bytesSent > 0 && s.rxAck ==>
         r.dataReg == d.send[0] && r.result == Ok && r.status == Ready &&
         r.bytesSent == d.bytesSent) &&
      (!(d.bytesSent > 0 && s.rxAck) && d.bytesSent < TX_SIZE ==>
         r.bytesSent == d.bytesSent + 1 && r.dataReg == d.send[d.bytesSent + 1] &&
         r.status == d.status && r.result == d.result) &&
      (!(d.bytesSent > 0 && s.rxAck) && d.bytesSent >= TX_SIZE ==>
         r.result == BufferOverflow && r.status == Ready &&
         r.bytesSent == d.bytesSent && r.dataReg == d.dataReg)
  {
  }

  /**
   * The increment before the index in the transmit path: with TX_SIZE - 1
   * bytes counted as sent, an ACK makes the driver load `sendData[TX_SIZE]`,
   * the cell just past a buffer of TX_SIZE bytes. This is why Layout asks
   * for TX_SIZE + 1 cells.
   */
  lemma TransmitReadsIndexTxSize(d: Driver, s: StatusBits)
    requires Layout(d) && !s.busErr && !s.coll && !s.apif && s.dif && s.dir
    requires d.bytesSent == TX_SIZE - 1 && !(d.bytesSent > 0 && s.rxAck)
    ensures Step(d, s).bytesSent == TX_SIZE && Step(d, s).dataReg == d.send[TX_SIZE]
  {
  }

  /**
   * An interrupt with none of the recognised flags ends with FAIL and READY
   * whatever the state was, and changes nothing else but ACKACT.
   */
  lemma UnrecognisedFails(d: Driver, s: StatusBits)
    requires Layout(d) && !s.busErr && !s.coll && !s.apif && !s.dif
    ensures Step(d, s) == d.(ackAct := false, result := Fail, status := Ready)
  {
  }
}
