/**
 * The data model of the XMEGA TWI slave driver: the transaction record
 * `TWI_Slave_t`, the slave part of the TWI peripheral it points to, and the
 * status snapshot that one bus interrupt delivers.
 *
 * The record and the peripheral are classes, because the driver updates
 * their fields in place. `Driver` is a value holding every field of both at
 * once; the step functions of the driver are written over it, and each
 * imperative handler is proved to move the objects from one such value to
 * the next.
 */
module TwiTypes {
  import opened Uint8

  /** TWIS_RECEIVE_BUFFER_SIZE: number of bytes the slave stores per write transaction. */
  const RX_SIZE: nat := 8
  /** TWIS_SEND_BUFFER_SIZE: number of bytes the slave may send per read transaction. */
  const TX_SIZE: nat := 8

  /** TWIS_STATUS_READY / TWIS_STATUS_BUSY. */
  datatype Status = Ready | Busy

  /** TWIS_RESULT_*: the outcome of the last transaction. */
  datatype Result = Unknown | Ok | BusError | TransmitCollision | BufferOverflow | Fail

  /** The bits of the slave STATUS register that the driver tests, one snapshot per interrupt. */
  datatype StatusBits = StatusBits(
    busErr: bool,  // BUSERR: illegal bus condition
    coll: bool,    // COLL: transmit collision
    apif: bool,    // APIF: address or stop interrupt flag
    ap: bool,      // AP: set with APIF when the cause was an address match
    dif: bool,     // DIF: data interrupt flag
    dir: bool,     // DIR: set when the master reads, so the slave transmits
    rxAck: bool)   // RXACK: set when the master answered the last byte with NACK

  /** TWI_SLAVE_INTLVL_t: the interrupt level of the slave interrupts. */
  datatype IntLevel = IntLevelOff | IntLevelLo | IntLevelMed | IntLevelHi

  /** The slave CTRLA register, one field per bit group. */
  datatype CtrlA = CtrlA(
    intLevel: IntLevel,
    dien: bool,    // data interrupt enable
    apien: bool,   // address/stop interrupt enable
    enable: bool,  // slave enable
    pien: bool,    // stop interrupt enable
    pmen: bool,    // promiscuous mode
    smen: bool)    // smart mode

  /** CTRLA as it is out of reset: every bit clear. */
  const CTRLA_RESET := CtrlA(IntLevelOff, false, false, false, false, false, false)

  /**
   * One value holding the transaction record and the registers it reaches:
   * the record's fields, the global `twic_data_reg` (the byte register the
   * driver and the callback exchange data through), the slave CTRLA bits,
   * the ACKACT bit of CTRLB, the address register, and whether the stop
   * handler has written the APIF bit back to STATUS to clear it.
   */
  datatype Driver = Driver(
    status: Status,
    result: Result,
    bytesReceived: nat,
    bytesSent: nat,
    abort: bool,
    received: seq<Byte>,
    send: seq<Byte>,
    dataReg: Byte,
    ctrlA: CtrlA,
    ackAct: bool,
    addr: Byte,
    apifCleared: bool)

  /**
   * The memory the driver indexes is there. The receive path writes
   * `receivedData[i]` and the echo callback writes `sendData[i]` for
   * `i < RX_SIZE`; the transmit path reads `sendData[bytesSent]` after
   * incrementing `bytesSent` up to TX_SIZE, so the send buffer must hold
   * TX_SIZE + 1 cells, one more than its nominal size.
   */
  predicate Layout(d: Driver)
  {
    |d.received| >= RX_SIZE && |d.send| > TX_SIZE && |d.send| >= RX_SIZE
  }

  /** Neither counter has run past its buffer. */
  predicate Bounded(d: Driver)
  {
    d.bytesReceived <= RX_SIZE && d.bytesSent <= TX_SIZE
  }

  /** The slave part of a TWI peripheral (`TWI_t.SLAVE`). */
  class TwiModule {
    var ctrlA: CtrlA
    /** CTRLB.ACKACT: send NACK instead of ACK after the next byte. */
    var ackAct: bool
    var addr: Byte
    /** Set once the stop handler has written APIF back to STATUS. */
    var apifCleared: bool

    /** The registers out of reset. */
    constructor ()
      ensures ctrlA == CTRLA_RESET && !ackAct && addr == 0 && !apifCleared
    {
      ctrlA := CTRLA_RESET;
      ackAct := false;
      addr := 0;
      apifCleared := false;
    }
  }

  /** The transaction record `TWI_Slave_t`, with the global `twic_data_reg` beside it. */
  class TwiSlave {
    var iface: TwiModule?
    var status: Status
    var result: Result
    var bytesReceived: nat
    var bytesSent: nat
    var abort: bool
    var receivedData: array<Byte>
    var sendData: array<Byte>
    var dataReg: Byte

    /**
     * The record as a zero-initialised global: no peripheral yet, every
     * field and buffer cell zero. The buffer lengths are parameters so
     * that what the driver needs of them is stated where it is used.
     */
    constructor (rxLength: nat, txLength: nat)
      ensures iface == null && status == Ready && result == Unknown
      ensures bytesReceived == 0 && bytesSent == 0 && !abort && dataReg == 0
      ensures fresh(receivedData) && fresh(sendData) && receivedData != sendData
      ensures receivedData[..] == seq(rxLength, _ => 0)
      ensures sendData[..] == seq(txLength, _ => 0)
    {
      iface := null;
      status := Ready;
      result := Unknown;
      bytesReceived := 0;
      bytesSent := 0;
      abort := false;
      receivedData := new Byte[rxLength](_ => 0);
      sendData := new Byte[txLength](_ => 0);
      dataReg := 0;
    }

    /** The two buffers are separate and long enough (see Layout). */
    ghost predicate Storage()
      reads this
    {
      receivedData != sendData &&
      receivedData.Length >= RX_SIZE &&
      sendData.Length > TX_SIZE && sendData.Length >= RX_SIZE
    }

    /** The record is bound to a peripheral and its counters are within the buffers. */
    ghost predicate Valid()
      reads this
    {
      Storage() && iface != null &&
      bytesReceived <= RX_SIZE && bytesSent <= TX_SIZE
    }

    /** Every field of the record and of the peripheral, as one value. */
    ghost function View(): (d: Driver)
      requires iface != null
      reads this, iface, receivedData, sendData
      ensures Storage() ==> Layout(d)
      ensures Valid() ==> Bounded(d)
    {
      Driver(status, result, bytesReceived, bytesSent, abort,
             receivedData[..], sendData[..], dataReg,
             iface.ctrlA, iface.ackAct, iface.addr, iface.apifCleared)
    }
  }
}
