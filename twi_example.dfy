/**
 * The application side of the TWI slave example: the data callback that the
 * driver runs once per stored byte. It copies the byte just received into
 * the send buffer at the same index, so that a master reading back gets what
 * it wrote, and reloads the data register with the first byte to send.
 */
module TwiExample {
  import opened Uint8
  import opened TwiTypes

  /** SLAVE_ADDRESS: the 7-bit address the example gives the slave. */
  const SLAVE_ADDRESS: Byte := 0x51

  /**
   * TWIC_SlaveProcessData on the value view. The callback runs while
   * `bytesReceived` still indexes the byte just stored, and it indexes both
   * buffers with it.
   */
  function EchoData(d: Driver): (r: Driver)
    requires d.bytesReceived < |d.received| && d.bytesReceived < |d.send|
    ensures |r.send| == |d.send|
    ensures r.send[d.bytesReceived] == d.received[d.bytesReceived]
    ensures forall i :: 0 <= i < |d.send| && i != d.bytesReceived ==> r.send[i] == d.send[i]
    ensures r.dataReg == r.send[0]
    ensures d.bytesReceived == 0 ==> r.dataReg == d.received[0]
    ensures r == d.(send := r.send, dataReg := r.dataReg)
  {
    var recvData := d.received[d.bytesReceived];
    var send := d.send[d.bytesReceived := recvData];
    d.(send := send, dataReg := send[0])
  }

  /** TWIC_SlaveProcessData: the callback as the driver runs it, on the global record. */
  method ProcessData(twi: TwiSlave)
    requires twi.Valid() && twi.bytesReceived < RX_SIZE
    modifies twi`dataReg, twi.sendData
    ensures twi.Valid()
    ensures twi.View() == EchoData(old(twi.View()))
  {
    var recvData := twi.receivedData[twi.bytesReceived];
    twi.sendData[twi.bytesReceived] := recvData;
    twi.dataReg := twi.sendData[0];
  }
}
