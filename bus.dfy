/** The two bus libraries the drivers talk through, as abstract collaborators.

    Neither library is part of this model. Each is a class that records, in a ghost log, every
    transfer a driver issues, in order, and hands back bytes it chooses freely: nothing is known
    about what a sensor answers except the number of bytes. The pyi2c device also reports a
    transport status code for its latest transfer, which is likewise arbitrary.
 */
module Bus {
  import opened Bits

  // ---------------------------------------------------------------------------------
  // pyi2c: a device handle bound to one address, with a status code

  /** One transfer on a pyi2c `I2CDevice`, with the bytes read and the status it reported. */
  datatype DeviceOp =
    | DevWrite(addr: Byte, bytes: seq<Byte>)
    | DevRead(addr: Byte, count: nat, data: seq<Byte>, status: int)
    | DevWriteRead(addr: Byte, reg: Byte, count: nat, data: seq<Byte>, status: int)

  /** Some sequence of `count` bytes, chosen by the sensor. */
  method Receive(count: nat) returns (data: seq<Byte>)
    ensures |data| == count
  {
    var zeros: seq<Byte> := seq(count, _ => 0);
    assert |zeros| == count;
    data :| |data| == count;
  }

  class I2CDevice {
    const busNumber: int
    const addr: Byte
    /** `status_code.value` after the latest transfer; 0 means success. */
    var statusCode: int
    ghost var log: seq<DeviceOp>

    constructor (busNumber: int, addr: Byte)
      ensures this.busNumber == busNumber && this.addr == addr && log == []
    {
      this.busNumber := busNumber;
      this.addr := addr;
      statusCode := 0;
      log := [];
    }

    /** `write(list)`: send the bytes to the device. */
    method Write(bytes: seq<Byte>)
      modifies this
      ensures log == old(log) + [DevWrite(addr, bytes)]
    {
      statusCode := *;
      log := log + [DevWrite(addr, bytes)];
    }

    /** `read(n)`: read n bytes from the device. */
    method Read(count: nat) returns (data: seq<Byte>)
      modifies this
      ensures |data| == count
      ensures log == old(log) + [DevRead(addr, count, data, statusCode)]
    {
      data := Receive(count);
      statusCode := *;
      log := log + [DevRead(addr, count, data, statusCode)];
    }

    /** `writeread(reg, n)`: select a register and read n bytes in one transaction. */
    method WriteRead(reg: Byte, count: nat) returns (data: seq<Byte>)
      modifies this
      ensures |data| == count
      ensures log == old(log) + [DevWriteRead(addr, reg, count, data, statusCode)]
    {
      data := Receive(count);
      statusCode := *;
      log := log + [DevWriteRead(addr, reg, count, data, statusCode)];
    }
  }

  // ---------------------------------------------------------------------------------
  // smbus2: a bus handle; every call names the target address

  /** One message of an `i2c_rdwr` combined transaction. */
  datatype Msg =
    | MsgWrite(addr: Byte, bytes: seq<Byte>)
    | MsgRead(addr: Byte, count: nat, data: seq<Byte>)

  /** One call on an smbus2 `SMBus`, with the bytes read. */
  datatype BusOp =
    | ByteDataWrite(addr: Byte, cmd: Byte, value: Byte)
    | BlockDataWrite(addr: Byte, cmd: Byte, bytes: seq<Byte>)
    | BlockDataRead(addr: Byte, cmd: Byte, count: nat, data: seq<Byte>)
    | Rdwr(msgs: seq<Msg>)

  class SMBus {
    const busNumber: int
    ghost var log: seq<BusOp>

    constructor (busNumber: int)
      ensures this.busNumber == busNumber && log == []
    {
      this.busNumber := busNumber;
      log := [];
    }

    /** `write_byte_data(addr, cmd, value)`. */
    method WriteByteData(addr: Byte, cmd: Byte, value: Byte)
      modifies this
      ensures log == old(log) + [ByteDataWrite(addr, cmd, value)]
    {
      log := log + [ByteDataWrite(addr, cmd, value)];
    }

    /** `write_i2c_block_data(addr, cmd, bytes)`. */
    method WriteI2cBlockData(addr: Byte, cmd: Byte, bytes: seq<Byte>)
      modifies this
      ensures log == old(log) + [BlockDataWrite(addr, cmd, bytes)]
    {
      log := log + [BlockDataWrite(addr, cmd, bytes)];
    }

    /** `read_i2c_block_data(addr, cmd, count)`. */
    method ReadI2cBlockData(addr: Byte, cmd: Byte, count: nat) returns (data: seq<Byte>)
      modifies this
      ensures |data| == count
      ensures log == old(log) + [BlockDataRead(addr, cmd, count, data)]
    {
      data := Receive(count);
      log := log + [BlockDataRead(addr, cmd, count, data)];
    }

    /** `i2c_rdwr(i2c_msg.write(addr, bytes))`: one transaction holding a single write. */
    method RdwrWrite(addr: Byte, bytes: seq<Byte>)
      modifies this
      ensures log == old(log) + [Rdwr([MsgWrite(addr, bytes)])]
    {
      log := log + [Rdwr([MsgWrite(addr, bytes)])];
    }

    /** `i2c_rdwr(i2c_msg.write(addr, bytes), i2c_msg.read(addr, count))`: a write and a read
        in one combined transaction, with no stop between them. */
    method RdwrWriteRead(addr: Byte, bytes: seq<Byte>, count: nat) returns (data: seq<Byte>)
      modifies this
      ensures |data| == count
      ensures log == old(log) + [Rdwr([MsgWrite(addr, bytes), MsgRead(addr, count, data)])]
    {
      data := Receive(count);
      log := log + [Rdwr([MsgWrite(addr, bytes), MsgRead(addr, count, data)])];
    }
  }
}
