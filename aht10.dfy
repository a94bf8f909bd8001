/** The AHT10 humidity/temperature driver (devices/aht10.py).

    `initialize` writes the initialisation command at the constructor's address. A measurement
    writes the trigger command and reads 6 bytes, but both transfers go to the module constant
    address 0x38, whatever address the driver was built with. The status byte is read and
    ignored, there is no calibration offset and no range check: the decoded pair is always
    returned.
 */
module Aht10 {
  import opened Bits
  import opened Bus
  import opened Measurement
  import opened HumidityCodec

  /** The constructor's default address. */
  const DefaultAddr: Byte := 0x38
  /** The module-level address the measurement uses. */
  const Aht10Addr: Byte := 0x38
  const InitCmd: Byte := 0xE1
  const TrigMeas: Byte := 0xAC
  const Data0: Byte := 0x33
  const Data1: Byte := 0x00
  const ReadLength: nat := 6

  /** The pair is always returned and lies in humidity [0, 1048800*100/2^20] and temperature
      [-50, 150); in particular the humidity is never the -1 sentinel. */
  lemma ResultBounds(data: seq<Byte>)
    requires |data| >= 6
    ensures 0.0 <= Decode(data).humidity <= 1048800.0 * 100.0 / 1048576.0
    ensures -50.0 <= Decode(data).temperature < 150.0
    ensures Decode(data).humidity != Sentinel as real
  {
    DecodeBounds(data);
  }

  /** The status byte (byte 0) never influences the result. */
  lemma StatusIgnored(data: seq<Byte>, status: Byte)
    requires |data| >= 6
    ensures Decode(data[0 := status]) == Decode(data)
  {
    var other := data[0 := status];
    assert other[1] == data[1] && other[2] == data[2] && other[3] == data[3];
    assert other[4] == data[4] && other[5] == data[5];
  }

  /** The block 0x98, 0x19, 0x9A, 0x71, 0x6B, 0x21 gives raw humidity 104976 (the unshifted
      high nibble 0x70 of byte 3 included) and raw temperature 92961, that is about 10.01 percent
      and about -32.27 degrees. */
  lemma ExampleBlock(data: seq<Byte>)
    requires data == [0x98, 0x19, 0x9A, 0x71, 0x6B, 0x21]
    ensures RawHumidity(data[1], data[2], data[3]) == 104976
    ensures RawTemperature(data[3], data[4], data[5]) == 92961
    ensures Decode(data) == HumTemp(104976.0 / 1048576.0 * 100.0, 92961.0 / 1048576.0 * 200.0 - 50.0)
  {
    var b1, b2, b3, b4, b5 := data[1], data[2], data[3], data[4], data[5];
    assert b1 == 0x19 && b2 == 0x9A && b3 == 0x71 && b4 == 0x6B && b5 == 0x21;
    assert b3 % 16 == 1;
    var h := RawHumidity(b1, b2, b3);
    var t := RawTemperature(b3, b4, b5);
    assert h == b1 as int * 4096 + b2 as int * 16 + (b3 as int - b3 as int % 16);
    assert t == (b3 as int % 16) * 65536 + b4 as int * 256 + b5 as int;
  }

  class AHT10 {
    const bus: SMBus
    const addr: Byte

    constructor (busNumber: int := 0, addr: Byte := DefaultAddr)
      ensures fresh(bus) && bus.busNumber == busNumber && this.addr == addr && bus.log == []
    {
      bus := new SMBus(busNumber);
      this.addr := addr;
    }

    /** `initialize`: write the initialisation command 0xE1 to register 0x00 at `addr`. */
    method Initialize()
      modifies bus
      ensures bus.log == old(bus.log) + [ByteDataWrite(addr, 0x00, InitCmd)]
    {
      bus.WriteByteData(addr, 0x00, InitCmd);
    }

    /** `getHumidityTemperature`: block write of the trigger at command 0x00, then block read of
        6 bytes at command 0x01, both at address 0x38; the decoded pair is returned as is. The
        block read is returned as a ghost. */
    method GetHumidityTemperature() returns (humidity: real, temperature: real, ghost raw: seq<Byte>)
      modifies bus
      ensures |raw| == ReadLength
      ensures bus.log == old(bus.log) +
        [BlockDataWrite(Aht10Addr, 0x00, [TrigMeas, Data0, Data1]),
         BlockDataRead(Aht10Addr, 0x01, ReadLength, raw)]
      ensures HumTemp(humidity, temperature) == Decode(raw)
    {
      var writeData := [TrigMeas, Data0, Data1];
      bus.WriteI2cBlockData(Aht10Addr, 0x00, writeData);
      var readData := bus.ReadI2cBlockData(Aht10Addr, 0x01, ReadLength);
      raw := readData;

      var status := readData[0];

      var humidityData := RawHumidity(readData[1], readData[2], readData[3]);
      var temperatureData := RawTemperature(readData[3], readData[4], readData[5]);

      humidity := ScaleHumidity(humidityData);
      temperature := ScaleTemperature(temperatureData);
    }
  }
}
