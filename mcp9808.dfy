/** The MCP9808 temperature driver (devices/mcp9809.py).

    `initialize` writes the configuration register. A measurement reads the ambient
    temperature register (0x05) in one write-then-read transaction, with no trigger and no
    delay. The decoder keeps only the low nibble of the upper byte, so the sign bit and the
    three alert flags are dropped and the value is never negative; a value above 125 is
    replaced by -1, with no reset.
 */
module Mcp9808 {
  import opened Bits
  import opened Bus
  import opened Measurement

  const DefaultAddr: Byte := 0x18
  const ConfigAddr: Byte := 0x01
  /** Enable the event output. */
  const EnableEventList: seq<Byte> := [0x00, 0x08]
  const AmbientTempReg: Byte := 0x05
  const ReadLength: nat := 2

  /** `((b0 & 0x0f) * 2**4) + (b1 * 2**-4)`: the 12-bit value formed by the low nibble of b0
      and all of b1, in sixteenths of a degree. */
  function Decode(b0: Byte, b1: Byte): (t: real)
    ensures t == ((b0 % 16) * 256 + b1) as real / 16.0
    ensures 0.0 <= t <= 255.9375
  {
    LowNibble(b0);
    (And(b0, 0x0F) * Pow2(4)) as real + b1 as real * 0.0625
  }

  /** Bits 4..7 of the upper byte, the sign bit among them, never change the decoded value. */
  lemma SignBitIgnored(b0: Byte, b0': Byte, b1: Byte)
    requires b0 % 16 == b0' % 16
    ensures Decode(b0, b1) == Decode(b0', b1) == Decode(b0 % 16, b1)
  {
    var k := (b0 % 16) * 256 + b1;
    assert (b0 % 16) % 16 == b0 % 16;
    assert Decode(b0, b1) == k as real / 16.0;
    assert Decode(b0', b1) == k as real / 16.0;
    assert Decode(b0 % 16, b1) == k as real / 16.0;
  }

  /** The outcome of one measurement, given the two bytes read and the transport status code. */
  function Evaluate(data: seq<Byte>, code: int): Reading<real>
    requires |data| >= 2
  {
    if code != 0 then Invalid(TransportError)
    else
      var temperature := Decode(data[0], data[1]);
      if temperature < -40.0 || 125.0 < temperature then Invalid(OutOfRange)
      else Valid(temperature)
  }

  /** The value the driver returns: the temperature, or -1. */
  function ToValue(r: Reading<real>): real
  {
    match r
    case Valid(t) => t
    case Invalid(_) => Sentinel as real
  }

  /** The value is kept exactly when the transfer succeeded and the 12-bit value is at most
      2000 (125 degrees, bound included); the lower bound -40 never discards anything. */
  lemma ValidIff(data: seq<Byte>, code: int)
    requires |data| >= 2
    ensures Evaluate(data, code).Valid? <==> code == 0 && (data[0] as int % 16) * 256 + data[1] <= 2000
    ensures !(Decode(data[0], data[1]) < -40.0)
  {
  }

  /** Every return is -1 or a value in [0, 125] equal to the decoding of the two bytes read, and
      -1 is returned exactly when the reading was discarded. */
  lemma ResultShape(data: seq<Byte>, code: int)
    requires |data| >= 2
    ensures var v := ToValue(Evaluate(data, code));
      v == -1.0 || (0.0 <= v <= 125.0 && v == Decode(data[0], data[1]))
    ensures ToValue(Evaluate(data, code)) == -1.0 <==> Evaluate(data, code).Invalid?
  {
  }

  /** Bytes 0x08, 0x20 decode to 130 degrees, which is discarded. */
  lemma ExampleOutOfRange(data: seq<Byte>)
    requires data == [0x08, 0x20]
    ensures Decode(data[0], data[1]) == 130.0
    ensures ToValue(Evaluate(data, 0)) == -1.0
  {
  }

  class MCP9808 {
    const device: I2CDevice

    constructor (busNumber: int := 0, addr: Byte := DefaultAddr)
      ensures fresh(device) && device.busNumber == busNumber && device.addr == addr
      ensures device.log == []
    {
      device := new I2CDevice(busNumber, addr);
    }

    /** `initialize`: one write of the configuration register and its two bytes. */
    method Initialize()
      modifies device
      ensures device.log == old(device.log) + [DevWrite(device.addr, [0x01, 0x00, 0x08])]
    {
      assert [ConfigAddr] + EnableEventList == [0x01, 0x00, 0x08];
      device.Write([ConfigAddr] + EnableEventList);
    }

    /** `getTemperature`: one write-then-read of register 0x05 for two bytes, then decode and
        range check. The bytes read and the transport status are returned as ghosts. */
    method GetTemperature() returns (temperature: real, ghost raw: seq<Byte>, ghost code: int)
      modifies device
      ensures |raw| == ReadLength
      ensures device.log ==
        old(device.log) + [DevWriteRead(device.addr, AmbientTempReg, ReadLength, raw, code)]
      ensures temperature == ToValue(Evaluate(raw, code))
    {
      var readData := device.WriteRead(AmbientTempReg, ReadLength);
      raw, code := readData, device.statusCode;
      temperature := Sentinel as real;
      if device.statusCode == 0 {
        temperature := Decode(readData[0], readData[1]);
        if temperature < -40.0 || 125.0 < temperature {
          temperature := Sentinel as real;
        }
      }
    }
  }
}
