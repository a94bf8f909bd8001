/** The AHT21 humidity/temperature driver (devices/aht21.py).

    A measurement writes the trigger command, reads a 7-byte block, and keeps the decoded pair
    only when the transport status is 0, the status byte is fine and the calibrated pair is in
    range; otherwise it returns -1 for both values. An uncalibrated status re-initialises the
    sensor once; a busy status and an out-of-range pair cause no further bus traffic.
 */
module Aht21 {
  import opened Bits
  import opened Bus
  import opened Measurement
  import opened HumidityCodec

  /** The constructor's default address. */
  const DefaultAddr: Byte := 0x38
  const InitCmdList: seq<Byte> := [0x1B, 0x1C, 0x1E]
  const GetStatusCmd: Byte := 0x71
  const TrigMeasList: seq<Byte> := [0xAC, 0x33, 0x00]
  /** The trigger is followed by a read of 7 bytes; only bytes 0..5 are used. */
  const ReadLength: nat := 7

  /** The bus traffic a measurement adds after its read: one initialisation write exactly when
      the status says the calibration is not enabled. */
  function Followup(addr: Byte, data: seq<Byte>, code: int): (ops: seq<DeviceOp>)
    requires |data| >= 6
    ensures ops ==
      if Evaluate(data, code) == Invalid(SensorUncalibrated) then [DevWrite(addr, InitCmdList)] else []
  {
    ReinitialisesIffUncalibrated(data, code);
    if Reinitialises(data, code) then [DevWrite(addr, InitCmdList)] else []
  }

  /** Every pair the driver returns is either (-1, -1) or a pair with temperature in [-40, 120]
      and humidity in [0, 100], and the sentinel is returned exactly when the reading was
      discarded (a kept humidity is never negative, so it cannot be mistaken for -1). */
  lemma ResultShape(data: seq<Byte>, code: int)
    requires |data| >= 6
    ensures var (h, t) := ToPair(Evaluate(data, code));
      (h == -1.0 && t == -1.0) || (-40.0 <= t <= 120.0 && 0.0 <= h <= 100.0)
    ensures ToPair(Evaluate(data, code)) == (-1.0, -1.0) <==> Evaluate(data, code).Invalid?
  {
    EvaluateValid(data, code);
  }

  /** A nonzero transport status returns (-1, -1) with no status processing: no re-initialise,
      whatever the block holds. */
  lemma TransportFailure(addr: Byte, data: seq<Byte>, code: int)
    requires |data| >= 6 && code != 0
    ensures ToPair(Evaluate(data, code)) == (-1.0, -1.0)
    ensures Followup(addr, data, code) == []
  {
  }

  /** Busy (bit 7) wins over the calibration bit: a busy status returns (-1, -1) and sends
      nothing more, whatever bit 3 says. */
  lemma BusyWins(addr: Byte, data: seq<Byte>)
    requires |data| >= 6 && data[0] >= 0x80
    ensures Evaluate(data, 0) == Invalid(SensorBusy)
    ensures Followup(addr, data, 0) == []
  {
    StatusMasks(data[0]);
  }

  /** An out-of-range pair returns (-1, -1) with no reset and no further bus traffic. */
  lemma OutOfRangeIsQuiet(addr: Byte, data: seq<Byte>, code: int)
    requires |data| >= 6 && Evaluate(data, code) == Invalid(OutOfRange)
    ensures ToPair(Evaluate(data, code)) == (-1.0, -1.0)
    ensures Followup(addr, data, code) == []
  {
  }

  class AHT21 {
    const device: I2CDevice

    constructor (busNumber: int := 0, addr: Byte := DefaultAddr)
      ensures fresh(device) && device.busNumber == busNumber && device.addr == addr
      ensures device.log == []
    {
      device := new I2CDevice(busNumber, addr);
    }

    method Initialize()
      modifies device
      ensures device.log == old(device.log) + [DevWrite(device.addr, InitCmdList)]
    {
      device.Write(InitCmdList);
    }

    /** `getStatus`: one register read of the status word. */
    method GetStatus() returns (status: seq<Byte>)
      modifies device
      ensures |status| == 1
      ensures device.log ==
        old(device.log) + [DevWriteRead(device.addr, GetStatusCmd, 1, status, device.statusCode)]
    {
      status := device.WriteRead(GetStatusCmd, 1);
    }

    /** `checkStatus`: true exactly for a fine status; an uncalibrated one re-initialises. */
    method CheckStatus(status: Byte) returns (isOk: bool)
      modifies device
      ensures isOk <==> StatusFailure(status) == None
      ensures device.log == old(device.log) +
        (if StatusFailure(status) == Some(SensorUncalibrated)
         then [DevWrite(device.addr, InitCmdList)] else [])
    {
      isOk := false;
      if GetBit(status, 7) == 1 {
        // busy
      } else if GetBit(status, 3) == 0 {
        Initialize();
      } else {
        isOk := true;
      }
    }

    /** `getHumidityTemperature`: trigger, read 7 bytes, then check and decode. The block read
        and the transport status are returned as ghosts so that the result can be stated. */
    method GetHumidityTemperature() returns (humidity: real, temperature: real,
                                             ghost raw: seq<Byte>, ghost code: int)
      modifies device
      ensures |raw| == ReadLength
      ensures device.log == old(device.log) +
        [DevWrite(device.addr, TrigMeasList), DevRead(device.addr, ReadLength, raw, code)] +
        Followup(device.addr, raw, code)
      ensures (humidity, temperature) == ToPair(Evaluate(raw, code))
    {
      device.Write(TrigMeasList);
      var readData := device.Read(ReadLength);
      raw, code := readData, device.statusCode;
      ReinitialisesIffUncalibrated(raw, code);
      humidity, temperature := Sentinel as real, Sentinel as real;
      if device.statusCode == 0 {
        var status := readData[0];
        var ok := CheckStatus(status);
        if ok {
          var humidityData := RawHumidity(readData[1], readData[2], readData[3]);
          var temperatureData := RawTemperature(readData[3], readData[4], readData[5]);
          humidity := ScaleHumidity(humidityData);
          temperature := ScaleTemperature(temperatureData);
          temperature := temperature - 1.0;
          if temperature < -40.0 || 120.0 < temperature || humidity < 0.0 || 100.0 < humidity {
            humidity, temperature := Sentinel as real, Sentinel as real;
          }
        }
      }
    }
  }
}
