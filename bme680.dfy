/** The BME680 humidity/temperature driver (devices/bme680.py).

    The class is the AHT21 driver under another name, with one difference: when the calibrated
    pair is out of range it calls `self.softReset()`, a method the class does not define. That
    call raises AttributeError, so the measurement aborts instead of returning. Everything else
    (transport gate, status chain, re-initialise on an uncalibrated status) is as in AHT21.
 */
module Bme680 {
  import opened Bits
  import opened Bus
  import opened Measurement
  import opened HumidityCodec

  /** The constructor's default address. */
  const DefaultAddr: Byte := 0x77
  const InitCmdList: seq<Byte> := [0x1B, 0x1C, 0x1E]
  const GetStatusCmd: Byte := 0x71
  const TrigMeasList: seq<Byte> := [0xAC, 0x33, 0x00]
  const ReadLength: nat := 7

  /** How a call of `getHumidityTemperature` ends: it returns a pair, or the undefined
      `softReset` raises AttributeError. */
  datatype Outcome = Returned(humidity: real, temperature: real) | AttributeError

  /** The outcome of one measurement, given the block read and the transport status code. */
  function Measure(data: seq<Byte>, code: int): Outcome
    requires |data| >= 6
  {
    match Evaluate(data, code)
    case Invalid(OutOfRange) => AttributeError
    case r => var (h, t) := ToPair(r); Returned(h, t)
  }

  /** Bus traffic after the read: one initialisation write exactly for an uncalibrated status. */
  function Followup(addr: Byte, data: seq<Byte>, code: int): (ops: seq<DeviceOp>)
    requires |data| >= 6
    ensures ops ==
      if Evaluate(data, code) == Invalid(SensorUncalibrated) then [DevWrite(addr, InitCmdList)] else []
  {
    ReinitialisesIffUncalibrated(data, code);
    if Reinitialises(data, code) then [DevWrite(addr, InitCmdList)] else []
  }

  /** The call aborts exactly when the transfer and the status were good but the raw values fall
      outside the range check's bounds. When it returns, the pair is (-1, -1) or in range: a kept
      pair is returned as decoded and calibrated, and any other discarded reading gives (-1, -1). */
  lemma CrashIff(data: seq<Byte>, code: int)
    requires |data| >= 6
    ensures Measure(data, code) == AttributeError <==>
      code == 0 && And(data[0], 0x88) == 0x08 &&
      !(RawHumidity(data[1], data[2], data[3]) <= FullScale &&
        57672 <= RawTemperature(data[3], data[4], data[5]) <= 896532)
    ensures match Measure(data, code)
      case Returned(h, t) =>
        (h == -1.0 && t == -1.0) || (-40.0 <= t <= 120.0 && 0.0 <= h <= 100.0)
      case AttributeError => true
    ensures Evaluate(data, code).Valid? ==>
      Measure(data, code) == Returned(CalibratedDecode(data).humidity, CalibratedDecode(data).temperature)
    ensures Evaluate(data, code).Invalid? && Evaluate(data, code) != Invalid(OutOfRange) ==>
      Measure(data, code) == Returned(-1.0, -1.0)
  {
    EvaluateValid(data, code);
    StatusMasks(data[0]);
  }

  /** A nonzero transport status returns (-1, -1) with no status check and no initialise. */
  lemma TransportFailure(addr: Byte, data: seq<Byte>, code: int)
    requires |data| >= 6 && code != 0
    ensures Measure(data, code) == Returned(-1.0, -1.0)
    ensures Followup(addr, data, code) == []
  {
  }

  /** A failed status check returns (-1, -1); only the uncalibrated status sends the
      initialisation write, and the busy bit takes priority over it. */
  lemma StatusFailureReturnsSentinel(addr: Byte, data: seq<Byte>)
    requires |data| >= 6 && And(data[0], 0x88) != 0x08
    ensures Measure(data, 0) == Returned(-1.0, -1.0)
    ensures Followup(addr, data, 0) == (if data[0] < 0x80 then [DevWrite(addr, InitCmdList)] else [])
  {
    StatusMasks(data[0]);
  }

  class BME680 {
    const device: I2CDevice

    constructor (busNumber: int := 0, addr: Byte := DefaultAddr)
      ensures fresh(device) && device.busNumber == busNumber && device.addr == addr
      ensures device.log == []
    {
      device := new I2CDevice(busNumber, addr);
    }

    method Initialize()
      modifies device
      ensures device.log == old(device.log) + [DevWrite(device.addr, InitCmdList)]
    {
      device.Write(InitCmdList);
    }

    /** `getStatus`: one register read of the status word. */
    method GetStatus() returns (status: seq<Byte>)
      modifies device
      ensures |status| == 1
      ensures device.log ==
        old(device.log) + [DevWriteRead(device.addr, GetStatusCmd, 1, status, device.statusCode)]
    {
      status := device.WriteRead(GetStatusCmd, 1);
    }

    /** `checkStatus`: true exactly for a fine status; an uncalibrated one re-initialises. */
    method CheckStatus(status: Byte) returns (isOk: bool)
      modifies device
      ensures isOk <==> StatusFailure(status) == None
      ensures device.log == old(device.log) +
        (if StatusFailure(status) == Some(SensorUncalibrated)
         then [DevWrite(device.addr, InitCmdList)] else [])
    {
      isOk := false;
      if GetBit(status, 7) == 1 {
        // busy
      } else if GetBit(status, 3) == 0 {
        Initialize();
      } else {
        isOk := true;
      }
    }

    /** `getHumidityTemperature`: trigger, read 7 bytes, then check and decode; an out-of-range
        pair ends the call with AttributeError. */
    method GetHumidityTemperature() returns (outcome: Outcome, ghost raw: seq<Byte>, ghost code: int)
      modifies device
      ensures |raw| == ReadLength
      ensures device.log == old(device.log) +
        [DevWrite(device.addr, TrigMeasList), DevRead(device.addr, ReadLength, raw, code)] +
        Followup(device.addr, raw, code)
      ensures outcome == Measure(raw, code)
    {
      device.Write(TrigMeasList);
      var readData := device.Read(ReadLength);
      raw, code := readData, device.statusCode;
      ReinitialisesIffUncalibrated(raw, code);
      var humidity, temperature := Sentinel as real, Sentinel as real;
      if device.statusCode == 0 {
        var status := readData[0];
        var ok := CheckStatus(status);
        if ok {
          var humidityData := RawHumidity(readData[1], readData[2], readData[3]);
          var temperatureData := RawTemperature(readData[3], readData[4], readData[5]);
          humidity := ScaleHumidity(humidityData);
          temperature := ScaleTemperature(temperatureData);
          temperature := temperature - 1.0;
          if temperature < -40.0 || 120.0 < temperature || humidity < 0.0 || 100.0 < humidity {
            // self.softReset() is not defined: the call raises before the next line runs
            outcome := AttributeError;
            return;
          }
        }
      }
      outcome := Returned(humidity, temperature);
    }
  }
}
