/** The decoding shared by the three humidity/temperature drivers (AHT10, AHT21, BME680).

    A measurement block starts with a status byte; bytes 1..3 carry humidity and bytes 3..5
    carry temperature, byte 3 being split between the two. All three drivers combine the bytes
    with the same expressions, including the humidity term `b3 & 0xF0`, which keeps byte 3's
    high nibble in place instead of shifting it down: the decoded raw humidity therefore runs
    up to 1048800, past 2^20. Scaling is exact here (`real`), so no float rounding enters.
 */
module HumidityCodec {
  import opened Bits
  import opened Measurement

  /** 2^20, the full scale of both raw values. */
  const FullScale: nat := 1048576

  /** `(b1 << 12) + (b2 << 4) + (b3 & 0xF0)`. */
  function RawHumidity(b1: Byte, b2: Byte, b3: Byte): (raw: nat)
    ensures raw == b1 * 4096 + b2 * 16 + (b3 - b3 % 16)
    ensures raw % 16 == 0 && raw <= 1048800
  {
    HighNibble(b3);
    RawHumidityArith(b1, b2, b3);
    assert Pow2(12) == 4096 && Pow2(4) == 16;
    Shl(b1, 12) + Shl(b2, 4) + And(b3, 0xF0)
  }

  /** The raw humidity sum is a multiple of 16 and at most 0xFF000 + 0xFF0 + 0xF0. */
  lemma RawHumidityArith(b1: Byte, b2: Byte, b3: Byte)
    ensures (b1 * 4096 + b2 * 16 + (b3 - b3 % 16)) % 16 == 0
    ensures b1 * 4096 + b2 * 16 + (b3 - b3 % 16) <= 1048800
  {
    assert b3 - b3 % 16 == 16 * (b3 / 16);
    assert b1 * 4096 + b2 * 16 + (b3 - b3 % 16) == 16 * (b1 * 256 + b2 + b3 / 16);
  }

  /** `((b3 & 0x0f) << 16) + (b4 << 8) + b5`. */
  function RawTemperature(b3: Byte, b4: Byte, b5: Byte): (raw: nat)
    ensures raw == (b3 % 16) * 65536 + b4 * 256 + b5
    ensures raw < FullScale
  {
    LowNibble(b3);
    Shl(And(b3, 0x0F), 16) + Shl(b4, 8) + b5
  }

  /** `humidity_data/(2**20)*100`, in percent. */
  function ScaleHumidity(raw: nat): real
  {
    raw as real / FullScale as real * 100.0
  }

  /** `temperature_data/(2**20)*200 - 50`, in degrees Celsius. */
  function ScaleTemperature(raw: nat): real
  {
    raw as real / FullScale as real * 200.0 - 50.0
  }

  /** Bytes 1..5 of a measurement block, decoded and scaled with no calibration. Byte 0 (the
      status) and any byte past 5 play no part. */
  function Decode(data: seq<Byte>): (ht: HumTemp)
    requires |data| >= 6
  {
    HumTemp(ScaleHumidity(RawHumidity(data[1], data[2], data[3])),
            ScaleTemperature(RawTemperature(data[3], data[4], data[5])))
  }

  /** Every decoded pair lies in humidity [0, 1048800*100/2^20] and temperature [-50, 150). */
  lemma DecodeBounds(data: seq<Byte>)
    requires |data| >= 6
    ensures 0.0 <= Decode(data).humidity <= 1048800.0 * 100.0 / 1048576.0
    ensures -50.0 <= Decode(data).temperature < 150.0
  {
    var h := RawHumidity(data[1], data[2], data[3]);
    var t := RawTemperature(data[3], data[4], data[5]);
    assert h as real <= 1048800.0;
    assert t as real <= 1048575.0;
  }

  // ---------------------------------------------------------------------------------
  // The sensor's own packing, and what the decoder makes of it

  /** A measurement block as the sensor lays out a 20-bit humidity h and a 20-bit temperature
      t: h fills byte 1, byte 2 and the high nibble of byte 3; t fills the low nibble of byte 3,
      byte 4 and byte 5. */
  function Pack(status: Byte, h: nat, t: nat): (block: seq<Byte>)
    requires h < FullScale && t < FullScale
    ensures |block| == 6 && block[0] == status
  {
    [status, h / 4096, (h / 16) % 256, (h % 16) * 16 + t / 65536, (t / 256) % 256, t % 256]
  }

  /** Decoding a packed block gives the temperature back exactly, but the humidity comes back as
      h + 15 * (h % 16): its low nibble is read sixteen times too large. */
  lemma {:induction false} PackThenDecode(status: Byte, h: nat, t: nat)
    requires h < FullScale && t < FullScale
    ensures var b := Pack(status, h, t);
      RawTemperature(b[3], b[4], b[5]) == t &&
      RawHumidity(b[1], b[2], b[3]) == h + 15 * (h % 16)
  {
    var b := Pack(status, h, t);
    var lo, hi := h % 16, t / 65536;
    assert hi < 16;
    assert b[3] == lo * 16 + hi;
    DivModUnique(b[3], 16, lo, hi);
    assert (h / 16) / 256 == h / 4096 by {
      DivModUnique(h, 16, h / 16, h % 16);
      DivModUnique(h / 16, 256, (h / 16) / 256, (h / 16) % 256);
      DivModUnique(h, 4096, (h / 16) / 256, ((h / 16) % 256) * 16 + h % 16);
    }
    assert h == (h / 4096) * 4096 + ((h / 16) % 256) * 16 + lo;
    assert t == hi * 65536 + ((t / 256) % 256) * 256 + t % 256 by {
      DivModUnique(t, 256, t / 256, t % 256);
      DivModUnique(t / 256, 256, (t / 256) / 256, (t / 256) % 256);
      DivModUnique(t, 65536, (t / 256) / 256, ((t / 256) % 256) * 256 + t % 256);
    }
  }

  /** Humidity decodes above 100 percent exactly when raw humidity exceeds 2^20, which happens
      exactly when byte 1 is 0xFF and byte 2 plus the high nibble of byte 3 reaches 257 (for
      instance bytes 0xFF, 0xFF, 0x20). */
  lemma HumidityAboveFullScale(b1: Byte, b2: Byte, b3: Byte)
    ensures ScaleHumidity(RawHumidity(b1, b2, b3)) > 100.0 <==> RawHumidity(b1, b2, b3) > FullScale
    ensures RawHumidity(b1, b2, b3) > FullScale <==> b1 == 0xFF && b2 + b3 / 16 >= 257
  {
    var raw := RawHumidity(b1, b2, b3);
    assert b3 - b3 % 16 == 16 * (b3 / 16);
    assert raw == 16 * (256 * b1 + b2 + b3 / 16);
  }

  // ---------------------------------------------------------------------------------
  // The status byte (AHT21 and BME680)

  /** `checkStatus`: bit 7 set means busy; otherwise bit 3 clear means the calibration is not
      enabled; otherwise the status is fine. */
  function StatusFailure(status: Byte): Option<Failure>
  {
    if GetBit(status, 7) == 1 then Some(SensorBusy)
    else if GetBit(status, 3) == 0 then Some(SensorUncalibrated)
    else None
  }

  /** The bits of the two mask constants: 0x88 has bits 3 and 7 set, 0x08 bit 3 only. */
  lemma MaskConstantBits(i: nat)
    requires i < 8
    ensures GetBit(0x88, i) == (if i == 3 || i == 7 then 1 else 0)
    ensures GetBit(0x08, i) == (if i == 3 then 1 else 0)
    ensures GetBit(0x00, i) == 0
  {
    Pow2Small(i);
    ShrIsDivision(0x88, i);
    ShrIsDivision(0x08, i);
    ShrIsDivision(0x00, i);
  }

  /** `status & 0x88 == want` holds exactly when bits 7 and 3 of the status are those of want. */
  lemma {:induction false} MaskedStatus(status: Byte, want: Byte)
    requires want == 0x00 || want == 0x08
    ensures And(status, 0x88) == want <==>
      GetBit(status, 7) == 0 && GetBit(status, 3) == GetBit(want, 3)
  {
    MaskedEquals(status, 0x88, want);
    forall i | 0 <= i < 8
      ensures GetBit(0x88, i) == (if i == 3 || i == 7 then 1 else 0)
      ensures GetBit(want, i) == (if want == 0x08 && i == 3 then 1 else 0)
    {
      MaskConstantBits(i);
    }
  }

  /** The status chain in mask terms: busy exactly for bytes from 0x80 up, uncalibrated exactly
      when bits 7 and 3 are both clear, and fine exactly when `status & 0x88 == 0x08`. */
  lemma StatusMasks(status: Byte)
    ensures StatusFailure(status) == Some(SensorBusy) <==> status >= 0x80
    ensures StatusFailure(status) == Some(SensorUncalibrated) <==> And(status, 0x88) == 0x00
    ensures StatusFailure(status) == None <==> And(status, 0x88) == 0x08
  {
    TopBit(status);
    MaskConstantBits(3);
    MaskedStatus(status, 0x00);
    MaskedStatus(status, 0x08);
  }

  // ---------------------------------------------------------------------------------
  // One measurement of AHT21 / BME680, after the block has been read

  /** `temperature -= 1`: the driver's own calibration, applied after scaling and before the
      range check. */
  function CalibratedDecode(data: seq<Byte>): HumTemp
    requires |data| >= 6
  {
    var d := Decode(data);
    HumTemp(d.humidity, d.temperature - 1.0)
  }

  /** The range check, which discards a pair when `temperature < -40 or 120 < temperature or
      humidity < 0 or 100 < humidity`: it keeps exactly the closed ranges, bounds included. */
  predicate InRange(ht: HumTemp)
    ensures InRange(ht) <==>
      -40.0 <= ht.temperature <= 120.0 && 0.0 <= ht.humidity <= 100.0
  {
    !(ht.temperature < -40.0 || 120.0 < ht.temperature || ht.humidity < 0.0 || 100.0 < ht.humidity)
  }

  /** The outcome of one AHT21/BME680 measurement, given the block read and the transport status
      code: the transport code gates everything, then the status byte, then the range check. */
  function Evaluate(data: seq<Byte>, code: int): Reading<HumTemp>
    requires |data| >= 6
  {
    if code != 0 then Invalid(TransportError)
    else match StatusFailure(data[0])
      case Some(f) => Invalid(f)
      case None =>
        var ht := CalibratedDecode(data);
        if InRange(ht) then Valid(ht) else Invalid(OutOfRange)
  }

  /** The pair AHT21 and BME680 return: the decoded values, or -1 for both. */
  function ToPair(r: Reading<HumTemp>): (real, real)
  {
    match r
    case Valid(ht) => (ht.humidity, ht.temperature)
    case Invalid(_) => (Sentinel as real, Sentinel as real)
  }

  /** Only bytes 0..5 decide the outcome: the seventh byte that AHT21 and BME680 read (and
      anything after it) never does. */
  lemma OnlyFirstSixBytesMatter(data: seq<Byte>, other: seq<Byte>, code: int)
    requires |data| >= 6 && |other| >= 6 && data[..6] == other[..6]
    ensures Evaluate(data, code) == Evaluate(other, code)
    ensures Reinitialises(data, code) == Reinitialises(other, code)
  {
    assert forall i :: 0 <= i < 6 ==> data[i] == data[..6][i] == other[..6][i] == other[i];
  }

  /** Whether this measurement re-initialises the sensor: only a successful read whose status
      says the calibration is not enabled does. */
  predicate Reinitialises(data: seq<Byte>, code: int)
    requires |data| >= 6
  {
    code == 0 && StatusFailure(data[0]) == Some(SensorUncalibrated)
  }

  /** The range check on the raw integers: with a good transfer and a good status, the pair is
      kept exactly when raw humidity is at most 2^20 and raw temperature lies in
      [57672, 896532], the integers whose calibrated temperature falls within [-40, 120]. */
  lemma {:induction false} EvaluateValid(data: seq<Byte>, code: int)
    requires |data| >= 6
    ensures Evaluate(data, code).Valid? <==>
      code == 0 && And(data[0], 0x88) == 0x08 &&
      RawHumidity(data[1], data[2], data[3]) <= FullScale &&
      57672 <= RawTemperature(data[3], data[4], data[5]) <= 896532
    ensures Evaluate(data, code).Valid? ==>
      Evaluate(data, code).value == CalibratedDecode(data) && InRange(CalibratedDecode(data))
  {
    StatusMasks(data[0]);
    var h := RawHumidity(data[1], data[2], data[3]);
    var t := RawTemperature(data[3], data[4], data[5]);
    var ht := CalibratedDecode(data);
    assert ht.temperature == t as real / 1048576.0 * 200.0 - 51.0;
    assert ht.humidity == h as real / 1048576.0 * 100.0;
    assert ht.humidity <= 100.0 <==> h <= FullScale;
    assert -40.0 <= ht.temperature <==> 57672 <= t;
    assert ht.temperature <= 120.0 <==> t <= 896532;
  }

  /** The only failure that re-initialises the sensor is an uncalibrated status. */
  lemma ReinitialisesIffUncalibrated(data: seq<Byte>, code: int)
    requires |data| >= 6
    ensures Reinitialises(data, code) <==> Evaluate(data, code) == Invalid(SensorUncalibrated)
    ensures Reinitialises(data, code) <==> code == 0 && And(data[0], 0x88) == 0x00
  {
    StatusMasks(data[0]);
  }
}
