# Sensor drivers of python-i2c, modelled in Dafny

This project models the sensor driver layer of python-i2c (`devices/`). There are five
drivers: AHT10, AHT21, BME680, CCS811 and MCP9808. Each driver sends a short, fixed sequence
of bus transfers, reads a fixed-size block of bytes, and decodes it with shifts, masks and
scaling. It then returns either a checked measurement or the sentinel `-1`.

The files:

- `bits.dfy` (module `Bits`): Python's `&`, `<<` and `>>` on non-negative integers, and
  pyi2c's `getBit`. It proves the mask identities the decoders rely on: `b & 0xF0`,
  `b & 0x0F`, `x & 2**k`, the bits of `a & b`, and a status mask as a bit-by-bit test.
- `measurement.dfy` (module `Measurement`): `Reading<T> = Valid(value) | Invalid(failure)`,
  the reason a reading was discarded, and the `-1` sentinel. The sentinel is produced only at
  each driver's boundary (`ToPair`, `ToValue`).
- `bus.dfy` (module `Bus`): the two bus libraries as abstract classes.
  - `I2CDevice` (pyi2c) is bound to one address and reports a transport `statusCode`.
  - `SMBus` (smbus2) takes an address on every call; `i2c_rdwr` is a combined transaction.
  - Both keep a ghost log of every transfer, with the bytes read. Read bytes and status
    codes are arbitrary.
- `humidity_codec.dfy` (module `HumidityCodec`): the raw-value formulas, scaling, status
  chain, calibration and range check shared by AHT10, AHT21 and BME680. `Evaluate` gives
  the outcome of one AHT21/BME680 measurement as a function of the block read and the
  transport status code.
- `aht21.dfy`, `bme680.dfy`, `ccs811.dfy`, `mcp9808.dfy`, `aht10.dfy`: one module per
  driver, each holding the driver class and the lemmas about its outcome.

Each driver class holds its bus handle. Its methods perform the source's transfers in the
source's order. Each method's `ensures` states two things:
- the exact transfers appended to the bus log, including any re-initialisation write;
- the returned value, as a pure function of the bytes read and the transport status code.

The measurement methods also return those bytes and that status code as ghost
out-parameters, so the contract can name them. All scaling uses exact `real` arithmetic.

The model follows the code where it differs from what the sensors' data layouts suggest:

- Humidity adds `b3 & 0xF0` unshifted, not `b3 >> 4`. Raw humidity therefore reaches
  1048800, above 2^20, and a sensor-packed humidity `h` decodes as `h + 15 * (h % 16)`
  (`HumidityCodec.PackThenDecode`).
- CCS811 has no range check on eCO2/TVOC and no soft reset.
- The MCP9808 decoder drops the sign bit, so a temperature is never negative.
- BME680 calls `softReset`, which the class does not define, so an out-of-range pair ends the
  call with AttributeError instead of returning.
- AHT10 triggers and reads at the constant address 0x38, whatever address it was built with.
- No driver has an "uninitialised" state or refuses to measure before `initialize`.

## Model

| member | source | states |
|---|---|---|
| `Bits.And` | devices/aht21.py:65-66 | Python's `a & b` on non-negative integers; the result never exceeds either operand, so a constant mask bounds it |
| `Bits.GetBit` | devices/aht21.py:35-37 | pyi2c's `getBit(x, n)`, taken as `(x >> n) & 1`, is the n-th binary digit: the parity of x after n halvings |
| `Bits.AndLowMask` | devices/aht21.py:66 | `a & (2^k - 1) == a % 2^k` for every a and k |
| `Bits.AndSingleBit` | devices/ccs811.py:76-94 | `a & 2**k` is `2**k` when bit k of a is set and 0 otherwise, so `a & 2**k == 0` tests bit k |
| `Bits.GetBitAnd` | devices/ccs811.py:76-94 | bit i of `a & b` is set exactly when bit i is set in both a and b |
| `Bits.HighNibble` | devices/aht21.py:65 | `b & 0xF0 == b - b % 16` for a byte: the high nibble is kept in place, not shifted down |
| `Bits.LowNibble` | devices/mcp9809.py:66 | `b & 0x0F == b % 16` for a byte |
| `HumidityCodec.RawHumidity` | devices/aht21.py:65 | raw humidity is `b1*4096 + b2*16 + (b3 - b3 % 16)`, a multiple of 16, at most 1048800 (above 2^20) |
| `HumidityCodec.RawTemperature` | devices/aht21.py:66 | raw temperature is `(b3 % 16)*65536 + b4*256 + b5`, below 2^20 |
| `HumidityCodec.DecodeBounds` | devices/aht10.py:67-72 | uncalibrated humidity lies in [0, 1048800*100/2^20] and temperature in [-50, 150) |
| `HumidityCodec.PackThenDecode` | devices/aht21.py:65-66 | for a block packed as the sensor lays out 20-bit h and t, decoding returns t exactly and h as `h + 15*(h % 16)` |
| `HumidityCodec.HumidityAboveFullScale` | devices/aht21.py:65-69 | humidity exceeds 100 percent exactly when raw humidity exceeds 2^20, exactly when b1 = 0xFF and `b2 + b3/16 >= 257` |
| `HumidityCodec.StatusMasks` | devices/aht21.py:33-42 | busy exactly when status >= 0x80; uncalibrated exactly when `status & 0x88 == 0`; fine exactly when `status & 0x88 == 0x08` |
| `HumidityCodec.InRange` | devices/aht21.py:77-78 | the negated or-chain keeps exactly temperature in [-40, 120] and humidity in [0, 100], bounds included |
| `HumidityCodec.EvaluateValid` | devices/aht21.py:56-83 | a pair is kept exactly when the transport code is 0, `status & 0x88 == 0x08`, raw humidity <= 2^20 and raw temperature is in [57672, 896532]; a kept pair is the calibrated decode and in range |
| `HumidityCodec.ReinitialisesIffUncalibrated` | devices/aht21.py:59-63 | the measurement re-initialises exactly when the outcome is "uncalibrated", that is when the code is 0 and `status & 0x88 == 0` |
| `HumidityCodec.OnlyFirstSixBytesMatter` | devices/aht21.py:52-66 | two blocks that agree on bytes 0..5 give the same outcome and the same re-initialisation: the seventh byte read never matters |
| `Aht21.Followup` | devices/aht21.py:37-39 | after the read, the only further transfer is the init write [0x1B, 0x1C, 0x1E], sent exactly when the outcome is "uncalibrated"; otherwise nothing |
| `Aht21.ResultShape` | devices/aht21.py:56-83 | every return is (-1, -1) or has t in [-40, 120] and h in [0, 100]; (-1, -1) is returned exactly when the reading was discarded |
| `Aht21.TransportFailure` | devices/aht21.py:56-59 | a nonzero transport code returns (-1, -1) and sends nothing more |
| `Aht21.BusyWins` | devices/aht21.py:35-39 | a status with bit 7 set is "busy" whatever bit 3 says, and sends nothing more |
| `Aht21.OutOfRangeIsQuiet` | devices/aht21.py:77-81 | an out-of-range pair returns (-1, -1) with no reset and no further transfer |
| `Aht21.AHT21.constructor` | devices/aht21.py:16-22 | the device handle is bound to the given bus and address, with an empty log (defaults: bus 0, address 0x38) |
| `Aht21.AHT21.Initialize` | devices/aht21.py:24-27 | exactly one write, [0x1B, 0x1C, 0x1E], to the device address |
| `Aht21.AHT21.GetStatus` | devices/aht21.py:29-31 | exactly one write-read of register 0x71 for one byte |
| `Aht21.AHT21.CheckStatus` | devices/aht21.py:33-42 | returns true exactly for a fine status; writes the init command once exactly for an uncalibrated status, and nothing otherwise |
| `Aht21.AHT21.GetHumidityTemperature` | devices/aht21.py:44-83 | log gains the trigger write [0xAC, 0x33, 0x00], a 7-byte read, then the follow-up; the result is `ToPair(Evaluate(block, code))` |
| `Bme680.Followup` | devices/bme680.py:41-43 | after the read, the only further transfer is the init write [0x1B, 0x1C, 0x1E], sent exactly when the outcome is "uncalibrated"; otherwise nothing |
| `Bme680.CrashIff` | devices/bme680.py:60-87 | the call aborts with AttributeError exactly when code is 0, `status & 0x88 == 0x08` and the raw values miss the range bounds; a kept pair is returned as decoded with temperature minus 1; every other discarded reading returns (-1, -1) |
| `Bme680.TransportFailure` | devices/bme680.py:60-63 | a nonzero transport code returns (-1, -1) with no status check and no initialise |
| `Bme680.StatusFailureReturnsSentinel` | devices/bme680.py:37-46 | a failed status check returns (-1, -1); the init write follows only when bit 7 is clear (uncalibrated) |
| `Bme680.BME680.constructor` | devices/bme680.py:20-26 | the device handle is bound to the given bus and address, with an empty log (defaults: bus 0, address 0x77) |
| `Bme680.BME680.Initialize` | devices/bme680.py:28-31 | exactly one write, [0x1B, 0x1C, 0x1E], to the device address |
| `Bme680.BME680.GetStatus` | devices/bme680.py:33-35 | exactly one write-read of register 0x71 for one byte |
| `Bme680.BME680.CheckStatus` | devices/bme680.py:37-46 | returns true exactly for a fine status; writes the init command once exactly for an uncalibrated status |
| `Bme680.BME680.GetHumidityTemperature` | devices/bme680.py:48-87 | log gains the trigger write, a 7-byte read, then the follow-up; the outcome is `Measure(block, code)`, AttributeError included |
| `Ccs811.Word` | devices/ccs811.py:67-68 | a big-endian word `(hi << 8) + lo` lies in [0, 65535] |
| `Ccs811.WordBytes` | devices/ccs811.py:67-68 | words and byte pairs correspond one to one: `Word(hi, lo)` has quotient hi and remainder lo by 256, and every word is `Word(w / 256, w % 256)` |
| `Ccs811.StatusBits` | devices/ccs811.py:75-97 | the chain returns error when bit 0 is set; else no data when bit 3 is clear; else no firmware when bit 4 is clear; else not in app mode when bit 7 is clear; else fine |
| `Ccs811.StatusMask` | devices/ccs811.py:75-97 | the status passes exactly when `status & 0x99 == 0x98` |
| `Ccs811.ErrorClassIsLowestBit` | devices/ccs811.py:78-89 | the error class is the lowest set bit among error_id bits 0..5, checked in ascending order |
| `Ccs811.ErrorClassNone` | devices/ccs811.py:78-89 | no class is chosen exactly when error_id % 64 == 0 (bits 0..5 clear) |
| `Ccs811.ResultIff` | devices/ccs811.py:66-102 | the result is (b0*256 + b1, b2*256 + b3), unchecked for range, when `status & 0x99 == 0x98`, and (-1, -1) otherwise; (-1, -1) exactly when discarded |
| `Ccs811.ErrorBitWins` | devices/ccs811.py:76-89 | with status bit 0 set the result is (-1, -1), whatever the other bits and error_id |
| `Ccs811.OnlyFirstFiveBytesMatter` | devices/ccs811.py:69-72 | two blocks that agree on bytes 0..4 give the same result: error_id, current and raw ADC never matter |
| `Ccs811.ExampleBlock` | devices/ccs811.py:66-100 | the block [0x01, 0x90, 0x00, 0x64, 0x98, 0, 0, 0] gives (400, 100) |
| `Ccs811.CCS811.constructor` | devices/ccs811.py:30-33 | the bus handle is fresh with an empty log and the address is kept (defaults: bus 0, address 0x5A) |
| `Ccs811.CCS811.Initialize` | devices/ccs811.py:35-55 | exactly two single-write transactions to the address, [0xF4] then [0x01, 0x10] |
| `Ccs811.CCS811.GetECO2TVOC` | devices/ccs811.py:57-102 | exactly one combined transaction, write [0x02] then read 8 bytes; the result is `ToPair(Evaluate(block))` |
| `Mcp9808.Decode` | devices/mcp9809.py:66 | temperature is `((b0 % 16)*256 + b1) / 16`, within [0, 255.9375], never negative |
| `Mcp9808.SignBitIgnored` | devices/mcp9809.py:66 | bytes b0 with the same low nibble decode alike: bits 4..7, the sign bit included, are ignored |
| `Mcp9808.ValidIff` | devices/mcp9809.py:63-72 | a value is kept exactly when the code is 0 and the 12-bit value is at most 2000 (125 inclusive); the -40 bound never triggers |
| `Mcp9808.ResultShape` | devices/mcp9809.py:60-74 | every return is -1 or a value in [0, 125] equal to the decode of the two bytes read; -1 exactly when discarded |
| `Mcp9808.ExampleOutOfRange` | devices/mcp9809.py:66-72 | bytes 0x08, 0x20 decode to 130 and return -1 |
| `Mcp9808.MCP9808.constructor` | devices/mcp9809.py:19-24 | the device handle is bound to the given bus and address, with an empty log (defaults: bus 0, address 0x18) |
| `Mcp9808.MCP9808.Initialize` | devices/mcp9809.py:26-30 | exactly one write, [0x01, 0x00, 0x08] |
| `Mcp9808.MCP9808.GetTemperature` | devices/mcp9809.py:49-74 | exactly one write-read of register 0x05 for 2 bytes, with no trigger; the result is `ToValue(Evaluate(bytes, code))`, with no reset |
| `Aht10.ResultBounds` | devices/aht10.py:67-74 | the pair is always returned, with humidity in [0, 1048800*100/2^20] (never -1) and temperature in [-50, 150) |
| `Aht10.StatusIgnored` | devices/aht10.py:64-74 | the status byte never changes the result |
| `Aht10.ExampleBlock` | devices/aht10.py:67-72 | the block [0x98, 0x19, 0x9A, 0x71, 0x6B, 0x21] gives raw humidity 104976 and raw temperature 92961, scaled with no calibration |
| `Aht10.AHT10.constructor` | devices/aht10.py:24-27 | the bus handle is fresh with an empty log and the address is kept (defaults: bus 0, address 0x38) |
| `Aht10.AHT10.Initialize` | devices/aht10.py:29-37 | exactly one `write_byte_data` of 0xE1 to register 0x00 at the constructor's address |
| `Aht10.AHT10.GetHumidityTemperature` | devices/aht10.py:39-74 | a block write of [0xAC, 0x33, 0x00] at command 0x00, then a 6-byte block read at command 0x01, both at 0x38; the result is the uncalibrated decode of the bytes read |

## Left out

- Settle delays (`time.sleep`) are not modelled. The bus log records only the order of
  transfers, so a trigger write always precedes its read.
- Logging calls are not modelled. The CCS811 error classification is computed and
  discarded, as the code only logs it.
- The bus libraries (smbus2, pyi2c) are not part of this model. Their reads return
  arbitrary bytes of the requested length, and pyi2c's status code is arbitrary.
- Bits.GetBit: pyi2c's `getBit` is not part of this model. It is taken to be `(x >> n) & 1`,
  the n-th binary digit, which is how the drivers use it.
- smbus2 raises OSError when a transfer fails. Neither AHT10 nor CCS811 catches it, and the
  model's `SMBus` never fails, so that exception path is not captured.
- IEEE float rounding is not modelled: humidity and temperature are exact `real` values.
- The `main()` polling loops, driven by wall-clock time, are not modelled.
- `i2c.py` is not modelled: its decode repeats the AHT10 one.
- `monitor/views.py`, `monitor/models.py` and `helpers/influxdbclient.py` are not modelled.
  They are Django views, ORM models and a database client, outside the driver layer.
- Unused constants are not modelled: AHT10's `AHT10_SOFT_RESET`, and MCP9808's commented-out
  `softReset`/`checkStatus`.
- Aht21.AHT21.GetHumidityTemperature, Bme680.BME680.GetHumidityTemperature,
  Mcp9808.MCP9808.GetTemperature: these return the block read and the transport code as
  ghost out-parameters, which the source does not. The contract needs them to name the
  bytes.
- Ccs811.CCS811.GetECO2TVOC, Aht10.AHT10.GetHumidityTemperature: these return the block read
  as a ghost out-parameter, which the source does not, for the same reason.
