/** What a driver call produces, before the drivers collapse it to the `-1` sentinel.

    Every driver either returns a decoded value or `-1` in place of each value. Internally the
    model keeps the reason a reading was discarded; the drivers' return values are obtained from
    a `Reading` by the per-driver boundary functions.
 */
module Measurement {

  datatype Option<T> = None | Some(value: T)

  /** Why a reading was discarded. */
  datatype Failure =
    | TransportError       // pyi2c reported a nonzero status_code for the read
    | SensorBusy           // humidity sensors: status bit 7 set
    | SensorUncalibrated   // humidity sensors: status bit 3 clear
    | SensorError          // CCS811: status bit 0 (ERROR) set
    | NoNewData            // CCS811: status bit 3 (DATA_READY) clear
    | FirmwareNotLoaded    // CCS811: status bit 4 (APP_VALID) clear
    | NotInAppMode         // CCS811: status bit 7 (FW_MODE) clear
    | OutOfRange           // decoded value outside the plausible range

  datatype Reading<T> = Valid(value: T) | Invalid(failure: Failure)

  /** The value the drivers return in place of a discarded measurement. */
  const Sentinel: int := -1

  /** A humidity (percent) and temperature (degrees Celsius) pair, in exact arithmetic. */
  datatype HumTemp = HumTemp(humidity: real, temperature: real)
}
