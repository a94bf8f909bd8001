/** The CCS811 eCO2/TVOC driver (devices/ccs811.py).

    `initialize` switches the sensor from boot to application mode and sets the measurement
    mode, each in its own combined transaction. A measurement selects the result register and
    reads 8 bytes in one combined transaction: eCO2 and TVOC as big-endian words, then the
    status byte, the error id, and the heater current / raw ADC bytes, which play no part in
    the result. A status priority chain decides whether the words are returned or -1 for both;
    there is no range check on the words.
 */
module Ccs811 {
  import opened Bits
  import opened Bus
  import opened Measurement

  const DefaultAddr: Byte := 0x5A
  /** Register that starts the application firmware. */
  const AppStartAddr: Byte := 0xF4
  const MeasModeAddr: Byte := 0x01
  /** Drive mode 1 (a measurement every second), interrupts off. */
  const MeasModeCmd: Byte := 0x10
  const ResultAddr: Byte := 0x02
  const ReadLength: nat := 8

  /** A big-endian 16-bit word: `(hi << 8) + lo`. */
  function Word(hi: Byte, lo: Byte): (w: nat)
    ensures w <= 0xFFFF
  {
    Shl(hi, 8) + lo
  }

  /** Words and byte pairs correspond one to one: the high byte is the quotient by 256 and the
      low byte the remainder, and every word in [0, 65535] is the decoding of its two bytes. */
  lemma WordBytes(hi: Byte, lo: Byte, w: nat)
    requires w <= 0xFFFF
    ensures Word(hi, lo) / 256 == hi && Word(hi, lo) % 256 == lo
    ensures Word(w / 256, w % 256) == w
  {
    assert Pow2(8) == 256;
    DivModUnique(Word(hi, lo), 256, hi, lo);
  }

  // ---------------------------------------------------------------------------------
  // Status and error id

  /** The if/elif chain on the status byte, tested as `status & 2**k == 0`: ERROR (bit 0) first,
      then DATA_READY (bit 3), APP_VALID (bit 4) and FW_MODE (bit 7). */
  function StatusFailure(status: Byte): Option<Failure>
  {
    if And(status, Pow2(0)) != 0 then Some(SensorError)
    else if And(status, Pow2(3)) == 0 then Some(NoNewData)
    else if And(status, Pow2(4)) == 0 then Some(FirmwareNotLoaded)
    else if And(status, Pow2(7)) == 0 then Some(NotInAppMode)
    else None
  }

  /** The chain in bit terms: the first failure is the lowest-priority test that fails, and the
      status passes exactly when bit 0 is clear and bits 3, 4 and 7 are all set. */
  lemma StatusBits(status: Byte)
    ensures StatusFailure(status) == Some(SensorError) <==> GetBit(status, 0) == 1
    ensures StatusFailure(status) == Some(NoNewData) <==>
      GetBit(status, 0) == 0 && GetBit(status, 3) == 0
    ensures StatusFailure(status) == Some(FirmwareNotLoaded) <==>
      GetBit(status, 0) == 0 && GetBit(status, 3) == 1 && GetBit(status, 4) == 0
    ensures StatusFailure(status) == Some(NotInAppMode) <==>
      GetBit(status, 0) == 0 && GetBit(status, 3) == 1 && GetBit(status, 4) == 1 &&
      GetBit(status, 7) == 0
    ensures StatusFailure(status) == None <==>
      GetBit(status, 0) == 0 && GetBit(status, 3) == 1 && GetBit(status, 4) == 1 &&
      GetBit(status, 7) == 1
  {
    AndSingleBit(status, 0);
    AndSingleBit(status, 3);
    AndSingleBit(status, 4);
    AndSingleBit(status, 7);
  }

  /** The bits of the two mask constants: 0x99 has bits 0, 3, 4 and 7 set, 0x98 bits 3, 4, 7. */
  lemma MaskConstantBits(i: nat)
    requires i < 8
    ensures GetBit(0x99, i) == (if i == 0 || i == 3 || i == 4 || i == 7 then 1 else 0)
    ensures GetBit(0x98, i) == (if i == 3 || i == 4 || i == 7 then 1 else 0)
  {
    Pow2Small(i);
    ShrIsDivision(0x99, i);
    ShrIsDivision(0x98, i);
  }

  /** The same condition as a single mask test: the status passes exactly when
      `status & 0x99 == 0x98`. */
  lemma {:induction false} StatusMask(status: Byte)
    ensures StatusFailure(status) == None <==> And(status, 0x99) == 0x98
  {
    StatusBits(status);
    MaskedEquals(status, 0x99, 0x98);
    forall i | 0 <= i < 8
      ensures GetBit(0x99, i) == (if i == 0 || i == 3 || i == 4 || i == 7 then 1 else 0)
      ensures GetBit(0x98, i) == (if i == 3 || i == 4 || i == 7 then 1 else 0)
    {
      MaskConstantBits(i);
    }
  }

  /** The six error kinds the driver logs, one per bit 0..5 of the error id. */
  datatype ErrorKind =
    | WriteRegInvalid | ReadRegInvalid | MeasModeInvalid | MaxResistance | HeaterFault | HeaterSupply

  function ErrorBit(k: ErrorKind): nat
  {
    match k
    case WriteRegInvalid => 0
    case ReadRegInvalid => 1
    case MeasModeInvalid => 2
    case MaxResistance => 3
    case HeaterFault => 4
    case HeaterSupply => 5
  }

  /** The if/elif chain on the error id that picks the message logged when the status has its
      error bit set. It only chooses a log line: the result never depends on it. */
  function ErrorClass(errorId: Byte): Option<ErrorKind>
  {
    if And(errorId, Pow2(0)) != 0 then Some(WriteRegInvalid)
    else if And(errorId, Pow2(1)) != 0 then Some(ReadRegInvalid)
    else if And(errorId, Pow2(2)) != 0 then Some(MeasModeInvalid)
    else if And(errorId, Pow2(3)) != 0 then Some(MaxResistance)
    else if And(errorId, Pow2(4)) != 0 then Some(HeaterFault)
    else if And(errorId, Pow2(5)) != 0 then Some(HeaterSupply)
    else None
  }

  /** The error class is the lowest set bit among bits 0..5 of the error id. */
  lemma {:induction false} ErrorClassIsLowestBit(errorId: Byte, k: ErrorKind)
    ensures ErrorClass(errorId) == Some(k) <==>
      GetBit(errorId, ErrorBit(k)) == 1 &&
      forall j :: 0 <= j < ErrorBit(k) ==> GetBit(errorId, j) == 0
  {
    forall i | 0 <= i < 6
      ensures And(errorId, Pow2(i)) != 0 <==> GetBit(errorId, i) == 1
    {
      AndSingleBit(errorId, i);
    }
    assert And(errorId, Pow2(0)) != 0 <==> GetBit(errorId, 0) == 1;
    assert And(errorId, Pow2(1)) != 0 <==> GetBit(errorId, 1) == 1;
    assert And(errorId, Pow2(2)) != 0 <==> GetBit(errorId, 2) == 1;
    assert And(errorId, Pow2(3)) != 0 <==> GetBit(errorId, 3) == 1;
    assert And(errorId, Pow2(4)) != 0 <==> GetBit(errorId, 4) == 1;
    assert And(errorId, Pow2(5)) != 0 <==> GetBit(errorId, 5) == 1;
  }

  /** No class is chosen exactly when bits 0..5 are all clear, that is, when the error id is a
      multiple of 64. */
  lemma {:induction false} ErrorClassNone(errorId: Byte)
    ensures ErrorClass(errorId) == None <==> errorId % 64 == 0
  {
    forall i | 0 <= i < 6
      ensures And(errorId, Pow2(i)) != 0 <==> GetBit(errorId, i) == 1
    {
      AndSingleBit(errorId, i);
    }
    assert Pow2(6) == 64;
    LowBitsClear(errorId, 6);
    assert And(errorId, Pow2(0)) != 0 <==> GetBit(errorId, 0) == 1;
    assert And(errorId, Pow2(1)) != 0 <==> GetBit(errorId, 1) == 1;
    assert And(errorId, Pow2(2)) != 0 <==> GetBit(errorId, 2) == 1;
    assert And(errorId, Pow2(3)) != 0 <==> GetBit(errorId, 3) == 1;
    assert And(errorId, Pow2(4)) != 0 <==> GetBit(errorId, 4) == 1;
    assert And(errorId, Pow2(5)) != 0 <==> GetBit(errorId, 5) == 1;
  }

  // ---------------------------------------------------------------------------------
  // One measurement, after the block has been read

  datatype Gas = Gas(eco2: nat, tvoc: nat)

  /** The outcome of one measurement on the 8 bytes read. */
  function Evaluate(data: seq<Byte>): Reading<Gas>
    requires |data| >= 6
  {
    var gas := Gas(Word(data[0], data[1]), Word(data[2], data[3]));
    match StatusFailure(data[4])
    case Some(f) => Invalid(f)
    case None => Valid(gas)
  }

  /** The pair the driver returns: the two words, or -1 for both. */
  function ToPair(r: Reading<Gas>): (int, int)
  {
    match r
    case Valid(g) => (g.eco2, g.tvoc)
    case Invalid(_) => (Sentinel, Sentinel)
  }

  /** The words are returned exactly when `status & 0x99 == 0x98`, and then as they are decoded,
      eCO2 = b0*256 + b1 and TVOC = b2*256 + b3, with no range check; otherwise (-1, -1). */
  lemma ResultIff(data: seq<Byte>)
    requires |data| >= 6
    ensures ToPair(Evaluate(data)) ==
      if And(data[4], 0x99) == 0x98
      then (data[0] as int * 256 + data[1], data[2] as int * 256 + data[3])
      else (Sentinel, Sentinel)
    ensures ToPair(Evaluate(data)) == (-1, -1) <==> Evaluate(data).Invalid?
  {
    StatusMask(data[4]);
    assert Pow2(8) == 256;
    assert Word(data[0], data[1]) == data[0] as int * 256 + data[1];
    assert Word(data[2], data[3]) == data[2] as int * 256 + data[3];
  }

  /** The error bit has priority: when status bit 0 is set the result is (-1, -1), whatever the
      other status bits and the error id. */
  lemma ErrorBitWins(data: seq<Byte>)
    requires |data| >= 6 && GetBit(data[4], 0) == 1
    ensures Evaluate(data) == Invalid(SensorError)
    ensures ToPair(Evaluate(data)) == (-1, -1)
  {
    StatusBits(data[4]);
  }

  /** Only bytes 0..4 decide the result: the error id (byte 5) and the current / raw ADC bytes
      (6 and 7) never do. */
  lemma OnlyFirstFiveBytesMatter(data: seq<Byte>, other: seq<Byte>)
    requires |data| >= 6 && |other| >= 6 && data[..5] == other[..5]
    ensures Evaluate(data) == Evaluate(other)
  {
    assert forall i :: 0 <= i < 5 ==> data[i] == data[..5][i] == other[..5][i] == other[i];
  }

  /** A sample block: words 0x0190 and 0x0064 with status 0x98 give (400, 100). */
  lemma ExampleBlock(data: seq<Byte>)
    requires data == [0x01, 0x90, 0x00, 0x64, 0x98, 0x00, 0x00, 0x00]
    ensures ToPair(Evaluate(data)) == (400, 100)
  {
    var status := data[4];
    assert status == 0x98;
    StatusBits(status);
    MaskConstantBits(0);
    MaskConstantBits(3);
    MaskConstantBits(4);
    MaskConstantBits(7);
    assert StatusFailure(status) == None;
    assert Pow2(8) == 256;
    assert data[0] == 0x01 && data[1] == 0x90 && data[2] == 0x00 && data[3] == 0x64;
    assert Word(data[0], data[1]) == 400;
    assert Word(data[2], data[3]) == 100;
  }

  class CCS811 {
    const bus: SMBus
    const addr: Byte

    constructor (busNumber: int := 0, addr: Byte := DefaultAddr)
      ensures fresh(bus) && bus.busNumber == busNumber && this.addr == addr && bus.log == []
    {
      bus := new SMBus(busNumber);
      this.addr := addr;
    }

    /** `initialize`: application start, then measurement mode, as two separate transactions
        to the constructor's address. */
    method Initialize()
      modifies bus
      ensures bus.log == old(bus.log) +
        [Rdwr([MsgWrite(addr, [AppStartAddr])]), Rdwr([MsgWrite(addr, [MeasModeAddr, MeasModeCmd])])]
    {
      bus.RdwrWrite(addr, [AppStartAddr]);
      bus.RdwrWrite(addr, [MeasModeAddr, MeasModeCmd]);
    }

    /** `getECO2TVOC`: select the result register and read 8 bytes in one combined transaction,
        then return the words or (-1, -1). The block read is returned as a ghost. */
    method GetECO2TVOC() returns (eco2: int, tvoc: int, ghost raw: seq<Byte>)
      modifies bus
      ensures |raw| == ReadLength
      ensures bus.log == old(bus.log) +
        [Rdwr([MsgWrite(addr, [ResultAddr]), MsgRead(addr, ReadLength, raw)])]
      ensures (eco2, tvoc) == ToPair(Evaluate(raw))
    {
      var readData := bus.RdwrWriteRead(addr, [ResultAddr], ReadLength);
      raw := readData;

      var eCO2 := Word(readData[0], readData[1]);
      var tVOC := Word(readData[2], readData[3]);
      var status := readData[4];
      var errorId := readData[5];
      var current := And(readData[6], 0xFC);
      var rawAdc := And(readData[6], 0x03) + readData[7];

      var isValidData := false;
      if And(status, Pow2(0)) != 0 {
        var logged := ErrorClass(errorId);
      } else if And(status, Pow2(3)) == 0 {
        // no new data
      } else if And(status, Pow2(4)) == 0 {
        // no valid application firmware
      } else if And(status, Pow2(7)) == 0 {
        // not in application mode
      } else {
        isValidData := true;
      }

      if isValidData {
        eco2, tvoc := eCO2, tVOC;
      } else {
        eco2, tvoc := Sentinel, Sentinel;
      }
    }
  }
}
