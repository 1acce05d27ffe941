/** The BMP280 character driver as a state machine over an I2C bus whose
    transfers succeed or fail as an abstract script dictates.

    The driver's state is its calibration store and the log of the
    transactions it has issued; transfer number k (counting from module
    load) has outcome `bus(k)`, so the log's length is the bus cursor. The
    bytes a successful read delivers are separate inputs: the sensor's
    calibration block `nvm` and, per read, its temperature registers `adc`. */
module Bmp280 {
  import opened CInt
  import opened Calibration
  import opened Sample
  import opened Compensation
  import Decimal

  const I2cAddr: int := 0x76
  const TempMsbReg: byte := 0xFA
  const CtrlMeasReg: byte := 0xF4
  const ResetReg: byte := 0xE0
  const CalibStart: byte := 0x88
  const ResetCommand: byte := 0xB6
  /** Normal mode, temperature oversampling x1, pressure oversampling x1. */
  const CtrlMeasNormal: byte := 0x27

  /** Linux error numbers; the driver returns their negations. */
  const EIO: int := 5
  const EFAULT: int := 14
  const ENODEV: int := 19

  /** Size of the text buffer `bmp280_read` formats into, terminating NUL included. */
  const TextBufferSize: int := 32

  /** One `struct i2c_msg` at the sensor's address: a write of bytes, or a read of `len` bytes. */
  datatype Msg = Write(addr: int, bytes: seq<byte>) | Read(addr: int, len: nat)

  /** The messages of one `i2c_transfer` call. */
  type Txn = seq<Msg>

  const ResetTxn: Txn := [Write(I2cAddr, [ResetReg, ResetCommand])]
  const ConfigureTxn: Txn := [Write(I2cAddr, [CtrlMeasReg, CtrlMeasNormal])]
  const CalibrationTxn: Txn := [Write(I2cAddr, [CalibStart]), Read(I2cAddr, 6)]
  const TemperatureTxn: Txn := [Write(I2cAddr, [TempMsbReg]), Read(I2cAddr, 3)]

  /** Whether `i2c_transfer` completed (non-negative return) or failed. */
  datatype Outcome = Ack | Nak

  /** The outcome of every transfer since module load, by position. */
  type Script = nat -> Outcome

  datatype Driver = Driver(calib: Calib, log: seq<Txn>)

  /** The driver's static state when the module is loaded. */
  const Loaded: Driver := Driver(Uncalibrated, [])

  /** A driver state together with the `int` an operation returns. */
  datatype Step = Step(driver: Driver, ret: int)

  /** Issues one transaction; true when the bus completed it. */
  function Issue(d: Driver, bus: Script, t: Txn): (Driver, bool) {
    (d.(log := d.log + [t]), bus(|d.log|) == Ack)
  }

  /** `bmp280_soft_reset`: write 0xB6 to register 0xE0. */
  function SoftReset(d: Driver, bus: Script): (r: Step)
    ensures r.driver.calib == d.calib && r.driver.log == d.log + [ResetTxn]
    ensures r.ret == 0 <==> bus(|d.log|) == Ack
    ensures r.ret != 0 ==> r.ret == -EIO
  {
    var (d', ok) := Issue(d, bus, ResetTxn);
    Step(d', if ok then 0 else -EIO)
  }

  /** `bmp280_configure`: write 0x27 to register 0xF4. */
  function Configure(d: Driver, bus: Script): (r: Step)
    ensures r.driver.calib == d.calib && r.driver.log == d.log + [ConfigureTxn]
    ensures r.ret == 0 <==> bus(|d.log|) == Ack
    ensures r.ret != 0 ==> r.ret == -EIO
  {
    var (d', ok) := Issue(d, bus, ConfigureTxn);
    Step(d', if ok then 0 else -EIO)
  }

  /** `bmp280_read_calibration`: the coefficients change only when the read completes. */
  function ReadCalibration(d: Driver, bus: Script, nvm: Block6): (r: Step)
    ensures r.driver.log == d.log + [CalibrationTxn]
    ensures r.ret == 0 <==> bus(|d.log|) == Ack
    ensures r.ret == 0 ==> r.driver.calib == Decode(nvm)
    ensures r.ret != 0 ==> r.ret == -EIO && r.driver.calib == d.calib
  {
    var (d', ok) := Issue(d, bus, CalibrationTxn);
    if ok then Step(d'.(calib := Decode(nvm)), 0) else Step(d', -EIO)
  }

  /** `bmp280_init` up to the device-node plumbing. */
  function Init(adapterPresent: bool, bus: Script, nvm: Block6): (r: Step)
    ensures !adapterPresent ==> r.ret == -ENODEV && r.driver == Loaded
    ensures adapterPresent ==> r.ret == 0
    ensures adapterPresent ==> r.driver.log == [ResetTxn, ConfigureTxn, CalibrationTxn]
    ensures adapterPresent && bus(2) == Ack ==> r.driver.calib == Decode(nvm)
    ensures adapterPresent && bus(2) == Nak ==> r.driver.calib == Uncalibrated
  {
    if !adapterPresent then
      Step(Loaded, -ENODEV)
    else
      var reset := SoftReset(Loaded, bus);
      var configure := Configure(reset.driver, bus);
      var calibrate := ReadCalibration(configure.driver, bus, nvm);
      Step(calibrate.driver, 0)
  }

  /** Whatever the reset and configure transfers do, init behaves the same:
      their return codes are ignored. */
  lemma InitIgnoresStepResults(adapterPresent: bool, bus1: Script, bus2: Script, nvm: Block6)
    requires bus1(2) == bus2(2)
    ensures Init(adapterPresent, bus1, nvm) == Init(adapterPresent, bus2, nvm)
  {
  }

  /** `bmp280_read_temperature`: `-EIO` on a failed transfer, else the
      compensated sample. The compensation must be defined in C only when
      it is reached. */
  function ReadTemperature(d: Driver, bus: Script, adc: Block3): (r: Step)
    requires bus(|d.log|) == Ack ==> Defined(Assemble(adc), d.calib)
    ensures r.driver == Driver(d.calib, d.log + [TemperatureTxn])
    ensures bus(|d.log|) == Nak ==> r.ret == -EIO
    ensures bus(|d.log|) == Ack ==> r.ret == Compensate(Assemble(adc), d.calib) && InInt32(r.ret)
  {
    var (d', ok) := Issue(d, bus, TemperatureTxn);
    if ok then Step(d', Compensate(Assemble(adc), d.calib)) else Step(d', -EIO)
  }

  /** A failed temperature transfer yields `-EIO` whatever the registers and
      the coefficients: the compensation is never reached. */
  lemma FailedReadSkipsCompensation(d1: Driver, d2: Driver, bus: Script, adc1: Block3, adc2: Block3)
    requires |d1.log| == |d2.log|
    requires bus(|d1.log|) == Nak
    ensures ReadTemperature(d1, bus, adc1).ret == ReadTemperature(d2, bus, adc2).ret == -EIO
  {
  }

  /** What one `read` on the device node returns: the `ssize_t` result and
      the bytes copied to the caller's buffer. */
  datatype Reply = Reply(ret: int, copied: string)

  /** The part of `bmp280_read` after the temperature is read: a negative
      value is returned as it is, as an error code; otherwise the value is
      rendered with `"%d\n"`, copied out (`copyOk` is whether
      `copy_to_user` succeeds) and its length returned. */
  function Respond(temperature: int, copyOk: bool): (r: Reply)
    requires InInt32(temperature)
    ensures temperature < 0 ==> r.ret == temperature && r.copied == []
    ensures temperature >= 0 && !copyOk ==> r.ret == -EFAULT && r.copied == []
    ensures temperature >= 0 && copyOk ==>
      && 0 < r.ret == |r.copied| < TextBufferSize
      && r.copied[r.ret - 1] == '\n'
      && Decimal.Canonical(r.copied[..r.ret - 1])
      && Decimal.Value(r.copied[..r.ret - 1]) == temperature
  {
    if temperature < 0 then
      Reply(temperature, [])
    else
      var text := Decimal.Format(temperature) + "\n";
      assert text[..|text| - 1] == Decimal.Format(temperature);
      Decimal.Int32Digits(temperature);
      if !copyOk then Reply(-EFAULT, []) else Reply(|text|, text)
  }

  /** `bmp280_read`. `count` and `offset` are accepted and ignored. */
  function DeviceRead(d: Driver, bus: Script, adc: Block3, count: nat, offset: int, copyOk: bool): (r: (Driver, Reply))
    requires bus(|d.log|) == Ack ==> Defined(Assemble(adc), d.calib)
    ensures r.0 == Driver(d.calib, d.log + [TemperatureTxn])
    ensures bus(|d.log|) == Nak ==> r.1 == Reply(-EIO, [])
    ensures bus(|d.log|) == Ack ==> r.1 == Respond(Compensate(Assemble(adc), d.calib), copyOk)
  {
    var read := ReadTemperature(d, bus, adc);
    (read.driver, Respond(read.ret, copyOk))
  }

  /** The result of a read does not depend on the requested count or the file offset. */
  lemma DeviceReadIgnoresCountAndOffset(d: Driver, bus: Script, adc: Block3, count1: nat, offset1: int,
                                        count2: nat, offset2: int, copyOk: bool)
    requires bus(|d.log|) == Ack ==> Defined(Assemble(adc), d.calib)
    ensures DeviceRead(d, bus, adc, count1, offset1, copyOk) == DeviceRead(d, bus, adc, count2, offset2, copyOk)
  {
  }

  /** The sensor whose calibration block decodes to (0, -8, 0) reads -0.05
      degrees from registers 0x80 0x00 0x00. */
  lemma SubZeroSample()
    ensures Decode([0x00, 0x00, 0xF8, 0xFF, 0x00, 0x00]) == Calib(0, -8, 0)
    ensures Defined(Assemble([0x80, 0x00, 0x00]), Calib(0, -8, 0))
    ensures Compensate(Assemble([0x80, 0x00, 0x00]), Calib(0, -8, 0)) == -5
  {
    var c := Calib(0, -8, 0);
    var raw := Assemble([0x80, 0x00, 0x00]);
    assert raw == 524288;
    Pow2Values();
    var s := Pipeline(raw, c);
    assert s.diff1 == 65536 && s.prod1 == -524288 && s.var1 == -256;
    assert s.diff2 == 32768 && s.square == 1073741824 && s.prod2 == 0 && s.var2 == 0;
  }

  /** A sensor reading -0.05 degrees is reported exactly like a failed bus
      transfer: both reads return `-EIO` and copy nothing. */
  lemma SubZeroReadLooksLikeTransferError(bus1: Script, bus2: Script)
    requires bus1(2) == Ack && bus2(2) == Ack
    requires bus1(3) == Ack && bus2(3) == Nak
    ensures var nvm: Block6 := [0x00, 0x00, 0xF8, 0xFF, 0x00, 0x00];
      var adc: Block3 := [0x80, 0x00, 0x00];
      var d1 := Init(true, bus1, nvm).driver;
      var d2 := Init(true, bus2, nvm).driver;
      d1 == d2
      && DeviceRead(d1, bus1, adc, 32, 0, true).1 == DeviceRead(d2, bus2, adc, 32, 0, true).1 == Reply(-EIO, [])
  {
    SubZeroSample();
  }

  /** A run of temperature reads on the node: each consumes the next transfer
      outcome, leaves the coefficients as they are and returns what
      `bmp280_read_temperature` returns. */
  function ReadAll(d: Driver, bus: Script, adcs: seq<Block3>): (r: (Driver, seq<int>))
    requires forall i :: 0 <= i < |adcs| && bus(|d.log| + i) == Ack ==> Defined(Assemble(adcs[i]), d.calib)
    ensures r.0.calib == d.calib
    ensures |r.0.log| == |d.log| + |adcs|
    ensures |r.1| == |adcs|
    ensures forall i :: 0 <= i < |adcs| && bus(|d.log| + i) == Nak ==> r.1[i] == -EIO
    ensures forall i :: 0 <= i < |adcs| && bus(|d.log| + i) == Ack ==>
      r.1[i] == Compensate(Assemble(adcs[i]), d.calib)
    decreases |adcs|
  {
    if |adcs| == 0 then
      (d, [])
    else
      var first := ReadTemperature(d, bus, adcs[0]);
      var rest := ReadAll(first.driver, bus, adcs[1..]);
      assert forall i :: 1 <= i < |adcs| ==> adcs[1..][i - 1] == adcs[i];
      (rest.0, [first.ret] + rest.1)
  }
}
