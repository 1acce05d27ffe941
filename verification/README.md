# BMP280 driver core and AVR duty-cycle stepping, in Dafny

This project models three pieces of integer logic from an embedded-systems repository and proves properties about them.

1. **The BMP280 temperature driver** (`temp_sensor/bmp280.c`), a Linux character driver. It covers:
   - decoding the six calibration bytes at register 0x88 into `dig_T1` (unsigned 16-bit) and `dig_T2`/`dig_T3` (signed 16-bit);
   - assembling the 20-bit raw sample from registers 0xFA..0xFC;
   - the 32-bit fixed-point compensation of section 3.11.3 of the Bosch BMP280 datasheet;
   - the init sequence (reset, configure, calibrate);
   - the `read` entry point with its error codes and `"%d\n"` rendering.

   The driver is a state machine over an abstract I2C bus. Its state is the calibration store plus a log of the transactions it has issued. A `Script` gives the outcome (`Ack`/`Nak`) of the k-th transfer since module load, and the log's length is the cursor into it. The bytes a successful read delivers are inputs: the sensor's calibration block and, for each read, its temperature registers.
2. **Five-channel LED brightness** (`Project/main.c`). Five `uint8_t` duty cycles step by 10 and wrap to 0 past 100 for each serviced timer flag. `update_PWM` scales them to the compare registers.
3. **Single-channel PWM** (`PWM/main.c`). The same step rule applies to an `int` that starts at 25.

Modules:
- `CInt` holds the C integer widths, GCC's arithmetic `>>` (floor division by 2^k) and int16 conversion.
- `Calibration`, `Sample`, `Compensation`, `Decimal` and `Bmp280` cover the driver.
- `DutyCycle` holds the +10/wrap rule the two AVR programs share.
- `LedBrightness` models `Project/main.c` and `PwmDuty` models `PWM/main.c`.

The bitwise ORs in the byte assembly are modelled as sums, because their operands occupy disjoint bits. `WordIsBitwiseOr` and `AssembleIsBitwiseOr` prove this on 32-bit patterns.

Compensation is computed on unbounded integers. `Compensation.Defined` states that every `int32_t` intermediate of the C expression is in range. Only then is the C behaviour defined, and then it equals the model.

The driver code has:
- no bus lock;
- no "not ready" error;
- no fail-fast on an uncalibrated store;
- no abort of init on a failed step, and no per-step init error.

Instead:
- reset and configure results are ignored;
- a failed calibration read leaves the zero-initialised coefficients in place;
- init still returns 0.

Two consequences of the code as written are proved:
- `bmp280_read` returns a negative temperature as if it were an error code. A reading of −0.05 °C is indistinguishable from a failed transfer (`SubZeroReadLooksLikeTransferError`).
- With the never-calibrated, all-zero coefficients, the compensation's mathematical result is always 0. The C expression is nevertheless undefined for raw samples of 741456 and above (`UncalibratedDefinedExactlyBelow`).

## Model

| member | source | states |
|---|---|---|
| CInt.Asr | temp_sensor/bmp280.c:111-112 | `x >> k` on a signed value is the floor of x / 2^k: 2^k·r ≤ x < 2^k·(r+1) |
| CInt.ToInt16 | temp_sensor/bmp280.c:94-95 | storing a 16-bit pattern in `int16_t` gives the one int16 congruent to it modulo 2^16 |
| CInt.Int16RoundTrip | temp_sensor/bmp280.c:94-95 | the int16 conversion and the two's-complement pattern are inverse bijections |
| Calibration.WordIsBitwiseOr | temp_sensor/bmp280.c:93-95 | the OR of `hi << 8` and `lo` on bytes equals hi·256 + lo |
| Calibration.Decode | temp_sensor/bmp280.c:93-95 | T1 has low byte b0 and high byte b1; T2 and T3 are congruent to b2+256·b3 and b4+256·b5 modulo 2^16 (two's complement) |
| Calibration.DecodeEncode | temp_sensor/bmp280.c:93-95 | every coefficient triple survives layout and decoding |
| Calibration.EncodeDecode | temp_sensor/bmp280.c:93-95 | every six-byte block is the layout of the triple it decodes to |
| Sample.Assemble | temp_sensor/bmp280.c:140 | 0 ≤ raw < 2^20, raw / 4096 = data[0], (raw / 16) mod 256 = data[1], raw mod 16 = data[2] / 16 |
| Sample.AssembleIsBitwiseOr | temp_sensor/bmp280.c:140 | the ORed shifted bytes equal their sum on 32-bit patterns |
| Sample.AssembleRegisters | temp_sensor/bmp280.c:140 | every 20-bit sample is recovered from its registers, whatever the low nibble of 0xFC |
| Sample.RegistersAssemble | temp_sensor/bmp280.c:140 | the registers are fixed by their sample, except the discarded low nibble |
| Compensation.RoundHundredths | temp_sensor/bmp280.c:115 | `(t*5+128) >> 8` is t·5/256 rounded to nearest, halves up: 256r−128 ≤ 5t < 256r+128 |
| Compensation.Pipeline | temp_sensor/bmp280.c:109-114 | var1 and var2 are their products shifted right by 11 and 14, rounded toward minus infinity; the square is non-negative; t_fine = var1 + var2 |
| Compensation.Compensate | temp_sensor/bmp280.c:107-116 | the result is t_fine·5/256 rounded to nearest, and it fits the `int32_t` return type whenever every intermediate does (`Defined`) |
| Compensation.ReferenceVector | temp_sensor/bmp280.c:107-116 | T1=27504, T2=26435, T3=−1000, raw=519888 give t_fine 128422 and 2508 (25.08 °C), with no overflow |
| Compensation.ReferenceDefinedEverywhere | temp_sensor/bmp280.c:111-115 | with those coefficients no intermediate leaves `int32_t` for any raw in [0, 2^20) |
| Compensation.ExtremeCoefficientsOverflow | temp_sensor/bmp280.c:111 | T1=65535, T2=−32768 overflow the first product already at raw 0 |
| Compensation.UncalibratedIsZero | temp_sensor/bmp280.c:111-115 | with the zero-initialised coefficients every raw value compensates to 0 |
| Compensation.UncalibratedDefinedExactlyBelow | temp_sensor/bmp280.c:112 | with zero coefficients the C code is defined exactly for raw < 741456; above that `(raw>>4)²` overflows |
| Decimal.Digits | temp_sensor/bmp280.c:155 | `%d` digits of a natural number are non-empty, all digits, with no leading zero except "0" |
| Decimal.ValueOfDigits | temp_sensor/bmp280.c:155 | reading the rendered digits back gives the number |
| Decimal.DigitsOfValue | temp_sensor/bmp280.c:155 | every canonical digit string is the rendering of its value |
| Decimal.Int32Digits | temp_sensor/bmp280.c:148-155 | a non-negative `int32_t` takes at most 10 digits |
| Decimal.Format | temp_sensor/bmp280.c:155 | `%d`: a non-negative value renders as its canonical digits; a negative one as '-' and the digits of its magnitude |
| Bmp280.SoftReset | temp_sensor/bmp280.c:43-55 | issues `{0xE0,0xB6}` to 0x76; returns 0 iff the transfer completes, else −EIO; coefficients untouched |
| Bmp280.Configure | temp_sensor/bmp280.c:60-71 | issues `{0xF4,0x27}`; returns 0 iff the transfer completes, else −EIO; coefficients untouched |
| Bmp280.ReadCalibration | temp_sensor/bmp280.c:77-100 | issues write 0x88 + 6-byte read; on success stores the decoded block and returns 0; on failure returns −EIO with coefficients unchanged |
| Bmp280.Init | temp_sensor/bmp280.c:172-197 | without an adapter returns −ENODEV before any transfer; otherwise issues reset, configure, calibration in that order and returns 0; coefficients are the decoded block or still all zero |
| Bmp280.InitIgnoresStepResults | temp_sensor/bmp280.c:182-186 | init's result does not depend on the outcomes of the reset and configure transfers |
| Bmp280.ReadTemperature | temp_sensor/bmp280.c:122-142 | issues write 0xFA + 3-byte read; −EIO on failure, else the compensated assembled sample, which fits `int32_t`; coefficients unchanged |
| Bmp280.FailedReadSkipsCompensation | temp_sensor/bmp280.c:133-136 | a failed transfer yields −EIO whatever the registers and coefficients |
| Bmp280.Respond | temp_sensor/bmp280.c:150-160 | a negative value is returned unchanged with nothing copied; otherwise the copied text is canonical digits of the value plus '\n', shorter than the 32-byte buffer, and its length is returned (−EFAULT if the copy fails) |
| Bmp280.DeviceRead | temp_sensor/bmp280.c:145-161 | one read issues one temperature transaction and leaves the coefficients alone; a failed transfer gives −EIO and copies nothing; a completed one gives the reply for the compensated sample |
| Bmp280.DeviceReadIgnoresCountAndOffset | temp_sensor/bmp280.c:145-161 | the result does not depend on `count` or `*offset` |
| Bmp280.SubZeroSample | temp_sensor/bmp280.c:111-115 | coefficients (0, −8, 0) from bytes `00 00 F8 FF 00 00` and registers `80 00 00` give −5 (−0.05 °C) |
| Bmp280.SubZeroReadLooksLikeTransferError | temp_sensor/bmp280.c:150-153 | a −0.05 °C reading and a failed transfer both return −EIO and copy nothing: indistinguishable to the caller |
| Bmp280.ReadAll | temp_sensor/bmp280.c:122-142 | a run of reads consumes one outcome each; read i gives −EIO if its transfer fails, else the compensated sample; coefficients are never changed |
| DutyCycle.Advance | PWM/main.c:64-68 | the update never exceeds 100 and, from any value ≥ −10, never goes below 0; it falls back to 0 exactly when the sum passes 100 |
| DutyCycle.AdvanceOnGrid | Project/main.c:125-127 | on multiples of 10 in [0,100] a step moves to the next one, 100 wrapping to 0 |
| DutyCycle.IterateClosedForm | Project/main.c:125-127 | from a grid value d, n steps give ((d/10 + n) mod 11)·10 |
| DutyCycle.IteratePeriod | Project/main.c:125-127 | grid values return after exactly 11 steps, not before, and never leave the grid |
| LedBrightness.StepChannel | Project/main.c:125-127 | on a `uint8_t` every stepped channel is at most 100; on the grid the sum is below 256, so it does not wrap and the step is the plain update |
| LedBrightness.Step | Project/main.c:123-128 | one step leaves every channel in [0,100] and gives each grid channel the plain update |
| LedBrightness.StepInPlace | Project/main.c:123-128 | the in-place `for (j…)` loop computes the same as the pure step |
| LedBrightness.StepsPerChannel | Project/main.c:123-128 | after n steps each channel depends only on its own start value |
| LedBrightness.ChannelAfterOnGrid | Project/main.c:125-127 | a channel starting on the grid follows the grid cycle |
| LedBrightness.InitialOnGrid | Project/main.c:45 | the initial duties are 10, 20, 30, 40, 50, all on the grid |
| LedBrightness.InitialStaysOnGrid | Project/main.c:123-128 | from {10,20,30,40,50} every channel is a multiple of 10 in [0,100] after any number of steps |
| LedBrightness.InitialPeriod | Project/main.c:123-128 | from the initial values each channel returns to its start after exactly 11 steps, not before |
| LedBrightness.InitialReachesFullThenWraps | Project/main.c:108-128 | channel j reaches 100 after 9−j steps and is 0 on the next one |
| LedBrightness.Scale | Project/main.c:98-102 | `(d*255)/100` is the largest r with 100·r ≤ 255·d |
| LedBrightness.ScaleDefinedExactlyBelow | Project/main.c:98-102 | `dutycycle[j] * MAX_VALUE` fits the AVR's 16-bit `int` exactly when the duty is at most 128 |
| LedBrightness.ReachableScaleDefined | Project/main.c:98-102 | every duty reached from the initial values keeps that product defined |
| LedBrightness.ScaleRange | Project/main.c:98-102 | scaling keeps [0,100] within [0,255], maps 0 to 0 and 100 to 255, and is monotone where the product is defined |
| LedBrightness.Reg8 | Project/main.c:98-102 | an 8-bit compare register keeps the assigned value when it is at most 255 |
| LedBrightness.Reg16 | Project/main.c:100-101 | a 16-bit Timer1 compare register keeps the assigned value when it is at most 255 |
| LedBrightness.UpdatePwm | Project/main.c:96-103 | for duties up to 100 each compare register holds the scaled duty of its own channel |
| LedBrightness.UpdatePwmPerChannel | Project/main.c:96-103 | each register depends on its own channel only |
| LedBrightness.ServiceFlags | Project/main.c:119-131 | one step is applied per set flag; all three flags end cleared |
| LedBrightness.MainPass | Project/main.c:117-136 | one pass of `while (1)`: flags serviced and cleared, then the registers updated from the new duties |
| PwmDuty.DutyShape | PWM/main.c:64-68 | the duty is 25 + 10n before the eighth update and follows the grid cycle from 0 after it |
| PwmDuty.DutyClosedForm | PWM/main.c:64-68 | the duty after n ≥ 8 updates is ((n−8) mod 11)·10 |
| PwmDuty.DutyInRange | PWM/main.c:64-68 | starting from 25 the duty stays in [0,100] forever |
| PwmDuty.FirstWrap | PWM/main.c:64-68 | 25, 35, …, 95 are positive and end in 5; the first wrap is on the eighth update, 95 to 0 |
| PwmDuty.PeriodAfterWrap | PWM/main.c:64-68 | after the first wrap the duty has period 11 |
| PwmDuty.ValuesAfterWrap | PWM/main.c:64-68 | after the first wrap the duties are exactly the multiples of 10 in [0,100] |
| PwmDuty.Pass | PWM/main.c:59-73 | the duty changes only when the flag is set; the flag is clear after the pass |
| PwmDuty.Run | PWM/main.c:57-74 | from any duty, a run of passes applies one update per raised flag, none otherwise, and ends with the flag clear |
| PwmDuty.RunClosedForm | PWM/main.c:57-74 | from 25, after a run with n raised flags the duty is 25 + 10n for n < 8 and ((n−8) mod 11)·10 from then on |

## Left out

- Kernel and character-device plumbing is not modelled: `alloc_chrdev_region`, `cdev_*`, `class_create`, `device_create`, module exit, `i2c_get_adapter`/`i2c_put_adapter`. Adapter acquisition is reduced to a boolean.
- `i2c_transfer` is a foreign call. It is modelled as an outcome per transfer. A successful read delivers exactly the requested bytes; partial transfers are not modelled.
- `msleep` delays and `pr_info`/`pr_err` logging are not modelled.
- `copy_to_user` is reduced to a success flag. A partial copy is not modelled, nor is the overrun of the caller's buffer when `count` is smaller than the text's `strlen`: the model copies the whole text regardless of `count`, as the code does.
- Bmp280.ReadTemperature, Bmp280.DeviceRead, Bmp280.DeviceReadIgnoresCountAndOffset and Bmp280.ReadAll: require `Compensation.Defined` on the successful path. Outside it the C expression overflows `int32_t`, which is undefined behaviour, and the wrapped value GCC happens to produce is not modelled.
- Concurrency is not modelled. That covers concurrent `read` calls on the device node, and timer interrupts setting flags while `main` services them: the ISR handoff is reduced to the flags present at the start of a pass.
- `_delay_ms`, AVR timer and port register setup, and `sei` are not modelled.
- The floating-point compare value in PWM/main.c:49 and PWM/main.c:72 is not modelled.
- Modular_Programming/main.c (float voltages and thresholds), ADC_Conversion/main.c (ADC polling), temp_sensor/user_app.c (file I/O, `atoi`, float `printf`), characterdevice_creation/device.c and simple_driver/simple_driver.c are not part of this model.
- LedBrightness.Scale: computes `dutycycle[j] * MAX_VALUE` on unbounded integers. On the AVR that product is a 16-bit `int` and overflows (undefined behaviour) for duties of 129 and above (`ScaleDefinedExactlyBelow`); duties reached from the initial values stay at most 100 (`ReachableScaleDefined`), so the program never gets there.
- PwmDuty: the AVR `int` is 16 bits. Duties stay in [0,110], so it is modelled as an unbounded `int` with no wrap-around.
