# Wind-turbine controller firmware: verified model of its sequential core

This project models four hardware-free parts of the controller firmware. Each
part is in its own module, and their properties are proved.

- **Modbus channel engine** (`modbus.h`, modules `ModbusDecode`, `Modbus`,
  `ModbusScenarios`):
  - Each channel (`ModbusReg`) reads one typed value from a Modbus device.
  - A direct read uses function 0x04 for input registers and 0x03 otherwise
    (sections 6.3 and 6.4 of the Modbus Application Protocol Specification
    V1.1b3).
  - A long read fetches 64 registers into the device's response buffer.
  - A cached read takes words from that buffer at an offset.
  - The words are then decoded by data kind: sign extension, big-word-first
    concatenation, or the binary16 to binary32 re-bias.
  - The channel records a result code, and the device keeps a freshness flag
    for its cache.
- **Stepper motor controller** (`stepper.h`, module `Stepper`):
  - the trapezoidal velocity state machine (`updateState`);
  - its braking distance (`updateDecelX`);
  - the step interrupt (`handleMotorInterrupt`);
  - the two-flag tail homing machine (`TailPositioner`).
- **Parameter registry** (`parms.h`, module `Parms`):
  - a table of at most 40 named parameters, with append-if-room and
    first-match lookup;
  - a per-parameter "new value" flag, read and cleared by `checkNewParm`;
  - a global dirty flag.
- **DS18x20 thermometer** (`temperature.h`, module `Temperature`):
  - the family-code switch of `init`;
  - the integer decode of the nine scratchpad bytes done by `readTemp`.

Two helper modules are shared by the others:

- `CInt` holds C integer views: the signed value of 16- and 32-bit patterns,
  wrap-around into `int16_t`, and C's truncating division.
- `Decimal` holds `sprintf("%d")` and `atoi`, and proves that the first reads
  back through the second.

`Wrappers` holds the `Option` type.

State that the source updates in place is modelled as classes with the same
fields:

- `ModbusDevice`, `ModbusReg`, `StepperMotor`, `TailPositioner`, `ParmRegistry`,
  `Parm`, `DS18B20`;
- the registry's global array stays an `array`.

The pure transforms are functions, each with lemmas about what it means.

### Where the code and its documentation differ

The model follows the code in each of these places.

- `MOD_SCALED_P` and `MOD_SCALED` multiply the unsigned word; only
  `MOD_SCALED_V`, `MOD_SCALED_I` and `MOD_HALFWORD_SIGNED_SCALED` sign-extend it.
- A `MOD_STRING` channel reads `strlength / 2` registers, rounded down.
- A successful read of a string or a long read leaves the text buffer as it was.
- `getErrorStrg` has no default case. For an unlisted code it returns no
  message (`ErrorString` gives `None`).
- For TCP, the cached-read offset is `addr & 0x3f`. It equals the distance from
  the long read's base only when that base is a multiple of 64.
  `TcpOffsetAligned` proves the aligned case. `TcpOffsetMisaligned` exhibits a
  base (0x0018, which the RTU devices use) where it fails. The mask is kept as
  written: no TCP device in the channel table has a long read.
- The RTU cache base is recorded on every long-read attempt, including failed
  ones. The source keeps it in one `static` variable per device name
  (`mppt600`, `mppt30`, `mppt60`, `div60`, `div2`). Here it is the `cacheBase`
  field of the device.

## Model

| member | source | states |
|---|---|---|
| CInt.ToInt16 | temperature.h:57 | the value an `int16_t` holding a 16-bit pattern has: in range, and equal to the pattern or the pattern minus 2^16 |
| CInt.ToInt32 | modbus.h:400-402 | the value an `int` holding a 32-bit pattern has: in the int32 range, and equal to the pattern or the pattern minus 2^32 |
| CInt.Wrap16 | temperature.h:59-63 | assigning an int to an `int16_t` yields the int16 value congruent to it modulo 2^16 |
| CInt.TruncDiv | modbus.h:448-450 | C division truncates toward zero: floor for non-negative operands, minus the floor of the negation for a negative dividend |
| Decimal.FormatInt | modbus.h:370 | `%d` text: a minus sign exactly for negative numbers, followed by decimal digits |
| Decimal.AtoiFormatInt | parms.h:94-96 | `atoi` of the `%d` text of any integer gives back that integer |
| ModbusDecode.RegCount | modbus.h:432-455 | 1 register for the 16-bit kinds, 2 exactly for FULLWORD/FLOAT32, 64 exactly for LONG_READ, and `strlength / 2` (truncated) for strings |
| ModbusDecode.ErrorString | modbus.h:457-493 | a message exists exactly for the eleven listed codes; "success" exactly for code 0; every other message starts with "ERROR: " |
| ModbusDecode.ErrorStringInjective | modbus.h:457-493 | different result codes get different messages |
| ModbusDecode.SignExtend16 | modbus.h:303-305 | filling bits 16-31 with ones when bit 15 is set makes the int32 value equal the register's int16 value |
| ModbusDecode.ConcatHalves | modbus.h:310-313 | the concatenated word's high half is the first register and its low half the second |
| ModbusDecode.Float16ToFloat32 | modbus.h:316-342 | the sign moves from bit 15 to bit 31, the exponent field gains 112, and the fraction moves up 13 bits |
| ModbusDecode.Float16ValuePreserved | modbus.h:316-342 | for every normal binary16 pattern (exponent 1..30), the binary32 result denotes the same real number |
| ModbusDecode.DecodeFixtures | modbus.h:316-342 | 0x3C00 gives 0x3F800000 (1.0) and 0xC000 gives 0xC0000000 (-2.0); zero is not special-cased (gives 0x38000000); 0x8000 and 0x7FFF sign-extend to -32768 and 32767 |
| ModbusDecode.Decode | modbus.h:299-363 | the value holds a bit pattern exactly for the integer kinds, FLOAT16 and FLOAT32, and a scaled float otherwise |
| ModbusDecode.DecodeUnsigned | modbus.h:301-302 | HALFWORD keeps the word unsigned |
| ModbusDecode.DecodeSigned | modbus.h:303-305 | HALFWORD_SIGNED gives the word's int16 value |
| ModbusDecode.DecodeFullWord | modbus.h:310-315 | FULLWORD and FLOAT32 put the first word in the high half and the second in the low half |
| ModbusDecode.DecodeFloat16 | modbus.h:316-342 | FLOAT16 keeps the sign, re-biases the exponent by 112 and moves the fraction up 13 bits |
| ModbusDecode.DecodeScaled | modbus.h:343-362 | which integer each scaled kind multiplies (signed for SCALED_V/I and HALFWORD_SIGNED_SCALED, unsigned for SCALED_P and SCALED), by which factor, over 32768, 131072 or 1 |
| ModbusDecode.Render | modbus.h:365-381 | integer kinds show text that `atoi` reads back as the int32 value; float kinds show `%8.3f` of the value; strings and long reads keep the old text |
| Modbus.FunctionFor | modbus.h:230-236 | input registers are read with function 0x04 exactly when the channel's register type is MOD_INPUT_REG |
| Modbus.Zeros | modbus.h:207-210 | a cleared response buffer holds 64 zero words |
| Modbus.StoreWords | modbus.h:230-236 | after a successful transaction the words read occupy the buffer from index 0; the rest is unchanged |
| Modbus.StoreWordsTwice | modbus.h:230-236 | storing the same reply twice leaves the buffer as storing it once |
| Modbus.TcpCacheOffset | modbus.h:254 | `addr & 0x3f` is always 0..63 and congruent to `addr` modulo 64 |
| Modbus.TcpOffsetAligned | modbus.h:215-220 | for a 64-aligned long-read base, the TCP offset of base + k is k |
| Modbus.TcpOffsetMisaligned | modbus.h:215-220 | for base 0x0018 the TCP offset of base + 11 is 35, not 11 |
| Modbus.ModbusDevice.constructor | modbus.h:86-88 | a new device has a stale cache and a cleared buffer |
| Modbus.ModbusDevice.ClearResponseBuffer | modbus.h:207-210 | the buffer becomes all zeros |
| Modbus.ModbusDevice.Transact | modbus.h:230-236 | the status is the reply's; only a successful reply changes the buffer, storing its words from index 0 |
| Modbus.ModbusReg.constructor | modbus.h:162-189 | the fields are the arguments, the register count is `RegCount` of the kind, and the result is 255 (uninitialised) |
| Modbus.ModbusReg.SetNumRegs | modbus.h:432-455 | the register count becomes `RegCount` of the data kind |
| Modbus.ModbusReg.ValInt | modbus.h:400-402 | the union read as an int32 exists exactly when it holds a bit pattern, and is in the int32 range |
| Modbus.ModbusReg.ReadReg | modbus.h:197-398 | the result code, the transaction issued, the cache flag, base and buffer, and the value and text after a cached, direct or long read (details below) |
| Modbus.ModbusReg.Acquire | modbus.h:198-266 | the result code and the transaction, if any; the new buffer; the cache base; the offset of the first word (RTU `addr - base`, TCP `addr & 0x3f`, 0 otherwise) |
| Modbus.ModbusReg.Record | modbus.h:290-397 | records the result; on success decodes and renders the words at the offset, on failure shows "NaN" and keeps the value; a long read sets the cache flag to whether it succeeded |
| ModbusScenarios.CachedReadAfterLongRead | modbus.h:213-228 | after a successful long read at `base` (64-aligned on TCP), a cached read of base + k succeeds and decodes word k and the word after it |
| ModbusScenarios.CachedReadAfterFailedLongRead | modbus.h:384-397 | after a failed long read, a cached read fails with code 99, issues no transaction and shows "NaN", even though an earlier long read had filled the cache |
| ModbusScenarios.RepeatedDirectRead | modbus.h:229-241 | two direct reads given the same reply leave the same value and text |
| Stepper.DecelDistance | stepper.h:80-97 | for a > 0, `v*v/(2a)/1000` is the largest d >= 0 with d·2a·1000 <= v² |
| Stepper.DecelNoOverflow | stepper.h:93-95 | for 0 <= v <= 6889, v² fits in an int32 |
| Stepper.UpdateDrive | stepper.h:100-155 | enable toward the target; speed up only when approaching beyond the braking distance, slow down otherwise; velocity bounds preserved (details below) |
| Stepper.StepperMotor.constructor | stepper.h:24-31 | position 0, target 0, velocity = minimum, disabled, direction LEFT; velocity within bounds when min <= max |
| Stepper.StepperMotor.Copy | stepper.h:250 | the copy made when a motor is passed by value has every field of the original |
| Stepper.StepperMotor.SetCurrentPosition | stepper.h:50-52 | sets the current position and nothing else |
| Stepper.StepperMotor.SetDesiredPosition | stepper.h:56-58 | sets the target position and nothing else |
| Stepper.StepperMotor.UpdateDecelX | stepper.h:80-97 | `decel_x` becomes `DecelDistance` of the current velocity |
| Stepper.StepperMotor.UpdateState | stepper.h:100-160 | direction, enable state and velocity change as `UpdateDrive` says; positions are untouched; `min <= v <= max` is preserved |
| Stepper.StepperMotor.HandleMotorInterrupt | stepper.h:165-206 | the phase toggles; a leading edge of an enabled motor steps ±1 and may stop it at the minimum velocity; velocity bounds preserved (details below) |
| Stepper.TailPositioner.constructor | stepper.h:250 | the positioner owns a fresh copy of the motor, with no seek active |
| Stepper.TailPositioner.Orient | stepper.h:253-264 | position 0, target +62000 (right) or -62000 (left), and the matching seek flag raised |
| Stepper.TailPositioner.Update | stepper.h:268-285 | with the reed switch LOW, both seeks end, the position becomes ±31000 (left wins when both seek) and the target 0; with it HIGH, or with no seek active, nothing changes |
| Parms.IndexOf | parms.h:217-231 | -1 exactly when no entry has the name; otherwise the smallest index whose entry has it |
| Parms.ParmRegistry.constructor | parms.h:11-14 | the table is empty and the dirty flag clear |
| Parms.ParmRegistry.SetParmsDirty | parms.h:17-21 | raises the dirty flag |
| Parms.ParmRegistry.AddParm | parms.h:275-282 | with fewer than 40 entries it appends the parameter and answers true; at 40 it changes nothing and answers false |
| Parms.ParmRegistry.FindParmIndex | parms.h:217-231 | the linear search returns `IndexOf` of the registered entries |
| Parms.ParmRegistry.FindParm | parms.h:233-244 | the entry at `IndexOf`, or null exactly when no entry has the name |
| Parms.ParmRegistry.ParmValOf | parms.h:248-256 | "not found" for an unknown name, otherwise the entry's `parmVal()` |
| Parms.ParmRegistry.SetParmVal | parms.h:258-273 | answers whether the name is known; if not, nothing changes; if so, that one entry reads back `val`, its new-value flag and the dirty flag are raised, and an integer entry's number is `atoi(val)` |
| Parms.Parm.Str | parms.h:30-36 | a string parameter whose value is the given text, registered if there is room; both flags raised |
| Parms.Parm.Int | parms.h:39-46 | an integer parameter holding `val` with text `%d` of `val` (which reads back as `val`), registered if there is room; both flags raised |
| Parms.Parm.IntRange | parms.h:49-56 | the same as the integer constructor, plus the range limits |
| Parms.Parm.Ip | parms.h:70-77 | an IP parameter whose text is the dotted quad, registered if there is room; both flags raised |
| Parms.Parm.SetParmValStr | parms.h:89-111 | `parmVal()` becomes `val` for every type, an integer's number becomes `atoi(val)`, and both flags are raised (details below) |
| Parms.Parm.SetParmValInt | parms.h:114-120 | stores the number and its `%d` text, which stay consistent; both flags raised |
| Parms.Parm.SetParmValIp | parms.h:133-136 | stores the dotted-quad text; neither flag changes |
| Parms.Parm.CheckNewParm | parms.h:183-187 | returns the new-value flag and clears it |
| Parms.CheckNewParmTwice | parms.h:183-187 | a second check right after the first reports no new value |
| Temperature.AssembleValue | temperature.h:57 | the assembled pattern is 256·data[1] + data[0] |
| Temperature.ExtendedReading | temperature.h:58-63 | the DS18S20 path yields an int16 value |
| Temperature.RawReading | temperature.h:57-71 | the decoded reading is an int16 value |
| Temperature.ShiftScales | temperature.h:59 | `raw << 3` in an `int16_t` is 8·raw wrapped to int16, with its low three bits zero |
| Temperature.CountRemainValue | temperature.h:60-63 | with COUNT_PER_C = 16 the reading is 16·(whole degrees of the half-degree reading) + 12 - COUNT_REMAIN, wrapped to int16: the DS18S20's extended-resolution formula in sixteenths |
| Temperature.MaskFloors | temperature.h:65-69 | clearing low bits of an int16 rounds its value down, toward minus infinity, to a multiple of the granule |
| Temperature.ResolutionFloors | temperature.h:64-70 | at 9, 10, 11 or 12 bits the reading is t - t mod 8, 4, 2 or 1: divisible by that granule, and at most one granule below t |
| Temperature.ResolutionMaskIdempotent | temperature.h:65-69 | masking a masked reading again changes nothing |
| Temperature.RawReadingCases | temperature.h:57-71 | the reading by path: the count-remain formula, eight times the half-degree reading, or the reading rounded down to the resolution |
| Temperature.DS18B20.constructor | temperature.h:83-86 | a new sensor takes the DS18B20 path |
| Temperature.DS18B20.Init | temperature.h:12-31 | family 0x10 selects the DS18S20 path, 0x28 and 0x22 the DS18B20 path, and any other family leaves the path unchanged; records whether a device was found |
| Temperature.DS18B20.ReadTemp | temperature.h:57-71 | returns `RawReading` of the scratchpad on the sensor's path, an int16 value |

Three members state too much for one cell.

`Modbus.ModbusReg.ReadReg` states the following:

- a cached read issues no transaction; it succeeds exactly when the cache is
  fresh, and otherwise gives 99;
- a direct read issues one transaction (`FunctionFor`, addr, numRegs) and
  returns its status;
- only a long read changes the cache flag, setting it to whether the read
  succeeded;
- the RTU base is recorded on every holding-register long-read attempt;
- a long read clears the buffer first;
- on success the value is `Decode` of the words at the offset, and the text
  is `Render` of that value;
- on failure the value is kept and the text is "NaN".

`Stepper.UpdateDrive` states the following:

- a disabled motor away from its target is enabled toward it;
- it speeds up (capped at the maximum) only when heading toward the target
  beyond the braking distance, and slows down (floored at the minimum)
  otherwise, including when enabled at the target;
- a disabled motor at its target is left alone;
- `min <= v <= max` is preserved.

`Stepper.StepperMotor.HandleMotorInterrupt` states the following:

- the phase bit always toggles;
- on the leading edge of an enabled motor, the position moves by exactly +1
  (RIGHT) or -1 (LEFT);
- after that step, the motor stops at the minimum velocity if it was at the
  minimum, or if it has reached the target below 10·min;
- otherwise position, enable state and velocity are unchanged;
- `min <= v <= max` is preserved.

`Parms.Parm.SetParmValStr` states what each parameter type keeps:

- a string parameter keeps `val` as its value;
- an integer parameter keeps `val` as its text and `atoi(val)` as its number;
- an IP parameter keeps `val` as its text;
- in every case `parmVal()` is now `val`, and both flags are raised.

## Left out

- The Modbus transport libraries (`readHoldingRegisters`, `readInputRegisters`,
  `updateIPAddress`/`setServerIPAddress`, the serial and TCP I/O): a read
  receives the device's reply (status and words) as a parameter.
- `getResponseBuffer` is modelled as `ModbusDevice.ResponseWord`. The 0xFFFF it
  returns past the end of the buffer is the library's convention, assumed here.
- The floating-point products of the scaled kinds, and the `%8.3f` text. A
  scaled value is kept as its integer multiplicand, a factor name and a
  divisor. The text records which value it shows.
- Debug printing and `Serial` output, and the channel definition tables and
  indexers (configuration data).
- `valFloat`, `valStrg`, the scale setters and getters, and the name and label
  getters: these are plain field reads and writes. `valStrg` is the `strbuf`
  field.
- `getErrorStrg` is `ErrorString` applied to the channel's `modbusResult`
  field.
- Modbus.ModbusReg.ReadReg: the RTU cache base is kept for every device, not
  only for the five device names the source compares against. Every RTU device
  the firmware declares has one of those names.
- Modbus.ModbusReg.ReadReg: the `int` and `uint8_t` widths of the source's
  address arithmetic (`addr - base`) are not modelled. Addresses are unbounded
  integers.
- Stepper hardware: pin writes, the timer registers (`TC_SetRC`, `TC_SetRA`)
  and the `current_rc` divisor computed at the end of `updateState`, which are
  hardware timing.
- The concurrency between the timer interrupt and the main loop: each method
  is one atomic step.
- Stepper.StepperMotor.UpdateState: the 32-bit wrap-around of `v + a` is not
  modelled, because the velocities are bounded far below 2^31 (see
  `DecelNoOverflow`).
- Stepper.StepperMotor.UpdateDecelX: `v * v` is unbounded here; for velocities
  up to the 6889 maximum it fits in 32 bits (`DecelNoOverflow`).
- Stepper.StepperMotor.constructor: `outstate` is uninitialised in the source
  and starts at 0 here.
- The trivial `StepperMotor` getters and the setters other than the two
  position setters.
- `TailPositioner` reads the debounced reed-switch state through a pointer;
  here `update` takes that state as a parameter.
- `seekingRight`/`seekingLeft` are the `seekRight`/`seekLeft` fields.
- Floating-point parameters: the float constructor, `setParmVal(float)`, `atof`
  and `floatval_int`.
- The IP address value itself (`ipval`, `sscanf` back from text): an IP
  parameter is modelled by its text.
- `strcpy` into fixed-size buffers: overflow is not modelled, and names and
  values are strings.
- `setEngName`, `setUnits`, `intVal`, `IPVal`, `parmName`, `parmEngName`,
  `parmUnits` and `parmType` are plain field accesses.
- The `Parm::setParmVal` members are declared to return `boolean` but return
  nothing. They are modelled as returning nothing.
- Parms.Parm.Ip: the source initialises the units from the parameter's own
  uninitialised `units` member; here the units are empty.
- The OneWire bus (`search`, `reset`, `select`, `write`, `read`, `convert`) and
  the CRC. `init` receives the search outcome and the first ROM byte.
  `readTemp` receives the nine scratchpad bytes.
- The float conversion to Celsius and Fahrenheit (`raw / 16.0`, `* 1.8 + 32`):
  `ReadTemp` returns the reading in sixteenths of a degree.
- Temperature.DS18B20.constructor: `present` is uninitialised in the source and
  starts false here.
