# INA219 register driver, modelled in Dafny

This project models the register-level driver framework of the Embedd
INA219 power-monitor example for STM32. It covers:

- the byte packer (`embedd_pack`, `embedd_copy`), which turns a register
  value held little-endian in host memory into wire order and back;
- the two register transactions (`ina219_write_reg`, `ina219_read_reg`),
  which validate the device, stage the message in the device's 3-byte
  scratch buffers and drive the injected bus callbacks and the sleep
  service with early returns;
- the tag-checked I2C configuration accessors
  (`embedd_i2c_get_dev_config`, `embedd_i2c_set_dev_config`);
- the register description data: the 16-bit bit-field layouts of the six
  registers, the `*_VALID` validators, the address/delay table and the
  scratch buffer sizes;
- the public macros of `ina219.h`: `INA219_I2C_DEVICE_DEFINE`,
  `INA219_WRITE_REG` and `INA219_READ_REG`.

One module per source file:

| module | file | source |
|---|---|---|
| `EmbeddError` | `embedd_error.dfy` | `embedd_error.h` |
| `EmbeddUtils` | `embedd_utils.dfy` | `embedd_utils.c` |
| `Ina219DataTypes` | `ina219_data_types.dfy` | `ina219_data_types.h` |
| `EmbeddHal` | `embedd_hal.dfy` | `embedd_hal.h` |
| `EmbeddDevice` | `embedd_device.dfy` | `embedd_device.h`, `embedd_i2c.h` |
| `EmbeddI2c` | `embedd_i2c.dfy` | `embedd_i2c.c` |
| `Ina219Registers` | `ina219_registers.dfy` | `ina219_registers.h`, `ina219_registers.c` |
| `Ina219` | `ina219.dfy` | `ina219.h` |

## Modelling choices

**Memory and values**
- Memory is `array<Byte>`, with `Byte` the integers 0..255.
- `embedd_pack` is a method with the source's two moving pointers.
- Pointer arithmetic (`_out_ptr + INA219_REGISTER_ADDR_SIZE`) becomes a destination offset.
- A 16-bit register word is a `bv16`, accessed through shift-and-mask field accessors. The first-declared bit field sits in the least significant bits. The model does not rely on the compiler's struct layout; each layout is a list of named field widths.
- A register value as a number is a `Uint16`. `HostBytes` gives its little-endian image in memory, `WireBytes` its most-significant-first image on the wire.

**Devices and callbacks**
- The device is a class. Its `void *` fields become typed `Option` fields: `data` holds the INA219 scratch block, `api` the INA219 API table, and the bus configuration's `configs` the I2C parameters.
- The bus is a capability record: which of `write` and `read` are non-NULL.
- The bus callbacks and `embedd_hal_sleep` are the methods of an external `Hal` object. Every call is appended to a ghost trace of `BusWrite`, `HalSleep` and `BusRead` events, each carrying the device, the bytes and the returned status.
- What the bus returns and the bytes it delivers are left open. Every proof therefore holds for every bus behaviour.

**Assumptions the model makes explicit**
- **Address byte.** Packing one byte of the `uint32_t reg_addr` (`ina219_registers.c:51,79`) takes its lowest-addressed byte. On the little-endian target that is `reg_addr % 256`. The model packs from a 4-byte little-endian image of the address.
- **Message size.** The source does not bound `reg_size` against the 3-byte scratch buffers. `WriteReg` requires `1 + reg_size <= 3` and `ReadReg` requires `reg_size <= 3`. The macros always pass 2, which `MessagesFitScratch` shows fits.
- **Disjoint buffers.** The caller's value buffer must be distinct from the device's scratch buffers, as the pack loop needs.
- **NULL buffer checks.** `out_buf` and `in_buf` are arrays embedded in `ina219_data_t`, so the `== NULL` tests on them (`ina219_registers.c:46,73`) are always false. The model has no path for them.

**Byte order in the worked example.** A common description of the write path says that writing "0x1234" to address 0x05 sends `[0x05, 0x34, 0x12]`. That holds for the memory bytes `[0x12, 0x34]`. The integer 0x1234 held in little-endian memory goes out as `[0x05, 0x12, 0x34]`, most significant byte first. `FrameExamples` proves both readings, and the model follows the code: the payload is the memory image reversed.

## Model

| member | source | states |
|---|---|---|
| EmbeddError.Code | INA219-CubeIDE/Drivers/ina219/embedd_error.h:34-37 | the result code is 0 or 1, and it is 0 exactly for OK |
| EmbeddUtils.Reverse | INA219-CubeIDE/Drivers/ina219/embedd_utils.c:43-48 | the reversed copy has as many bytes as the source |
| EmbeddUtils.ReverseAt | INA219-CubeIDE/Drivers/ina219/embedd_utils.c:43-48 | position k of the packed copy holds source byte size-1-k (the two moving pointers) |
| EmbeddUtils.ReverseUnique | INA219-CubeIDE/Drivers/ina219/embedd_utils.c:43-48 | any sequence that reads the source backwards, position by position, is the packed copy |
| EmbeddUtils.ReverseReverse | INA219-CubeIDE/Drivers/ina219/embedd_utils.c:43-48 | packing twice restores the original bytes |
| EmbeddUtils.ReverseSingle | INA219-CubeIDE/Drivers/ina219/embedd_utils.c:43-48 | packing 0 or 1 byte is a plain copy, the case used for the address byte |
| EmbeddUtils.Pack | INA219-CubeIDE/Drivers/ina219/embedd_utils.c:35-51 | a NULL buffer or a zero size returns 0 and writes nothing; otherwise it returns size, the destination window holds the source bytes reversed, every other destination byte is unchanged, and the source is unchanged |
| EmbeddUtils.PackTwice | INA219-CubeIDE/Drivers/ina219/embedd_utils.c:35-51 | packing a buffer into a second one and back brings back the original bytes |
| EmbeddUtils.Copy | INA219-CubeIDE/Drivers/ina219/embedd_utils.c:30-33 | returns size; the first size bytes of dst become those of src, the rest of dst and all of src are unchanged |
| EmbeddHal.Hal.Write | INA219-CubeIDE/Drivers/ina219/embedd_hal.h:66 | a bus write is recorded with the device, exactly the bytes sent and the status it returned |
| EmbeddHal.Hal.Read | INA219-CubeIDE/Drivers/ina219/embedd_hal.h:67 | a bus read fills only the first size bytes of the buffer and is recorded with those bytes and its status |
| EmbeddHal.Hal.Sleep | INA219-CubeIDE/Drivers/ina219/embedd_hal.h:76 | a sleep is recorded with its duration |
| EmbeddDevice.I2cDevCfg.constructor | INA219-CubeIDE/Drivers/ina219/embedd_i2c.h:62-64 | an I2C configuration holds the given address |
| EmbeddDevice.Device.DefineFull | INA219-CubeIDE/Drivers/ina219/embedd_device.h:81-90 | every field of the device is the given initialiser |
| EmbeddI2c.GetDevConfig | INA219-CubeIDE/Drivers/ina219/embedd_i2c.c:42-48 | none for a NULL device, a NULL config or a non-I2C tag; otherwise exactly the tagged payload |
| EmbeddI2c.SetDevConfig | INA219-CubeIDE/Drivers/ina219/embedd_i2c.c:31-40 | OK iff config is non-NULL and the device has an I2C configuration; then the configuration's address is config's, with no range check; on ERR the address is unchanged; the configuration found stays the same object and the device's own fields are untouched |
| Ina219DataTypes.OffsetStep | INA219-CubeIDE/Drivers/ina219/ina219_data_types.h:50-58 | each field starts where the field declared before it ends |
| Ina219DataTypes.TotalWidthAppend | INA219-CubeIDE/Drivers/ina219/ina219_data_types.h:50-58 | the width of two consecutive runs of fields is the sum of their widths |
| Ina219DataTypes.UnitWidths | INA219-CubeIDE/Drivers/ina219/ina219_data_types.h:399-416 | in a run of one-bit fields the k-th field sits at bit k and the run is as wide as it is long |
| Ina219DataTypes.OffsetAppend | INA219-CubeIDE/Drivers/ina219/ina219_data_types.h:463-479 | a field after a prefix of fields sits after the prefix's total width |
| Ina219DataTypes.FieldInside | INA219-CubeIDE/Drivers/ina219/ina219_data_types.h:50-58 | every field lies inside the layout's total width |
| Ina219DataTypes.FieldsDisjoint | INA219-CubeIDE/Drivers/ina219/ina219_data_types.h:50-58 | an earlier-declared field ends at or below the start of every later one (fields never overlap) |
| Ina219DataTypes.BitRun | INA219-CubeIDE/Drivers/ina219/ina219_data_types.h:552-569 | a run of n numbered one-bit fields has n fields, each one bit wide |
| Ina219DataTypes.LayoutsFillRegister | INA219-CubeIDE/Drivers/ina219/ina219_data_types.h:50-58 | the configuration layout (3+4+4+2+1+1+1) and the shunt voltage, bus voltage (1+1+2+12), power, current (15+1) and calibration layouts (lines 399-416, 463-479, 552-569, 866-869, 917-934) each fill exactly 16 bits |
| Ina219DataTypes.ConfigurationOffsetAt | INA219-CubeIDE/Drivers/ina219/ina219_data_types.h:50-58 | mode starts at bit 0, sadc at 3, badc at 7, pg at 11, brng at 13, reserved at 14 and rst at 15 |
| Ina219DataTypes.ConfigurationFieldAt | INA219-CubeIDE/Drivers/ina219/ina219_data_types.h:50-58 | the configuration fields start at bits 0, 3, 7, 11, 13, 14, 15, and each field's value is the word shifted down by that offset and masked to its width |
| Ina219DataTypes.BitFieldIsBit | INA219-CubeIDE/Drivers/ina219/ina219_data_types.h:552-569 | in a register of sixteen one-bit fields, field k is bit k of the word |
| Ina219DataTypes.DecodeConfigurationFields | INA219-CubeIDE/Drivers/ina219/ina219_data_types.h:50-58 | the configuration record decoded from a word holds, field by field, the layout's field values, each within its width |
| Ina219DataTypes.ConfigurationWordRoundTrip | INA219-CubeIDE/Drivers/ina219/ina219_data_types.h:50-58 | encoding the decoded configuration gives back the word |
| Ina219DataTypes.ConfigurationFieldsRoundTrip | INA219-CubeIDE/Drivers/ina219/ina219_data_types.h:50-58 | decoding an encoded configuration whose fields fit their widths gives back the record |
| Ina219DataTypes.ModeValid | INA219-CubeIDE/Drivers/ina219/ina219_data_types.h:116-125 | accepts exactly 0..7 |
| Ina219DataTypes.SadcValid | INA219-CubeIDE/Drivers/ina219/ina219_data_types.h:195-206 | accepts exactly 0, 1 and 8..15, rejecting 2..7 |
| Ina219DataTypes.BadcValid | INA219-CubeIDE/Drivers/ina219/ina219_data_types.h:276-287 | accepts exactly 0, 1 and 8..15, rejecting 2..7 |
| Ina219DataTypes.PgValid | INA219-CubeIDE/Drivers/ina219/ina219_data_types.h:321-326 | accepts exactly 0..3 |
| Ina219DataTypes.BrngValid | INA219-CubeIDE/Drivers/ina219/ina219_data_types.h:348-351 | accepts exactly 0 and 1 |
| Ina219DataTypes.RstValid | INA219-CubeIDE/Drivers/ina219/ina219_data_types.h:373-376 | accepts exactly 0 and 1 |
| Ina219DataTypes.ShuntVoltageSignValid | INA219-CubeIDE/Drivers/ina219/ina219_data_types.h:438-441 | accepts exactly 0 and 1 |
| Ina219DataTypes.BusVoltageOvfValid | INA219-CubeIDE/Drivers/ina219/ina219_data_types.h:501-504 | accepts exactly 0 and 1 |
| Ina219DataTypes.BusVoltageCnvrValid | INA219-CubeIDE/Drivers/ina219/ina219_data_types.h:526-529 | accepts exactly 0 and 1 |
| Ina219DataTypes.PowerPdValid | INA219-CubeIDE/Drivers/ina219/ina219_data_types.h:585-587 | accepts only 0 (the same test for PD0..PD15) |
| Ina219DataTypes.CurrentCsignValid | INA219-CubeIDE/Drivers/ina219/ina219_data_types.h:891-894 | accepts exactly 0 and 1 |
| Ina219DataTypes.CalibrationFsValid | INA219-CubeIDE/Drivers/ina219/ina219_data_types.h:950-952 | accepts only 0 (the same test for FS0..FS15) |
| Ina219DataTypes.ConfigurationNarrowFieldsValid | INA219-CubeIDE/Drivers/ina219/ina219_data_types.h:116-125 | the mode, pg, brng and rst fields of every configuration word pass their validators |
| Ina219DataTypes.SadcFieldCanBeInvalid | INA219-CubeIDE/Drivers/ina219/ina219_data_types.h:195-206 | a 4-bit ADC field can hold a code the validator rejects (word 0x0010 has sadc 2) |
| Ina219DataTypes.PowerBitValid | INA219-CubeIDE/Drivers/ina219/ina219_data_types.h:585-587 | the k-th power bit passes its validator iff bit k of the word is clear |
| Ina219DataTypes.HostWireImages | INA219-CubeIDE/Drivers/ina219/ina219_registers.c:52 | a register value's memory image and wire image are two bytes each and each is the other reversed |
| Ina219DataTypes.HostValueRoundTrip | INA219-CubeIDE/Drivers/ina219/ina219_registers.c:89 | two bytes of host memory and a 16-bit value determine each other |
| Ina219DataTypes.Ina219Data.constructor | INA219-CubeIDE/Drivers/ina219/ina219_data_types.h:1244-1247 | a scratch block has two distinct 3-byte buffers, zero-initialised like a static object |
| Ina219Registers.ReadAddr | INA219-CubeIDE/Drivers/ina219/ina219_registers.h:82-124 | every read address lies in 0x00..0x05 |
| Ina219Registers.WriteAddr | INA219-CubeIDE/Drivers/ina219/ina219_registers.h:82-125 | only configuration, shunt voltage and calibration have a write address, and it equals their read address; bus voltage, power and current are read-only |
| Ina219Registers.Delay | INA219-CubeIDE/Drivers/ina219/ina219_registers.h:84-126 | every register's settle delay is 0 |
| Ina219Registers.ValueSizeMatchesLayout | INA219-CubeIDE/Drivers/ina219/ina219.h:52-55 | the sizeof passed for every register type is exactly its layout's width: 16 bits in 2 bytes |
| Ina219Registers.ReadAddrInjective | INA219-CubeIDE/Drivers/ina219/ina219_registers.h:82-124 | the six read addresses are pairwise distinct |
| Ina219Registers.MessagesFitScratch | INA219-CubeIDE/Drivers/ina219/ina219_data_types.h:1229-1235 | an address byte plus any register value fits the 3-byte write buffer, and any register value fits the read buffer |
| Ina219Registers.AddressByte | INA219-CubeIDE/Drivers/ina219/ina219_registers.c:51 | the byte packed from the uint32 address is its low byte |
| Ina219Registers.WriteFrameLayout | INA219-CubeIDE/Drivers/ina219/ina219_registers.c:49-53 | a write message has 1 + size bytes, the address byte first, then value byte size-j at position j |
| Ina219Registers.WriteFrameOfValue | INA219-CubeIDE/Drivers/ina219/ina219_registers.c:51-53 | a register value held in host memory is sent behind its address, most significant byte first |
| Ina219Registers.FrameExamples | INA219-CubeIDE/Drivers/ina219/ina219_registers.c:51-52 | memory bytes 0x12 0x34 go out as 0x34 0x12, the value 0x1234 goes out as 0x12 0x34, and received bytes 0x12 0x34 land as 0x34 0x12 |
| Ina219Registers.WriteReg | INA219-CubeIDE/Drivers/ina219/ina219_registers.c:34-59 | a NULL device or value, a missing bus, scratch block or write callback gives ERR with no bus call and no sleep; otherwise out_buf holds the address byte and the reversed value, exactly one bus write of those 1 + size bytes is made, a failure is returned without sleeping, and success sleeps delay then returns OK; in_buf is never touched |
| Ina219Registers.ReadReg | INA219-CubeIDE/Drivers/ina219/ina219_registers.c:61-91 | ERR with no bus activity unless device, value, bus, scratch block and both callbacks are present; otherwise exactly one address byte is written; if that fails its status is returned with no sleep, no read and nothing else written; otherwise the trace is write, sleep(delay), read(size bytes into in_buf); the caller's value changes only on success, and then holds the received bytes reversed |
| Ina219.DefineI2cDevice | INA219-CubeIDE/Drivers/ina219/ina219.h:77-83 | the device has its own scratch block, its own I2C configuration with address 0 tagged I2C (so it is found by get_dev_config), the INA219 API, and no bus, state machines or event block |
| Ina219.WriteRegister | INA219-CubeIDE/Drivers/ina219/ina219.h:52-55 | with the register's write address, size and delay, a device without a writable bus gives ERR and no traffic; otherwise the bus sees the address then the value most significant byte first, followed on success by a zero sleep |
| Ina219.ReadRegister | INA219-CubeIDE/Drivers/ina219/ina219.h:65-68 | with the register's read address, size and delay, a device without a readable bus gives ERR and no traffic; on failure the variable keeps its value; on success the trace is address write, zero sleep, two-byte read, and the variable is the received bytes read as a big-endian number |
| Ina219.DefineThenWrite | INA219-CubeIDE/Drivers/ina219/ina219.h:83 | a freshly defined device refuses register writes until a bus is attached; after that, writing the configuration register sends 0x00 and the value most significant byte first |

## Left out

- **Event manager** (`embedd_event.c`, `embedd_event.h`, `embedd_event_types.h`, `ina219_events.h`): its functions are weak-linkage stubs that always return OK, and the register code shown never triggers an event.
- **Concrete bus and sleep**: the `write`/`read` callbacks and `embedd_hal_sleep` are external I/O and timing. They appear only as calls recorded in a ghost trace, with open outcomes.
- **`ina219_api` table**: its definition is not part of this model (only its `extern` declaration is). The macros are modelled as calling `ina219_write_reg` and `ina219_read_reg` directly.
- **Pointer casts through `void *`**: replaced by typed fields, so a device whose `data` or `configs` points at an object of another type cannot be expressed.
- **Unused helpers**: the I2C address-range constants (`embedd_i2c.h:36-54`) and the `MAX`/`CountOfArray`/`table_t` helpers of `embedd_utils.h` have no behaviour that uses them.
- **Physical meaning of the fields**: volts, amps and gains are datasheet semantics, not logic in the code.
- **Concurrency** on the shared scratch buffers: the code has none and provides no locking.
- **Record types for the other registers**: only the configuration register has a record with encode and decode. The shunt voltage, bus voltage, power, current and calibration registers are read through their field layouts with `FieldValue`.
- Ina219.ReadRegister: states the bus traffic only on success. The traffic on the failure paths is stated by `Ina219Registers.ReadReg`.
- Ina219.WriteRegister: does not restate the contents of `out_buf`, which `Ina219Registers.WriteReg` states.
- Ina219Registers.WriteReg: requires `1 + reg_size <= 3`, and Ina219Registers.ReadReg requires `reg_size <= 3`. Larger sizes overrun the scratch buffers in the source, which does not check them.
- EmbeddUtils.Pack: requires the two buffers to be distinct arrays. Overlapping calls, which the source permits, are not modelled.
