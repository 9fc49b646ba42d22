/**
 * The INA219 register table (ina219_registers.h) and the two register
 * transactions of ina219_registers.c. Each transaction validates the
 * device, stages its message in the device's scratch buffers with the
 * byte packer, and talks to the bus; it stops at the first failure.
 */
module Ina219Registers {
  import opened EmbeddError
  import opened EmbeddUtils
  import opened EmbeddHal
  import opened EmbeddDevice
  import opened Ina219DataTypes

  /** INA219_REGISTER_ADDR_SIZE: a register address goes on the wire as one byte. */
  const RegisterAddrSize := 1

  /** The six registers of the chip. */
  datatype Register =
    | ConfigurationRegister
    | ShuntVoltageRegister
    | BusVoltageRegister
    | PowerRegister
    | CurrentRegister
    | CalibrationRegister

  /** The `*_read_reg_addr` constants. */
  function ReadAddr(r: Register): (a: Byte)
    ensures a <= 0x05
  {
    match r
    case ConfigurationRegister => 0x00
    case ShuntVoltageRegister => 0x01
    case BusVoltageRegister => 0x02
    case PowerRegister => 0x03
    case CurrentRegister => 0x04
    case CalibrationRegister => 0x05
  }

  /** The `*_write_reg_addr` constants; bus voltage, power and current define none and are read-only. */
  function WriteAddr(r: Register): (a: Option<Byte>)
    ensures a.Some? <==> r in {ConfigurationRegister, ShuntVoltageRegister, CalibrationRegister}
    ensures a.Some? ==> a.value == ReadAddr(r)
  {
    match r
    case ConfigurationRegister => Some(0x00)
    case ShuntVoltageRegister => Some(0x01)
    case CalibrationRegister => Some(0x05)
    case _ => None
  }

  /** The `*_delay` constants: no register needs a settle delay. */
  function Delay(r: Register): (ms: Uint32)
    ensures ms == 0
  {
    match r
    case ConfigurationRegister => 0
    case ShuntVoltageRegister => 0
    case BusVoltageRegister => 0
    case PowerRegister => 0
    case CurrentRegister => 0
    case CalibrationRegister => 0
  }

  /** The bit-field layout of each register's type. */
  function Layout(r: Register): seq<Field>
  {
    match r
    case ConfigurationRegister => ConfigurationLayout
    case ShuntVoltageRegister => ShuntVoltageLayout
    case BusVoltageRegister => BusVoltageLayout
    case PowerRegister => PowerLayout
    case CurrentRegister => CurrentLayout
    case CalibrationRegister => CalibrationLayout
  }

  /** sizeof the register's type. */
  function ValueSize(r: Register): nat
  {
    RegisterValueSize
  }

  /** Every register type is exactly as large as its bit-field layout: its 16 bits fill its bytes. */
  lemma ValueSizeMatchesLayout(r: Register)
    ensures FillsRegister(Layout(r))
    ensures TotalWidth(Layout(r)) == 8 * ValueSize(r)
  {
    LayoutsFillRegister();
  }

  /** Read addresses identify registers: no two registers share one. */
  lemma ReadAddrInjective(r1: Register, r2: Register)
    ensures ReadAddr(r1) == ReadAddr(r2) ==> r1 == r2
  {
  }

  /** Every register transaction fits the scratch buffers: address plus value outbound, value inbound. */
  lemma MessagesFitScratch(r: Register)
    ensures RegisterAddrSize + ValueSize(r) <= WriteMessageMaxSize
    ensures ValueSize(r) <= ReadMessageMaxSize
  {
  }

  // ---------------------------------------------------------------------------
  // The transactions.
  // ---------------------------------------------------------------------------

  /** The address byte sent for `regAddr`: the lowest-addressed byte of the uint32, its low byte on the little-endian target. */
  function AddressByte(regAddr: Uint32): (b: Byte)
    ensures b == regAddr % 256
  {
    U32HostBytes(regAddr)[0]
  }

  /** The four bytes of a uint32 in host memory, lowest address first (little-endian). */
  function U32HostBytes(x: Uint32): (b: seq<Byte>)
    ensures |b| == 4
  {
    [x % 0x100, x / 0x100 % 0x100, x / 0x1_0000 % 0x100, x / 0x100_0000 % 0x100]
  }

  /** The message a register write sends: the address byte, then the value's bytes last byte first. */
  function WriteFrame(regAddr: Uint32, value: seq<Byte>): seq<Byte>
  {
    [AddressByte(regAddr)] + Reverse(value)
  }

  /** Byte layout of a write message: 1 + size bytes, the address at 0, then value byte size-j at position j. */
  lemma WriteFrameLayout(regAddr: Uint32, value: seq<Byte>)
    ensures |WriteFrame(regAddr, value)| == RegisterAddrSize + |value|
    ensures WriteFrame(regAddr, value)[0] == regAddr % 256
    ensures forall j :: 1 <= j <= |value| ==> WriteFrame(regAddr, value)[j] == value[|value| - j]
  {
    forall j | 1 <= j <= |value|
      ensures WriteFrame(regAddr, value)[j] == value[|value| - j]
    {
      ReverseAt(value, j - 1);
    }
  }

  /** A register value held in host memory goes out most significant byte first, behind the address. */
  lemma WriteFrameOfValue(regAddr: Uint32, v: Uint16)
    ensures WriteFrame(regAddr, HostBytes(v)) == [regAddr % 256] + WireBytes(v)
  {
    HostWireImages(v);
  }

  /**
   * Worked frames: memory bytes 0x12, 0x34 go out as 0x34, 0x12; the
   * value 0x1234 held in host memory goes out as 0x12, 0x34; received
   * bytes 0x12, 0x34 land in the caller's memory as 0x34, 0x12.
   */
  lemma FrameExamples()
    ensures WriteFrame(0x05, [0x12, 0x34]) == [0x05, 0x34, 0x12]
    ensures WriteFrame(0x05, HostBytes(0x1234)) == [0x05, 0x12, 0x34]
    ensures Reverse([0x12, 0x34]) == [0x34, 0x12]
  {
    WriteFrameOfValue(0x05, 0x1234);
    HostWireImages(0x3412);
  }

  /** The device has a bus with a write callback and a scratch block. */
  predicate CanWrite(dev: Device?)
    reads dev
  {
    dev != null && dev.bus.Some? && dev.data.Some? && dev.bus.value.canWrite
  }

  /** The device can also read: a read transaction needs both callbacks. */
  predicate CanRead(dev: Device?)
    reads dev
  {
    CanWrite(dev) && dev.bus.value.canRead
  }

  /** The device and the value pointer pass every check of ina219_write_reg. */
  predicate WriteReady(dev: Device?, reg: array?<Byte>)
    reads dev
  {
    reg != null && CanWrite(dev)
  }

  /** The device and the value pointer pass every check of ina219_read_reg. */
  predicate ReadReady(dev: Device?, reg: array?<Byte>)
    reads dev
  {
    reg != null && CanRead(dev)
  }

  /** The device's scratch buffers, which a transaction may overwrite. */
  function Scratch(dev: Device?): set<object>
    reads dev
  {
    if dev != null && dev.data.Some? then {dev.data.value.outBuf, dev.data.value.inBuf} else {}
  }

  /**
   * ina219_write_reg. With a device, a value, a bus binding with a write
   * callback and a scratch block, it stages the address byte and the
   * byte-reversed value in out_buf, sends those 1 + regSize bytes with
   * one bus write, and on success sleeps `delay` and returns OK. A bus
   * failure is returned as it is, without sleeping. Any failed check
   * returns ERR before any call to the outside.
   */
  method WriteReg(dev: Device?, hal: Hal, regAddr: Uint32, reg: array?<Byte>, regSize: Uint32, delay: Uint32)
    returns (result: Status)
    requires RegisterAddrSize + regSize <= WriteMessageMaxSize
    requires reg != null ==> regSize <= reg.Length
    requires dev != null ==> dev.Valid()
    requires dev != null && reg != null ==> reg !in Scratch(dev)
    modifies hal, Scratch(dev)
    ensures !WriteReady(dev, reg) ==> result == Err && hal.trace == old(hal.trace)
    ensures !WriteReady(dev, reg) && dev != null && dev.data.Some? ==>
              dev.data.value.outBuf[..] == old(dev.data.value.outBuf[..])
    ensures WriteReady(dev, reg) ==>
              dev.data.value.outBuf[..] ==
                WriteFrame(regAddr, old(reg[..regSize])) + old(dev.data.value.outBuf[RegisterAddrSize + regSize..])
    ensures WriteReady(dev, reg) ==>
              hal.trace == old(hal.trace) + [BusWrite(dev, WriteFrame(regAddr, old(reg[..regSize])), result)]
                                          + (if result == Ok then [HalSleep(delay)] else [])
    ensures dev != null && dev.data.Some? ==> dev.data.value.inBuf[..] == old(dev.data.value.inBuf[..])
  {
    result := Err;
    if dev == null || reg == null {
      return;
    }
    if dev.bus.None? || dev.data.None? {
      return;
    }
    if !dev.bus.value.canWrite {
      return;
    }
    var data := dev.data.value;
    // out_buf is an array embedded in the scratch block: it cannot be NULL.
    var msgSize := RegisterAddrSize + regSize;
    var outPtr := data.outBuf;
    var addrMem := new Byte[4](i requires 0 <= i < 4 => U32HostBytes(regAddr)[i]);
    ghost var before := outPtr[..];
    ghost var value := reg[..regSize];
    var _ := Pack(outPtr, 0, addrMem, RegisterAddrSize);
    assert outPtr[..] == [AddressByte(regAddr)] + before[1..] by {
      assert addrMem[..RegisterAddrSize] == [AddressByte(regAddr)];
      assert before[..0] == [];
    }
    var _ := Pack(outPtr, RegisterAddrSize, reg, regSize);
    assert outPtr[..] == WriteFrame(regAddr, value) + before[msgSize..] by {
      if regSize > 0 {
        assert ([AddressByte(regAddr)] + before[1..])[msgSize..] == before[msgSize..];
      }
    }
    result := hal.Write(dev.bus.value, dev, outPtr, msgSize);
    if result != Ok {
      return;
    }
    hal.Sleep(delay);
  }

  /**
   * ina219_read_reg. With a device, a value pointer, a bus binding with
   * both callbacks and a scratch block, it sends the one address byte,
   * sleeps `delay`, reads regSize bytes into in_buf and unpacks them,
   * reversed, into the caller's value. The first failure is returned as
   * it is and ends the transaction; the caller's value is written only
   * when both bus calls succeed. Any failed check returns ERR before any
   * call to the outside.
   *
   * `addrStatus` is the bus's answer to the address write and `received`
   * the bytes the bus delivered, when it got that far.
   */
  method ReadReg(dev: Device?, hal: Hal, regAddr: Uint32, reg: array?<Byte>, regSize: Uint32, delay: Uint32)
    returns (result: Status, ghost addrStatus: Status, ghost received: seq<Byte>)
    requires regSize <= ReadMessageMaxSize
    requires reg != null ==> regSize <= reg.Length
    requires dev != null ==> dev.Valid()
    requires dev != null && reg != null ==> reg !in Scratch(dev)
    modifies hal, Scratch(dev), reg
    ensures !ReadReady(dev, reg) ==> result == Err && hal.trace == old(hal.trace)
    ensures !ReadReady(dev, reg) && dev != null && dev.data.Some? ==>
              dev.data.value.outBuf[..] == old(dev.data.value.outBuf[..]) &&
              dev.data.value.inBuf[..] == old(dev.data.value.inBuf[..])
    ensures ReadReady(dev, reg) ==>
              dev.data.value.outBuf[..] == [AddressByte(regAddr)] + old(dev.data.value.outBuf[RegisterAddrSize..])
    ensures ReadReady(dev, reg) && addrStatus != Ok ==>
              result == addrStatus &&
              hal.trace == old(hal.trace) + [BusWrite(dev, [AddressByte(regAddr)], addrStatus)] &&
              dev.data.value.inBuf[..] == old(dev.data.value.inBuf[..])
    ensures ReadReady(dev, reg) && addrStatus == Ok ==>
              |received| == regSize &&
              hal.trace == old(hal.trace) + [BusWrite(dev, [AddressByte(regAddr)], Ok),
                                             HalSleep(delay),
                                             BusRead(dev, received, result)] &&
              dev.data.value.inBuf[..] == received + old(dev.data.value.inBuf[regSize..])
    ensures ReadReady(dev, reg) && result == Ok ==>
              addrStatus == Ok && reg[..] == Reverse(received) + old(reg[regSize..])
    ensures result != Ok && reg != null ==> reg[..] == old(reg[..])
  {
    result, addrStatus, received := Err, Err, [];
    if dev == null || reg == null {
      return;
    }
    if dev.bus.None? || dev.data.None? {
      return;
    }
    if !dev.bus.value.canWrite || !dev.bus.value.canRead {
      return;
    }
    var data := dev.data.value;
    // out_buf and in_buf are arrays embedded in the scratch block: they cannot be NULL.
    var msgSize := RegisterAddrSize;
    var outPtr := data.outBuf;
    var inPtr := data.inBuf;
    var addrMem := new Byte[4](i requires 0 <= i < 4 => U32HostBytes(regAddr)[i]);
    ghost var before := outPtr[..];
    var _ := Pack(outPtr, 0, addrMem, RegisterAddrSize);
    assert outPtr[..] == [AddressByte(regAddr)] + before[1..] by {
      assert addrMem[..RegisterAddrSize] == [AddressByte(regAddr)];
      assert before[..0] == [];
    }
    assert outPtr[..msgSize] == [AddressByte(regAddr)];
    result := hal.Write(dev.bus.value, dev, outPtr, msgSize);
    addrStatus := result;
    if result != Ok {
      return;
    }
    hal.Sleep(delay);
    ghost var inBefore := inPtr[..];
    result := hal.Read(dev.bus.value, dev, inPtr, regSize);
    received := inPtr[..regSize];
    assert inPtr[..] == received + inBefore[regSize..] by {
      assert inPtr[..] == inPtr[..regSize] + inPtr[regSize..];
    }
    if result != Ok {
      return;
    }
    var _ := Pack(reg, 0, inPtr, regSize);
    assert regSize == 0 ==> reg[..] == Reverse(received) + old(reg[regSize..]);
  }
}
