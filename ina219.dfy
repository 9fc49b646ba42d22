/**
 * The driver's public surface (ina219.h): the device definition macro and
 * the two register-access macros. A macro call names a register type and
 * a variable of that type; the variable is two bytes of host memory, so
 * here it is the register's 16-bit value, laid out little-endian when it
 * is handed to the transaction.
 */
module Ina219 {
  import opened EmbeddError
  import opened EmbeddUtils
  import opened EmbeddHal
  import opened EmbeddDevice
  import opened EmbeddI2c
  import opened Ina219DataTypes
  import opened Ina219Registers

  /**
   * INA219_I2C_DEVICE_DEFINE: a device named `name` with its own scratch
   * block and its own zero-initialised I2C configuration, tagged as an I2C
   * device and bound to the INA219 API, with no state machines, no event
   * block and no bus yet.
   */
  method DefineI2cDevice(name: string) returns (dev: Device)
    ensures fresh(dev) && dev.Valid()
    ensures dev.name == name && dev.api == Some(Ina219Api)
    ensures dev.fsms.None? && dev.event.None? && dev.bus.None?
    ensures dev.data.Some? && fresh(dev.data.value) && fresh(dev.data.value.outBuf) && fresh(dev.data.value.inBuf)
    ensures GetDevConfig(dev).Some? && fresh(GetDevConfig(dev).value) && GetDevConfig(dev).value.addr == 0
  {
    var data := new Ina219Data();
    var i2cCfg := new I2cDevCfg(0);
    var cfg := DevCfg(BusDevCfg(BusTypeI2c, Some(i2cCfg)));
    dev := new Device.DefineFull(name, Some(cfg), Some(Ina219Api), None, Some(data), None, None);
  }

  /** A register word laid out in two bytes of fresh host memory, least significant byte first. */
  method HostMemory(v: Uint16) returns (mem: array<Byte>)
    ensures fresh(mem) && mem[..] == HostBytes(v)
  {
    mem := new Byte[RegisterValueSize];
    mem[0], mem[1] := v % 256, v / 256;
  }

  /**
   * INA219_WRITE_REG: the bound write_reg with the register's write
   * address, its size and its delay. A ready device sends the address
   * byte, then the word most significant byte first.
   */
  method WriteRegister(dev: Device, hal: Hal, r: Register, value: Uint16) returns (result: Status)
    requires dev.api == Some(Ina219Api) && dev.Valid()
    requires WriteAddr(r).Some?
    modifies hal, Scratch(dev)
    ensures !CanWrite(dev) ==> result == Err && hal.trace == old(hal.trace)
    ensures CanWrite(dev) ==>
              hal.trace == old(hal.trace) + [BusWrite(dev, [ReadAddr(r)] + WireBytes(value), result)]
                                          + (if result == Ok then [HalSleep(0)] else [])
  {
    var mem := HostMemory(value);
    var addr, size, delay := WriteAddr(r).value, ValueSize(r), Delay(r);
    assert addr == ReadAddr(r) && size == RegisterValueSize && delay == 0;
    if !CanWrite(dev) {
      result := WriteReg(dev, hal, addr, mem, size, delay);
      return;
    }
    ghost var sent := mem[..size];
    assert sent == HostBytes(value);
    assert WriteReady(dev, mem);
    assert WriteFrame(addr, sent) == [ReadAddr(r)] + WireBytes(value) by {
      WriteFrameOfValue(addr, value);
    }
    result := WriteReg(dev, hal, addr, mem, size, delay);
  }

  /**
   * INA219_READ_REG: the bound read_reg with the register's read address,
   * its size and its delay. `current` is the variable's value before the
   * call; `value` its value after. A successful read yields the two
   * received bytes as a big-endian word; any failure leaves the variable
   * as it was.
   */
  method ReadRegister(dev: Device, hal: Hal, r: Register, current: Uint16)
    returns (result: Status, value: Uint16, ghost received: seq<Byte>)
    requires dev.api == Some(Ina219Api) && dev.Valid()
    modifies hal, Scratch(dev)
    ensures !CanRead(dev) ==> result == Err && hal.trace == old(hal.trace)
    ensures result != Ok ==> value == current
    ensures result == Ok ==>
              |received| == RegisterValueSize && value == received[0] as int * 256 + received[1] as int &&
              hal.trace == old(hal.trace) + [BusWrite(dev, [ReadAddr(r)], Ok), HalSleep(0), BusRead(dev, received, Ok)]
  {
    var mem := HostMemory(current);
    var addr, size, delay := ReadAddr(r), ValueSize(r), Delay(r);
    assert size == RegisterValueSize && delay == 0;
    assert AddressByte(addr) == addr;
    ghost var addrStatus;
    if !CanRead(dev) {
      result, addrStatus, received := ReadReg(dev, hal, addr, mem, size, delay);
      HostValueRoundTrip(current, 0, 0);
      value := HostValue(mem[0], mem[1]);
      return;
    }
    assert ReadReady(dev, mem);
    result, addrStatus, received := ReadReg(dev, hal, addr, mem, size, delay);
    if result != Ok {
      HostValueRoundTrip(current, 0, 0);
      value := HostValue(mem[0], mem[1]);
      return;
    }
    assert mem[..] == Reverse(received) by {
      assert mem[size..] == [];
    }
    ReverseAt(received, 0);
    ReverseAt(received, 1);
    value := HostValue(mem[0], mem[1]);
  }

  /**
   * A freshly defined device refuses register access until a bus is
   * attached; once one is, writing the configuration register sends its
   * address and the value most significant byte first.
   */
  method DefineThenWrite(hal: Hal, value: Uint16) returns (dev: Device, before: Status, after: Status)
    modifies hal
    ensures before == Err
    ensures hal.trace == old(hal.trace) + [BusWrite(dev, [0x00, value / 256, value % 256], after)]
                                        + (if after == Ok then [HalSleep(0)] else [])
  {
    dev := DefineI2cDevice("ina219");
    before := WriteRegister(dev, hal, ConfigurationRegister, value);
    assert hal.trace == old(hal.trace);
    dev.bus := Some(Bus(true, true));
    after := WriteRegister(dev, hal, ConfigurationRegister, value);
    assert [ReadAddr(ConfigurationRegister)] + WireBytes(value) == [0x00, value / 256, value % 256];
  }
}
