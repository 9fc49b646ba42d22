/**
 * The device object (embedd_device.h) and the configuration blocks it
 * points to (embedd_hal.h, embedd_i2c.h). The `void *` fields are typed:
 * `data` holds the INA219 scratch block, `configs` the I2C parameters,
 * `api` the INA219 API table; `fsms` and `event` stay opaque.
 */
module EmbeddDevice {
  import opened EmbeddError
  import opened EmbeddUtils
  import opened EmbeddHal
  import opened Ina219DataTypes

  /** embedd_i2c_dev_cfg_t: the device's address on the I2C bus, updated in place. */
  class I2cDevCfg {
    var addr: Uint16

    constructor (addr: Uint16)
      ensures this.addr == addr
    {
      this.addr := addr;
    }
  }

  /** embedd_bus_dev_cfg_t: a bus-type tag and the bus-specific parameters it points to. */
  datatype BusDevCfg = BusDevCfg(busType: Uint16, configs: Option<I2cDevCfg>)

  /** embedd_dev_cfg_t. */
  datatype DevCfg = DevCfg(busCfg: BusDevCfg)

  /** embedd_device_t. */
  class Device {
    var name: string
    var config: Option<DevCfg>
    var api: Option<Api>
    var fsms: Option<object>
    var data: Option<Ina219Data>
    var event: Option<object>
    var bus: Option<Bus>

    /** A scratch block, when there is one, has its declared shape. */
    ghost predicate Valid()
      reads this
    {
      data.Some? ==> data.value.Valid()
    }

    /** EMBEDD_DEVICE_DEFINE_FULL: every field as given. */
    constructor DefineFull(name: string, config: Option<DevCfg>, api: Option<Api>, fsms: Option<object>,
                           data: Option<Ina219Data>, event: Option<object>, bus: Option<Bus>)
      ensures this.name == name && this.config == config && this.api == api && this.fsms == fsms
      ensures this.data == data && this.event == event && this.bus == bus
    {
      this.name := name;
      this.config := config;
      this.api := api;
      this.fsms := fsms;
      this.data := data;
      this.event := event;
      this.bus := bus;
    }
  }
}
