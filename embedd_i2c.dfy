/** The tag-checked I2C configuration accessors of embedd_i2c.c. */
module EmbeddI2c {
  import opened EmbeddError
  import opened EmbeddHal
  import opened EmbeddDevice

  /**
   * embedd_i2c_get_dev_config: the device's I2C parameters, or NULL when
   * there is no device, no configuration, or the configuration is tagged
   * for another bus type — a payload is never handed out under the wrong tag.
   */
  function GetDevConfig(dev: Device?): (cfg: Option<I2cDevCfg>)
    reads dev
    ensures dev == null ==> cfg == None
    ensures dev != null && dev.config.None? ==> cfg == None
    ensures dev != null && dev.config.Some? && dev.config.value.busCfg.busType != BusTypeI2c ==> cfg == None
    ensures dev != null && dev.config.Some? && dev.config.value.busCfg.busType == BusTypeI2c ==>
              cfg == dev.config.value.busCfg.configs
  {
    if dev != null && dev.config.Some? && dev.config.value.busCfg.busType == BusTypeI2c then
      dev.config.value.busCfg.configs
    else
      None
  }

  /** The one object embedd_i2c_set_dev_config may change: the device's current I2C configuration. */
  function CurrentCfg(dev: Device?): set<object>
    reads dev
  {
    match GetDevConfig(dev)
    case Some(cfg) => {cfg}
    case None => {}
  }

  /**
   * embedd_i2c_set_dev_config: copies the address of `config` into the
   * device's existing I2C configuration. It fails, changing nothing, when
   * `config` is NULL or the device has no I2C configuration. The address is
   * not range-checked.
   */
  method SetDevConfig(dev: Device?, config: I2cDevCfg?) returns (result: Status)
    modifies CurrentCfg(dev)
    ensures result == Ok <==> config != null && GetDevConfig(dev).Some?
    ensures GetDevConfig(dev) == old(GetDevConfig(dev))
    ensures result == Ok ==> GetDevConfig(dev).value.addr == old(config.addr)
    ensures result == Err ==> GetDevConfig(dev).Some? ==> GetDevConfig(dev).value.addr == old(GetDevConfig(dev).value.addr)
    ensures dev != null ==> unchanged(dev)
  {
    if config != null {
      var current := GetDevConfig(dev);
      if current.Some? {
        current.value.addr := config.addr;
        return Ok;
      }
    }
    return Err;
  }
}
