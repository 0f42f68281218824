/**
 * The factories the registries hand out. A registered factory is a shared
 * instance: the registries store a reference to it, get_factory returns
 * that same reference, and create builds with it, so a setting changed on
 * the instance returned by get_factory shows in every later creation. The
 * user's factory is not part of this model beyond that: its settings are
 * one value, and build() makes an object of the factory's type carrying it.
 */
module Factories {
  import opened Bytes

  /** An object made by a factory: the number of its type and the setting it was built with. */
  datatype Built = Built(objectType: uint16, setting: int)

  class Factory {
    /** The number of the type the factory builds. */
    const objectType: uint16
    var setting: int

    /** A newly made factory (make_shared<Factory>()) with its default setting. */
    constructor(objectType: uint16, setting: int)
      ensures this.objectType == objectType && this.setting == setting
    {
      this.objectType := objectType;
      this.setting := setting;
    }

    /** A factory's own setter, as the tests use to change what later objects get. */
    method SetSetting(setting: int)
      modifies this
      ensures this.setting == setting
    {
      this.setting := setting;
    }

    /** build(): an object of the factory's type with the current setting. */
    method Build() returns (o: Built)
      ensures o.objectType == objectType && o.setting == setting
    {
      o := Built(objectType, setting);
    }
  }
}
