/**
 * factory_registry: the simpler registry, without categories. One map goes
 * from an object type's number to the factory building it, the other
 * (the reverse lookup) from the factory type's number to the same factory.
 * The real_factory wrapper only forwards build() to the user's factory, so
 * the wrapper and the factory are one Factory here. The logging to
 * std::cout is left out.
 */
module ObjectFactory {
  import opened Bytes
  import opened Factories

  class FactoryRegistry {
    var lookup: map<uint16, Factory>
    var reverseLookup: map<uint16, Factory>

    constructor()
      ensures lookup == map[] && reverseLookup == map[]
    {
      lookup := map[];
      reverseLookup := map[];
    }

    /**
     * set_factory<Factory>(): the object type's number may be in neither map
     * (the second assertion checks the reverse map for the object type's
     * number too); one new factory goes under the object type's number and
     * under the factory type's number.
     */
    method SetFactory(factoryType: uint16, objectType: uint16, setting: int)
      requires objectType !in lookup && objectType !in reverseLookup
      modifies this
      ensures objectType in lookup && fresh(lookup[objectType])
      ensures lookup == old(lookup)[objectType := lookup[objectType]]
      ensures reverseLookup == old(reverseLookup)[factoryType := lookup[objectType]]
      ensures lookup[objectType].objectType == objectType && lookup[objectType].setting == setting
    {
      var factory := new Factory(objectType, setting);
      lookup := lookup[objectType := factory];
      reverseLookup := reverseLookup[factoryType := factory];
    }

    /** get_factory<Factory>(): the factory type's number must be registered. */
    method GetFactory(factoryType: uint16) returns (f: Factory)
      requires factoryType in reverseLookup
      ensures f == reverseLookup[factoryType]
    {
      f := reverseLookup[factoryType];
    }

    /** create<Object>(): the object type's number must be registered; build with its factory. */
    method Create(objectType: uint16) returns (o: Built)
      requires objectType in lookup
      ensures o.objectType == lookup[objectType].objectType
      ensures o.setting == lookup[objectType].setting
    {
      o := lookup[objectType].Build();
    }
  }

  /**
   * After set_factory, get_factory by the factory's number and create by the
   * object's number use the same instance: create builds an object of the
   * registered type with whatever setting that instance now has.
   */
  method RegisterTuneCreate(registry: FactoryRegistry, factoryType: uint16, objectType: uint16, setting: int)
    returns (o: Built)
    requires objectType !in registry.lookup && objectType !in registry.reverseLookup
    modifies registry
    ensures o.objectType == objectType && o.setting == setting
  {
    registry.SetFactory(factoryType, objectType, 0);
    var f := registry.GetFactory(factoryType);
    f.SetSetting(setting);
    o := registry.Create(objectType);
  }
}
