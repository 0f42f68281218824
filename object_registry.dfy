/**
 * object_registry: factories stored by category. Two maps, one keyed by
 * the factory's type id and one by the built object's type id, each from
 * a category number to a map from type ids to factories. A lookup tries
 * the id's own category, then the current category, then the default one.
 *
 * Type ids here carry a category number next to their type number; the
 * inner maps are keyed by the type number (std::map's ordering of
 * object_id values is not modelled). object_category::default_id() is not
 * part of this model: the default category is a constructor parameter.
 */
module ObjectRegistry {
  import opened Bytes
  import opened Wrappers
  import opened Factories

  datatype TypeId = TypeId(id: uint16, category: uint32)

  type CategoryMap = map<uint32, map<uint16, Factory>>

  /** Every (category, type number) pair a category map holds a factory for. */
  function Registered(m: CategoryMap): set<(uint32, uint16)>
  {
    set c, t | c in m && t in m[c] :: (c, t)
  }

  /** has_in_category(map, id, category): the category is present and holds the id. */
  predicate HasInCategory(m: CategoryMap, id: TypeId, category: uint32)
    ensures HasInCategory(m, id, category) <==> (category, id.id) in Registered(m)
  {
    category in m && id.id in m[category]
  }

  /**
   * find_factory(map, id) with the given current and default categories:
   * the id's own category first, then the current one, then the default.
   */
  function FindFactory(m: CategoryMap, id: TypeId, current: uint32, default: uint32): (r: Option<Factory>)
    ensures r == None <==>
      !HasInCategory(m, id, id.category) && !HasInCategory(m, id, current) && !HasInCategory(m, id, default)
    ensures r != None ==> exists c :: HasInCategory(m, id, c) && r == Some(m[c][id.id])
  {
    if HasInCategory(m, id, id.category) then Some(m[id.category][id.id])
    else if HasInCategory(m, id, current) then Some(m[current][id.id])
    else if HasInCategory(m, id, default) then Some(m[default][id.id])
    else None
  }

  /** An id registered in its own category is found there whatever the current category is. */
  lemma OwnCategoryFirst(m: CategoryMap, id: TypeId, current1: uint32, current2: uint32, default: uint32)
    requires HasInCategory(m, id, id.category)
    ensures FindFactory(m, id, current1, default) == FindFactory(m, id, current2, default)
    ensures FindFactory(m, id, current1, default) == Some(m[id.category][id.id])
  {
  }

  /**
   * An id absent from its own category is found in the current category
   * before the default one, and in the default one only as a last resort.
   */
  lemma CurrentBeforeDefault(m: CategoryMap, id: TypeId, current: uint32, default: uint32)
    requires !HasInCategory(m, id, id.category)
    ensures HasInCategory(m, id, current) ==> FindFactory(m, id, current, default) == Some(m[current][id.id])
    ensures !HasInCategory(m, id, current) && HasInCategory(m, id, default) ==>
      FindFactory(m, id, current, default) == Some(m[default][id.id])
  {
  }

  /** The inner map of a category, as operator[] creates it when missing. */
  function CategoryOf(m: CategoryMap, category: uint32): (r: map<uint16, Factory>)
    ensures category in m ==> r == m[category]
    ensures category !in m ==> r == map[]
  {
    if category in m then m[category] else map[]
  }

  class ObjectRegistry {
    const defaultCategory: uint32
    var currentCategory: uint32
    var byObject: CategoryMap
    var byFactory: CategoryMap

    /** object_registry(): no factories, the default category current. */
    constructor(defaultCategory: uint32)
      ensures this.defaultCategory == defaultCategory && currentCategory == defaultCategory
      ensures byObject == map[] && byFactory == map[]
    {
      this.defaultCategory := defaultCategory;
      currentCategory := defaultCategory;
      byObject := map[];
      byFactory := map[];
    }

    method SetCategory(category: uint32)
      modifies this
      ensures currentCategory == category
      ensures byObject == old(byObject) && byFactory == old(byFactory)
    {
      currentCategory := category;
    }

    /** get_category(): the last category set, or the default one. */
    function GetCategory(): (r: uint32)
      reads this
      ensures r == currentCategory
    {
      currentCategory
    }

    function Find(m: CategoryMap, id: TypeId): (r: Option<Factory>)
      reads this
    {
      FindFactory(m, id, currentCategory, defaultCategory)
    }

    /**
     * set_factory<Factory, Object>(): both ids in one category, neither yet
     * registered there; one new factory goes under both ids in that category.
     */
    method SetFactory(factoryId: TypeId, objectId: TypeId, setting: int)
      requires factoryId.category == objectId.category
      requires !HasInCategory(byFactory, factoryId, factoryId.category)
      requires !HasInCategory(byObject, objectId, objectId.category)
      modifies this
      ensures currentCategory == old(currentCategory)
      ensures var c := factoryId.category;
        && c in byFactory && factoryId.id in byFactory[c]
        && byFactory == old(byFactory)[c := CategoryOf(old(byFactory), c)[factoryId.id := byFactory[c][factoryId.id]]]
        && byObject == old(byObject)[c := CategoryOf(old(byObject), c)[objectId.id := byFactory[c][factoryId.id]]]
        && fresh(byFactory[c][factoryId.id])
      ensures Find(byFactory, factoryId) != None && Find(byFactory, factoryId) == Find(byObject, objectId)
    {
      var factory := new Factory(objectId.id, setting);
      var c := factoryId.category;
      byFactory := byFactory[c := CategoryOf(byFactory, c)[factoryId.id := factory]];
      byObject := byObject[c := CategoryOf(byObject, c)[objectId.id := factory]];
    }

    /** get_factory<F>(): the registered instance itself; it must be found. */
    method GetFactory(factoryId: TypeId) returns (f: Factory)
      requires Find(byFactory, factoryId) != None
      ensures Find(byFactory, factoryId) == Some(f)
    {
      f := Find(byFactory, factoryId).value;
    }

    /** create<O>(): build with the factory found for the object id; it must be found. */
    method Create(objectId: TypeId) returns (o: Built)
      requires Find(byObject, objectId) != None
      ensures var f := Find(byObject, objectId).value;
        o.objectType == f.objectType && o.setting == f.setting
    {
      var f := Find(byObject, objectId).value;
      o := f.Build();
    }
  }

  /**
   * The instance get_factory returns is the one create builds with: a
   * setting changed on it shows in the next object created.
   */
  method TuneThenCreate(registry: ObjectRegistry, factoryId: TypeId, objectId: TypeId, setting: int)
    returns (o: Built)
    requires registry.Find(registry.byFactory, factoryId) != None
    requires registry.Find(registry.byFactory, factoryId) == registry.Find(registry.byObject, objectId)
    modifies registry.Find(registry.byFactory, factoryId).value
    ensures o.setting == setting
  {
    var f := registry.GetFactory(factoryId);
    f.SetSetting(setting);
    o := registry.Create(objectId);
  }
}
