/** The factory: a map from a type id to a constructor of blank objects of that type. */
module Registry {
  import opened Objects

  /** The type id of each concrete class. The original derives it from the
      runtime type hash. Here each class gets a fixed, distinct number. */
  function TypeId(k: Kind): nat
  {
    match k
    case Red => 1
    case Blue => 2
  }

  /** Distinct classes have distinct ids, so a registry built from one
      registration per class has no duplicate keys. */
  lemma TypeIdInjective(a: Kind, b: Kind)
    ensures TypeId(a) == TypeId(b) <==> a == b
  {
  }

  class Factory {
    /** For each registered id, the class its constructor builds. */
    var entries: map<nat, Kind>

    /** Every entry sits under the id of the class it builds. */
    ghost predicate Valid()
      reads this
    {
      forall id :: id in entries ==> TypeId(entries[id]) == id
    }

    constructor ()
      ensures Valid() && entries == map[]
    {
      entries := map[];
    }

    /** Registers class `k`. Registering a class twice is a programming error. */
    method Regist(k: Kind)
      requires Valid()
      requires TypeId(k) !in entries
      modifies this
      ensures Valid()
      ensures TypeId(k) in entries && entries[TypeId(k)] == k
      ensures entries.Keys == old(entries).Keys + {TypeId(k)}
      ensures forall id :: id in old(entries) ==> entries[id] == old(entries)[id]
    {
      entries := entries[TypeId(k) := k];
    }

    /** Builds a blank object of class `k`, which must be registered. */
    method CreateOf(k: Kind, center: Vec2, velocity: Vec2) returns (o: Effect)
      requires Valid()
      requires TypeId(k) in entries
      ensures fresh(o)
      ensures o.State() == Record(TypeId(k), k, center, velocity, InitialLife)
    {
      o := Create(TypeId(k), center, velocity);
    }

    /** Builds a blank object of the class registered under `id`, which must be
        registered. The object is tagged with the id of its entry. */
    method Create(id: nat, center: Vec2, velocity: Vec2) returns (o: Effect)
      requires id in entries
      ensures fresh(o)
      ensures o.State() == Record(id, entries[id], center, velocity, InitialLife)
    {
      o := new Effect(id, entries[id], center, velocity);
    }
  }

  /** The start of the program: register `EffectRed`, then `EffectBlue`. */
  method RegisterEffects() returns (f: Factory)
    ensures fresh(f) && f.Valid()
    ensures f.entries == map[TypeId(Red) := Red, TypeId(Blue) := Blue]
  {
    f := new Factory();
    f.Regist(Red);
    TypeIdInjective(Red, Blue);
    f.Regist(Blue);
  }
}
