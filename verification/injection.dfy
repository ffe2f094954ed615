/** The vocabulary this module shares with the injector it configures: class
    names, injection keys, object references and the registrations that
    `configure` records. The injector itself is not modelled; a registration
    is plain data. */
module Injection {
  import opened Wrappers

  /** A class or interface object. Class objects are compared by identity, so
      a class is modelled by a number that identifies it. */
  type ClassName = nat

  /** The type a key stands for: either a plain class or interface (a `Class`
      object), or some other reflective type such as a parameterized type. */
  datatype TypeLiteral = PlainClass(cls: ClassName) | OtherType(id: nat)

  /** An injection key: a type plus an optional binding-annotation type. */
  datatype Key = Key(typeLiteral: TypeLiteral, annotation: Option<ClassName>)

  /** The key of a class with no annotation, as `Key.get(cls)` builds it. */
  function ClassKey(cls: ClassName): Key
  {
    Key(PlainClass(cls), None)
  }

  /** An object reference. `Null` is Java's null; objects are told apart by identity. */
  datatype Value = Null | Ref(id: nat)

  /** One entry recorded on the injector's binder. */
  datatype Registration =
    | /** `bind(key).to(implementor).asEagerSingleton()` */
      EagerSingleton(key: Key, implementor: ClassName)
    | /** `bind(key).toInstance(instance)` */
      ToInstance(key: Key, instance: Value)

  /** What Java reflection answers about classes: the interfaces each class
      declares directly, in declaration order (none for a class missing from
      the map), and the interfaces that carry the `@BindInstance` marker. */
  datatype Reflection = Reflection(declared: map<ClassName, seq<ClassName>>, marked: set<ClassName>)
  {
    /** `cls.getInterfaces()` */
    function Interfaces(cls: ClassName): seq<ClassName>
    {
      if cls in declared then declared[cls] else []
    }
  }
}
