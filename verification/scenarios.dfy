/** The repository's two test cases, and one case the tests leave open,
    stated over the model. Classes are numbered; each fixture is a function
    without arguments rather than a `const`, because the verifier unfolds such
    a function to its literal, which keeps the worked examples cheap to prove. */
module Scenarios {
  import opened Wrappers
  import opened Injection
  import opened Bindings
  import opened SimpleModule

  function Something(): ClassName { 0 }
  function Iface1(): ClassName { 1 }
  function Iface2(): ClassName { 2 }
  function Iface3(): ClassName { 3 }
  function Iface4(): ClassName { 4 }

  /** `Something` implements `Iface1`..`Iface4`; all but `Iface2` carry `@BindInstance`. */
  function ParentInterfaces(): Reflection
  {
    Reflection(map[Something() := [Iface1(), Iface2(), Iface3(), Iface4()]], {Iface1(), Iface3(), Iface4()})
  }

  /** `module(instance(Something.class, something1), instance(Iface3.class, something2))`. */
  function ParentInterfaceModule(): Module
  {
    NewModule([Instance(Something(), None, Ref(1)), Instance(Iface3(), None, Ref(2))])
  }

  /** Only `Something` and `Iface3` are explicitly bound. */
  lemma ParentInterfaceKeys()
    ensures ParentInterfaceModule().bindingKeys == {ClassKey(Something()), ClassKey(Iface3())}
  {
  }

  /** `Something`'s marked interfaces other than the explicitly bound `Iface3`
      are auto-bound to `something1`, in declaration order. */
  lemma SomethingAutoBindings()
    ensures AutoBindings([Iface1(), Iface2(), Iface3(), Iface4()], Ref(1), {ClassKey(Something()), ClassKey(Iface3())}, {Iface1(), Iface3(), Iface4()})
         == [ToInstance(ClassKey(Iface1()), Ref(1)), ToInstance(ClassKey(Iface4()), Ref(1))]
  {
  }

  /** Binding `something1` registers `Something`, then `Iface1` and `Iface4`. */
  lemma SomethingRegistrations()
    ensures BindOne(Instance(Something(), None, Ref(1)), Ref(1), {ClassKey(Something()), ClassKey(Iface3())}, ParentInterfaces())
         == [ToInstance(ClassKey(Something()), Ref(1)), ToInstance(ClassKey(Iface1()), Ref(1)), ToInstance(ClassKey(Iface4()), Ref(1))]
  {
    SomethingAutoBindings();
  }

  /** Binding `something2` registers `Iface3` only: an interface declares no
      interfaces of its own here. */
  lemma Iface3Registrations()
    ensures BindOne(Instance(Iface3(), None, Ref(2)), Ref(2), {ClassKey(Something()), ClassKey(Iface3())}, ParentInterfaces())
         == [ToInstance(ClassKey(Iface3()), Ref(2))]
  {
  }

  /** The registrations of that module once `getInstance` has produced
      `something1` and `something2`. */
  lemma ParentInterfacePlan()
    ensures Plan(ParentInterfaceModule().bindings, [Ref(1), Ref(2)], ParentInterfaceModule().bindingKeys, ParentInterfaces()) == [
              ToInstance(ClassKey(Something()), Ref(1)),
              ToInstance(ClassKey(Iface1()), Ref(1)),
              ToInstance(ClassKey(Iface4()), Ref(1)),
              ToInstance(ClassKey(Iface3()), Ref(2))]
  {
    ParentInterfaceKeys();
    SomethingRegistrations();
    Iface3Registrations();
  }

  /** Whatever the callables would do, `configure` resolves the two bindings
      of that module to `something1` and `something2` and leaves both cells
      holding them. */
  lemma ParentInterfaceInstances(first: CallResult, second: CallResult)
    ensures Resolve(ParentInterfaceModule().bindings[0], first).result == Success(Ref(1))
    ensures Resolve(ParentInterfaceModule().bindings[1], second).result == Success(Ref(2))
    ensures Resolve(ParentInterfaceModule().bindings[0], first).binding.cached == Ref(1)
    ensures Resolve(ParentInterfaceModule().bindings[1], second).binding.cached == Ref(2)
  {
  }

  function List(): ClassName { 10 }
  function ArrayList(): ClassName { 11 }
  function Integer(): ClassName { 12 }
  function Long(): ClassName { 13 }
  function Comparable(): ClassName { 14 }

  /** `Integer` and `Long` implement `Comparable`, which is not marked. */
  function Boxes(): Reflection
  {
    Reflection(map[Integer() := [Comparable()], Long() := [Comparable()]], {})
  }

  /** The explicit keys of the module below. */
  lemma SimpleModuleKeys()
    ensures NewModule([BindTo(List(), None, ArrayList()), Instance(Integer(), None, Ref(7)), Instance(Long(), None, Ref(4711))]).bindingKeys
         == {ClassKey(List()), ClassKey(Integer()), ClassKey(Long())}
  {
    var bs := [BindTo(List(), None, ArrayList()), Instance(Integer(), None, Ref(7)), Instance(Long(), None, Ref(4711))];
    assert bs[..2][..1] == bs[..1] && bs[..1][..0] == [];
    assert Keys(bs[..1]) == {ClassKey(List())};
    assert Keys(bs[..2]) == {ClassKey(List()), ClassKey(Integer())};
  }

  /** `module(binding(List.class, ArrayList.class), instance(Integer.class, 7), instance(Long.class, 4711L))`:
      `List` is linked to `ArrayList` as an eager singleton, `Integer` and
      `Long` to their values, and nothing else is registered. */
  lemma SimpleModulePlan()
    ensures Plan(
              [BindTo(List(), None, ArrayList()), Instance(Integer(), None, Ref(7)), Instance(Long(), None, Ref(4711))],
              [Null, Ref(7), Ref(4711)],
              {ClassKey(List()), ClassKey(Integer()), ClassKey(Long())},
              Boxes())
         == [EagerSingleton(ClassKey(List()), ArrayList()), ToInstance(ClassKey(Integer()), Ref(7)), ToInstance(ClassKey(Long()), Ref(4711))]
  {
    assert AutoBindings([Comparable()], Ref(7), {ClassKey(List()), ClassKey(Integer()), ClassKey(Long())}, {}) == [];
    assert AutoBindings([Comparable()], Ref(4711), {ClassKey(List()), ClassKey(Integer()), ClassKey(Long())}, {}) == [];
  }

  function First(): ClassName { 20 }
  function Second(): ClassName { 21 }
  function Shared(): ClassName { 22 }

  /** Auto-bindings are checked against explicit keys only, not against each
      other: two instance bindings whose classes both implement the marked
      `Shared` both register `Shared`, each to its own instance. */
  lemma SharedInterfaceBoundTwice()
    ensures Plan(
              [Instance(First(), None, Ref(1)), Instance(Second(), None, Ref(2))],
              [Ref(1), Ref(2)],
              {ClassKey(First()), ClassKey(Second())},
              Reflection(map[First() := [Shared()], Second() := [Shared()]], {Shared()}))
         == [ToInstance(ClassKey(First()), Ref(1)), ToInstance(ClassKey(Shared()), Ref(1)),
             ToInstance(ClassKey(Second()), Ref(2)), ToInstance(ClassKey(Shared()), Ref(2))]
  {
  }

  /** A `provide(...)` binding whose callable first throws, then returns
      null, then returns an object: the failure and the null are not cached,
      the object is, and the callable is not called a fourth time. */
  lemma ProvideRetries()
    ensures Run(Provide(Something(), None, Some(Callable(0))),
                [Threw("boom"), Returned(Null), Returned(Ref(5)), Returned(Ref(6))])
         == [Got(Failure(CouldNotInstantiate(ClassKey(Something()), SupplierThrew("boom"))),
                 Provide(Something(), None, Some(Callable(0))), true),
             Got(Success(Null), Provide(Something(), None, Some(Callable(0))), true),
             Got(Success(Ref(5)), Provide(Something(), None, Some(Callable(0))).(cached := Ref(5)), true),
             Got(Success(Ref(5)), Provide(Something(), None, Some(Callable(0))).(cached := Ref(5)), false)]
  {
  }
}
