# guice-sugar `SimpleModule`, modelled in Dafny

`SimpleModule` is a Guice module built from a short list of declared
bindings. There are three kinds:

- `binding(cls, impl)` links a key to an implementor class as an eager singleton;
- `instance(cls, value)` binds a key to a fixed object;
- `provide(cls, callable)` binds a key to the object a callable produces.

The object of an instance or provider binding comes from
`Binding.getInstance`, a memo cell that calls the supplier until it yields a
non-null object and keeps that object afterwards. When that object is bound
under a key whose type is a plain class, each interface the class declares
directly is bound to the same object too, provided the interface carries
`@BindInstance` and its plain key is not itself declared by some binding of
the module.

The model is a set of pure functions over immutable datatypes:

- `wrappers.dfy`: `Option` and `Result`, standing for Java's null and for exceptions.
- `injection.dfy`: what the module shares with the injector. This is keys
  (type plus optional annotation), object references with `Null`, and the two
  kinds of registration: `bind(key).to(impl).asEagerSingleton()` and
  `bind(key).toInstance(obj)`. It also holds the reflection oracle: the direct
  interfaces of each class, in declaration order, and the set of interfaces
  marked `@BindInstance`.
- `bindings.dfy`: the `Binding` record with its cache cell, the six factories
  (each annotated/unannotated pair is one function with an optional
  annotation), and `getInstance` as one step of a state machine. A callable's
  behaviour on a call is an input (`Returned(v)` or `Threw(e)`).
- `simple_module.dfy`: the constructor's key set, the private `bind`, and
  `configure`. `Plan` is the registration sequence once every binding is
  resolved. `Configure` walks the list as `configure()` does and stops at the
  first `getInstance` failure.
- `scenarios.dfy`: the repository's two tests, a shared-interface case and a
  memo-cell trace, each computed exactly.

## Model

| member | source | states |
|---|---|---|
| SimpleModule.Keys | src/main/java/com/simplaex/sugar/guice/SimpleModule.java:38 | a key is explicit exactly when some binding of the list carries it; duplicates collapse, so there are at most as many keys as bindings |
| SimpleModule.NewModule | src/main/java/com/simplaex/sugar/guice/SimpleModule.java:36-39 | the module keeps the bindings in the given order, and its key set is exactly the keys they carry |
| SimpleModule.KeysIgnoreOrder | src/main/java/com/simplaex/sugar/guice/SimpleModule.java:38 | any reordering of the bindings (same multiset) has the same explicit-key set, so suppression cannot depend on the order either |
| Bindings.BindTo | src/main/java/com/simplaex/sugar/guice/SimpleModule.java:65-80 | `binding(...)` builds an implementor binding under `Key.get(cls[, annotation])` with no supplier and an empty cell |
| Bindings.Instance | src/main/java/com/simplaex/sugar/guice/SimpleModule.java:82-97 | `instance(...)` builds a supplier binding with no implementor whose supplier returns the given value on every call, however it is called |
| Bindings.Provide | src/main/java/com/simplaex/sugar/guice/SimpleModule.java:99-114 | `provide(...)` builds a supplier binding with no implementor that keeps the given callable, null included |
| Bindings.GetInstance | src/main/java/com/simplaex/sugar/guice/SimpleModule.java:49-62 | a cached object is returned without calling the supplier. On an empty cell the supplier is called exactly when there is one. A success leaves the returned value in the cell, so a null result leaves it empty. A failure names the key and leaves the binding as it was: a missing supplier fails with cause `NoSupplier`, a throwing supplier fails with its exception as the cause |
| Bindings.CachedIsStable | src/main/java/com/simplaex/sugar/guice/SimpleModule.java:49-62 | once the cell holds an object, every later call returns it, never calls the supplier and changes nothing |
| Bindings.HandedOutOnce | src/main/java/com/simplaex/sugar/guice/SimpleModule.java:49-62 | after any call hands out a non-null object, no later call calls the supplier, and every later call returns that same object |
| Bindings.SameInstance | src/main/java/com/simplaex/sugar/guice/SimpleModule.java:49-62 | over any sequence of calls, all non-null objects handed out are the same object |
| Bindings.NullIsNotCached | src/main/java/com/simplaex/sugar/guice/SimpleModule.java:52-58 | when the supplier returns null, the next call calls the supplier again |
| Bindings.InstanceSuppliedOnce | src/main/java/com/simplaex/sugar/guice/SimpleModule.java:83-97 | a fresh `instance(...)` binding of a non-null value calls its supplier on the first call only, and every call returns that value |
| SimpleModule.AutoBindings | src/main/java/com/simplaex/sugar/guice/SimpleModule.java:127-137 | an interface list yields at most one auto-binding per listed interface |
| SimpleModule.AutoBindingsMembers | src/main/java/com/simplaex/sugar/guice/SimpleModule.java:129-134 | every auto-binding maps the unannotated key of a listed, marked, non-explicit interface to the bound instance; conversely, every such interface gets one |
| SimpleModule.AutoBindingsAppend | src/main/java/com/simplaex/sugar/guice/SimpleModule.java:129-136 | auto-bindings follow the order of the direct-interface list |
| SimpleModule.BindOne | src/main/java/com/simplaex/sugar/guice/SimpleModule.java:117-145 | a binding's first registration is its own: key to implementor as an eager singleton, or key to instance. An implementor binding, or a key whose type is not a plain class, makes no other |
| SimpleModule.ImplementorBindingRegistersOnce | src/main/java/com/simplaex/sugar/guice/SimpleModule.java:142-144 | a `binding(...)` binding registers exactly its key linked to the implementor as an eager singleton, and never an auto-binding, whatever the instance, explicit keys or interfaces |
| SimpleModule.BindOneAutoBindings | src/main/java/com/simplaex/sugar/guice/SimpleModule.java:118-138 | the registrations after the first are auto-bindings of this binding to the same instance. For a supplier binding of a plain class, they are the auto-bindings of its direct interfaces in declaration order, and an interface is auto-bound exactly when it is directly implemented, marked and not explicit |
| SimpleModule.Plan | src/main/java/com/simplaex/sugar/guice/SimpleModule.java:148-150 | configuring resolved bindings yields at least one registration per binding |
| SimpleModule.PlanAppend | src/main/java/com/simplaex/sugar/guice/SimpleModule.java:148-150 | registrations follow the order of the bindings list: the plan of a concatenation is the concatenation of the plans |
| SimpleModule.PlanRegistrations | src/main/java/com/simplaex/sugar/guice/SimpleModule.java:117-150 | the registrations are exactly each binding's own registration plus the auto-bindings that binding may add; no other registration appears and none of those is missing |
| SimpleModule.ExplicitKeysAreNeverAutoBound | src/main/java/com/simplaex/sugar/guice/SimpleModule.java:125-134 | for any set of explicit keys, every registration under one of them is the own registration of a binding with that key, wherever that binding stands in the list |
| SimpleModule.ExplicitKeysOfPrefix | src/main/java/com/simplaex/sugar/guice/SimpleModule.java:125-134 | the same for the registrations of the first n bindings, as `configure` leaves them when it stops early |
| SimpleModule.Resolve | src/main/java/com/simplaex/sugar/guice/SimpleModule.java:118-120 | an implementor binding is not resolved through `getInstance`: no supplier call and the cell untouched; a supplier binding is resolved by exactly one `getInstance` call |
| SimpleModule.Configure | src/main/java/com/simplaex/sugar/guice/SimpleModule.java:147-150 | bindings are processed in order, each resolved once. A successful walk resolves all of them; a failed one stops at the first `getInstance` error, with later cells untouched. The registrations are the plan of the processed prefix |
| Scenarios.ParentInterfaceKeys | src/test/java/com/simplaex/sugar/guice/BindInstanceParentInterfaceTest.java:41-44 | the test module's explicit keys are those of `Something` and `Iface3` |
| Scenarios.SomethingAutoBindings | src/test/java/com/simplaex/sugar/guice/BindInstanceParentInterfaceTest.java:14-35 | of `Something`'s interfaces, `Iface1` and `Iface4` are auto-bound, in that order; unmarked `Iface2` and explicit `Iface3` are not |
| Scenarios.SomethingRegistrations | src/test/java/com/simplaex/sugar/guice/BindInstanceParentInterfaceTest.java:42 | binding `something1` registers `Something`, `Iface1` and `Iface4`, all to `something1` |
| Scenarios.Iface3Registrations | src/test/java/com/simplaex/sugar/guice/BindInstanceParentInterfaceTest.java:43 | binding `something2` registers only `Iface3` |
| Scenarios.ParentInterfacePlan | src/test/java/com/simplaex/sugar/guice/BindInstanceParentInterfaceTest.java:38-49 | the test module registers `Iface1` and `Iface4` to `something1` and `Iface3` to `something2`; `Iface2` is left unbound |
| Scenarios.ParentInterfaceInstances | src/test/java/com/simplaex/sugar/guice/BindInstanceParentInterfaceTest.java:39-43 | both instance bindings of the test resolve to their objects whatever the input, and cache them |
| Scenarios.SimpleModuleKeys | src/test/java/com/simplaex/sugar/guice/SimpleModuleTest.java:17-21 | the test module's explicit keys are `List`, `Integer` and `Long` |
| Scenarios.SimpleModulePlan | src/test/java/com/simplaex/sugar/guice/SimpleModuleTest.java:15-41 | `List` is linked to `ArrayList` as an eager singleton, `Integer` and `Long` are bound to their values, and nothing else is registered |
| Scenarios.SharedInterfaceBoundTwice | src/main/java/com/simplaex/sugar/guice/SimpleModule.java:129-134 | two instance bindings whose classes share a marked interface both register it, each to its own instance, because auto-bindings are not checked against each other |
| Scenarios.ProvideRetries | src/main/java/com/simplaex/sugar/guice/SimpleModule.java:49-62 | a provider that throws, then returns null, then returns an object: the error and the null are not cached, the object is, and a fourth call does not reach the provider |

## Left out

- Guice itself: the binder, `to(...).asEagerSingleton()`, `toInstance`,
  injector creation and `Key` equality. Registrations are plain data, and
  keys compare structurally. Guice rejects `toInstance(null)` and duplicate
  bindings when the injector is created; the model still emits those
  registrations and does not model that rejection.
- Java reflection (`getInterfaces`, `isAnnotationPresent`, the
  `instanceof Class` test) becomes the `Reflection` oracle and the
  `TypeLiteral` variant. The `interfaces != null` guard is absent because an
  interface list is never null.
- The `synchronized` block and `AtomicReference` in `getInstance`: the cell is
  modelled sequentially, and atomicity is the JVM's guarantee.
- Exception wrapping: `getInstance`'s `RuntimeException("Could not
  instantiate " + key)`, and `bind`'s second wrapping of it, are one `Error`
  value carrying the key and the cause.
- Configure: each list position has its own cell. A `Binding` object passed
  twice to the constructor shares one cell in Java; the model does not capture
  that sharing.
- Configure: the callables' behaviour is an input function from list position
  to call outcome. A callable with internal state is therefore modelled only
  through the answer it gives on the one call it receives.
- Guice's `Key.get` maps a primitive class to its wrapper (`int` and
  `Integer` give equal keys) and treats an array class as a non-`Class`
  type. The model's factories always build `PlainClass(cls)`, so these
  classes do not get Guice's key.
- A null element among the constructor's arguments makes `SimpleModule.java:38`
  throw a NullPointerException; the model's binding list cannot hold null.
- A supplier that throws an `Error` rather than an `Exception` escapes both
  catch clauses unwrapped. The model has a single `Threw` outcome, which is
  always wrapped.
- Configure accepts any `Module` value. The constructor always sets
  `bindingKeys` to `Keys(bindings)`; the model does not require this of
  Configure's argument. The explicit-key lemmas hold for any key set, so
  nothing depends on it.
- Lombok's generated accessors, `equals` and `hashCode`, and the
  anonymous-subclass `module(...)` helper are boilerplate and not modelled.
