/** A declared binding, the factories that build one, and the memo cell
    behind `Binding.getInstance`. */
module Bindings {
  import opened Wrappers
  import opened Injection

  /** The `Callable` a supplier binding draws its instance from. `instance(...)`
      wraps a fixed value; `provide(...)` takes an arbitrary callable, whose
      behaviour on each call is not known in advance. */
  datatype Supplier = Constant(value: Value) | Callable(id: nat)

  /** What one invocation of a supplier does. */
  datatype CallResult = Returned(value: Value) | Threw(exception: string)

  /** Why `getInstance` could not produce an instance. */
  datatype Cause = NoSupplier | SupplierThrew(exception: string)

  /** The exception `getInstance` raises: "Could not instantiate <key>". */
  datatype Error = CouldNotInstantiate(key: Key, cause: Cause)

  /** A declared binding. `implementor` and `supplier` are the Java fields
      that may be null; `cached` is the content of its `AtomicReference`
      (`Null` while nothing is cached). A binding with an implementor is an
      implementor binding; one without is a supplier binding. */
  datatype Binding = Binding(key: Key, implementor: Option<ClassName>, supplier: Option<Supplier>, cached: Value)

  /** A binding as the constructor leaves it: nothing cached yet. */
  predicate Fresh(b: Binding)
  {
    b.cached == Null
  }

  /** What a supplier returns or throws when called, given `answer`, the
      behaviour a user callable shows on this call. */
  function Call(s: Supplier, answer: CallResult): CallResult
  {
    match s
    case Constant(v) => Returned(v)
    case Callable(_) => answer
  }

  /** `binding(cls, implementor)` and `binding(cls, annotation, implementor)`. */
  function BindTo(cls: ClassName, annotation: Option<ClassName>, implementor: ClassName): (b: Binding)
    ensures b.key == Key(PlainClass(cls), annotation)
    ensures b.implementor == Some(implementor) && b.supplier.None?
    ensures Fresh(b)
  {
    Binding(Key(PlainClass(cls), annotation), Some(implementor), None, Null)
  }

  /** `instance(cls, value)` and `instance(cls, annotation, value)`. */
  function Instance(cls: ClassName, annotation: Option<ClassName>, value: Value): (b: Binding)
    ensures b.key == Key(PlainClass(cls), annotation)
    ensures b.implementor.None? && b.supplier.Some?
    ensures forall answer :: Call(b.supplier.value, answer) == Returned(value)
    ensures Fresh(b)
  {
    Binding(Key(PlainClass(cls), annotation), None, Some(Constant(value)), Null)
  }

  /** `provide(cls, supplier)` and `provide(cls, annotation, supplier)`; the
      callable itself may be null. */
  function Provide(cls: ClassName, annotation: Option<ClassName>, supplier: Option<Supplier>): (b: Binding)
    ensures b.key == Key(PlainClass(cls), annotation)
    ensures b.implementor.None? && b.supplier == supplier
    ensures Fresh(b)
  {
    Binding(Key(PlainClass(cls), annotation), None, supplier, Null)
  }

  /** One call of `getInstance`: its result, the binding afterwards, and
      whether the supplier was invoked. */
  datatype Got = Got(result: Result<Value, Error>, binding: Binding, supplierCalled: bool)

  /** Holds when a call of `getInstance` handed out a real (non-null) object. */
  predicate HandedOut(g: Got)
  {
    g.result.Success? && g.result.value != Null
  }

  /** `Binding.getInstance`: return the cached object if there is one;
      otherwise call the supplier, cache what it returns and return that. A
      null result is stored as null, that is, not cached. A supplier that
      throws, or a missing supplier, is reported as an error and leaves the
      cell as it was. */
  function GetInstance(b: Binding, answer: CallResult): (g: Got)
    ensures g.binding.key == b.key && g.binding.implementor == b.implementor && g.binding.supplier == b.supplier
    ensures b.cached != Null ==> g.result == Success(b.cached) && g.binding == b && !g.supplierCalled
    ensures b.cached == Null ==> (g.supplierCalled <==> b.supplier.Some?)
    ensures g.result.Success? ==> g.binding.cached == g.result.value
    ensures g.result.Failure? ==> g.binding == b && g.result.error.key == b.key
    ensures b.cached == Null && b.supplier.Some? ==>
              (g.result.Success? <==> Call(b.supplier.value, answer).Returned?)
    ensures b.cached == Null && b.supplier.Some? && g.result.Success? ==>
              Call(b.supplier.value, answer) == Returned(g.result.value)
    ensures b.cached == Null && b.supplier.None? ==>
              g.result == Failure(CouldNotInstantiate(b.key, NoSupplier))
    ensures b.cached == Null && b.supplier.Some? && Call(b.supplier.value, answer).Threw? ==>
              g.result == Failure(CouldNotInstantiate(b.key, SupplierThrew(Call(b.supplier.value, answer).exception)))
  {
    if b.cached != Null then
      Got(Success(b.cached), b, false)
    else
      match b.supplier
      case None => Got(Failure(CouldNotInstantiate(b.key, NoSupplier)), b, false)
      case Some(s) =>
        match Call(s, answer)
        case Threw(e) => Got(Failure(CouldNotInstantiate(b.key, SupplierThrew(e))), b, true)
        case Returned(v) => Got(Success(v), b.(cached := v), true)
  }

  /** A sequence of `getInstance` calls on one binding; `answers[i]` is what a
      user callable would do if the i-th call invokes it. */
  function Run(b: Binding, answers: seq<CallResult>): (gs: seq<Got>)
    ensures |gs| == |answers|
    decreases |answers|
  {
    if |answers| == 0 then []
    else
      var g := GetInstance(b, answers[0]);
      [g] + Run(g.binding, answers[1..])
  }

  /** Once the cell holds an object, every later call returns that object,
      never invokes the supplier and leaves the binding as it is. */
  lemma {:induction false} CachedIsStable(b: Binding, answers: seq<CallResult>)
    requires b.cached != Null
    ensures forall i :: 0 <= i < |answers| ==> Run(b, answers)[i] == Got(Success(b.cached), b, false)
    decreases |answers|
  {
    if |answers| > 0 {
      CachedIsStable(b, answers[1..]);
      var gs := Run(b, answers);
      assert gs == [Got(Success(b.cached), b, false)] + Run(b, answers[1..]);
    }
  }

  /** After a call hands out an object, no later call of the same run invokes
      the supplier, and every later call hands out that same object. */
  lemma {:induction false} HandedOutOnce(b: Binding, answers: seq<CallResult>)
    ensures forall i, j :: 0 <= i < j < |answers| && HandedOut(Run(b, answers)[i]) ==>
              !Run(b, answers)[j].supplierCalled && Run(b, answers)[j].result == Run(b, answers)[i].result
    decreases |answers|
  {
    if |answers| > 0 {
      var gs := Run(b, answers);
      var g := GetInstance(b, answers[0]);
      var rest := Run(g.binding, answers[1..]);
      assert gs == [g] + rest;
      HandedOutOnce(g.binding, answers[1..]);
      if HandedOut(g) {
        CachedIsStable(g.binding, answers[1..]);
      }
      forall i, j | 0 <= i < j < |answers| && HandedOut(gs[i])
        ensures !gs[j].supplierCalled && gs[j].result == gs[i].result
      {
        if i == 0 {
          assert rest[j - 1] == Got(Success(g.binding.cached), g.binding, false);
        } else {
          assert gs[i] == rest[i - 1] && gs[j] == rest[j - 1];
        }
      }
    }
  }

  /** Every object handed out over a run of calls is the same object. */
  lemma SameInstance(b: Binding, answers: seq<CallResult>)
    ensures forall i, j ::
              && 0 <= i < |answers| && 0 <= j < |answers|
              && HandedOut(Run(b, answers)[i]) && HandedOut(Run(b, answers)[j])
              ==> Run(b, answers)[i].result == Run(b, answers)[j].result
  {
    HandedOutOnce(b, answers);
  }

  /** A null result is not cached: the next call invokes the supplier again. */
  lemma NullIsNotCached(b: Binding, first: CallResult, second: CallResult)
    requires Fresh(b) && b.supplier.Some?
    requires GetInstance(b, first).result == Success(Null)
    ensures GetInstance(GetInstance(b, first).binding, second).supplierCalled
  {
  }

  /** An `instance(...)` binding with a non-null value invokes its supplier
      exactly once, on the first call, and every call returns that value. */
  lemma {:induction false} InstanceSuppliedOnce(cls: ClassName, annotation: Option<ClassName>, value: Value, answers: seq<CallResult>)
    requires value != Null && |answers| > 0
    ensures Run(Instance(cls, annotation, value), answers)[0].supplierCalled
    ensures forall j :: 0 < j < |answers| ==> !Run(Instance(cls, annotation, value), answers)[j].supplierCalled
    ensures forall j :: 0 <= j < |answers| ==> Run(Instance(cls, annotation, value), answers)[j].result == Success(value)
  {
    var b := Instance(cls, annotation, value);
    var gs := Run(b, answers);
    var g := GetInstance(b, answers[0]);
    assert gs == [g] + Run(g.binding, answers[1..]);
    assert HandedOut(gs[0]);
    HandedOutOnce(b, answers);
  }
}
