/** `SimpleModule`: the rule that turns a declared list of bindings into the
    sequence of registrations recorded on the injector's binder. */
module SimpleModule {
  import opened Wrappers
  import opened Injection
  import opened Bindings

  /** A module as its constructor builds it: the bindings in declaration
      order, and the set of their keys. */
  datatype Module = Module(bindings: seq<Binding>, bindingKeys: set<Key>)

  /** The set of keys of a list of bindings, duplicates collapsed. */
  function Keys(bs: seq<Binding>): (ks: set<Key>)
    ensures forall k :: k in ks <==> exists i :: 0 <= i < |bs| && bs[i].key == k
    ensures |ks| <= |bs|
    decreases |bs|
  {
    if |bs| == 0 then {}
    else
      var front := Keys(bs[..|bs| - 1]);
      assert forall i :: 0 <= i < |bs| - 1 ==> bs[..|bs| - 1][i] == bs[i];
      front + {bs[|bs| - 1].key}
  }

  /** The explicit keys do not depend on the order of the bindings: any
      reordering of the list has the same key set. */
  lemma {:induction false} KeysIgnoreOrder(a: seq<Binding>, c: seq<Binding>)
    requires multiset(a) == multiset(c)
    ensures Keys(a) == Keys(c)
  {
    forall k | k in Keys(a)
      ensures k in Keys(c)
    {
      var i :| 0 <= i < |a| && a[i].key == k;
      assert a[i] in multiset(c);
      var j :| 0 <= j < |c| && c[j] == a[i];
    }
    forall k | k in Keys(c)
      ensures k in Keys(a)
    {
      var j :| 0 <= j < |c| && c[j].key == k;
      assert c[j] in multiset(a);
      var i :| 0 <= i < |a| && a[i] == c[j];
    }
  }

  /** The constructor `SimpleModule(bindings...)`. */
  function NewModule(bs: seq<Binding>): (m: Module)
    ensures m.bindings == bs
    ensures forall k :: k in m.bindingKeys <==> exists i :: 0 <= i < |bs| && bs[i].key == k
  {
    Module(bs, Keys(bs))
  }

  /** The registrations an instance binding adds for the directly
      implemented interfaces `ifaces` of its class: one per interface that
      carries the marker and whose plain key is not explicitly bound, in
      declaration order, each to the same `instance`. */
  function AutoBindings(ifaces: seq<ClassName>, instance: Value, explicit: set<Key>, marked: set<ClassName>): (rs: seq<Registration>)
    ensures |rs| <= |ifaces|
    decreases |ifaces|
  {
    if |ifaces| == 0 then []
    else
      var head := if ifaces[0] in marked && ClassKey(ifaces[0]) !in explicit
                  then [ToInstance(ClassKey(ifaces[0]), instance)] else [];
      head + AutoBindings(ifaces[1..], instance, explicit, marked)
  }

  /** Every auto-binding maps the plain key of a listed, marked interface
      that is not explicitly bound to the same instance; and every such
      interface gets one. */
  lemma {:induction false} AutoBindingsMembers(ifaces: seq<ClassName>, instance: Value, explicit: set<Key>, marked: set<ClassName>)
    ensures forall r :: r in AutoBindings(ifaces, instance, explicit, marked) ==>
              && r.ToInstance? && r.instance == instance
              && r.key.annotation.None? && r.key.typeLiteral.PlainClass? && r.key !in explicit
              && r.key.typeLiteral.cls in ifaces && r.key.typeLiteral.cls in marked
    ensures forall iface :: ToInstance(ClassKey(iface), instance) in AutoBindings(ifaces, instance, explicit, marked) <==>
              iface in ifaces && iface in marked && ClassKey(iface) !in explicit
    decreases |ifaces|
  {
    if |ifaces| > 0 {
      AutoBindingsMembers(ifaces[1..], instance, explicit, marked);
      assert forall iface :: iface in ifaces <==> iface == ifaces[0] || iface in ifaces[1..];
    }
  }

  /** Auto-bindings follow the order of the interface list: the interfaces
      of a concatenation yield the concatenated auto-bindings. */
  lemma {:induction false} AutoBindingsAppend(a: seq<ClassName>, b: seq<ClassName>, instance: Value, explicit: set<Key>, marked: set<ClassName>)
    ensures AutoBindings(a + b, instance, explicit, marked)
         == AutoBindings(a, instance, explicit, marked) + AutoBindings(b, instance, explicit, marked)
    decreases |a|
  {
    if |a| > 0 {
      assert (a + b)[0] == a[0];
      assert (a + b)[1..] == a[1..] + b;
      AutoBindingsAppend(a[1..], b, instance, explicit, marked);
    } else {
      assert a + b == b;
    }
  }

  /** Holds when `r` is an auto-binding that supplier binding `b`, resolved to
      `instance`, may add: the plain key of a marked, directly implemented
      interface of its class that is not explicitly bound, mapped to the same
      instance. */
  predicate IsAutoBinding(r: Registration, b: Binding, instance: Value, explicit: set<Key>, refl: Reflection)
  {
    && b.implementor.None?
    && b.key.typeLiteral.PlainClass?
    && r.ToInstance? && r.instance == instance
    && r.key.annotation.None? && r.key.typeLiteral.PlainClass?
    && r.key.typeLiteral.cls in refl.Interfaces(b.key.typeLiteral.cls)
    && r.key.typeLiteral.cls in refl.marked
    && r.key !in explicit
  }

  /** The registration a binding makes for its own key. */
  function Direct(b: Binding, instance: Value): Registration
  {
    if b.implementor.Some? then EagerSingleton(b.key, b.implementor.value) else ToInstance(b.key, instance)
  }

  /** The private `bind(binding)`, given the instance `getInstance` produced
      for a supplier binding (ignored for an implementor binding). */
  function BindOne(b: Binding, instance: Value, explicit: set<Key>, refl: Reflection): (rs: seq<Registration>)
    ensures |rs| >= 1 && rs[0] == Direct(b, instance)
    ensures b.implementor.Some? ==> |rs| == 1
    ensures !b.key.typeLiteral.PlainClass? ==> |rs| == 1
  {
    if b.implementor.Some? then
      [EagerSingleton(b.key, b.implementor.value)]
    else
      match b.key.typeLiteral
      case PlainClass(cls) =>
        [ToInstance(b.key, instance)] + AutoBindings(refl.Interfaces(cls), instance, explicit, refl.marked)
      case OtherType(_) =>
        [ToInstance(b.key, instance)]
  }

  /** After its own registration, a supplier binding of a plain class adds
      exactly the auto-bindings of the marked, directly implemented
      interfaces that are not explicitly bound, each to the same instance. */
  lemma BindOneAutoBindings(b: Binding, instance: Value, explicit: set<Key>, refl: Reflection)
    ensures forall r :: r in BindOne(b, instance, explicit, refl)[1..] ==> IsAutoBinding(r, b, instance, explicit, refl)
    ensures b.implementor.None? && b.key.typeLiteral.PlainClass? ==>
              BindOne(b, instance, explicit, refl)[1..]
              == AutoBindings(refl.Interfaces(b.key.typeLiteral.cls), instance, explicit, refl.marked)
    ensures b.implementor.None? && b.key.typeLiteral.PlainClass? ==>
              forall iface :: ToInstance(ClassKey(iface), instance) in BindOne(b, instance, explicit, refl)[1..] <==>
                iface in refl.Interfaces(b.key.typeLiteral.cls) && iface in refl.marked && ClassKey(iface) !in explicit
  {
    var rs := BindOne(b, instance, explicit, refl);
    if b.implementor.None? && b.key.typeLiteral.PlainClass? {
      var ifaces := refl.Interfaces(b.key.typeLiteral.cls);
      AutoBindingsMembers(ifaces, instance, explicit, refl.marked);
      assert rs[1..] == AutoBindings(ifaces, instance, explicit, refl.marked);
    }
  }

  /** A binding made by `binding(...)` registers its key, linked to the
      implementor as an eager singleton, and nothing else: whatever instance,
      explicit keys or interfaces are around, it adds no auto-binding. */
  lemma ImplementorBindingRegistersOnce(cls: ClassName, annotation: Option<ClassName>, implementor: ClassName,
                                        instance: Value, explicit: set<Key>, refl: Reflection)
    ensures BindOne(BindTo(cls, annotation, implementor), instance, explicit, refl)
         == [EagerSingleton(Key(PlainClass(cls), annotation), implementor)]
  {
  }

  /** `configure()` once every binding is resolved: the registrations of each
      binding in list order, `instances[i]` being the instance of `bs[i]`. */
  function Plan(bs: seq<Binding>, instances: seq<Value>, explicit: set<Key>, refl: Reflection): (rs: seq<Registration>)
    requires |instances| == |bs|
    ensures |rs| >= |bs|
    decreases |bs|
  {
    if |bs| == 0 then []
    else BindOne(bs[0], instances[0], explicit, refl) + Plan(bs[1..], instances[1..], explicit, refl)
  }

  /** Every registration of the plan is either some binding's own
      registration or an auto-binding that binding may add, and every
      binding's own registration is there. */
  lemma {:induction false} PlanRegistrations(bs: seq<Binding>, instances: seq<Value>, explicit: set<Key>, refl: Reflection)
    requires |instances| == |bs|
    ensures forall r :: r in Plan(bs, instances, explicit, refl) ==>
              exists i :: 0 <= i < |bs| && (r == Direct(bs[i], instances[i]) || IsAutoBinding(r, bs[i], instances[i], explicit, refl))
    ensures forall i :: 0 <= i < |bs| ==> Direct(bs[i], instances[i]) in Plan(bs, instances, explicit, refl)
    ensures forall i, iface :: 0 <= i < |bs| && IsAutoBinding(ToInstance(ClassKey(iface), instances[i]), bs[i], instances[i], explicit, refl) ==>
              ToInstance(ClassKey(iface), instances[i]) in Plan(bs, instances, explicit, refl)
    decreases |bs|
  {
    if |bs| > 0 {
      PlanRegistrations(bs[1..], instances[1..], explicit, refl);
      var first := BindOne(bs[0], instances[0], explicit, refl);
      BindOneAutoBindings(bs[0], instances[0], explicit, refl);
      var rest := Plan(bs[1..], instances[1..], explicit, refl);
      var rs := Plan(bs, instances, explicit, refl);
      assert rs == first + rest;
      forall r | r in rs
        ensures exists i :: 0 <= i < |bs| && (r == Direct(bs[i], instances[i]) || IsAutoBinding(r, bs[i], instances[i], explicit, refl))
      {
        if r in first {
          assert r == first[0] || r in first[1..];
          assert 0 < |bs|;
        } else {
          assert r in rest;
          var i :| 0 <= i < |bs| - 1 && (r == Direct(bs[1..][i], instances[1..][i]) || IsAutoBinding(r, bs[1..][i], instances[1..][i], explicit, refl));
          assert bs[1..][i] == bs[i + 1] && instances[1..][i] == instances[i + 1];
        }
      }
      forall i, iface | 0 <= i < |bs| && IsAutoBinding(ToInstance(ClassKey(iface), instances[i]), bs[i], instances[i], explicit, refl)
        ensures ToInstance(ClassKey(iface), instances[i]) in rs
      {
        if i == 0 {
          assert ToInstance(ClassKey(iface), instances[0]) in first[1..];
        } else {
          assert bs[1..][i - 1] == bs[i] && instances[1..][i - 1] == instances[i];
          assert ToInstance(ClassKey(iface), instances[1..][i - 1]) in rest;
        }
      }
      forall i | 0 <= i < |bs|
        ensures Direct(bs[i], instances[i]) in rs
      {
        if i == 0 {
          assert first[0] in first;
        } else {
          assert bs[1..][i - 1] == bs[i] && instances[1..][i - 1] == instances[i];
          assert Direct(bs[1..][i - 1], instances[1..][i - 1]) in rest;
        }
      }
    }
  }

  /** Registrations follow the order of the bindings list: the plan of a
      concatenation is the concatenation of the plans. */
  lemma {:induction false} PlanAppend(a: seq<Binding>, va: seq<Value>, b: seq<Binding>, vb: seq<Value>, explicit: set<Key>, refl: Reflection)
    requires |va| == |a| && |vb| == |b|
    ensures Plan(a + b, va + vb, explicit, refl) == Plan(a, va, explicit, refl) + Plan(b, vb, explicit, refl)
    decreases |a|
  {
    if |a| == 0 {
      assert a + b == b && va + vb == vb;
    } else {
      assert (a + b)[1..] == a[1..] + b && (va + vb)[1..] == va[1..] + vb;
      PlanAppend(a[1..], va[1..], b, vb, explicit, refl);
    }
  }

  /** One step of `configure`: binding the next element of the list appends
      its registrations to those of the prefix. */
  lemma PlanStep(bs: seq<Binding>, i: nat, instances: seq<Value>, instance: Value, explicit: set<Key>, refl: Reflection)
    requires i < |bs| && |instances| == i
    ensures Plan(bs[..i + 1], instances + [instance], explicit, refl)
         == Plan(bs[..i], instances, explicit, refl) + BindOne(bs[i], instance, explicit, refl)
  {
    assert bs[..i + 1] == bs[..i] + [bs[i]];
    PlanAppend(bs[..i], instances, [bs[i]], [instance], explicit, refl);
  }

  /** An explicit binding wins wherever it stands in the list: every
      registration for a key that some binding declares is the own
      registration of such a binding, never an auto-binding, even when the
      binding whose class implements the interface comes first. Stated for
      any set of explicit keys, so it also covers the plan of a prefix, as
      `configure` leaves it when it stops early. */
  lemma ExplicitKeysAreNeverAutoBound(bs: seq<Binding>, instances: seq<Value>, explicit: set<Key>, refl: Reflection)
    requires |instances| == |bs|
    ensures forall r :: r in Plan(bs, instances, explicit, refl) && r.key in explicit ==>
              exists i :: 0 <= i < |bs| && bs[i].key == r.key && r == Direct(bs[i], instances[i])
  {
    var rs := Plan(bs, instances, explicit, refl);
    PlanRegistrations(bs, instances, explicit, refl);
    forall r | r in rs && r.key in explicit
      ensures exists i :: 0 <= i < |bs| && bs[i].key == r.key && r == Direct(bs[i], instances[i])
    {
      var i :| 0 <= i < |bs| && (r == Direct(bs[i], instances[i]) || IsAutoBinding(r, bs[i], instances[i], explicit, refl));
      assert r == Direct(bs[i], instances[i]);
    }
  }

  /** `ExplicitKeysAreNeverAutoBound` for the plan of the first `n` bindings,
      indexed into the whole list. */
  lemma ExplicitKeysOfPrefix(bs: seq<Binding>, n: nat, instances: seq<Value>, explicit: set<Key>, refl: Reflection)
    requires n <= |bs| && |instances| == n
    ensures forall r :: r in Plan(bs[..n], instances, explicit, refl) && r.key in explicit ==>
              exists i :: 0 <= i < n && bs[i].key == r.key && r == Direct(bs[i], instances[i])
  {
    ExplicitKeysAreNeverAutoBound(bs[..n], instances, explicit, refl);
    assert forall i :: 0 <= i < n ==> bs[..n][i] == bs[i];
  }

  /** The instance `configure` obtains for a binding: an implementor binding
      never calls `getInstance` (its slot is `Null` and unused); a supplier
      binding calls it once, with `answer` the behaviour of its callable. */
  function Resolve(b: Binding, answer: CallResult): (g: Got)
    ensures b.implementor.Some? ==> g.result == Success(Null) && g.binding == b && !g.supplierCalled
    ensures b.implementor.None? ==> g == GetInstance(b, answer)
  {
    if b.implementor.Some? then Got(Success(Null), b, false) else GetInstance(b, answer)
  }

  /** What `configure()` leaves behind: the registrations recorded, the
      instances of the bindings processed, every binding with its cell as
      updated, and the error that stopped it, if any. */
  datatype Outcome = Outcome(registrations: seq<Registration>, instances: seq<Value>, bindings: seq<Binding>, failure: Option<Error>)

  /** `configure()`: bind each binding in list order. A supplier binding whose
      `getInstance` fails stops the walk; what was recorded before stays.
      `answers(i)` is how the callable of the i-th binding behaves if called. */
  method Configure(m: Module, answers: nat -> CallResult, refl: Reflection) returns (o: Outcome)
    ensures |o.instances| <= |m.bindings| && |o.bindings| == |m.bindings|
    ensures forall i {:trigger answers(i)} :: 0 <= i < |o.instances| ==>
              Resolve(m.bindings[i], answers(i)).result == Success(o.instances[i])
              && Resolve(m.bindings[i], answers(i)).binding == o.bindings[i]
    ensures forall i :: |o.instances| <= i < |m.bindings| ==> o.bindings[i] == m.bindings[i]
    ensures o.failure.None? <==> |o.instances| == |m.bindings|
    ensures o.failure.Some? ==>
              Resolve(m.bindings[|o.instances|], answers(|o.instances|)).result == Failure(o.failure.value)
    ensures o.registrations == Plan(m.bindings[..|o.instances|], o.instances, m.bindingKeys, refl)
  {
    var registrations: seq<Registration> := [];
    var instances: seq<Value> := [];
    var cells := m.bindings;
    var i := 0;
    while i < |m.bindings|
      invariant 0 <= i <= |m.bindings|
      invariant |instances| == i && |cells| == |m.bindings|
      invariant forall j {:trigger answers(j)} :: 0 <= j < i ==>
                  Resolve(m.bindings[j], answers(j)).result == Success(instances[j])
                  && Resolve(m.bindings[j], answers(j)).binding == cells[j]
      invariant forall j :: i <= j < |m.bindings| ==> cells[j] == m.bindings[j]
      invariant registrations == Plan(m.bindings[..i], instances, m.bindingKeys, refl)
    {
      var g := Resolve(m.bindings[i], answers(i));
      if g.result.Failure? {
        return Outcome(registrations, instances, cells, Some(g.result.error));
      }
      PlanStep(m.bindings, i, instances, g.result.value, m.bindingKeys, refl);
      registrations := registrations + BindOne(m.bindings[i], g.result.value, m.bindingKeys, refl);
      instances := instances + [g.result.value];
      cells := cells[i := g.binding];
      i := i + 1;
    }
    assert m.bindings[..i] == m.bindings;
    return Outcome(registrations, instances, cells, None);
  }
}
