/**
 * The singleton registry: the `instances` dict shared by every class using
 * the metaclass, mapping a class to its one instance, filled on the first
 * call of that class.
 */
module Singletons {
  import opened Exceptions

  /** A class, by its qualified name. */
  type ClassId = string

  /** An instance: the class it was constructed as, and its identity among objects. */
  datatype Obj = Obj(cls: ClassId, identity: nat)

  /** The registry and what a call returns. */
  datatype Called = Called(instances: map<ClassId, Obj>, result: Outcome<Obj>)

  /**
   * `cls(*args)` through the metaclass: a registered class gets its stored
   * instance back; otherwise the constructor runs (`construct` is what it
   * did) and only an instance it returns is stored.
   */
  function CallSpec(instances: map<ClassId, Obj>, cls: ClassId, construct: Outcome<nat>): Called {
    if cls in instances then Called(instances, Ok(instances[cls]))
    else
      match construct
      case Ok(identity) => Called(instances[cls := Obj(cls, identity)], Ok(Obj(cls, identity)))
      case Raised(e) => Called(instances, Raised(e))
  }

  /** Every stored instance is of the class it is stored under. */
  predicate Keyed(instances: map<ClassId, Obj>) {
    forall k :: k in instances ==> instances[k].cls == k
  }

  /** Calls keep every instance under its own class. */
  lemma CallKeyed(instances: map<ClassId, Obj>, cls: ClassId, construct: Outcome<nat>)
    requires Keyed(instances)
    ensures Keyed(CallSpec(instances, cls, construct).instances)
    ensures CallSpec(instances, cls, construct).result.Ok? ==> CallSpec(instances, cls, construct).result.value.cls == cls
  {
  }

  /**
   * A call returns what the registry holds for `cls` afterwards, adds at most
   * the entry for `cls`, and never drops or replaces an entry.
   */
  lemma CallFrame(instances: map<ClassId, Obj>, cls: ClassId, construct: Outcome<nat>)
    ensures var c := CallSpec(instances, cls, construct);
            && (c.result.Ok? ==> cls in c.instances && c.instances[cls] == c.result.value)
            && instances.Keys <= c.instances.Keys <= instances.Keys + {cls}
            && (forall k :: k in instances ==> c.instances[k] == instances[k])
            && (c.result.Raised? <==> cls !in instances && construct.Raised?)
  {
  }

  /** A registered class gets its instance back, whatever the constructor would do now. */
  lemma RepeatCall(instances: map<ClassId, Obj>, cls: ClassId, construct: Outcome<nat>)
    requires cls in instances
    ensures CallSpec(instances, cls, construct) == Called(instances, Ok(instances[cls]))
  {
  }

  /** After a successful call, every later call of the class returns the same instance and changes nothing. */
  lemma SecondCallSame(instances: map<ClassId, Obj>, cls: ClassId, first: Outcome<nat>, second: Outcome<nat>)
    requires CallSpec(instances, cls, first).result.Ok?
    ensures var c := CallSpec(instances, cls, first);
            CallSpec(c.instances, cls, second) == c
  {
  }

  /** A constructor that raises leaves the registry as it was. */
  lemma FailedConstruction(instances: map<ClassId, Obj>, cls: ClassId, e: Exc)
    requires cls !in instances
    ensures CallSpec(instances, cls, Raised(e)) == Called(instances, Raised(e))
  {
  }

  /** Two classes sharing the registry get two different instances, each of its own class. */
  lemma DistinctClasses(instances: map<ClassId, Obj>, a: ClassId, b: ClassId, ca: Outcome<nat>, cb: Outcome<nat>)
    requires Keyed(instances) && a != b
    requires CallSpec(instances, a, ca).result.Ok?
    requires CallSpec(CallSpec(instances, a, ca).instances, b, cb).result.Ok?
    ensures var first := CallSpec(instances, a, ca);
            var second := CallSpec(first.instances, b, cb);
            && second.instances[a] == first.result.value
            && second.instances[b] == second.result.value
            && first.result.value != second.result.value
  {
    CallKeyed(instances, a, ca);
    CallKeyed(CallSpec(instances, a, ca).instances, b, cb);
  }

  /** A registry: `SingletonMeta.instances`, or the `instances` of the older `Singleton` metaclass. */
  class Registry {
    var instances: map<ClassId, Obj>

    ghost predicate Valid()
      reads this
    {
      Keyed(instances)
    }

    constructor ()
      ensures instances == map[] && Valid()
    {
      instances := map[];
    }

    /** The metaclass `__call__`; `constructed` tells whether the constructor ran. */
    method Call(cls: ClassId, construct: Outcome<nat>) returns (r: Outcome<Obj>, constructed: bool)
      requires Valid()
      modifies this
      ensures Valid()
      ensures Called(instances, r) == CallSpec(old(instances), cls, construct)
      ensures constructed <==> cls !in old(instances)
    {
      constructed := cls !in instances;
      if constructed {
        match construct
        case Ok(identity) =>
          instances := instances[cls := Obj(cls, identity)];
        case Raised(e) =>
          return Raised(e), constructed;
      }
      r := Ok(instances[cls]);
    }

    /** `Singleton.instance()`, which is `cls()`. */
    method Instance(cls: ClassId, construct: Outcome<nat>) returns (r: Outcome<Obj>)
      requires Valid()
      modifies this
      ensures Valid()
      ensures Called(instances, r) == CallSpec(old(instances), cls, construct)
    {
      var constructed;
      r, constructed := Call(cls, construct);
    }
  }
}
