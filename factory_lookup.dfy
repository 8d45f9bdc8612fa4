/**
 * What the two runtime factories share: the registered factory map, the kinds a registered
 * factory may have, the outcomes of creating a view model, and the lookup of the factory for a
 * requested class (an exact key first, else the first registered subclass).
 */
module FactoryLookup {
  import opened Wrappers
  import opened JavaModel
  import opened Hierarchy

  /** A `SavedStateHandle` instance, known only by its identity. */
  datatype SavedStateHandle = SavedStateHandle(id: nat)

  /** A created view model: its class and the handle it was constructed with, if any. */
  datatype ViewModel = ViewModel(modelClass: ClassName, handle: Option<SavedStateHandle>)

  /** Something a generated factory throws: its class and whether it is an `Exception` (otherwise an `Error`). */
  datatype Raised = Raised(throwableClass: ClassName, isException: bool)

  datatype IllegalStateReason =
    | UnknownModelClass(requested: ClassName)
    | SavedStateNeedsSavedStateFactory
    | InvalidFactoryType(factoryClass: ClassName)

  /** What leaves a factory's `create`. */
  datatype Thrown =
    | NullPointer
    | IllegalState(reason: IllegalStateReason)
    | Propagated(raised: Raised)
    | WrappedInRuntimeException(cause: Thrown)

  /** `catch (Exception e)`: everything but an `Error` is an `Exception`. */
  predicate IsException(t: Thrown) {
    !t.Propagated? || t.raised.isException
  }

  /** What one call of a generated factory's `create` does: build an instance of a class, or throw. */
  datatype Creation = Creates(instanceClass: ClassName) | Throws(raised: Raised)

  /**
   * A registered `AbstractViewModelFactory`: its runtime class and, for each of the two factory
   * interfaces it implements, what its `create` does.
   */
  datatype AbstractViewModelFactory = AbstractViewModelFactory(
    runtimeClass: ClassName,
    basic: Option<Creation>,
    savedState: Option<Creation>)

  /** The registered factories: the key set in iteration order and the entries. */
  datatype FactoryMap = FactoryMap(keys: seq<ClassName>, entries: map<ClassName, AbstractViewModelFactory>)

  predicate WellFormed(m: FactoryMap) {
    && (forall i, j :: 0 <= i < j < |m.keys| ==> m.keys[i] != m.keys[j])
    && (forall k :: k in m.keys ==> k in m.entries)
    && (forall k :: k in m.entries ==> k in m.keys)
  }

  /** A factory map as a Java `Map` holds it: every key once, and the key set matching the entries. */
  type Registry = m: FactoryMap | WellFormed(m) witness FactoryMap([], map[])

  /** `ViewModelBasicFactory.create()`. */
  function RunBasic(c: Creation): Result<ViewModel, Thrown> {
    match c
    case Creates(cls) => Success(ViewModel(cls, None))
    case Throws(raised) => Failure(Propagated(raised))
  }

  /** `ViewModelSavedStateFactory.create(handle)`. */
  function RunSavedState(c: Creation, handle: SavedStateHandle): Result<ViewModel, Thrown> {
    match c
    case Creates(cls) => Success(ViewModel(cls, Some(handle)))
    case Throws(raised) => Failure(Propagated(raised))
  }

  /** `try { ... } catch (Exception e) { throw new RuntimeException(e); }` around a call. */
  function WrapExceptions(r: Result<ViewModel, Thrown>): (w: Result<ViewModel, Thrown>)
    ensures r.Success? ==> w == r
    ensures r.Failure? && IsException(r.error) ==> w == Failure(WrappedInRuntimeException(r.error))
    ensures r.Failure? && !IsException(r.error) ==> w == r
  {
    if r.Failure? && IsException(r.error) then Failure(WrappedInRuntimeException(r.error)) else r
  }

  /** The first key, in iteration order, that is a subclass of the requested class. */
  function FirstAssignable(h: Superclasses, keys: seq<ClassName>, modelClass: ClassName): (r: Option<ClassName>)
    ensures r.Some? ==> r.value in keys && IsSubtype(h, r.value, modelClass)
  {
    if keys == [] then None
    else if IsSubtype(h, keys[0], modelClass) then Some(keys[0])
    else FirstAssignable(h, keys[1..], modelClass)
  }

  /** The key whose factory serves `modelClass`: the exact key if registered, else the first assignable one. */
  function Lookup(h: Superclasses, m: Registry, modelClass: ClassName): (r: Option<ClassName>)
    ensures r.Some? ==> r.value in m.entries && IsSubtype(h, r.value, modelClass)
  {
    if modelClass in m.entries then Some(modelClass) else FirstAssignable(h, m.keys, modelClass)
  }

  lemma {:induction false} FirstAssignableSpec(h: Superclasses, keys: seq<ClassName>, modelClass: ClassName)
    ensures FirstAssignable(h, keys, modelClass).None? <==> forall k :: k in keys ==> !IsSubtype(h, k, modelClass)
    ensures FirstAssignable(h, keys, modelClass).Some? ==>
      exists i :: 0 <= i < |keys| && keys[i] == FirstAssignable(h, keys, modelClass).value
        && IsSubtype(h, keys[i], modelClass)
        && forall j :: 0 <= j < i ==> !IsSubtype(h, keys[j], modelClass)
  {
    if keys != [] {
      var tail := keys[1..];
      FirstAssignableSpec(h, tail, modelClass);
      if IsSubtype(h, keys[0], modelClass) {
        assert keys[0] in keys && keys[0] == FirstAssignable(h, keys, modelClass).value;
      } else {
        var r := FirstAssignable(h, tail, modelClass);
        if r.Some? {
          var i :| 0 <= i < |tail| && tail[i] == r.value && IsSubtype(h, tail[i], modelClass)
            && forall j :: 0 <= j < i ==> !IsSubtype(h, tail[j], modelClass);
          assert keys[i + 1] == tail[i];
          forall j | 0 <= j < i + 1 ensures !IsSubtype(h, keys[j], modelClass) {
            if j > 0 {
              assert keys[j] == tail[j - 1];
            }
          }
        } else {
          forall k | k in keys ensures !IsSubtype(h, k, modelClass) {
            if k != keys[0] {
              assert k in tail;
            }
          }
        }
      }
    }
  }

  /**
   * The lookup: an exact key wins whenever it is registered; otherwise the result is the first
   * key in iteration order that is a subclass of the requested class, and there is none exactly
   * when no registered key is one. Whatever is found is registered and assignable to the request.
   */
  lemma LookupSpec(h: Superclasses, m: Registry, modelClass: ClassName)
    ensures modelClass in m.entries ==> Lookup(h, m, modelClass) == Some(modelClass)
    ensures Lookup(h, m, modelClass).None? <==> forall k :: k in m.keys ==> !IsSubtype(h, k, modelClass)
    ensures modelClass !in m.entries && Lookup(h, m, modelClass).Some? ==>
      exists i :: 0 <= i < |m.keys| && m.keys[i] == Lookup(h, m, modelClass).value
        && forall j :: 0 <= j < i ==> !IsSubtype(h, m.keys[j], modelClass)
  {
    FirstAssignableSpec(h, m.keys, modelClass);
    if modelClass in m.entries {
      assert modelClass in m.keys;
    }
  }

  /**
   * The search both factories' `create` runs: `factories.get(modelClass)`, then, on a miss, a
   * walk over the key set that stops at the first assignable key.
   */
  method FindFactory(h: Superclasses, m: Registry, modelClass: ClassName) returns (key: Option<ClassName>)
    ensures key == Lookup(h, m, modelClass)
    ensures key.Some? ==> key.value in m.entries && IsSubtype(h, key.value, modelClass)
    ensures key.None? <==> forall k :: k in m.keys ==> !IsSubtype(h, k, modelClass)
  {
    LookupSpec(h, m, modelClass);
    if modelClass in m.entries {
      return Some(modelClass);
    }
    key := None;
    var i := 0;
    while i < |m.keys|
      invariant 0 <= i <= |m.keys|
      invariant FirstAssignable(h, m.keys, modelClass) == FirstAssignable(h, m.keys[i..], modelClass)
    {
      assert m.keys[i..][1..] == m.keys[i + 1..];
      if IsSubtype(h, m.keys[i], modelClass) {
        key := Some(m.keys[i]);
        return;
      }
      i := i + 1;
    }
  }
}
