/**
 * `ViewModelFactory`, the `ViewModelProvider.Factory` for view models without a
 * `SavedStateHandle`: it finds the registered factory for the requested class and calls its
 * no-argument `create`.
 */
module ViewModelFactories {
  import opened Wrappers
  import opened JavaModel
  import opened Hierarchy
  import opened FactoryLookup

  /**
   * What `create(modelClass)` returns or throws for a factory map: an unknown class, a basic
   * factory's outcome (its exceptions wrapped, its errors not), or an illegal state for a
   * saved-state factory or a factory of neither kind.
   */
  function BasicCreate(h: Superclasses, m: Registry, modelClass: ClassName): Result<ViewModel, Thrown> {
    match Lookup(h, m, modelClass)
    case None => Failure(IllegalState(UnknownModelClass(modelClass)))
    case Some(k) =>
      var f := m.entries[k];
      if f.basic.Some? then WrapExceptions(RunBasic(f.basic.value))
      else if f.savedState.Some? then Failure(IllegalState(SavedStateNeedsSavedStateFactory))
      else Failure(IllegalState(InvalidFactoryType(f.runtimeClass)))
  }

  class ViewModelFactory {
    const factories: Registry

    constructor (factories: Registry)
      ensures this.factories == factories
    {
      this.factories := factories;
    }

    /** The public constructor: a `null` map is refused with a `NullPointerException`. */
    static method New(factories: Option<Registry>) returns (r: Result<ViewModelFactory, Thrown>)
      ensures factories.None? <==> r.Failure?
      ensures r.Failure? ==> r.error == NullPointer
      ensures r.Success? ==> fresh(r.value) && r.value.factories == factories.value
    {
      if factories.None? {
        return Failure(NullPointer);
      }
      var f := new ViewModelFactory(factories.value);
      return Success(f);
    }

    /** `create(modelClass)`. */
    method Create(h: Superclasses, modelClass: ClassName) returns (r: Result<ViewModel, Thrown>)
      ensures r == BasicCreate(h, factories, modelClass)
    {
      var key := FindFactory(h, factories, modelClass);
      if key.None? {
        return Failure(IllegalState(UnknownModelClass(modelClass)));
      }
      var f := factories.entries[key.value];
      if f.basic.Some? {
        var created := RunBasic(f.basic.value);
        r := WrapExceptions(created);
      } else if f.savedState.Some? {
        r := Failure(IllegalState(SavedStateNeedsSavedStateFactory));
      } else {
        r := Failure(IllegalState(InvalidFactoryType(f.runtimeClass)));
      }
    }
  }

  /**
   * A view model comes out only of a basic factory found by the lookup, built by that factory
   * and without a handle.
   */
  lemma BasicCreateSucceedsIff(h: Superclasses, m: Registry, modelClass: ClassName)
    ensures BasicCreate(h, m, modelClass).Success? <==>
      && Lookup(h, m, modelClass).Some?
      && m.entries[Lookup(h, m, modelClass).value].basic.Some?
      && m.entries[Lookup(h, m, modelClass).value].basic.value.Creates?
    ensures BasicCreate(h, m, modelClass).Success? ==>
      BasicCreate(h, m, modelClass).value ==
        ViewModel(m.entries[Lookup(h, m, modelClass).value].basic.value.instanceClass, None)
  {
    LookupSpec(h, m, modelClass);
  }

  /** "Unknown model class" is thrown exactly when no registered key is a subclass of the request. */
  lemma BasicCreateUnknownIff(h: Superclasses, m: Registry, modelClass: ClassName)
    ensures BasicCreate(h, m, modelClass) == Failure(IllegalState(UnknownModelClass(modelClass))) <==>
      forall k :: k in m.keys ==> !IsSubtype(h, k, modelClass)
  {
    LookupSpec(h, m, modelClass);
  }

  /**
   * What a basic factory throws leaves `create` wrapped in a `RuntimeException` when it is an
   * `Exception` and unchanged when it is an `Error`.
   */
  lemma BasicFactoryThrows(h: Superclasses, m: Registry, modelClass: ClassName, raised: Raised)
    requires Lookup(h, m, modelClass).Some?
    requires m.entries[Lookup(h, m, modelClass).value].basic == Some(Throws(raised))
    ensures raised.isException ==> BasicCreate(h, m, modelClass) == Failure(WrappedInRuntimeException(Propagated(raised)))
    ensures !raised.isException ==> BasicCreate(h, m, modelClass) == Failure(Propagated(raised))
  {
  }

  /**
   * Without an exact key, a request is served exactly as a request for the key the lookup
   * found, that is the first registered subclass in iteration order: its factory decides the
   * outcome.
   */
  lemma BasicCreateServesSubclass(h: Superclasses, m: Registry, modelClass: ClassName)
    ensures modelClass !in m.entries && Lookup(h, m, modelClass).Some? ==>
      BasicCreate(h, m, modelClass) == BasicCreate(h, m, Lookup(h, m, modelClass).value)
  {
  }

  /**
   * A factory that is a saved-state factory only is refused with an illegal state before it is
   * ever called, whatever it would do.
   */
  lemma BasicCreateRefusesSavedStateFactory(h: Superclasses, m: Registry, modelClass: ClassName)
    requires Lookup(h, m, modelClass).Some?
    requires m.entries[Lookup(h, m, modelClass).value].basic.None?
    requires m.entries[Lookup(h, m, modelClass).value].savedState.Some?
    ensures BasicCreate(h, m, modelClass) == Failure(IllegalState(SavedStateNeedsSavedStateFactory))
  {
  }

  /** A map registering `t` to a basic factory hands out the view model that factory builds. */
  lemma InMapExample(h: Superclasses, t: ClassName, factoryClass: ClassName)
    ensures BasicCreate(h, FactoryMap([t], map[t := AbstractViewModelFactory(factoryClass, Some(Creates(t)), None)]), t)
      == Success(ViewModel(t, None))
  {
    var m := FactoryMap([t], map[t := AbstractViewModelFactory(factoryClass, Some(Creates(t)), None)]);
    assert WellFormed(m);
  }

  /** An empty map knows no class. */
  lemma NotInMapExample(h: Superclasses, t: ClassName)
    ensures BasicCreate(h, FactoryMap([], map[]), t) == Failure(IllegalState(UnknownModelClass(t)))
  {
  }

  /**
   * A saved-state factory is refused with an illegal state before it is ever called, whatever
   * it would do.
   */
  lemma SavedStateFactoryExample(h: Superclasses, t: ClassName, factoryClass: ClassName, c: Creation)
    ensures BasicCreate(h, FactoryMap([t], map[t := AbstractViewModelFactory(factoryClass, None, Some(c))]), t)
      == Failure(IllegalState(SavedStateNeedsSavedStateFactory))
  {
    var m := FactoryMap([t], map[t := AbstractViewModelFactory(factoryClass, None, Some(c))]);
    assert WellFormed(m);
  }
}
