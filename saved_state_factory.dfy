/**
 * `SavedStateViewModelFactory`, the factory for view models that may take a `SavedStateHandle`,
 * and its injectable `Factory`, which binds the factory map to a saved-state registry owner.
 */
module SavedStateFactories {
  import opened Wrappers
  import opened JavaModel
  import opened Hierarchy
  import opened FactoryLookup
  import ViewModelFactories

  /** A `SavedStateRegistryOwner` (an activity or a fragment), known only by its identity. */
  datatype Owner = Owner(id: nat)

  /** The default arguments `Bundle` handed to the saved-state machinery. */
  datatype Bundle = Bundle(id: nat)

  /**
   * `createViewModel(factory, handle)`: a saved-state factory is preferred and gets the handle, a
   * basic factory is called without it, and anything else is an invalid factory type.
   */
  function CreateViewModel(f: AbstractViewModelFactory, handle: SavedStateHandle): Result<ViewModel, Thrown> {
    if f.savedState.Some? then RunSavedState(f.savedState.value, handle)
    else if f.basic.Some? then RunBasic(f.basic.value)
    else Failure(IllegalState(InvalidFactoryType(f.runtimeClass)))
  }

  /**
   * What `create(key, modelClass, handle)` returns or throws: an unknown class, or the outcome
   * of `createViewModel` with every `Exception` it throws, the invalid factory type included,
   * wrapped in a `RuntimeException`.
   */
  function SavedStateCreate(h: Superclasses, m: Registry, modelClass: ClassName, handle: SavedStateHandle): Result<ViewModel, Thrown> {
    match Lookup(h, m, modelClass)
    case None => Failure(IllegalState(UnknownModelClass(modelClass)))
    case Some(k) => WrapExceptions(CreateViewModel(m.entries[k], handle))
  }

  class SavedStateViewModelFactory {
    const factories: Registry
    const owner: Owner
    const defaultArgs: Option<Bundle>

    /** The package-private constructor: it stores its arguments and checks none of them. */
    constructor (factories: Registry, owner: Owner, defaultArgs: Option<Bundle>)
      ensures this.factories == factories && this.owner == owner && this.defaultArgs == defaultArgs
    {
      this.factories := factories;
      this.owner := owner;
      this.defaultArgs := defaultArgs;
    }

    /** `create(key, modelClass, handle)`; the key the provider stores the view model under plays no part. */
    method Create(h: Superclasses, key: string, modelClass: ClassName, handle: SavedStateHandle) returns (r: Result<ViewModel, Thrown>)
      ensures r == SavedStateCreate(h, factories, modelClass, handle)
    {
      var found := FindFactory(h, factories, modelClass);
      if found.None? {
        return Failure(IllegalState(UnknownModelClass(modelClass)));
      }
      var created := CreateViewModel(factories.entries[found.value], handle);
      r := WrapExceptions(created);
    }
  }

  /** `SavedStateViewModelFactory.Factory`, the injectable entry point. */
  class Factory {
    const factories: Registry

    constructor (factories: Registry)
      ensures this.factories == factories
    {
      this.factories := factories;
    }

    /** The injected constructor: a `null` map is refused with a `NullPointerException`. */
    static method New(factories: Option<Registry>) returns (r: Result<Factory, Thrown>)
      ensures factories.None? <==> r.Failure?
      ensures r.Failure? ==> r.error == NullPointer
      ensures r.Success? ==> fresh(r.value) && r.value.factories == factories.value
    {
      if factories.None? {
        return Failure(NullPointer);
      }
      var f := new Factory(factories.value);
      return Success(f);
    }

    /** `create(owner, defaultArgs)`: a new view-model factory sharing this map. */
    method Create(owner: Owner, defaultArgs: Option<Bundle>) returns (f: SavedStateViewModelFactory)
      ensures fresh(f)
      ensures f.factories == factories && f.owner == owner && f.defaultArgs == defaultArgs
    {
      f := new SavedStateViewModelFactory(factories, owner, defaultArgs);
    }

    /** `create(owner)`: the same with no default arguments. */
    method CreateForOwner(owner: Owner) returns (f: SavedStateViewModelFactory)
      ensures fresh(f)
      ensures f.factories == factories && f.owner == owner && f.defaultArgs.None?
    {
      f := Create(owner, None);
    }
  }

  /**
   * A view model comes out exactly when the lookup finds a factory that builds one: through its
   * saved-state side, which receives the very handle passed in, when it has one, and otherwise
   * through its basic side, without a handle.
   */
  lemma SavedStateCreateSucceedsIff(h: Superclasses, m: Registry, modelClass: ClassName, handle: SavedStateHandle)
    ensures SavedStateCreate(h, m, modelClass, handle).Success? <==>
      && Lookup(h, m, modelClass).Some?
      && var f := m.entries[Lookup(h, m, modelClass).value];
         if f.savedState.Some? then f.savedState.value.Creates? else f.basic.Some? && f.basic.value.Creates?
    ensures SavedStateCreate(h, m, modelClass, handle).Success? ==>
      var f := m.entries[Lookup(h, m, modelClass).value];
      SavedStateCreate(h, m, modelClass, handle).value ==
        if f.savedState.Some? then ViewModel(f.savedState.value.instanceClass, Some(handle))
        else ViewModel(f.basic.value.instanceClass, None)
  {
  }

  /** "Unknown model class" is thrown exactly when no registered key is a subclass of the request. */
  lemma SavedStateCreateUnknownIff(h: Superclasses, m: Registry, modelClass: ClassName, handle: SavedStateHandle)
    ensures SavedStateCreate(h, m, modelClass, handle) == Failure(IllegalState(UnknownModelClass(modelClass))) <==>
      forall k :: k in m.keys ==> !IsSubtype(h, k, modelClass)
  {
    LookupSpec(h, m, modelClass);
  }

  /**
   * Unlike `ViewModelFactory`, this factory throws the invalid factory type from inside its
   * `try`, so it leaves `create` wrapped in a `RuntimeException`.
   */
  lemma InvalidFactoryTypeIsWrapped(h: Superclasses, m: Registry, modelClass: ClassName, handle: SavedStateHandle)
    requires Lookup(h, m, modelClass).Some?
    requires m.entries[Lookup(h, m, modelClass).value].basic.None?
    requires m.entries[Lookup(h, m, modelClass).value].savedState.None?
    ensures SavedStateCreate(h, m, modelClass, handle) ==
      Failure(WrappedInRuntimeException(IllegalState(InvalidFactoryType(m.entries[Lookup(h, m, modelClass).value].runtimeClass))))
    ensures ViewModelFactories.BasicCreate(h, m, modelClass) ==
      Failure(IllegalState(InvalidFactoryType(m.entries[Lookup(h, m, modelClass).value].runtimeClass)))
  {
  }

  /**
   * When every registered factory is a basic one only, the two factories serve every request
   * alike, and the handle plays no part.
   */
  lemma FactoriesAgreeOnBasicFactories(h: Superclasses, m: Registry, modelClass: ClassName, handle: SavedStateHandle)
    requires forall k :: k in m.entries ==> m.entries[k].basic.Some? && m.entries[k].savedState.None?
    ensures SavedStateCreate(h, m, modelClass, handle) == ViewModelFactories.BasicCreate(h, m, modelClass)
  {
  }

  /**
   * A factory implementing both interfaces is used through its saved-state side here and
   * through its basic side by `ViewModelFactory`.
   */
  lemma DualFactoryPreference(h: Superclasses, m: Registry, modelClass: ClassName, handle: SavedStateHandle, viaBasic: ClassName, viaSavedState: ClassName)
    requires Lookup(h, m, modelClass).Some?
    requires m.entries[Lookup(h, m, modelClass).value].basic == Some(Creates(viaBasic))
    requires m.entries[Lookup(h, m, modelClass).value].savedState == Some(Creates(viaSavedState))
    ensures SavedStateCreate(h, m, modelClass, handle) == Success(ViewModel(viaSavedState, Some(handle)))
    ensures ViewModelFactories.BasicCreate(h, m, modelClass) == Success(ViewModel(viaBasic, None))
  {
  }

  /** `create(owner)` yields a factory that behaves as the one `create(owner, defaultArgs)` yields. */
  method CreateForOwnerAgrees(factory: Factory, owner: Owner, args: Option<Bundle>, h: Superclasses, modelClass: ClassName, handle: SavedStateHandle)
    returns (same: bool)
    ensures same
  {
    var a := factory.CreateForOwner(owner);
    var b := factory.Create(owner, args);
    var ra := a.Create(h, "a", modelClass, handle);
    var rb := b.Create(h, "b", modelClass, handle);
    same := ra == rb;
  }
}
