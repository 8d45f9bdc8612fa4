# ViewModelInject, modelled in Dafny

ViewModelInject makes Android `ViewModel`s injectable with Dagger. It has two halves, and this
project models the core of both.

**The annotation processor.** It finds every class with a `@ViewModelInject` constructor and
validates it:
- the class is not private;
- a nested class is static;
- the class is a `ViewModel`;
- it has one annotated, non-private constructor.

It then checks the constructor's parameters:
- the only `@Assisted` parameter allowed is `SavedStateHandle savedStateHandle`;
- no two provided parameters share a key.

For each target that passes, it describes a per-class factory. That factory implements either
`ViewModelBasicFactory` or `ViewModelSavedStateFactory`.

Across rounds the processor also tracks the one `@ViewModelModule`. For that module it writes the
aggregating Dagger module `ViewModelInject_<Module>`, with one `@Binds @IntoMap @ClassKey` method
per target. At the end of processing it requires the user's module to include the generated one.

**The runtime factories.**
- `ViewModelFactory` and `SavedStateViewModelFactory` look a requested class up in the injected
  class-keyed map: the exact key first, else the first registered subclass.
- They then dispatch on the kind of the registered factory.
- An unknown class is an `IllegalStateException`. A factory of the wrong kind is one too in
  `ViewModelFactory`; `SavedStateViewModelFactory` throws it inside its `try`, so it leaves
  wrapped in a `RuntimeException`.
- An `Exception` a factory throws is rethrown wrapped in a `RuntimeException`.

Modules:
- `JavaModel` (java_model.dfy) holds JavaPoet class names, reflection names and type and method
  descriptions.
- `Hierarchy` (hierarchy.dfy) holds the superclass relation, which stands for `Types.isSubtype`
  and `Class.isAssignableFrom`.
- `ViewModelInjectionModule` (injection_module.dfy) is the generated module's description.
- `InjectRules` (inject_rules.dfy) states every processor rule as a function from declarations to
  the diagnostics reported and the value yielded.
- `ViewModelInjectProcessor` (processor.dfy) is the processor as a class with the cross-round
  field `userModule`, the reported diagnostics and the written files. Its methods run the checks
  step by step, in the source's order, and are proved to follow `InjectRules`.
- `FactoryLookup` (factory_lookup.dfy) holds the lookup the two runtime factories share, with the
  key-set loop as a method.
- `ViewModelFactories` (view_model_factory.dfy) and `SavedStateFactories`
  (saved_state_factory.dfy) are the two runtime factories, as classes over the specifying
  functions `BasicCreate` and `SavedStateCreate`.

Diagnostics are modelled as `(kind, message, element)` triples. A message is an identifier that
carries the values the source prints: the found keys and the duplicate requests. Exceptions are
`Failure` values of a `Result`.

Three behaviours of the code that the model keeps:
- Candidates are not deduplicated. The candidate list maps each annotated constructor to its
  class without `distinct` (ViewModelInjectProcessor.kt:139-142), so a class with two annotated
  constructors is examined twice.
- A claimed module binds only the structurally valid targets of the current round
  (`viewModelInjectElements`, ViewModelInjectProcessor.kt:75-83).
- A conflict between two modules sets `userModule = null` (ViewModelInjectProcessor.kt:88-93), so
  a module found in a later round is claimed again.

## Model

| member | source | states |
|---|---|---|
| JavaModel.Replace | viewmodel-inject-processor/src/main/java/com/vikingsen/inject/viewmodel/processor/ViewModelInjectionModule.kt:69 | `replace('.', '_')` keeps the length and rewrites exactly the occurrences of the character |
| JavaModel.PeerClassWithReflectionNesting | viewmodel-inject-processor/src/main/java/com/vikingsen/inject/viewmodel/processor/ViewModelInjectionModule.kt:71 | the peer class is top level in the same package, and for a top-level class it is named exactly the given name |
| Hierarchy.SubtypeThroughBase | viewmodel-inject-processor/src/main/java/com/vikingsen/inject/viewmodel/processor/ViewModelInjectProcessor.kt:160 | the subtype test is transitive: a class is a subtype of a target exactly when its superclass is, so a class reaching `ViewModel` through a base class is accepted like a direct subclass |
| ViewModelInjectionModule.ViewModelInjectModuleName | viewmodel-inject-processor/src/main/java/com/vikingsen/inject/viewmodel/processor/ViewModelInjectionModule.kt:71 | the generated module is a top-level peer in the module's package; for a top-level module it is named `ViewModelInject_` + the simple name |
| ViewModelInjectionModule.BrewJavaHeader | viewmodel-inject-processor/src/main/java/com/vikingsen/inject/viewmodel/processor/ViewModelInjectionModule.kt:28-43 | the generated type carries the generated name, `@Module` and `abstract` always, `public` if and only if the module is public, `@Generated` exactly when one is given, and never `private` |
| ViewModelInjectionModule.BindMethodsAt | viewmodel-inject-processor/src/main/java/com/vikingsen/inject/viewmodel/processor/ViewModelInjectionModule.kt:49-64 | there is one binding method per injected name, and the i-th method binds the i-th name |
| ViewModelInjectionModule.BrewJavaMethods | viewmodel-inject-processor/src/main/java/com/vikingsen/inject/viewmodel/processor/ViewModelInjectionModule.kt:44-64 | the methods are one private no-argument constructor, then one binding per injected name in list order and nothing else; each binding is `@Binds @IntoMap @ClassKey(<name>.class)`, is abstract, returns `AbstractViewModelFactory` and takes `<name>_AssistedFactory factory` |
| ViewModelInjectionModule.BindMethodNameShape | viewmodel-inject-processor/src/main/java/com/vikingsen/inject/viewmodel/processor/ViewModelInjectionModule.kt:69 | the bind method name is `bind_`, then the package with dots made underscores, `_`, then the nested names still joined by `$`: only package dots are rewritten |
| ViewModelInjectionModule.ModuleNameExample | viewmodel-inject-processor/src/test/java/com/vikingsen/inject/viewmodel/processor/ViewModelInjectProcessorTest.kt:88 | `test.TestModule` gets `test.ViewModelInject_TestModule` |
| ViewModelInjectionModule.BindMethodNameExample | viewmodel-inject-processor/src/test/java/com/vikingsen/inject/viewmodel/processor/ViewModelInjectProcessorTest.kt:246 | the nested `test.Outer.TestViewModel` is bound by `bind_test_Outer$TestViewModel` |
| ViewModelInjectionModule.FactoryNameExample | viewmodel-inject-processor/src/test/java/com/vikingsen/inject/viewmodel/processor/ViewModelInjectProcessorTest.kt:213 | the nested view model's factory is the top-level `test.Outer$TestViewModel_AssistedFactory` |
| InjectRules.AnnotatedConstructors | viewmodel-inject-processor/src/main/java/com/vikingsen/inject/viewmodel/processor/ViewModelInjectProcessor.kt:165-168 | filtering the constructors never adds any |
| InjectRules.AnnotatedConstructorsMembership | viewmodel-inject-processor/src/main/java/com/vikingsen/inject/viewmodel/processor/ViewModelInjectProcessor.kt:165-168 | a constructor is kept exactly when it is declared and annotated |
| InjectRules.ClassErrorsMembership | viewmodel-inject-processor/src/main/java/com/vikingsen/inject/viewmodel/processor/ViewModelInjectProcessor.kt:151-172 | each class-level error is present if and only if its check is violated; there are no class errors exactly when no check is violated; none of them is the private-constructor error |
| InjectRules.AllClassViolationsReported | viewmodel-inject-processor/src/main/java/com/vikingsen/inject/viewmodel/processor/ViewModelInjectProcessor.kt:151-174 | every failing class-level check is reported against the class, whatever else fails, and a passing one is not |
| InjectRules.PrivateConstructorCheckedLast | viewmodel-inject-processor/src/main/java/com/vikingsen/inject/viewmodel/processor/ViewModelInjectProcessor.kt:174-180 | the private-constructor error is reported against the constructor if and only if every class-level check passed and the constructor is private |
| InjectRules.ValidatorYieldsIffSilent | viewmodel-inject-processor/src/main/java/com/vikingsen/inject/viewmodel/processor/ViewModelInjectProcessor.kt:174-182 | a target is yielded exactly when nothing was reported; it is then the class with its single, non-private annotated constructor, and the class is a `ViewModel` |
| InjectRules.Partition | viewmodel-inject-processor/src/main/java/com/vikingsen/inject/viewmodel/processor/ViewModelInjectProcessor.kt:195 | each half of the partition is no longer than the request list |
| InjectRules.PartitionMembership | viewmodel-inject-processor/src/main/java/com/vikingsen/inject/viewmodel/processor/ViewModelInjectProcessor.kt:195 | a request is in a half exactly when its assisted flag selects that half |
| InjectRules.PartitionIsPermutation | viewmodel-inject-processor/src/main/java/com/vikingsen/inject/viewmodel/processor/ViewModelInjectProcessor.kt:195 | the two halves together hold every request exactly once (as multisets) |
| InjectRules.PartitionAppend | viewmodel-inject-processor/src/main/java/com/vikingsen/inject/viewmodel/processor/ViewModelInjectProcessor.kt:195 | the partition keeps declared order: it distributes over concatenation |
| InjectRules.NamedKeys | viewmodel-inject-processor/src/main/java/com/vikingsen/inject/viewmodel/processor/ViewModelInjectProcessor.kt:196 | one key per request |
| InjectRules.ToSetMembership | viewmodel-inject-processor/src/main/java/com/vikingsen/inject/viewmodel/processor/ViewModelInjectProcessor.kt:197 | `toSet()` holds exactly the list's elements |
| InjectRules.AssistedErrorsExclusive | viewmodel-inject-processor/src/main/java/com/vikingsen/inject/viewmodel/processor/ViewModelInjectProcessor.kt:197-211 | the mismatch error (found keys in declared order, then the expected key) is reported exactly for a non-empty key set other than `{SavedStateHandle savedStateHandle}`; the missing-classpath error exactly for that set when the type is absent; never both |
| InjectRules.WithKey | viewmodel-inject-processor/src/main/java/com/vikingsen/inject/viewmodel/processor/ViewModelInjectProcessor.kt:215 | a key's group is no longer than the request list |
| InjectRules.WithKeyMembership | viewmodel-inject-processor/src/main/java/com/vikingsen/inject/viewmodel/processor/ViewModelInjectProcessor.kt:215 | a request is in a key's group exactly when it has that key |
| InjectRules.DistinctKeys | viewmodel-inject-processor/src/main/java/com/vikingsen/inject/viewmodel/processor/ViewModelInjectProcessor.kt:215 | there are no more group keys than requests; `DistinctKeysSound` and `DistinctKeysComplete` give the rest |
| InjectRules.DistinctKeysSound | viewmodel-inject-processor/src/main/java/com/vikingsen/inject/viewmodel/processor/ViewModelInjectProcessor.kt:215 | the group keys are pairwise distinct and each is the key of some request, so no group is listed twice |
| InjectRules.DistinctKeysComplete | viewmodel-inject-processor/src/main/java/com/vikingsen/inject/viewmodel/processor/ViewModelInjectProcessor.kt:215 | every request's key is a group key |
| InjectRules.LargeGroupsMembership | viewmodel-inject-processor/src/main/java/com/vikingsen/inject/viewmodel/processor/ViewModelInjectProcessor.kt:215 | a request is in the flattened groups exactly when its key is among the given keys and its group has more than one member |
| InjectRules.DuplicateRequestsMembership | viewmodel-inject-processor/src/main/java/com/vikingsen/inject/viewmodel/processor/ViewModelInjectProcessor.kt:215-219 | a request is listed as a duplicate exactly when its key's group has more than one member |
| InjectRules.TwoWithKey | viewmodel-inject-processor/src/main/java/com/vikingsen/inject/viewmodel/processor/ViewModelInjectProcessor.kt:215 | a group has more than one member exactly when two positions of the list carry its key |
| InjectRules.NoDuplicatesIffKeysUnique | viewmodel-inject-processor/src/main/java/com/vikingsen/inject/viewmodel/processor/ViewModelInjectProcessor.kt:215-223 | the duplicate list is empty exactly when no two provided requests share a key |
| InjectRules.SynthesisSucceedsIff | viewmodel-inject-processor/src/main/java/com/vikingsen/inject/viewmodel/processor/ViewModelInjectProcessor.kt:192-226 | a factory is produced exactly when the assisted group is empty or is the handle with the type present, and the provided keys are distinct; an empty provided group only warns |
| InjectRules.DuplicateErrorIff | viewmodel-inject-processor/src/main/java/com/vikingsen/inject/viewmodel/processor/ViewModelInjectProcessor.kt:213-224 | provided parameters sharing a key give one error on the constructor that lists every request of each duplicate group, and that error is reported exactly when the provided group is non-empty and its keys repeat |
| InjectRules.AssistedParametersAreTheHandle | viewmodel-inject-processor/src/main/java/com/vikingsen/inject/viewmodel/processor/ViewModelInjectProcessor.kt:320-322 | when the assisted keys form the expected set, every assisted parameter is `SavedStateHandle savedStateHandle` |
| InjectRules.FactoryChoice | viewmodel-inject-processor/src/main/java/com/vikingsen/inject/viewmodel/processor/ViewModelInjectProcessor.kt:228-236 | a produced factory keeps every request in declared order; it is the basic factory with no assisted keys exactly when no parameter is assisted, and otherwise the saved-state factory with exactly `SAVED_STATE_FACTORY_KEY` |
| InjectRules.FindModuleDiagnostics | viewmodel-inject-processor/src/main/java/com/vikingsen/inject/viewmodel/processor/ViewModelInjectProcessor.kt:250-259 | zero or one module reports nothing |
| InjectRules.ToViewModelInjectionModule | viewmodel-inject-processor/src/main/java/com/vikingsen/inject/viewmodel/processor/ViewModelInjectProcessor.kt:273-279 | the description names the module, is public if and only if the module is, and lists the view-model types' names in order |
| InjectRules.TargetTypes | viewmodel-inject-processor/src/main/java/com/vikingsen/inject/viewmodel/processor/ViewModelInjectProcessor.kt:269 | one type per target |
| InjectRules.MultipleModulesInOneRound | viewmodel-inject-processor/src/main/java/com/vikingsen/inject/viewmodel/processor/ViewModelInjectProcessor.kt:250-257 | with several modules in a round, each gets the error, nothing is written and the claim is unchanged |
| InjectRules.SingleModuleRound | viewmodel-inject-processor/src/main/java/com/vikingsen/inject/viewmodel/processor/ViewModelInjectProcessor.kt:82-100 | a module without `@dagger.Module` is an error and changes nothing; a module found while another is claimed gives both an error and clears the claim; otherwise it is claimed and its module, binding every target of the round in order, is written |
| InjectRules.ConflictThenLaterModule | viewmodel-inject-processor/src/main/java/com/vikingsen/inject/viewmodel/processor/ViewModelInjectProcessor.kt:88-95 | after two modules conflict, a module of a later round is claimed again |
| InjectRules.MissingIncludeReportedOnce | viewmodel-inject-processor/src/main/java/com/vikingsen/inject/viewmodel/processor/ViewModelInjectProcessor.kt:104-129 | at the end, a claimed module not including `ViewModelInject_<Simple>` gets exactly one error against itself; nothing is reported before the end or without a claim |
| InjectRules.ValidatedTargetsMembership | viewmodel-inject-processor/src/main/java/com/vikingsen/inject/viewmodel/processor/ViewModelInjectProcessor.kt:75-76 | a target is validated exactly when some candidate yields it |
| InjectRules.AssociateWithNotNullMembership | viewmodel-inject-processor/src/main/java/com/vikingsen/inject/viewmodel/processor/ViewModelInjectProcessor.kt:78-80 | a value is in the map exactly when some key maps to it |
| InjectRules.AssociateWithNotNullSize | viewmodel-inject-processor/src/main/java/com/vikingsen/inject/viewmodel/processor/ViewModelInjectProcessor.kt:78-80 | there are no more values than distinct keys |
| InjectRules.KeysWithValueMembership | viewmodel-inject-processor/src/main/java/com/vikingsen/inject/viewmodel/processor/ViewModelInjectProcessor.kt:79 | the counted keys are exactly the listed keys that map to a value |
| InjectRules.AssociateWithNotNullCount | viewmodel-inject-processor/src/main/java/com/vikingsen/inject/viewmodel/processor/ViewModelInjectProcessor.kt:78-80 | there is exactly one value per distinct key that maps to a value: a repeated key or a key mapping to `null` adds nothing |
| InjectRules.InjectionsMembership | viewmodel-inject-processor/src/main/java/com/vikingsen/inject/viewmodel/processor/ViewModelInjectProcessor.kt:78-80 | a factory is written exactly for a target whose parameter check passed |
| InjectRules.InjectionsCount | viewmodel-inject-processor/src/main/java/com/vikingsen/inject/viewmodel/processor/ViewModelInjectProcessor.kt:78-80 | there are exactly as many factories as distinct targets whose parameter check passed, so no target gets two |
| InjectRules.ModuleBindsValidatedTargets | viewmodel-inject-processor/src/main/java/com/vikingsen/inject/viewmodel/processor/ViewModelInjectProcessor.kt:82-83 | a claimed module binds every structurally valid target of the round, even one whose parameter check failed |
| ViewModelInjectProcessor.Processor.constructor | viewmodel-inject-processor/src/main/java/com/vikingsen/inject/viewmodel/processor/ViewModelInjectProcessor.kt:56 | a new processor has claimed no module, reported nothing and written nothing |
| ViewModelInjectProcessor.Processor.ReportError | viewmodel-inject-processor/src/main/java/com/vikingsen/inject/viewmodel/processor/ViewModelInjectProcessor.kt:302-304 | appends one error |
| ViewModelInjectProcessor.Processor.ReportWarning | viewmodel-inject-processor/src/main/java/com/vikingsen/inject/viewmodel/processor/ViewModelInjectProcessor.kt:298-300 | appends one warning |
| ViewModelInjectProcessor.Processor.ReportClassErrors | viewmodel-inject-processor/src/main/java/com/vikingsen/inject/viewmodel/processor/ViewModelInjectProcessor.kt:151-172 | appends exactly the class errors and keeps `valid` true if and only if there are none |
| ViewModelInjectProcessor.Processor.ToViewModelInjectElementsOrNull | viewmodel-inject-processor/src/main/java/com/vikingsen/inject/viewmodel/processor/ViewModelInjectProcessor.kt:150-183 | appends exactly the validator's diagnostics and returns the validated target |
| ViewModelInjectProcessor.Processor.ToAssistedInjectionOrNull | viewmodel-inject-processor/src/main/java/com/vikingsen/inject/viewmodel/processor/ViewModelInjectProcessor.kt:191-237 | appends exactly the parameter check's diagnostics and returns the synthesized factory description |
| ViewModelInjectProcessor.Processor.FindViewModelModuleTypeElement | viewmodel-inject-processor/src/main/java/com/vikingsen/inject/viewmodel/processor/ViewModelInjectProcessor.kt:250-259 | reports each module when there are several and returns the module only when there is exactly one |
| ViewModelInjectProcessor.Processor.ToViewModelModuleElementsOrNull | viewmodel-inject-processor/src/main/java/com/vikingsen/inject/viewmodel/processor/ViewModelInjectProcessor.kt:261-271 | a non-Dagger module is reported and refused; a Dagger module is paired with the round's target types |
| ViewModelInjectProcessor.Processor.ValidateCandidates | viewmodel-inject-processor/src/main/java/com/vikingsen/inject/viewmodel/processor/ViewModelInjectProcessor.kt:75-76 | returns the validated targets in candidate order and appends every candidate's diagnostics in that order |
| ViewModelInjectProcessor.Processor.WriteFactories | viewmodel-inject-processor/src/main/java/com/vikingsen/inject/viewmodel/processor/ViewModelInjectProcessor.kt:78-80 | appends every target's parameter diagnostics and writes one factory per distinct target that passed, in first-seen order |
| ViewModelInjectProcessor.Processor.HandleModules | viewmodel-inject-processor/src/main/java/com/vikingsen/inject/viewmodel/processor/ViewModelInjectProcessor.kt:82-100 | the claim, reports and written modules follow the module rule of the round |
| ViewModelInjectProcessor.Processor.CheckModuleIncludes | viewmodel-inject-processor/src/main/java/com/vikingsen/inject/viewmodel/processor/ViewModelInjectProcessor.kt:104-130 | appends exactly the end-of-processing include diagnostics |
| ViewModelInjectProcessor.Processor.Process | viewmodel-inject-processor/src/main/java/com/vikingsen/inject/viewmodel/processor/ViewModelInjectProcessor.kt:74-133 | one round moves the claim, the reports and the written factories and modules exactly as the round rule says |
| FactoryLookup.WrapExceptions | viewmodel-inject/src/main/java/com/vikingsen/inject/viewmodel/ViewModelFactory.java:38-42 | a success passes unchanged, an `Exception` is wrapped in a `RuntimeException`, an `Error` passes unwrapped |
| FactoryLookup.FirstAssignable | viewmodel-inject/src/main/java/com/vikingsen/inject/viewmodel/ViewModelFactory.java:28-35 | a key found is registered and assignable to the requested class |
| FactoryLookup.Lookup | viewmodel-inject/src/main/java/com/vikingsen/inject/viewmodel/ViewModelFactory.java:27-35 | a key found has an entry and is assignable to the requested class |
| FactoryLookup.FirstAssignableSpec | viewmodel-inject/src/main/java/com/vikingsen/inject/viewmodel/ViewModelFactory.java:28-35 | nothing is found exactly when no key is assignable; otherwise the key found is assignable and no earlier key is |
| FactoryLookup.LookupSpec | viewmodel-inject/src/main/java/com/vikingsen/inject/viewmodel/ViewModelFactory.java:27-35 | an exact key always wins; nothing is found exactly when no key is assignable; without an exact key the first assignable key in iteration order is taken |
| FactoryLookup.FindFactory | viewmodel-inject/src/main/java/com/vikingsen/inject/viewmodel/savedstate/SavedStateViewModelFactory.java:31-39 | the `get`-then-loop-with-`break` search returns the lookup's key: registered and assignable when found, absent exactly when no key is assignable |
| ViewModelFactories.ViewModelFactory.constructor | viewmodel-inject/src/main/java/com/vikingsen/inject/viewmodel/ViewModelFactory.java:18-21 | stores the map |
| ViewModelFactories.ViewModelFactory.New | viewmodel-inject/src/main/java/com/vikingsen/inject/viewmodel/ViewModelFactory.java:18-21 | a null map throws `NullPointerException`; otherwise a new factory holds the map |
| ViewModelFactories.ViewModelFactory.Create | viewmodel-inject/src/main/java/com/vikingsen/inject/viewmodel/ViewModelFactory.java:26-50 | returns or throws exactly what `BasicCreate` says for the stored map |
| ViewModelFactories.BasicCreateSucceedsIff | viewmodel-inject/src/main/java/com/vikingsen/inject/viewmodel/ViewModelFactory.java:36-42 | a view model is returned exactly when the factory found is basic and builds one; it is that factory's result unchanged, without a handle |
| ViewModelFactories.BasicCreateUnknownIff | viewmodel-inject/src/main/java/com/vikingsen/inject/viewmodel/ViewModelFactory.java:49 | "Unknown model class" is thrown exactly when no registered key is a subclass of the request |
| ViewModelFactories.BasicFactoryThrows | viewmodel-inject/src/main/java/com/vikingsen/inject/viewmodel/ViewModelFactory.java:37-42 | an `Exception` from the basic factory leaves wrapped in a `RuntimeException`, an `Error` unwrapped |
| ViewModelFactories.BasicCreateServesSubclass | viewmodel-inject/src/main/java/com/vikingsen/inject/viewmodel/ViewModelFactory.java:28-35 | for any registry, without an exact key a request is answered exactly as a request for the key the lookup found (the first registered subclass in iteration order) |
| ViewModelFactories.BasicCreateRefusesSavedStateFactory | viewmodel-inject/src/main/java/com/vikingsen/inject/viewmodel/ViewModelFactory.java:43-44 | for any registry, a found factory that is a saved-state factory only is refused with `IllegalStateException` and never called |
| ViewModelFactories.InMapExample | viewmodel-inject/src/test/java/com/vikingsen/inject/viewmodel/ViewModelFactoryTest.kt:10-17 | a class registered to a basic factory gets that factory's view model |
| ViewModelFactories.NotInMapExample | viewmodel-inject/src/test/java/com/vikingsen/inject/viewmodel/ViewModelFactoryTest.kt:19-23 | an empty map throws `IllegalStateException` "Unknown model class" |
| ViewModelFactories.SavedStateFactoryExample | viewmodel-inject/src/test/java/com/vikingsen/inject/viewmodel/ViewModelFactoryTest.kt:25-30 | a saved-state factory is refused with `IllegalStateException` and is never called |
| SavedStateFactories.SavedStateViewModelFactory.constructor | viewmodel-inject/src/main/java/com/vikingsen/inject/viewmodel/savedstate/SavedStateViewModelFactory.java:23-26 | stores the map, the owner and the default arguments, checking none |
| SavedStateFactories.SavedStateViewModelFactory.Create | viewmodel-inject/src/main/java/com/vikingsen/inject/viewmodel/savedstate/SavedStateViewModelFactory.java:30-48 | returns or throws exactly what `SavedStateCreate` says for the stored map, whatever the key |
| SavedStateFactories.Factory.constructor | viewmodel-inject/src/main/java/com/vikingsen/inject/viewmodel/savedstate/SavedStateViewModelFactory.java:66-69 | stores the map |
| SavedStateFactories.Factory.New | viewmodel-inject/src/main/java/com/vikingsen/inject/viewmodel/savedstate/SavedStateViewModelFactory.java:66-69 | a null map throws `NullPointerException`; otherwise a new factory holds the map |
| SavedStateFactories.Factory.Create | viewmodel-inject/src/main/java/com/vikingsen/inject/viewmodel/savedstate/SavedStateViewModelFactory.java:71-73 | a new view-model factory shares this map and holds the owner and arguments given |
| SavedStateFactories.Factory.CreateForOwner | viewmodel-inject/src/main/java/com/vikingsen/inject/viewmodel/savedstate/SavedStateViewModelFactory.java:75-77 | the same with no default arguments |
| SavedStateFactories.CreateForOwnerAgrees | viewmodel-inject/src/main/java/com/vikingsen/inject/viewmodel/savedstate/SavedStateViewModelFactory.java:71-77 | given the same handle, factories made by `create(owner)` and `create(owner, args)` answer every request alike, whatever key the provider passes |
| SavedStateFactories.SavedStateCreateSucceedsIff | viewmodel-inject/src/main/java/com/vikingsen/inject/viewmodel/savedstate/SavedStateViewModelFactory.java:52-58 | a view model is returned exactly when the factory found builds one, through its saved-state side (given the very handle passed in) when it has one, else through its basic side without a handle |
| SavedStateFactories.SavedStateCreateUnknownIff | viewmodel-inject/src/main/java/com/vikingsen/inject/viewmodel/savedstate/SavedStateViewModelFactory.java:47 | "Unknown model class" is thrown exactly when no registered key is a subclass of the request |
| SavedStateFactories.InvalidFactoryTypeIsWrapped | viewmodel-inject/src/main/java/com/vikingsen/inject/viewmodel/savedstate/SavedStateViewModelFactory.java:40-46 | a factory of neither kind gives "Invalid Factory Type" wrapped in a `RuntimeException` here, and unwrapped in `ViewModelFactory` |
| SavedStateFactories.FactoriesAgreeOnBasicFactories | viewmodel-inject/src/main/java/com/vikingsen/inject/viewmodel/savedstate/SavedStateViewModelFactory.java:52-58 | when every registered factory is basic only, both factories answer every request alike and the handle plays no part |
| SavedStateFactories.DualFactoryPreference | viewmodel-inject/src/main/java/com/vikingsen/inject/viewmodel/savedstate/SavedStateViewModelFactory.java:53-57 | a factory of both kinds is used through its saved-state side here and through its basic side by `ViewModelFactory` |
| Hierarchy.IsSubtype | viewmodel-inject-processor/src/main/java/com/vikingsen/inject/viewmodel/processor/ViewModelInjectProcessor.kt:160 | the subtype test, stated by `SubtypeThroughBase` (transitivity through the superclass) and used by every check that needs `isSubtype` or `isAssignableFrom` |
| JavaModel.ReflectionName | viewmodel-inject-processor/src/main/java/com/vikingsen/inject/viewmodel/processor/ViewModelInjectionModule.kt:69 | JavaPoet's reflection name; its shape inside the bind method name is stated by `BindMethodNameShape` and `BindMethodNameExample` |
| JavaModel.AssistedInjectFactoryName | viewmodel-inject-processor/src/main/java/com/vikingsen/inject/viewmodel/processor/ViewModelInjectionModule.kt:61 | the `<Nesting>_AssistedFactory` peer class; stated by `FactoryNameExample` and used by `BrewJavaMethods` |
| ViewModelInjectionModule.BrewJava | viewmodel-inject-processor/src/main/java/com/vikingsen/inject/viewmodel/processor/ViewModelInjectionModule.kt:30-66 | the generated type; its header is stated by `BrewJavaHeader` and its methods by `BrewJavaMethods` and `BindMethodsAt` |
| ViewModelInjectionModule.BindMethodName | viewmodel-inject-processor/src/main/java/com/vikingsen/inject/viewmodel/processor/ViewModelInjectionModule.kt:69 | the bind method name; stated by `BindMethodNameShape` and `BindMethodNameExample` |
| InjectRules.ClassErrors | viewmodel-inject-processor/src/main/java/com/vikingsen/inject/viewmodel/processor/ViewModelInjectProcessor.kt:151-172 | the class-level errors; stated by `ClassErrorsMembership` and `AllClassViolationsReported` |
| InjectRules.TargetDiagnostics | viewmodel-inject-processor/src/main/java/com/vikingsen/inject/viewmodel/processor/ViewModelInjectProcessor.kt:150-183 | everything the validator reports; stated by `AllClassViolationsReported` and `PrivateConstructorCheckedLast` |
| InjectRules.ValidatedTarget | viewmodel-inject-processor/src/main/java/com/vikingsen/inject/viewmodel/processor/ViewModelInjectProcessor.kt:174-182 | what the validator yields; stated by `ValidatorYieldsIffSilent` |
| InjectRules.SynthesisDiagnostics | viewmodel-inject-processor/src/main/java/com/vikingsen/inject/viewmodel/processor/ViewModelInjectProcessor.kt:194-224 | everything the parameter check reports; stated by `AssistedErrorsExclusive`, `NoDuplicatesIffKeysUnique`, `DuplicateErrorIff` and `SynthesisSucceedsIff` |
| InjectRules.Synthesized | viewmodel-inject-processor/src/main/java/com/vikingsen/inject/viewmodel/processor/ViewModelInjectProcessor.kt:191-237 | the parameter check's result; stated by `SynthesisSucceedsIff` and `FactoryChoice` |
| InjectRules.MakeInjection | viewmodel-inject-processor/src/main/java/com/vikingsen/inject/viewmodel/processor/ViewModelInjectProcessor.kt:228-236 | the factory description; stated by `FactoryChoice` |
| InjectRules.DuplicateRequests | viewmodel-inject-processor/src/main/java/com/vikingsen/inject/viewmodel/processor/ViewModelInjectProcessor.kt:215-219 | the requests listed by the duplicate error; stated by `DuplicateRequestsMembership` and `NoDuplicatesIffKeysUnique` |
| InjectRules.AssociateWithNotNull | viewmodel-inject-processor/src/main/java/com/vikingsen/inject/viewmodel/processor/ViewModelInjectProcessor.kt:78-80 | Kotlin's `associateWithNotNull` in insertion order; stated by `AssociateWithNotNullMembership` and `AssociateWithNotNullCount` |
| InjectRules.Injections | viewmodel-inject-processor/src/main/java/com/vikingsen/inject/viewmodel/processor/ViewModelInjectProcessor.kt:78-80 | the factories written in a round; stated by `InjectionsMembership` and `InjectionsCount` |
| InjectRules.ModuleRound | viewmodel-inject-processor/src/main/java/com/vikingsen/inject/viewmodel/processor/ViewModelInjectProcessor.kt:82-100 | one round's module handling; stated by `MultipleModulesInOneRound`, `SingleModuleRound` and `ConflictThenLaterModule` |
| InjectRules.FinalDiagnostics | viewmodel-inject-processor/src/main/java/com/vikingsen/inject/viewmodel/processor/ViewModelInjectProcessor.kt:104-130 | the end-of-processing include check; stated by `MissingIncludeReportedOnce` |
| InjectRules.ProcessRound | viewmodel-inject-processor/src/main/java/com/vikingsen/inject/viewmodel/processor/ViewModelInjectProcessor.kt:74-133 | one whole round; stated by `ModuleBindsValidatedTargets` and, through its parts, by the lemmas above; `ViewModelInjectProcessor.Processor.Process` is proved to follow it |
| ViewModelFactories.BasicCreate | viewmodel-inject/src/main/java/com/vikingsen/inject/viewmodel/ViewModelFactory.java:26-50 | what `create(modelClass)` returns or throws; stated by `BasicCreateSucceedsIff`, `BasicCreateUnknownIff`, `BasicFactoryThrows`, `BasicCreateServesSubclass` and `BasicCreateRefusesSavedStateFactory` |
| SavedStateFactories.CreateViewModel | viewmodel-inject/src/main/java/com/vikingsen/inject/viewmodel/savedstate/SavedStateViewModelFactory.java:52-60 | the kind dispatch, saved-state first; stated by `SavedStateCreateSucceedsIff`, `InvalidFactoryTypeIsWrapped` and `DualFactoryPreference` |
| SavedStateFactories.SavedStateCreate | viewmodel-inject/src/main/java/com/vikingsen/inject/viewmodel/savedstate/SavedStateViewModelFactory.java:30-48 | what `create(key, modelClass, handle)` returns or throws; stated by `SavedStateCreateSucceedsIff`, `SavedStateCreateUnknownIff`, `InvalidFactoryTypeIsWrapped` and `FactoriesAgreeOnBasicFactories` |

## Left out

- Annotation-processing I/O (`Filer`, `JavaFile.writeTo`, `Messager`, `RoundEnvironment`) is not modelled. Written files are recorded as the descriptions in `writtenFactories` and `writtenModules`. Diagnostics are recorded as message identifiers, not message text.
- `findViewModelInjectCandidateTypeElements` is left to the host: each round supplies the candidate classes, the `@ViewModelModule` classes and, per module, the classes its `@Module(includes = …)` resolves to.
- `castEach` and `single()` failures cannot occur in the model: a candidate has at least one annotated constructor by construction.
- The external AssistedInject library is not modelled (`asDependencyRequest`, `AssistedInjection.brewJava`, the `NamedKey` text format). The classifier's output is an input: each parameter's key, name and assisted flag.
- `peerClassWithReflectionNesting` and `assistedInjectFactoryName` come from that library. They are modelled by the names the generated code shows.
- `createGeneratedAnnotation` (`GeneratedAnnotation.kt`) is not part of this model. The annotation it yields is a constructor parameter of the processor.
- Interfaces are not modelled in the type relation: a class's supertypes are its superclass chain. `Types.isSubtype` and `Class.isAssignableFrom` are given by that relation.
- `userModule` holds a class name, not the qualified-name string that `elements.getTypeElement` resolves again.
- A `null` value stored in the runtime factory map is not modelled. Java would treat it as a missing entry during the exact lookup.
- Unchecked casts to `T` and the `ClassCastException` they could raise are not modelled.
- The super constructor of `AbstractSavedStateVMFactory` is not modelled. The owner and the default arguments are stored as opaque values.
- CreateForOwnerAgrees: states agreement given the same handle. The default arguments reach the handle only through the `AbstractSavedStateVMFactory` super constructor, which is not modelled, so the handles the two factories would pass are not compared.
- The provider's storage key passed to `create(key, modelClass, handle)` plays no part in the source, and none in the model.
- DuplicateRequestsMembership: states which requests the duplicate error lists, not how many times nor in which group order.
