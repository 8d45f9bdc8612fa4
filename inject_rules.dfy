/**
 * The rules of the `@ViewModelInject` annotation processor, stated over abstract declarations:
 * the target validator, the parameter check and factory choice, the module discovery, the
 * cross-round module claim and the end-of-processing include check. Each rule is a function
 * from declarations to the diagnostics it reports and the value it yields; the processor class
 * runs them step by step and is proved to follow them.
 */
module InjectRules {
  import opened Wrappers
  import opened JavaModel
  import opened Hierarchy
  import opened ViewModelInjectionModule

  const VIEW_MODEL := ClassName("androidx.lifecycle", [], "ViewModel")
  const SAVED_STATE_HANDLE := "androidx.lifecycle.SavedStateHandle"
  const BASIC_FACTORY := ClassName("com.vikingsen.inject.viewmodel", [], "ViewModelBasicFactory")
  const SAVED_STATE_FACTORY := ClassName("com.vikingsen.inject.viewmodel.savedstate", [], "ViewModelSavedStateFactory")
  const SAVED_STATE_KEY := NamedKey(Key(SAVED_STATE_HANDLE, None), "savedStateHandle")
  /** The one assisted parameter a view model may declare: an unqualified `SavedStateHandle savedStateHandle`. */
  const SAVED_STATE_FACTORY_KEY: seq<NamedKey> := [SAVED_STATE_KEY]
  const FACTORY_METHOD := "create"

  // ---------------------------------------------------------------- declarations

  datatype ElementKind = PackageKind | ClassKind | InterfaceKind | EnumKind

  /** A dependency's structural key: its type and an optional qualifier. */
  datatype Key = Key(typeName: string, qualifier: Option<string>)

  datatype NamedKey = NamedKey(key: Key, name: string)

  /** One constructor parameter as the classifier reports it: its key, its name and whether it is `@Assisted`. */
  datatype DependencyRequest = DependencyRequest(namedKey: NamedKey, isAssisted: bool)

  datatype Constructor = Constructor(modifiers: set<Modifier>, annotated: bool, parameters: seq<DependencyRequest>)

  /** A class declaration: its name, modifiers, the kind of its enclosing element and its constructors. */
  datatype TypeDecl = TypeDecl(
    name: ClassName,
    modifiers: set<Modifier>,
    enclosingKind: ElementKind,
    constructors: seq<Constructor>)

  /** A `@ViewModelModule` declaration and whether it is also annotated `@dagger.Module`. */
  datatype ModuleDecl = ModuleDecl(name: ClassName, modifiers: set<Modifier>, daggerModule: bool)

  datatype InjectElements = InjectElements(targetType: TypeDecl, targetConstructor: Constructor)

  datatype ModuleElements = ModuleElements(moduleType: ModuleDecl, viewModelTypes: seq<TypeDecl>)

  /** A generic factory interface applied to the view model type. */
  datatype FactoryType = FactoryType(raw: ClassName, typeArgument: ClassName)

  /** The description of a per-class factory handed to AssistedInject's generator. */
  datatype AssistedInjection = AssistedInjection(
    targetType: ClassName,
    dependencyRequests: seq<DependencyRequest>,
    factory: FactoryType,
    factoryMethod: string,
    returnType: ClassName,
    assistedKeys: seq<NamedKey>,
    generatedAnnotation: Option<AnnotationSpec>)

  // ---------------------------------------------------------------- diagnostics

  datatype Kind = ErrorKind | WarningKind

  datatype Element = TypeElement(name: ClassName) | ConstructorElement(owner: ClassName) | NoElement

  /** The messages the processor reports; the parameterised ones carry what they list. */
  datatype Message =
    | PrivateType
    | NonStaticNestedType
    | NotViewModelSubtype
    | MultipleInjectConstructors
    | PrivateInjectConstructor
    | AssistedMismatch(found: seq<NamedKey>, expected: seq<NamedKey>)
    | SavedStateHandleMissing
    | NoProvidedParameters
    | DuplicateProvided(duplicates: seq<DependencyRequest>)
    | MultipleModules
    | NotDaggerModule
    | MissingInclude(required: string)

  datatype Diagnostic = Diagnostic(kind: Kind, message: Message, element: Element)

  function Error(m: Message, e: Element): Diagnostic {
    Diagnostic(ErrorKind, m, e)
  }

  /** Whether any of the diagnostics is an error. */
  predicate HasError(ds: seq<Diagnostic>) {
    ds != [] && (ds[0].kind == ErrorKind || HasError(ds[1..]))
  }

  lemma {:induction false} HasErrorAppend(a: seq<Diagnostic>, b: seq<Diagnostic>)
    ensures HasError(a + b) <==> HasError(a) || HasError(b)
  {
    if a == [] {
      assert a + b == b;
    } else {
      HasErrorAppend(a[1..], b);
      assert (a + b)[1..] == a[1..] + b;
    }
  }

  // ---------------------------------------------------------------- target validator

  /** The constructors carrying `@ViewModelInject`, in declaration order. */
  function AnnotatedConstructors(cs: seq<Constructor>): (r: seq<Constructor>)
    ensures |r| <= |cs|
  {
    if cs == [] then []
    else (if cs[0].annotated then [cs[0]] else []) + AnnotatedConstructors(cs[1..])
  }

  lemma {:induction false} AnnotatedConstructorsMembership(cs: seq<Constructor>, c: Constructor)
    ensures c in AnnotatedConstructors(cs) <==> c in cs && c.annotated
  {
    if cs != [] {
      AnnotatedConstructorsMembership(cs[1..], c);
      assert cs == [cs[0]] + cs[1..];
    }
  }

  /** A candidate is found through one of its annotated constructors, so it has at least one. */
  predicate IsCandidate(t: TypeDecl) {
    |AnnotatedConstructors(t.constructors)| >= 1
  }

  datatype ClassCheck = NotPrivate | StaticWhenNested | SubtypeOfViewModel | SingleInjectConstructor

  predicate Violates(h: Superclasses, t: TypeDecl, c: ClassCheck) {
    match c
    case NotPrivate => Private in t.modifiers
    case StaticWhenNested => t.enclosingKind == ClassKind && Static !in t.modifiers
    case SubtypeOfViewModel => !IsSubtype(h, t.name, VIEW_MODEL)
    case SingleInjectConstructor => |AnnotatedConstructors(t.constructors)| > 1
  }

  function CheckMessage(c: ClassCheck): Message {
    match c
    case NotPrivate => PrivateType
    case StaticWhenNested => NonStaticNestedType
    case SubtypeOfViewModel => NotViewModelSubtype
    case SingleInjectConstructor => MultipleInjectConstructors
  }

  /** The error for one check: reported against the class when `t` violates it. */
  function CheckError(h: Superclasses, t: TypeDecl, c: ClassCheck): seq<Diagnostic> {
    if Violates(h, t, c) then [Error(CheckMessage(c), TypeElement(t.name))] else []
  }

  /** The class-level errors, in the order the checks run; every check runs whatever the others found. */
  function ClassErrors(h: Superclasses, t: TypeDecl): seq<Diagnostic> {
    CheckError(h, t, NotPrivate) + CheckError(h, t, StaticWhenNested)
      + CheckError(h, t, SubtypeOfViewModel) + CheckError(h, t, SingleInjectConstructor)
  }

  /** The unique annotated constructor, once the class-level checks have passed. */
  function TargetConstructor(t: TypeDecl): Constructor
    requires IsCandidate(t)
  {
    AnnotatedConstructors(t.constructors)[0]
  }

  /** Everything the validator reports for a candidate: the class errors, then, only if there are none, a private constructor. */
  function TargetDiagnostics(h: Superclasses, t: TypeDecl): seq<Diagnostic>
    requires IsCandidate(t)
  {
    var classErrors := ClassErrors(h, t);
    classErrors +
      (if classErrors == [] && Private in TargetConstructor(t).modifiers
       then [Error(PrivateInjectConstructor, ConstructorElement(t.name))] else [])
  }

  /** What the validator yields: the class with its constructor, or nothing once any check failed. */
  function ValidatedTarget(h: Superclasses, t: TypeDecl): Option<InjectElements>
    requires IsCandidate(t)
  {
    if ClassErrors(h, t) != [] || Private in TargetConstructor(t).modifiers then None
    else Some(InjectElements(t, TargetConstructor(t)))
  }

  lemma ClassErrorsMembership(h: Superclasses, t: TypeDecl, c: ClassCheck)
    ensures Error(CheckMessage(c), TypeElement(t.name)) in ClassErrors(h, t) <==> Violates(h, t, c)
    ensures ClassErrors(h, t) == [] <==> forall k :: !Violates(h, t, k)
    ensures forall d :: d in ClassErrors(h, t) ==> d.message != PrivateInjectConstructor
  {
    if ClassErrors(h, t) == [] {
      forall k ensures !Violates(h, t, k) {
        match k { case NotPrivate => case StaticWhenNested => case SubtypeOfViewModel => case SingleInjectConstructor => }
      }
    }
  }

  /**
   * Every class-level check that fails is reported against the class, whatever else fails:
   * one failure never hides another, and a check that passes reports nothing.
   */
  lemma AllClassViolationsReported(h: Superclasses, t: TypeDecl, c: ClassCheck)
    requires IsCandidate(t)
    ensures Error(CheckMessage(c), TypeElement(t.name)) in TargetDiagnostics(h, t) <==> Violates(h, t, c)
  {
    ClassErrorsMembership(h, t, c);
  }

  /**
   * The private-constructor error is reported against the constructor exactly when every
   * class-level check passed and the annotated constructor is private.
   */
  lemma PrivateConstructorCheckedLast(h: Superclasses, t: TypeDecl)
    requires IsCandidate(t)
    ensures Error(PrivateInjectConstructor, ConstructorElement(t.name)) in TargetDiagnostics(h, t)
      <==> (forall c :: !Violates(h, t, c)) && Private in TargetConstructor(t).modifiers
  {
    ClassErrorsMembership(h, t, NotPrivate);
  }

  /**
   * A target is produced exactly when the validator reported nothing, and then it is the class
   * with its single, non-private annotated constructor.
   */
  lemma ValidatorYieldsIffSilent(h: Superclasses, t: TypeDecl)
    requires IsCandidate(t)
    ensures ValidatedTarget(h, t).Some? <==> TargetDiagnostics(h, t) == []
    ensures ValidatedTarget(h, t).Some? ==>
      && ValidatedTarget(h, t).value.targetType == t
      && AnnotatedConstructors(t.constructors) == [ValidatedTarget(h, t).value.targetConstructor]
      && Private !in ValidatedTarget(h, t).value.targetConstructor.modifiers
      && IsSubtype(h, t.name, VIEW_MODEL)
  {
    ClassErrorsMembership(h, t, NotPrivate);
    if ValidatedTarget(h, t).Some? {
      assert !Violates(h, t, SingleInjectConstructor);
      assert !Violates(h, t, SubtypeOfViewModel);
    }
  }

  // ---------------------------------------------------------------- parameters

  /** The requests whose `@Assisted` flag equals `assisted`, in declared order (one half of Kotlin's `partition`). */
  function Partition(rs: seq<DependencyRequest>, assisted: bool): (r: seq<DependencyRequest>)
    ensures |r| <= |rs|
  {
    if rs == [] then []
    else (if rs[0].isAssisted == assisted then [rs[0]] else []) + Partition(rs[1..], assisted)
  }

  lemma {:induction false} PartitionMembership(rs: seq<DependencyRequest>, assisted: bool, x: DependencyRequest)
    ensures x in Partition(rs, assisted) <==> x in rs && x.isAssisted == assisted
  {
    if rs != [] {
      PartitionMembership(rs[1..], assisted, x);
      assert rs == [rs[0]] + rs[1..];
    }
  }

  /** The two halves of the partition together hold every request once. */
  lemma {:induction false} PartitionIsPermutation(rs: seq<DependencyRequest>)
    ensures multiset(Partition(rs, true)) + multiset(Partition(rs, false)) == multiset(rs)
  {
    if rs != [] {
      var tail := rs[1..];
      PartitionIsPermutation(tail);
      assert rs == [rs[0]] + tail;
      assert multiset(rs) == multiset([rs[0]]) + multiset(tail);
      if rs[0].isAssisted {
        assert Partition(rs, true) == [rs[0]] + Partition(tail, true);
        assert Partition(rs, false) == Partition(tail, false);
      } else {
        assert Partition(rs, true) == Partition(tail, true);
        assert Partition(rs, false) == [rs[0]] + Partition(tail, false);
      }
    }
  }

  /** The partition keeps declared order: it distributes over concatenation. */
  lemma {:induction false} PartitionAppend(a: seq<DependencyRequest>, b: seq<DependencyRequest>, assisted: bool)
    ensures Partition(a + b, assisted) == Partition(a, assisted) + Partition(b, assisted)
  {
    if a != [] {
      PartitionAppend(a[1..], b, assisted);
      assert (a + b)[0] == a[0];
      assert (a + b)[1..] == a[1..] + b;
    } else {
      assert a + b == b;
    }
  }

  function NamedKeys(rs: seq<DependencyRequest>): (ks: seq<NamedKey>)
    ensures |ks| == |rs|
  {
    seq(|rs|, i requires 0 <= i < |rs| => rs[i].namedKey)
  }

  /** The keys of the assisted parameters, in declared order. */
  function AssistedKeys(params: seq<DependencyRequest>): seq<NamedKey> {
    NamedKeys(Partition(params, true))
  }

  function ToSet<T>(s: seq<T>): set<T> {
    if s == [] then {} else {s[0]} + ToSet(s[1..])
  }

  lemma {:induction false} ToSetMembership<T>(s: seq<T>, x: T)
    ensures x in ToSet(s) <==> x in s
  {
    if s != [] {
      ToSetMembership(s[1..], x);
      assert s == [s[0]] + s[1..];
    }
  }

  /** Whether a non-empty assisted key list is, as a set, exactly `{SavedStateHandle savedStateHandle}`. */
  predicate AssistedShapeMatches(keys: seq<NamedKey>) {
    ToSet(keys) == ToSet(SAVED_STATE_FACTORY_KEY)
  }

  /** The reports on the assisted group: a mismatch against the constructor, else a missing `SavedStateHandle`. */
  function AssistedDiagnostics(keys: seq<NamedKey>, at: Element, hasSavedStateHandle: bool): seq<Diagnostic> {
    if |keys| > 0 && !AssistedShapeMatches(keys) then [Error(AssistedMismatch(keys, SAVED_STATE_FACTORY_KEY), at)]
    else if |keys| > 0 && !hasSavedStateHandle then [Error(SavedStateHandleMissing, NoElement)]
    else []
  }

  function KeyOf(r: DependencyRequest): Key {
    r.namedKey.key
  }

  /** The requests with key `k`, in order. */
  function WithKey(rs: seq<DependencyRequest>, k: Key): (r: seq<DependencyRequest>)
    ensures |r| <= |rs|
  {
    if rs == [] then []
    else (if KeyOf(rs[0]) == k then [rs[0]] else []) + WithKey(rs[1..], k)
  }

  lemma {:induction false} WithKeyMembership(rs: seq<DependencyRequest>, k: Key, x: DependencyRequest)
    ensures x in WithKey(rs, k) <==> x in rs && KeyOf(x) == k
  {
    if rs != [] {
      WithKeyMembership(rs[1..], k, x);
      assert rs == [rs[0]] + rs[1..];
    }
  }

  /** The distinct keys in order of first occurrence (the key order of Kotlin's `groupBy`). */
  function DistinctKeys(rs: seq<DependencyRequest>): (ks: seq<Key>)
    ensures |ks| <= |rs|
  {
    if rs == [] then []
    else
      var prefix := DistinctKeys(rs[..|rs| - 1]);
      var k := KeyOf(rs[|rs| - 1]);
      if k in prefix then prefix else prefix + [k]
  }

  /** The groups of the given keys that hold more than one request, flattened in key order. */
  function LargeGroups(rs: seq<DependencyRequest>, ks: seq<Key>): seq<DependencyRequest> {
    if ks == [] then []
    else
      var g := WithKey(rs, ks[0]);
      (if |g| > 1 then g else []) + LargeGroups(rs, ks[1..])
  }

  /** `groupBy { it.key }.filterValues { it.size > 1 }.values.flatten()`. */
  function DuplicateRequests(rs: seq<DependencyRequest>): seq<DependencyRequest> {
    LargeGroups(rs, DistinctKeys(rs))
  }

  /** No two provided requests share a key. */
  predicate KeysUnique(rs: seq<DependencyRequest>) {
    forall i, j :: 0 <= i < j < |rs| ==> KeyOf(rs[i]) != KeyOf(rs[j])
  }

  lemma {:induction false} DistinctKeysComplete(rs: seq<DependencyRequest>, x: DependencyRequest)
    requires x in rs
    ensures KeyOf(x) in DistinctKeys(rs)
  {
    var n := |rs|;
    if x != rs[n - 1] {
      assert x in rs[..n - 1] by {
        var i :| 0 <= i < n && rs[i] == x;
        assert i < n - 1;
        assert rs[..n - 1][i] == x;
      }
      DistinctKeysComplete(rs[..n - 1], x);
    }
  }

  /** The group keys are pairwise distinct and each is the key of some request, so no group is listed twice. */
  lemma {:induction false} DistinctKeysSound(rs: seq<DependencyRequest>)
    ensures forall i, j :: 0 <= i < j < |DistinctKeys(rs)| ==> DistinctKeys(rs)[i] != DistinctKeys(rs)[j]
    ensures forall k :: k in DistinctKeys(rs) ==> exists r :: r in rs && KeyOf(r) == k
  {
    if rs != [] {
      var n := |rs|;
      var prefix := rs[..n - 1];
      DistinctKeysSound(prefix);
      var before, last := DistinctKeys(prefix), KeyOf(rs[n - 1]);
      var ks := DistinctKeys(rs);
      if last in before {
        assert ks == before;
      } else {
        assert ks == before + [last];
        forall i, j | 0 <= i < j < |ks| ensures ks[i] != ks[j] {
          if j == |ks| - 1 {
            assert ks[i] == before[i] && before[i] in before && ks[j] == last;
          } else {
            assert ks[i] == before[i] && ks[j] == before[j];
          }
        }
      }
      forall k | k in DistinctKeys(rs) ensures exists r :: r in rs && KeyOf(r) == k {
        if k in DistinctKeys(prefix) {
          var r :| r in prefix && KeyOf(r) == k;
          assert r in rs;
        } else {
          assert KeyOf(rs[n - 1]) == k;
        }
      }
    }
  }

  lemma {:induction false} LargeGroupsMembership(rs: seq<DependencyRequest>, ks: seq<Key>, x: DependencyRequest)
    ensures x in LargeGroups(rs, ks) <==> x in rs && KeyOf(x) in ks && |WithKey(rs, KeyOf(x))| > 1
  {
    if ks != [] {
      LargeGroupsMembership(rs, ks[1..], x);
      WithKeyMembership(rs, ks[0], x);
      assert ks == [ks[0]] + ks[1..];
    }
  }

  /** A request is listed as a duplicate exactly when another request shares its key. */
  lemma DuplicateRequestsMembership(rs: seq<DependencyRequest>, x: DependencyRequest)
    ensures x in DuplicateRequests(rs) <==> x in rs && |WithKey(rs, KeyOf(x))| > 1
  {
    LargeGroupsMembership(rs, DistinctKeys(rs), x);
    if x in rs {
      DistinctKeysComplete(rs, x);
    }
  }

  lemma {:induction false} TwoWithKey(rs: seq<DependencyRequest>, k: Key)
    ensures |WithKey(rs, k)| > 1 <==> exists i, j :: 0 <= i < j < |rs| && KeyOf(rs[i]) == k && KeyOf(rs[j]) == k
  {
    if rs != [] {
      TwoWithKey(rs[1..], k);
      var tail := rs[1..];
      if |WithKey(rs, k)| > 1 {
        if KeyOf(rs[0]) == k {
          assert |WithKey(tail, k)| >= 1;
          var y := WithKey(tail, k)[0];
          assert y in WithKey(tail, k);
          WithKeyMembership(tail, k, y);
          var j :| 0 <= j < |tail| && tail[j] == y;
          assert KeyOf(rs[0]) == k && KeyOf(rs[j + 1]) == k;
        } else {
          var i, j :| 0 <= i < j < |tail| && KeyOf(tail[i]) == k && KeyOf(tail[j]) == k;
          assert KeyOf(rs[i + 1]) == k && KeyOf(rs[j + 1]) == k;
        }
      }
      if exists i, j :: 0 <= i < j < |rs| && KeyOf(rs[i]) == k && KeyOf(rs[j]) == k {
        var i, j :| 0 <= i < j < |rs| && KeyOf(rs[i]) == k && KeyOf(rs[j]) == k;
        if i == 0 {
          assert tail[j - 1] == rs[j];
          WithKeyMembership(tail, k, rs[j]);
          assert rs[j] in WithKey(tail, k);
        } else {
          assert KeyOf(tail[i - 1]) == k && KeyOf(tail[j - 1]) == k;
        }
      }
    }
  }

  /** The duplicate list is empty exactly when all provided keys are distinct. */
  lemma NoDuplicatesIffKeysUnique(rs: seq<DependencyRequest>)
    ensures DuplicateRequests(rs) == [] <==> KeysUnique(rs)
  {
    if DuplicateRequests(rs) == [] {
      forall i, j | 0 <= i < j < |rs| ensures KeyOf(rs[i]) != KeyOf(rs[j]) {
        if KeyOf(rs[i]) == KeyOf(rs[j]) {
          TwoWithKey(rs, KeyOf(rs[i]));
          DuplicateRequestsMembership(rs, rs[i]);
        }
      }
    } else {
      var x := DuplicateRequests(rs)[0];
      DuplicateRequestsMembership(rs, x);
      TwoWithKey(rs, KeyOf(x));
    }
  }

  /** The reports on the provided group: a warning when it is empty, else an error listing the duplicates. */
  function ProvidedDiagnostics(provided: seq<DependencyRequest>, at: Element): seq<Diagnostic> {
    if provided == [] then [Diagnostic(WarningKind, NoProvidedParameters, at)]
    else
      var duplicates := DuplicateRequests(provided);
      if duplicates != [] then [Error(DuplicateProvided(duplicates), at)] else []
  }

  /** Everything the parameter check reports for a validated target. */
  function SynthesisDiagnostics(e: InjectElements, hasSavedStateHandle: bool): seq<Diagnostic> {
    var params := e.targetConstructor.parameters;
    var at := ConstructorElement(e.targetType.name);
    AssistedDiagnostics(AssistedKeys(params), at, hasSavedStateHandle) + ProvidedDiagnostics(Partition(params, false), at)
  }

  /** The factory description of a target that passed the parameter check. */
  function MakeInjection(e: InjectElements, generated: Option<AnnotationSpec>): AssistedInjection {
    var t := e.targetType.name;
    var params := e.targetConstructor.parameters;
    if AssistedKeys(params) == [] then
      AssistedInjection(t, params, FactoryType(BASIC_FACTORY, t), FACTORY_METHOD, t, [], generated)
    else
      AssistedInjection(t, params, FactoryType(SAVED_STATE_FACTORY, t), FACTORY_METHOD, t, SAVED_STATE_FACTORY_KEY, generated)
  }

  /** The parameter check yields a factory exactly when it reported no error. */
  function Synthesized(e: InjectElements, hasSavedStateHandle: bool, generated: Option<AnnotationSpec>): Option<AssistedInjection> {
    if HasError(SynthesisDiagnostics(e, hasSavedStateHandle)) then None else Some(MakeInjection(e, generated))
  }

  /** The mismatch error and the missing-`SavedStateHandle` error never occur together; the first is reported exactly for a non-empty key list that differs from the expected set, the second exactly for the expected set when the type is missing. */
  lemma AssistedErrorsExclusive(keys: seq<NamedKey>, at: Element, hasSavedStateHandle: bool)
    ensures var ds := AssistedDiagnostics(keys, at, hasSavedStateHandle);
      && (Error(AssistedMismatch(keys, SAVED_STATE_FACTORY_KEY), at) in ds <==> keys != [] && ToSet(keys) != {SAVED_STATE_KEY})
      && (Error(SavedStateHandleMissing, NoElement) in ds <==> keys != [] && ToSet(keys) == {SAVED_STATE_KEY} && !hasSavedStateHandle)
      && !(Error(AssistedMismatch(keys, SAVED_STATE_FACTORY_KEY), at) in ds && Error(SavedStateHandleMissing, NoElement) in ds)
  {
    assert ToSet(SAVED_STATE_FACTORY_KEY) == {SAVED_STATE_KEY};
  }

  /** The assisted group passes exactly when it is empty, or it is `{SavedStateHandle savedStateHandle}` and that type exists. */
  predicate AssistedAccepted(params: seq<DependencyRequest>, hasSavedStateHandle: bool) {
    var keys := AssistedKeys(params);
    keys == [] || (ToSet(keys) == {SAVED_STATE_KEY} && hasSavedStateHandle)
  }

  /**
   * A validated target gets a factory exactly when its assisted group is accepted and its
   * provided keys are distinct; an empty provided group only warns and blocks nothing.
   */
  lemma SynthesisSucceedsIff(e: InjectElements, hasSavedStateHandle: bool, generated: Option<AnnotationSpec>)
    ensures var params := e.targetConstructor.parameters;
      Synthesized(e, hasSavedStateHandle, generated).Some? <==>
        AssistedAccepted(params, hasSavedStateHandle) && KeysUnique(Partition(params, false))
    ensures Partition(e.targetConstructor.parameters, false) == [] ==>
      Diagnostic(WarningKind, NoProvidedParameters, ConstructorElement(e.targetType.name)) in SynthesisDiagnostics(e, hasSavedStateHandle)
  {
    var params := e.targetConstructor.parameters;
    var at := ConstructorElement(e.targetType.name);
    var ad := AssistedDiagnostics(AssistedKeys(params), at, hasSavedStateHandle);
    var pd := ProvidedDiagnostics(Partition(params, false), at);
    var ds := SynthesisDiagnostics(e, hasSavedStateHandle);
    assert ToSet(SAVED_STATE_FACTORY_KEY) == {SAVED_STATE_KEY};
    NoDuplicatesIffKeysUnique(Partition(params, false));
    assert ds == ad + pd;
    HasErrorAppend(ad, pd);
    if ad != [] { assert ad[1..] == []; }
    if pd != [] { assert pd[1..] == []; }
    if Partition(params, false) == [] {
      assert pd[0] == Diagnostic(WarningKind, NoProvidedParameters, at);
      assert ds[|ad|] == pd[0];
    }
  }

  /**
   * Provided parameters that share a key are reported as one error on the constructor, listing
   * every request of each duplicate group; the error appears exactly when the provided group is
   * non-empty and its keys repeat.
   */
  lemma DuplicateErrorIff(e: InjectElements, hasSavedStateHandle: bool)
    ensures var provided := Partition(e.targetConstructor.parameters, false);
      Error(DuplicateProvided(DuplicateRequests(provided)), ConstructorElement(e.targetType.name))
        in SynthesisDiagnostics(e, hasSavedStateHandle)
      <==> provided != [] && !KeysUnique(provided)
  {
    NoDuplicatesIffKeysUnique(Partition(e.targetConstructor.parameters, false));
  }

  /** Every assisted parameter of a target with a saved-state factory is the expected `savedStateHandle`. */
  lemma {:induction false} AssistedParametersAreTheHandle(params: seq<DependencyRequest>)
    requires ToSet(AssistedKeys(params)) == {SAVED_STATE_KEY}
    ensures forall p :: p in params && p.isAssisted ==> p.namedKey == SAVED_STATE_KEY
  {
    forall p | p in params && p.isAssisted ensures p.namedKey == SAVED_STATE_KEY {
      var a := Partition(params, true);
      PartitionMembership(params, true, p);
      var i :| 0 <= i < |a| && a[i] == p;
      assert AssistedKeys(params)[i] == p.namedKey;
      ToSetMembership(AssistedKeys(params), p.namedKey);
    }
  }

  /**
   * A produced factory keeps every request in declared constructor order. It is the basic
   * factory with no assisted keys exactly when there is no assisted parameter; otherwise it is
   * the saved-state factory with exactly the expected key, and every assisted parameter is it.
   */
  lemma FactoryChoice(e: InjectElements, hasSavedStateHandle: bool, generated: Option<AnnotationSpec>)
    requires Synthesized(e, hasSavedStateHandle, generated).Some?
    ensures var r := Synthesized(e, hasSavedStateHandle, generated).value;
      var params := e.targetConstructor.parameters;
      && r.dependencyRequests == params
      && r.targetType == e.targetType.name && r.factory.typeArgument == e.targetType.name
      && r.generatedAnnotation == generated
      && ((forall p :: p in params ==> !p.isAssisted) <==> r.factory.raw == BASIC_FACTORY)
      && (r.factory.raw == BASIC_FACTORY ==> r.assistedKeys == [])
      && (r.factory.raw != BASIC_FACTORY ==>
            && r.factory.raw == SAVED_STATE_FACTORY && r.assistedKeys == SAVED_STATE_FACTORY_KEY
            && forall p :: p in params && p.isAssisted ==> p.namedKey == SAVED_STATE_KEY)
  {
    var params := e.targetConstructor.parameters;
    SynthesisSucceedsIff(e, hasSavedStateHandle, generated);
    if AssistedKeys(params) != [] {
      AssistedParametersAreTheHandle(params);
      PartitionMembership(params, true, Partition(params, true)[0]);
    } else {
      forall p | p in params ensures !p.isAssisted {
        PartitionMembership(params, true, p);
      }
    }
  }

  // ---------------------------------------------------------------- modules

  /** The reports of module discovery: every module of the round when there is more than one. */
  function FindModuleDiagnostics(modules: seq<ModuleDecl>): (ds: seq<Diagnostic>)
    ensures |modules| <= 1 ==> ds == []
  {
    if |modules| > 1 then seq(|modules|, i requires 0 <= i < |modules| => Error(MultipleModules, TypeElement(modules[i].name)))
    else []
  }

  /** `toViewModelInjectionModule()`: the aggregation description for a claimed module. */
  function ToViewModelInjectionModule(m: ModuleElements, generated: Option<AnnotationSpec>): (r: InjectionModule)
    ensures r.moduleName == m.moduleType.name
    ensures r.public <==> Public in m.moduleType.modifiers
    ensures |r.injectedNames| == |m.viewModelTypes|
    ensures forall i :: 0 <= i < |m.viewModelTypes| ==> r.injectedNames[i] == m.viewModelTypes[i].name
  {
    InjectionModule(
      m.moduleType.name,
      Public in m.moduleType.modifiers,
      seq(|m.viewModelTypes|, i requires 0 <= i < |m.viewModelTypes| => m.viewModelTypes[i].name),
      generated)
  }

  /** The class of each validated target, in order. */
  function TargetTypes(targets: seq<InjectElements>): (types: seq<TypeDecl>)
    ensures |types| == |targets|
  {
    seq(|targets|, i requires 0 <= i < |targets| => targets[i].targetType)
  }

  /** The effect of one round's module handling on the claim, the reports and the written modules. */
  datatype ModuleOutcome = ModuleOutcome(userModule: Option<ClassName>, diagnostics: seq<Diagnostic>, written: seq<InjectionModule>)

  function ModuleRound(userModule: Option<ClassName>, modules: seq<ModuleDecl>, targets: seq<InjectElements>,
                       generated: Option<AnnotationSpec>): ModuleOutcome
  {
    if |modules| != 1 then ModuleOutcome(userModule, FindModuleDiagnostics(modules), [])
    else
      var m := modules[0];
      if !m.daggerModule then ModuleOutcome(userModule, [Error(NotDaggerModule, TypeElement(m.name))], [])
      else match userModule
        case Some(u) =>
          ModuleOutcome(None, [Error(MultipleModules, TypeElement(u)), Error(MultipleModules, TypeElement(m.name))], [])
        case None =>
          ModuleOutcome(Some(m.name), [], [ToViewModelInjectionModule(ModuleElements(m, TargetTypes(targets)), generated)])
  }

  /** The end-of-processing check: the claimed module's `@Module` includes must name the generated module. */
  function FinalDiagnostics(userModule: Option<ClassName>, processingOver: bool,
                            includes: map<ClassName, seq<ClassName>>): seq<Diagnostic>
  {
    if processingOver && userModule.Some? then
      var u := userModule.value;
      var generatedName := ViewModelInjectModuleName(u);
      var found := if u in includes then includes[u] else [];
      if generatedName in found then [] else [Error(MissingInclude(generatedName.simpleName), TypeElement(u))]
    else []
  }

  /**
   * More than one module in a round: each gets the error, nothing is written and the claim
   * stays as it was.
   */
  lemma MultipleModulesInOneRound(userModule: Option<ClassName>, modules: seq<ModuleDecl>, targets: seq<InjectElements>,
                                  generated: Option<AnnotationSpec>)
    requires |modules| > 1
    ensures var o := ModuleRound(userModule, modules, targets, generated);
      && o.userModule == userModule && o.written == [] && |o.diagnostics| == |modules|
      && forall i :: 0 <= i < |modules| ==> Error(MultipleModules, TypeElement(modules[i].name)) in o.diagnostics
  {
    var o := ModuleRound(userModule, modules, targets, generated);
    forall i | 0 <= i < |modules| ensures Error(MultipleModules, TypeElement(modules[i].name)) in o.diagnostics {
      assert o.diagnostics[i] == Error(MultipleModules, TypeElement(modules[i].name));
    }
  }

  /**
   * A single module: without `@dagger.Module` it is an error and nothing changes; when a module
   * was already claimed both get the error and the claim is cleared; otherwise it is claimed and
   * its aggregation module, binding every validated target of the round in order, is written.
   */
  lemma SingleModuleRound(userModule: Option<ClassName>, m: ModuleDecl, targets: seq<InjectElements>,
                          generated: Option<AnnotationSpec>)
    ensures var o := ModuleRound(userModule, [m], targets, generated);
      && (!m.daggerModule ==> o == ModuleOutcome(userModule, [Error(NotDaggerModule, TypeElement(m.name))], []))
      && (m.daggerModule && userModule.Some? ==>
            o.userModule.None? && o.written == [] &&
            o.diagnostics == [Error(MultipleModules, TypeElement(userModule.value)), Error(MultipleModules, TypeElement(m.name))])
      && (m.daggerModule && userModule.None? ==>
            && o.userModule == Some(m.name) && o.diagnostics == [] && |o.written| == 1
            && o.written[0].moduleName == m.name
            && (o.written[0].public <==> Public in m.modifiers)
            && o.written[0].generatedAnnotation == generated
            && |o.written[0].injectedNames| == |targets|
            && forall i :: 0 <= i < |targets| ==> o.written[0].injectedNames[i] == targets[i].targetType.name)
  {
  }

  /**
   * The cleared claim is the same as no claim: after two modules have conflicted, a module
   * found in a later round is claimed again.
   */
  lemma ConflictThenLaterModule(first: ModuleDecl, second: ModuleDecl, third: ModuleDecl,
                                t1: seq<InjectElements>, t2: seq<InjectElements>, t3: seq<InjectElements>,
                                generated: Option<AnnotationSpec>)
    requires first.daggerModule && second.daggerModule && third.daggerModule
    ensures var o1 := ModuleRound(None, [first], t1, generated);
      var o2 := ModuleRound(o1.userModule, [second], t2, generated);
      var o3 := ModuleRound(o2.userModule, [third], t3, generated);
      && o1.userModule == Some(first.name) && o2.userModule == None && o3.userModule == Some(third.name)
      && |o3.written| == 1
  {
  }

  /**
   * At the end of processing, a claimed module whose includes lack `ViewModelInject_<Simple>`
   * gets exactly one error, against that module; otherwise nothing is reported.
   */
  lemma MissingIncludeReportedOnce(u: ClassName, includes: map<ClassName, seq<ClassName>>)
    ensures var ds := FinalDiagnostics(Some(u), true, includes);
      var found := if u in includes then includes[u] else [];
      && (ViewModelInjectModuleName(u) in found ==> ds == [])
      && (ViewModelInjectModuleName(u) !in found ==>
            ds == [Error(MissingInclude(ViewModelInjectModuleName(u).simpleName), TypeElement(u))])
    ensures FinalDiagnostics(Some(u), false, includes) == [] && FinalDiagnostics(None, true, includes) == []
  {
  }

  // ---------------------------------------------------------------- one round

  /** What the host hands to one round: the class of each `@ViewModelInject` constructor found, the `@ViewModelModule` classes, whether processing is over, and the `@Module` includes each module resolves to. */
  datatype Round = Round(
    injectCandidates: seq<TypeDecl>,
    viewModelModules: seq<ModuleDecl>,
    processingOver: bool,
    moduleIncludes: map<ClassName, seq<ClassName>>)

  predicate AllCandidates(ts: seq<TypeDecl>) {
    forall i :: 0 <= i < |ts| ==> IsCandidate(ts[i])
  }

  /** `mapNotNull { it.toViewModelInjectElementsOrNull() }`. */
  function ValidatedTargets(h: Superclasses, ts: seq<TypeDecl>): seq<InjectElements>
    requires AllCandidates(ts)
  {
    if ts == [] then []
    else ValidatedTargets(h, ts[..|ts| - 1]) + OptionToSeq(ValidatedTarget(h, ts[|ts| - 1]))
  }

  function ValidationDiagnostics(h: Superclasses, ts: seq<TypeDecl>): seq<Diagnostic>
    requires AllCandidates(ts)
  {
    if ts == [] then []
    else ValidationDiagnostics(h, ts[..|ts| - 1]) + TargetDiagnostics(h, ts[|ts| - 1])
  }

  function AllSynthesisDiagnostics(es: seq<InjectElements>, hasSavedStateHandle: bool): seq<Diagnostic> {
    if es == [] then []
    else AllSynthesisDiagnostics(es[..|es| - 1], hasSavedStateHandle) + SynthesisDiagnostics(es[|es| - 1], hasSavedStateHandle)
  }

  /**
   * The values of `associateWithNotNull(f)` in iteration order: each key is looked at in turn,
   * and a key already present in the insertion-ordered map keeps its entry.
   */
  function AssociateWithNotNull<K(==), V>(ks: seq<K>, f: K -> Option<V>): seq<V> {
    if ks == [] then []
    else
      var prefix := ks[..|ks| - 1];
      var k := ks[|ks| - 1];
      AssociateWithNotNull(prefix, f) + (if k in prefix then [] else OptionToSeq(f(k)))
  }

  /** A value is in the map exactly when some key maps to it. */
  lemma {:induction false} AssociateWithNotNullMembership<K, V>(ks: seq<K>, f: K -> Option<V>, v: V)
    ensures v in AssociateWithNotNull(ks, f) <==> exists k :: k in ks && f(k) == Some(v)
  {
    if ks != [] {
      var n := |ks|;
      var prefix := ks[..n - 1];
      var last := ks[n - 1];
      AssociateWithNotNullMembership(prefix, f, v);
      assert ks == prefix + [last];
      if exists k :: k in ks && f(k) == Some(v) {
        var k :| k in ks && f(k) == Some(v);
        if k !in prefix {
          assert k == last;
        }
      }
    }
  }

  /** There is at most one value per distinct key. */
  lemma {:induction false} AssociateWithNotNullSize<K, V>(ks: seq<K>, f: K -> Option<V>)
    ensures |AssociateWithNotNull(ks, f)| <= |ToSet(ks)|
  {
    if ks != [] {
      var n := |ks|;
      var prefix := ks[..n - 1];
      var last := ks[n - 1];
      AssociateWithNotNullSize(prefix, f);
      assert ks == prefix + [last];
      ToSetAppend(prefix, [last]);
      assert ToSet([last]) == {last} + ToSet([last][1..]);
      ToSetMembership(prefix, last);
      if last in prefix {
        assert ToSet(ks) == ToSet(prefix);
        assert AssociateWithNotNull(ks, f) == AssociateWithNotNull(prefix, f);
      } else {
        assert |ToSet(ks)| == |ToSet(prefix)| + 1;
        assert |OptionToSeq(f(last))| <= 1;
      }
    }
  }

  /** The keys that map to a value. */
  function KeysWithValue<K, V>(ks: seq<K>, f: K -> Option<V>): set<K> {
    if ks == [] then {}
    else KeysWithValue(ks[..|ks| - 1], f) + (if f(ks[|ks| - 1]).Some? then {ks[|ks| - 1]} else {})
  }

  lemma {:induction false} KeysWithValueMembership<K, V>(ks: seq<K>, f: K -> Option<V>, k: K)
    ensures k in KeysWithValue(ks, f) <==> k in ks && f(k).Some?
  {
    if ks != [] {
      var n := |ks|;
      KeysWithValueMembership(ks[..n - 1], f, k);
      assert ks == ks[..n - 1] + [ks[n - 1]];
    }
  }

  /**
   * There is exactly one value per distinct key that maps to a value: a key seen again adds
   * nothing, and a key that maps to nothing adds nothing.
   */
  lemma {:induction false} AssociateWithNotNullCount<K, V>(ks: seq<K>, f: K -> Option<V>)
    ensures |AssociateWithNotNull(ks, f)| == |KeysWithValue(ks, f)|
  {
    if ks != [] {
      var n := |ks|;
      var prefix := ks[..n - 1];
      var last := ks[n - 1];
      AssociateWithNotNullCount(prefix, f);
      if last in prefix && f(last).Some? {
        KeysWithValueMembership(prefix, f, last);
        assert KeysWithValue(ks, f) == KeysWithValue(prefix, f);
      } else if f(last).Some? {
        KeysWithValueMembership(prefix, f, last);
      }
    }
  }

  lemma {:induction false} ToSetAppend<T>(a: seq<T>, b: seq<T>)
    ensures ToSet(a + b) == ToSet(a) + ToSet(b)
  {
    if a == [] {
      assert a + b == b;
    } else {
      ToSetAppend(a[1..], b);
      assert (a + b)[1..] == a[1..] + b;
    }
  }

  /** The factory of each target whose parameter check passed, one per distinct target, in first-seen order. */
  function Injections(es: seq<InjectElements>, hasSavedStateHandle: bool, generated: Option<AnnotationSpec>): seq<AssistedInjection> {
    AssociateWithNotNull(es, e => Synthesized(e, hasSavedStateHandle, generated))
  }

  /** Looking at one more target adds its factory unless the target was seen before. */
  lemma InjectionsStep(es: seq<InjectElements>, j: nat, hasSavedStateHandle: bool, generated: Option<AnnotationSpec>)
    requires j < |es|
    ensures Injections(es[..j + 1], hasSavedStateHandle, generated)
      == Injections(es[..j], hasSavedStateHandle, generated)
         + (if es[j] in es[..j] then [] else OptionToSeq(Synthesized(es[j], hasSavedStateHandle, generated)))
  {
    assert es[..j + 1][..j] == es[..j];
  }

  /** A validated target comes from a candidate that passed every check, and each such candidate yields one. */
  lemma {:induction false} ValidatedTargetsMembership(h: Superclasses, ts: seq<TypeDecl>, e: InjectElements)
    requires AllCandidates(ts)
    ensures e in ValidatedTargets(h, ts) <==> exists i :: 0 <= i < |ts| && ValidatedTarget(h, ts[i]) == Some(e)
  {
    if ts != [] {
      var n := |ts|;
      ValidatedTargetsMembership(h, ts[..n - 1], e);
      if exists i :: 0 <= i < n && ValidatedTarget(h, ts[i]) == Some(e) {
        var i :| 0 <= i < n && ValidatedTarget(h, ts[i]) == Some(e);
        if i < n - 1 { assert ts[..n - 1][i] == ts[i]; }
      }
    }
  }

  /** A factory is written for a target exactly when its parameter check passed. */
  lemma InjectionsMembership(es: seq<InjectElements>, hasSavedStateHandle: bool,
                             generated: Option<AnnotationSpec>, x: AssistedInjection)
    ensures x in Injections(es, hasSavedStateHandle, generated) <==>
      exists e :: e in es && Synthesized(e, hasSavedStateHandle, generated) == Some(x)
    ensures |Injections(es, hasSavedStateHandle, generated)| <= |ToSet(es)|
  {
    var f := e => Synthesized(e, hasSavedStateHandle, generated);
    AssociateWithNotNullMembership(es, f, x);
    AssociateWithNotNullSize(es, f);
  }

  /** The distinct targets whose parameter check passed. */
  function PassingTargets(es: seq<InjectElements>, hasSavedStateHandle: bool, generated: Option<AnnotationSpec>): set<InjectElements> {
    set e | e in es && Synthesized(e, hasSavedStateHandle, generated).Some?
  }

  /** There are exactly as many factories as distinct targets whose parameter check passed: no target gets two. */
  lemma InjectionsCount(es: seq<InjectElements>, hasSavedStateHandle: bool, generated: Option<AnnotationSpec>)
    ensures |Injections(es, hasSavedStateHandle, generated)| == |PassingTargets(es, hasSavedStateHandle, generated)|
  {
    var f := e => Synthesized(e, hasSavedStateHandle, generated);
    AssociateWithNotNullCount(es, f);
    forall e ensures e in KeysWithValue(es, f) <==> e in PassingTargets(es, hasSavedStateHandle, generated) {
      KeysWithValueMembership(es, f, e);
    }
    assert KeysWithValue(es, f) == PassingTargets(es, hasSavedStateHandle, generated);
  }

  /** The effect of one call of `process`. */
  datatype RoundOutcome = RoundOutcome(
    userModule: Option<ClassName>,
    diagnostics: seq<Diagnostic>,
    factories: seq<AssistedInjection>,
    modules: seq<InjectionModule>)

  function ProcessRound(h: Superclasses, hasSavedStateHandle: bool, generated: Option<AnnotationSpec>,
                        userModule: Option<ClassName>, r: Round): RoundOutcome
    requires AllCandidates(r.injectCandidates)
  {
    var targets := ValidatedTargets(h, r.injectCandidates);
    var m := ModuleRound(userModule, r.viewModelModules, targets, generated);
    RoundOutcome(
      m.userModule,
      ValidationDiagnostics(h, r.injectCandidates) + AllSynthesisDiagnostics(targets, hasSavedStateHandle)
        + m.diagnostics + FinalDiagnostics(m.userModule, r.processingOver, r.moduleIncludes),
      Injections(targets, hasSavedStateHandle, generated),
      m.written)
  }

  /**
   * A claimed module binds every structurally valid target of the round, including one whose
   * parameter check failed and which therefore has no factory.
   */
  lemma ModuleBindsValidatedTargets(h: Superclasses, hasSavedStateHandle: bool, generated: Option<AnnotationSpec>,
                                    r: Round, i: nat)
    requires AllCandidates(r.injectCandidates)
    requires |r.viewModelModules| == 1 && r.viewModelModules[0].daggerModule
    requires i < |r.injectCandidates| && ValidatedTarget(h, r.injectCandidates[i]).Some?
    ensures var o := ProcessRound(h, hasSavedStateHandle, generated, None, r);
      |o.modules| == 1 && r.injectCandidates[i].name in o.modules[0].injectedNames
  {
    var targets := ValidatedTargets(h, r.injectCandidates);
    var e := ValidatedTarget(h, r.injectCandidates[i]).value;
    ValidatedTargetsMembership(h, r.injectCandidates, e);
    var j :| 0 <= j < |targets| && targets[j] == e;
    SingleModuleRound(None, r.viewModelModules[0], targets, generated);
    assert r.viewModelModules == [r.viewModelModules[0]];
    var o := ProcessRound(h, hasSavedStateHandle, generated, None, r);
    assert o.modules[0].injectedNames[j] == r.injectCandidates[i].name;
  }
}
