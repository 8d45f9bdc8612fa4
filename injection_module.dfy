/**
 * The aggregating Dagger module that the processor generates: `ViewModelInject_<Module>`, one
 * abstract `@Binds @IntoMap @ClassKey` method per injected view model, described as a JavaPoet
 * type specification.
 */
module ViewModelInjectionModule {
  import opened Wrappers
  import opened JavaModel

  const MODULE := ClassName("dagger", [], "Module")
  const BINDS := ClassName("dagger", [], "Binds")
  const INTO_MAP := ClassName("dagger.multibindings", [], "IntoMap")
  const CLASS_KEY := ClassName("dagger.multibindings", [], "ClassKey")
  const ABSTRACT_FACTORY := ClassName("com.vikingsen.inject.viewmodel", [], "AbstractViewModelFactory")

  /** The data class: the user's module, whether it is public, the injected view models in order, and an optional `@Generated`. */
  datatype InjectionModule = InjectionModule(
    moduleName: ClassName,
    public: bool,
    injectedNames: seq<ClassName>,
    generatedAnnotation: Option<AnnotationSpec>)

  /** `viewModelInjectModuleName()`: `ViewModelInject_<simple name>`, a peer of the module. */
  function ViewModelInjectModuleName(c: ClassName): (r: ClassName)
    ensures r.packageName == c.packageName && r.enclosing == []
    ensures c.enclosing == [] ==> r.simpleName == "ViewModelInject_" + c.simpleName
  {
    PeerClassWithReflectionNesting(c, "ViewModelInject_" + c.simpleName)
  }

  function GeneratedType(m: InjectionModule): ClassName {
    ViewModelInjectModuleName(m.moduleName)
  }

  /** `bindMethodName()`: `bind_` followed by the reflection name with every dot made an underscore. */
  function BindMethodName(c: ClassName): string {
    "bind_" + Replace(ReflectionName(c), '.', '_')
  }

  function MarkerAnnotation(annotationType: ClassName): AnnotationSpec {
    AnnotationSpec(annotationType, [])
  }

  /** The binding of one injected view model's generated factory into the class-keyed map. */
  function BindMethod(injected: ClassName): MethodSpec {
    MethodSpec(
      Named(BindMethodName(injected)),
      [MarkerAnnotation(BINDS), MarkerAnnotation(INTO_MAP), AnnotationSpec(CLASS_KEY, [("value", ClassLiteral(injected))])],
      [Abstract],
      Some(ABSTRACT_FACTORY),
      [ParameterSpec(AssistedInjectFactoryName(injected), "factory")])
  }

  function BindMethods(names: seq<ClassName>): seq<MethodSpec> {
    if names == [] then [] else [BindMethod(names[0])] + BindMethods(names[1..])
  }

  const PRIVATE_CONSTRUCTOR := MethodSpec(ConstructorName, [], [Private], None, [])

  /** `brewJava()`: the generated module's type specification. */
  function BrewJava(m: InjectionModule): TypeSpec {
    TypeSpec(
      GeneratedType(m),
      [MarkerAnnotation(MODULE)] + OptionToSeq(m.generatedAnnotation),
      [Abstract] + (if m.public then [Public] else []),
      [PRIVATE_CONSTRUCTOR] + BindMethods(m.injectedNames))
  }

  lemma {:induction false} BindMethodsAt(names: seq<ClassName>, i: nat)
    requires i < |names|
    ensures |BindMethods(names)| == |names|
    ensures BindMethods(names)[i] == BindMethod(names[i])
  {
    if i > 0 {
      BindMethodsAt(names[1..], i - 1);
    } else if |names| > 1 {
      BindMethodsAt(names[1..], 0);
    }
  }

  /**
   * The generated type is named after the module, always carries `@Module` and `abstract`,
   * carries `public` exactly when the module is public, and `@Generated` exactly when one is given.
   */
  lemma BrewJavaHeader(m: InjectionModule)
    ensures BrewJava(m).name == ViewModelInjectModuleName(m.moduleName)
    ensures MarkerAnnotation(MODULE) in BrewJava(m).annotations
    ensures m.generatedAnnotation.Some? ==> m.generatedAnnotation.value in BrewJava(m).annotations
    ensures |BrewJava(m).annotations| == if m.generatedAnnotation.Some? then 2 else 1
    ensures Abstract in BrewJava(m).modifiers
    ensures Public in BrewJava(m).modifiers <==> m.public
    ensures Private !in BrewJava(m).modifiers
  {
  }

  /**
   * The generated type has one private no-argument constructor and, after it, one binding method
   * per injected name in list order, and no other method: each is `@Binds @IntoMap
   * @ClassKey(<injected>.class)`, abstract, returns `AbstractViewModelFactory` and takes the
   * injected class's `_AssistedFactory` as its single parameter `factory`.
   */
  lemma {:induction false} BrewJavaMethods(m: InjectionModule)
    ensures var ms := BrewJava(m).methods;
      && |ms| == 1 + |m.injectedNames|
      && (forall j :: 0 <= j < |ms| ==> (ms[j].name.ConstructorName? <==> j == 0))
      && ms[0].modifiers == [Private] && ms[0].parameters == []
      && forall i :: 0 <= i < |m.injectedNames| ==>
           var b, n := ms[i + 1], m.injectedNames[i];
           && b.name == Named(BindMethodName(n))
           && b.annotations == [MarkerAnnotation(BINDS), MarkerAnnotation(INTO_MAP), AnnotationSpec(CLASS_KEY, [("value", ClassLiteral(n))])]
           && b.modifiers == [Abstract]
           && b.returnType == Some(ABSTRACT_FACTORY)
           && b.parameters == [ParameterSpec(AssistedInjectFactoryName(n), "factory")]
  {
    var ms := BrewJava(m).methods;
    var names := m.injectedNames;
    if names != [] {
      BindMethodsAt(names, 0);
    }
    forall i | 0 <= i < |names| ensures ms[i + 1] == BindMethod(names[i]) {
      BindMethodsAt(names, i);
    }
    forall j | 0 < j < |ms| ensures ms[j].name.Named? {
      BindMethodsAt(names, j - 1);
    }
  }

  lemma {:induction false} JoinHasNoDot(names: seq<string>, sep: char)
    requires sep != '.'
    requires forall i :: 0 <= i < |names| ==> IsSimpleName(names[i])
    ensures '.' !in Join(names, sep)
  {
    if |names| > 1 {
      JoinHasNoDot(names[1..], sep);
    }
  }

  lemma ReplaceAppend(a: string, b: string, from: char, to: char)
    ensures Replace(a + b, from, to) == Replace(a, from, to) + Replace(b, from, to)
  {
  }

  /**
   * The bind method name is `bind_`, the package with its dots made underscores, an underscore,
   * then the nested simple names still joined by `$`: only package dots are rewritten.
   */
  lemma BindMethodNameShape(c: ClassName)
    requires WellFormedClassName(c)
    ensures BindMethodName(c) ==
      "bind_" + (if c.packageName == [] then [] else Replace(c.packageName, '.', '_') + "_")
      + Join(c.enclosing + [c.simpleName], '$')
  {
    var nested := Join(c.enclosing + [c.simpleName], '$');
    JoinHasNoDot(c.enclosing + [c.simpleName], '$');
    assert Replace(nested, '.', '_') == nested;
    if c.packageName != [] {
      ReplaceAppend(c.packageName + ".", nested, '.', '_');
      ReplaceAppend(c.packageName, ".", '.', '_');
    }
  }

  /** The module name the generator derives for a top-level module `test.TestModule`. */
  lemma ModuleNameExample()
    ensures ViewModelInjectModuleName(ClassName("test", [], "TestModule")) == ClassName("test", [], "ViewModelInject_TestModule")
  {
  }

  lemma NestedBindMethodNameParts(c: ClassName)
    requires c == ClassName("test", ["Outer"], "TestViewModel")
    ensures BindMethodName(c) == "bind_" + (Replace("test", '.', '_') + "_") + Join(["Outer", "TestViewModel"], '$')
  {
    assert WellFormedClassName(c);
    BindMethodNameShape(c);
    assert c.packageName != [];
    assert c.enclosing + [c.simpleName] == ["Outer", "TestViewModel"];
  }

  /** The bind method name for a nested `test.Outer.TestViewModel` keeps the nesting `$`. */
  lemma BindMethodNameExample(c: ClassName)
    requires c == ClassName("test", ["Outer"], "TestViewModel")
    ensures BindMethodName(c) == "bind_test_Outer$TestViewModel"
  {
    NestedBindMethodNameParts(c);
    assert Replace("test", '.', '_') == "test";
    assert Join(["Outer", "TestViewModel"], '$') == "Outer$TestViewModel" by {
      assert Join(["TestViewModel"], '$') == "TestViewModel";
    }
  }

  /** The factory of the nested `test.Outer.TestViewModel` is the top-level `test.Outer$TestViewModel_AssistedFactory`. */
  lemma FactoryNameExample()
    ensures AssistedInjectFactoryName(ClassName("test", ["Outer"], "TestViewModel")) == ClassName("test", [], "Outer$TestViewModel_AssistedFactory")
  {
    assert NestingPrefix(["Outer"]) == "Outer$";
  }
}
