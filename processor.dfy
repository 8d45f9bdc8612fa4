/**
 * The annotation processor as the object the compiler drives: it keeps the module claimed in an
 * earlier round, the diagnostics it has reported and the files it has written, and each call of
 * `Process` runs the rules of `InjectRules` over one round.
 */
module ViewModelInjectProcessor {
  import opened Wrappers
  import opened JavaModel
  import opened Hierarchy
  import opened ViewModelInjectionModule
  import opened InjectRules

  /** Regrouping of appended reports, stated once so that the loops below need not rediscover it. */
  lemma AppendAssoc<T>(a: seq<T>, b: seq<T>, c: seq<T>)
    ensures (a + b) + c == a + (b + c)
  {
  }

  class Processor {
    /** The superclass of each declared class, standing for `types.isSubtype`. */
    const superclasses: Superclasses
    /** Whether `androidx.lifecycle.SavedStateHandle` resolves on the compile classpath. */
    const hasSavedStateHandle: bool
    /** The `@Generated` annotation the platform offers, if any. */
    const generatedAnnotation: Option<AnnotationSpec>
    /** The module claimed by an earlier round (`userModule`). */
    var userModule: Option<ClassName>
    /** Everything reported through the messager, in order. */
    var diagnostics: seq<Diagnostic>
    var writtenFactories: seq<AssistedInjection>
    var writtenModules: seq<InjectionModule>

    constructor (superclasses: Superclasses, hasSavedStateHandle: bool, generatedAnnotation: Option<AnnotationSpec>)
      ensures this.superclasses == superclasses && this.hasSavedStateHandle == hasSavedStateHandle
      ensures this.generatedAnnotation == generatedAnnotation
      ensures userModule == None && diagnostics == [] && writtenFactories == [] && writtenModules == []
    {
      this.superclasses := superclasses;
      this.hasSavedStateHandle := hasSavedStateHandle;
      this.generatedAnnotation := generatedAnnotation;
      userModule := None;
      diagnostics := [];
      writtenFactories := [];
      writtenModules := [];
    }

    method ReportError(message: Message, element: Element)
      modifies this`diagnostics
      ensures diagnostics == old(diagnostics) + [Error(message, element)]
    {
      diagnostics := diagnostics + [Error(message, element)];
    }

    method ReportWarning(message: Message, element: Element)
      modifies this`diagnostics
      ensures diagnostics == old(diagnostics) + [Diagnostic(WarningKind, message, element)]
    {
      diagnostics := diagnostics + [Diagnostic(WarningKind, message, element)];
    }

    /** The class-level checks of `toViewModelInjectElementsOrNull`: each failing one is reported, none stops the others. */
    method ReportClassErrors(t: TypeDecl) returns (valid: bool)
      modifies this`diagnostics
      ensures diagnostics == old(diagnostics) + ClassErrors(superclasses, t)
      ensures valid <==> ClassErrors(superclasses, t) == []
    {
      valid := true;
      if Private in t.modifiers {
        ReportError(PrivateType, TypeElement(t.name));
        valid := false;
      }
      assert diagnostics == old(diagnostics) + CheckError(superclasses, t, NotPrivate);
      if t.enclosingKind == ClassKind && Static !in t.modifiers {
        ReportError(NonStaticNestedType, TypeElement(t.name));
        valid := false;
      }
      assert diagnostics == old(diagnostics) + CheckError(superclasses, t, NotPrivate) + CheckError(superclasses, t, StaticWhenNested);
      if !IsSubtype(superclasses, t.name, VIEW_MODEL) {
        ReportError(NotViewModelSubtype, TypeElement(t.name));
        valid := false;
      }
      assert diagnostics == old(diagnostics) + CheckError(superclasses, t, NotPrivate) + CheckError(superclasses, t, StaticWhenNested)
        + CheckError(superclasses, t, SubtypeOfViewModel);
      if |AnnotatedConstructors(t.constructors)| > 1 {
        ReportError(MultipleInjectConstructors, TypeElement(t.name));
        valid := false;
      }
    }

    /** Checks a candidate class; a private annotated constructor is reported only once the class itself passed. */
    method ToViewModelInjectElementsOrNull(t: TypeDecl) returns (r: Option<InjectElements>)
      requires IsCandidate(t)
      modifies this`diagnostics
      ensures diagnostics == old(diagnostics) + TargetDiagnostics(superclasses, t)
      ensures r == ValidatedTarget(superclasses, t)
    {
      var valid := ReportClassErrors(t);
      if !valid {
        return None;
      }
      var targetConstructor := AnnotatedConstructors(t.constructors)[0];
      if Private in targetConstructor.modifiers {
        ReportError(PrivateInjectConstructor, ConstructorElement(t.name));
        return None;
      }
      return Some(InjectElements(t, targetConstructor));
    }

    /** Checks a validated target's parameters and, when nothing was wrong, describes its factory. */
    method ToAssistedInjectionOrNull(e: InjectElements) returns (r: Option<AssistedInjection>)
      modifies this`diagnostics
      ensures diagnostics == old(diagnostics) + SynthesisDiagnostics(e, hasSavedStateHandle)
      ensures r == Synthesized(e, hasSavedStateHandle, generatedAnnotation)
    {
      var valid := true;
      var at := ConstructorElement(e.targetType.name);
      var requests := e.targetConstructor.parameters;
      var assistedRequests, providedRequests := Partition(requests, true), Partition(requests, false);
      var assistedKeys := NamedKeys(assistedRequests);
      ghost var before := diagnostics;
      if |assistedKeys| > 0 && ToSet(assistedKeys) != ToSet(SAVED_STATE_FACTORY_KEY) {
        ReportError(AssistedMismatch(assistedKeys, SAVED_STATE_FACTORY_KEY), at);
        valid := false;
      } else if |assistedKeys| > 0 && !hasSavedStateHandle {
        ReportError(SavedStateHandleMissing, NoElement);
        valid := false;
      }
      ghost var ad := AssistedDiagnostics(assistedKeys, at, hasSavedStateHandle);
      assert diagnostics == before + ad;
      assert valid <==> !HasError(ad) by {
        if ad != [] { assert ad[1..] == []; }
      }
      if providedRequests == [] {
        ReportWarning(NoProvidedParameters, at);
      } else {
        var providedDuplicates := DuplicateRequests(providedRequests);
        if providedDuplicates != [] {
          ReportError(DuplicateProvided(providedDuplicates), at);
          valid := false;
        }
      }
      ghost var pd := ProvidedDiagnostics(providedRequests, at);
      assert diagnostics == before + ad + pd;
      HasErrorAppend(ad, pd);
      assert valid <==> !HasError(ad + pd) by {
        if pd != [] { assert pd[1..] == []; }
      }
      if !valid {
        return None;
      }
      var targetType := e.targetType.name;
      if |assistedKeys| == 0 {
        r := Some(AssistedInjection(targetType, requests, FactoryType(BASIC_FACTORY, targetType), FACTORY_METHOD,
                                    targetType, [], generatedAnnotation));
      } else {
        r := Some(AssistedInjection(targetType, requests, FactoryType(SAVED_STATE_FACTORY, targetType), FACTORY_METHOD,
                                    targetType, SAVED_STATE_FACTORY_KEY, generatedAnnotation));
      }
    }

    /** Finds the round's single `@ViewModelModule`, reporting every one of them when there are several. */
    method FindViewModelModuleTypeElement(modules: seq<ModuleDecl>) returns (r: Option<ModuleDecl>)
      modifies this`diagnostics
      ensures diagnostics == old(diagnostics) + FindModuleDiagnostics(modules)
      ensures r == if |modules| == 1 then Some(modules[0]) else None
    {
      if |modules| > 1 {
        var i := 0;
        while i < |modules|
          invariant 0 <= i <= |modules|
          invariant diagnostics == old(diagnostics) + FindModuleDiagnostics(modules)[..i]
        {
          ReportError(MultipleModules, TypeElement(modules[i].name));
          assert FindModuleDiagnostics(modules)[..i + 1] == FindModuleDiagnostics(modules)[..i] + [Error(MultipleModules, TypeElement(modules[i].name))];
          i := i + 1;
        }
        assert FindModuleDiagnostics(modules)[..i] == FindModuleDiagnostics(modules);
        return None;
      }
      r := if |modules| == 1 then Some(modules[0]) else None;
    }

    method ToViewModelModuleElementsOrNull(m: ModuleDecl, targets: seq<InjectElements>) returns (r: Option<ModuleElements>)
      modifies this`diagnostics
      ensures !m.daggerModule ==> r == None && diagnostics == old(diagnostics) + [Error(NotDaggerModule, TypeElement(m.name))]
      ensures m.daggerModule ==> diagnostics == old(diagnostics) && r == Some(ModuleElements(m, TargetTypes(targets)))
    {
      if !m.daggerModule {
        ReportError(NotDaggerModule, TypeElement(m.name));
        return None;
      }
      var viewModelTargetTypes := TargetTypes(targets);
      return Some(ModuleElements(m, viewModelTargetTypes));
    }

    /** Validates every candidate in turn (`mapNotNull { it.toViewModelInjectElementsOrNull() }`). */
    method ValidateCandidates(candidates: seq<TypeDecl>) returns (targets: seq<InjectElements>)
      requires AllCandidates(candidates)
      modifies this`diagnostics
      ensures targets == ValidatedTargets(superclasses, candidates)
      ensures diagnostics == old(diagnostics) + ValidationDiagnostics(superclasses, candidates)
    {
      targets := [];
      var i := 0;
      while i < |candidates|
        invariant 0 <= i <= |candidates|
        invariant targets == ValidatedTargets(superclasses, candidates[..i])
        invariant diagnostics == old(diagnostics) + ValidationDiagnostics(superclasses, candidates[..i])
      {
        AppendAssoc(old(diagnostics), ValidationDiagnostics(superclasses, candidates[..i]),
                    TargetDiagnostics(superclasses, candidates[i]));
        var r := ToViewModelInjectElementsOrNull(candidates[i]);
        assert candidates[..i + 1][..i] == candidates[..i];
        assert ValidationDiagnostics(superclasses, candidates[..i + 1])
          == ValidationDiagnostics(superclasses, candidates[..i]) + TargetDiagnostics(superclasses, candidates[i]);
        assert ValidatedTargets(superclasses, candidates[..i + 1])
          == ValidatedTargets(superclasses, candidates[..i]) + OptionToSeq(ValidatedTarget(superclasses, candidates[i]));
        targets := targets + OptionToSeq(r);
        i := i + 1;
      }
      assert candidates[..i] == candidates;
    }

    /**
     * Checks the parameters of every validated target and writes one factory per distinct target
     * that passed (`associateWithNotNull`: a target already present keeps its entry).
     */
    method WriteFactories(targets: seq<InjectElements>)
      modifies this`diagnostics, this`writtenFactories
      ensures diagnostics == old(diagnostics) + AllSynthesisDiagnostics(targets, hasSavedStateHandle)
      ensures writtenFactories == old(writtenFactories) + Injections(targets, hasSavedStateHandle, generatedAnnotation)
    {
      var injections: seq<AssistedInjection> := [];
      var j := 0;
      while j < |targets|
        invariant 0 <= j <= |targets|
        invariant injections == Injections(targets[..j], hasSavedStateHandle, generatedAnnotation)
        invariant diagnostics == old(diagnostics) + AllSynthesisDiagnostics(targets[..j], hasSavedStateHandle)
        invariant writtenFactories == old(writtenFactories)
      {
        AppendAssoc(old(diagnostics), AllSynthesisDiagnostics(targets[..j], hasSavedStateHandle),
                    SynthesisDiagnostics(targets[j], hasSavedStateHandle));
        var r := ToAssistedInjectionOrNull(targets[j]);
        assert targets[..j + 1][..j] == targets[..j];
        assert AllSynthesisDiagnostics(targets[..j + 1], hasSavedStateHandle)
          == AllSynthesisDiagnostics(targets[..j], hasSavedStateHandle) + SynthesisDiagnostics(targets[j], hasSavedStateHandle);
        InjectionsStep(targets, j, hasSavedStateHandle, generatedAnnotation);
        if targets[j] !in targets[..j] {
          injections := injections + OptionToSeq(r);
        }
        j := j + 1;
      }
      assert targets[..j] == targets;
      writtenFactories := writtenFactories + injections;
    }

    /** Finds and checks the round's module, then claims it or reports the conflict with the one already claimed. */
    method HandleModules(modules: seq<ModuleDecl>, targets: seq<InjectElements>)
      modifies this`diagnostics, this`userModule, this`writtenModules
      ensures var o := ModuleRound(old(userModule), modules, targets, generatedAnnotation);
        && userModule == o.userModule
        && diagnostics == old(diagnostics) + o.diagnostics
        && writtenModules == old(writtenModules) + o.written
    {
      var moduleType := FindViewModelModuleTypeElement(modules);
      if moduleType.Some? {
        var moduleElements := ToViewModelModuleElementsOrNull(moduleType.value, targets);
        if moduleElements.Some? {
          var m := moduleElements.value;
          if userModule.Some? {
            ReportError(MultipleModules, TypeElement(userModule.value));
            ReportError(MultipleModules, TypeElement(m.moduleType.name));
            userModule := None;
          } else {
            userModule := Some(m.moduleType.name);
            writtenModules := writtenModules + [ToViewModelInjectionModule(m, generatedAnnotation)];
          }
        }
      }
    }

    /** At the end of processing, requires the claimed module to include the generated one. */
    method CheckModuleIncludes(processingOver: bool, moduleIncludes: map<ClassName, seq<ClassName>>)
      modifies this`diagnostics
      ensures diagnostics == old(diagnostics) + FinalDiagnostics(userModule, processingOver, moduleIncludes)
    {
      if processingOver && userModule.Some? {
        var u := userModule.value;
        var includes := if u in moduleIncludes then moduleIncludes[u] else [];
        var generatedModuleName := ViewModelInjectModuleName(u);
        if generatedModuleName !in includes {
          ReportError(MissingInclude(generatedModuleName.simpleName), TypeElement(u));
        }
      }
    }

    /** One processing round. */
    method Process(round: Round)
      requires AllCandidates(round.injectCandidates)
      modifies this
      ensures var o := ProcessRound(superclasses, hasSavedStateHandle, generatedAnnotation, old(userModule), round);
        && userModule == o.userModule
        && diagnostics == old(diagnostics) + o.diagnostics
        && writtenFactories == old(writtenFactories) + o.factories
        && writtenModules == old(writtenModules) + o.modules
    {
      var targets := ValidateCandidates(round.injectCandidates);
      WriteFactories(targets);
      HandleModules(round.viewModelModules, targets);
      CheckModuleIncludes(round.processingOver, round.moduleIncludes);
      ghost var vd := ValidationDiagnostics(superclasses, round.injectCandidates);
      ghost var sd := AllSynthesisDiagnostics(targets, hasSavedStateHandle);
      ghost var md := ModuleRound(old(userModule), round.viewModelModules, targets, generatedAnnotation).diagnostics;
      ghost var fd := FinalDiagnostics(userModule, round.processingOver, round.moduleIncludes);
      AppendAssoc(old(diagnostics), vd, sd);
      AppendAssoc(old(diagnostics), vd + sd, md);
      AppendAssoc(old(diagnostics), vd + sd + md, fd);
    }
  }
}
